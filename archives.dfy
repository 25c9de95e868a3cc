/**
 The values the context layer receives from the Alembic SDK. The SDK
 itself (the Ogawa and HDF5 readers, `aiCreateTimeSampling`) is not part
 of this model: an archive is the list of its time samplings, each with
 the identity the SDK hands out and the time range its `aiTimeSampling`
 reports, and opening a file is an outcome supplied from outside.
 */
module Archives {
  /** The `(begin, end)` pair reported by `aiTimeSampling::getTimeRange`. */
  datatype TimeRange = TimeRange(begin: real, end: real)

  /** A `TimeSamplingPtr`: compared by identity only. */
  datatype SamplingPtr = SamplingPtr(id: nat)

  /** One time sampling of an archive: its identity and its time range. */
  datatype ArchiveSampling = ArchiveSampling(ptr: SamplingPtr, range: TimeRange)

  /** A valid `Abc::IArchive`, seen through its time samplings. */
  datatype Archive = Archive(samplings: seq<ArchiveSampling>)

  /** The outcome of trying Ogawa and then HDF5 on a path. */
  datatype OpenOutcome =
    | OgawaOpened(archive: Archive)
    | Hdf5Opened(archive: Archive)
    | OpenFailed

  /** The importer settings (`aiConfig`), stored and handed back unchanged. */
  type Config(0)

  /** The settings of a default-constructed `aiConfig`, the same for every new context. */
  const DefaultConfig: Config

  /** The `aiTimeSampling` objects built from an archive, one per sampling, in order. */
  function RangesOf(a: Archive): seq<TimeRange> {
    seq(|a.samplings|, i requires 0 <= i < |a.samplings| => a.samplings[i].range)
  }
}
