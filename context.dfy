/**
 One importer context (`aiContext` in Source/abci/Importer/aiContext.cpp):
 the archive loaded for one game object, the time samplings built from
 it, the normalised path it was loaded from, and the importer settings.

 `ContextState` is the abstract value of a context apart from its uid;
 `Cleared` and `LoadStep` say what `reset` and `load` do to it, and the
 lemmas below state what `load` promises. The class `Context` holds the
 same state in fields and its methods are proved against those functions.
 */
module Contexts {
  import opened Wrappers
  import opened Paths
  import opened Archives

  datatype ContextState = ContextState(
    path: string,                   // m_path, always normalised
    archive: Option<Archive>,       // m_archive; None when not valid
    timeSamplings: seq<TimeRange>,  // m_timesamplings
    streams: nat,                   // m_streams: file streams kept open for the Ogawa reader
    hasTopNode: bool,               // m_top_node is set
    config: Config)                 // m_config

  /**
   Every reachable context: either nothing is loaded and everything is
   empty, or one archive is loaded under a non-empty normalised path, with
   one time sampling per archive sampling, in order.
   */
  predicate Inv(s: ContextState) {
    match s.archive
    case None =>
      s.path == [] && s.timeSamplings == [] && s.streams == 0 && !s.hasTopNode
    case Some(a) =>
      s.path != [] && IsNormalized(s.path) && s.timeSamplings == RangesOf(a)
      && s.streams <= 1 && s.hasTopNode
  }

  /** The state `reset` leaves behind: everything dropped except the config. */
  function Cleared(s: ContextState): ContextState {
    s.(path := [], archive := None, timeSamplings := [], streams := 0, hasTopNode := false)
  }

  /** The state after archive `a` was opened for `path` with `streams` streams left open. */
  function Opened(s: ContextState, path: string, a: Archive, streams: nat): ContextState {
    s.(path := path, archive := Some(a), timeSamplings := RangesOf(a), streams := streams, hasTopNode := true)
  }

  /**
   What `load` does to a context: the new state and the returned flag.
   `outcome` is what opening the normalised path with the Ogawa reader,
   then with the HDF5 reader, gives.
   */
  function LoadStep(s: ContextState, inPath: Option<string>, outcome: OpenOutcome): (ContextState, bool) {
    var path := NormalizedPath(inPath);
    if path == s.path && s.archive.Some? then (s, true)
    else if path == [] then (Cleared(s), false)
    else
      match outcome
      case OgawaOpened(a) => (Opened(Cleared(s), path, a, 1), true)
      case Hdf5Opened(a) => (Opened(Cleared(s), path, a, 0), true)
      case OpenFailed => (Cleared(s), false)
  }

  /** `reset` leaves a context in the unloaded state and keeps its config. */
  lemma ClearedIsUnloaded(s: ContextState)
    ensures Inv(Cleared(s))
    ensures Cleared(s).archive.None? && Cleared(s).path == [] && Cleared(s).timeSamplings == []
    ensures Cleared(s).config == s.config
  {
  }

  /** Loading the path that is already loaded succeeds and changes nothing. */
  lemma LoadSameArchive(s: ContextState, inPath: Option<string>, outcome: OpenOutcome)
    requires NormalizedPath(inPath) == s.path && s.archive.Some?
    ensures LoadStep(s, inPath, outcome) == (s, true)
  {
  }

  /** A null or empty path resets the context and fails. */
  lemma LoadEmptyPath(s: ContextState, inPath: Option<string>, outcome: OpenOutcome)
    requires Inv(s)
    requires NormalizedPath(inPath) == []
    ensures LoadStep(s, inPath, outcome) == (Cleared(s), false)
    ensures LoadStep(s, inPath, outcome).0.path == []
  {
  }

  /** When neither reader opens the file, the context is reset and `load` fails. */
  lemma LoadOpenFailed(s: ContextState, inPath: Option<string>)
    requires !(NormalizedPath(inPath) == s.path && s.archive.Some?)
    ensures LoadStep(s, inPath, OpenFailed) == (Cleared(s), false)
  {
  }

  /**
   When a reader opens the file, `load` succeeds: the path is the
   normalised path, the archive is the opened one, there is one time
   sampling per archive sampling, and only the Ogawa reader keeps a stream.
   */
  lemma LoadOpened(s: ContextState, inPath: Option<string>, outcome: OpenOutcome)
    requires !(NormalizedPath(inPath) == s.path && s.archive.Some?)
    requires NormalizedPath(inPath) != [] && !outcome.OpenFailed?
    ensures var (t, ok) := LoadStep(s, inPath, outcome);
      && ok
      && t.path == NormalizedPath(inPath)
      && t.archive == Some(outcome.archive)
      && |t.timeSamplings| == |outcome.archive.samplings|
      && (forall i :: 0 <= i < |t.timeSamplings| ==> t.timeSamplings[i] == outcome.archive.samplings[i].range)
      && t.streams == (if outcome.OgawaOpened? then 1 else 0)
      && t.config == s.config
  {
  }

  /**
   Whatever happens, `load` succeeds exactly when an archive is loaded
   afterwards, under the normalised path; a failed `load` is a `reset`;
   the config is never touched.
   */
  lemma LoadResult(s: ContextState, inPath: Option<string>, outcome: OpenOutcome)
    ensures var (t, ok) := LoadStep(s, inPath, outcome);
      && (ok <==> t.archive.Some?)
      && (ok ==> t.path == NormalizedPath(inPath))
      && (!ok ==> t == Cleared(s))
      && t.config == s.config
  {
  }

  /** `load` keeps the context invariant. */
  lemma LoadKeepsInv(s: ContextState, inPath: Option<string>, outcome: OpenOutcome)
    requires Inv(s)
    ensures Inv(LoadStep(s, inPath, outcome).0)
  {
  }

  /**
   After a successful `load`, loading the same path again, or the path
   the context now reports, is answered from the loaded archive whatever
   the file system would say.
   */
  lemma ReloadIsNoOp(s: ContextState, inPath: Option<string>, outcome: OpenOutcome, later: OpenOutcome)
    requires LoadStep(s, inPath, outcome).1
    ensures var t := LoadStep(s, inPath, outcome).0;
      && LoadStep(t, inPath, later) == (t, true)
      && LoadStep(t, Some(t.path), later) == (t, true)
  {
  }

  /** `b` is the earliest begin among `rs[from..to]`, and is one of them. */
  predicate IsEarliestBegin(rs: seq<TimeRange>, from: int, to: int, b: real)
    requires 0 <= from <= to <= |rs|
  {
    && (exists k :: from <= k < to && rs[k].begin == b)
    && (forall k :: from <= k < to ==> b <= rs[k].begin)
  }

  /** `e` is the latest end among `rs[from..to]`, and is one of them. */
  predicate IsLatestEnd(rs: seq<TimeRange>, from: int, to: int, e: real)
    requires 0 <= from <= to <= |rs|
  {
    && (exists k :: from <= k < to && rs[k].end == e)
    && (forall k :: from <= k < to ==> rs[k].end <= e)
  }

  /** The time samplings of an archive, none when it is not valid. */
  function SamplingsOf(archive: Option<Archive>): seq<ArchiveSampling> {
    match archive
    case None => []
    case Some(a) => a.samplings
  }

  class Context {
    const uid: int
    var path: string
    var archive: Option<Archive>
    var timeSamplings: seq<TimeRange>
    var streams: nat
    var hasTopNode: bool
    var config: Config

    function State(): ContextState
      reads this
    {
      ContextState(path, archive, timeSamplings, streams, hasTopNode, config)
    }

    ghost predicate Valid()
      reads this
    {
      Inv(State())
    }

    /** A new context for game object `uid`, with nothing loaded. */
    constructor (uid: int)
      ensures this.uid == uid && Valid()
      ensures path == [] && archive.None? && timeSamplings == [] && streams == 0 && !hasTopNode
      ensures config == DefaultConfig
    {
      this.uid := uid;
      path := [];
      archive := None;
      timeSamplings := [];
      streams := 0;
      hasTopNode := false;
      config := DefaultConfig;
    }

    method GetUid() returns (u: int)
      ensures u == uid
    {
      u := uid;
    }

    /** The normalised path of the loaded archive, empty when none is loaded. */
    method GetPath() returns (p: string)
      requires Valid()
      ensures p == path
      ensures IsNormalized(p)
      ensures p == [] <==> archive.None?
    {
      p := path;
    }

    method GetConfig() returns (c: Config)
      ensures c == config
    {
      c := config;
    }

    method SetConfig(c: Config)
      requires Valid()
      modifies this
      ensures Valid()
      ensures State() == old(State()).(config := c)
    {
      config := c;
    }

    method TimeSamplingCount() returns (n: int)
      requires Valid()
      ensures n == |timeSamplings| == |SamplingsOf(archive)|
    {
      n := |timeSamplings|;
    }

    /** The `i`-th time sampling; `getTimeSampling` does not check the index. */
    method GetTimeSampling(i: int) returns (r: TimeRange)
      requires Valid()
      requires 0 <= i < |timeSamplings|
      ensures archive.Some? && r == archive.value.samplings[i].range
    {
      r := timeSamplings[i];
    }

    /**
     The time range of the whole archive: the earliest begin and the
     latest end over every time sampling but the first (index 0, the
     archive's default sampling); (0, 0) when there is no other.
     */
    method GetTimeRange() returns (begin: real, end: real)
      ensures |timeSamplings| < 2 ==> begin == 0.0 && end == 0.0
      ensures |timeSamplings| >= 2 ==>
        IsEarliestBegin(timeSamplings, 1, |timeSamplings|, begin)
        && IsLatestEnd(timeSamplings, 1, |timeSamplings|, end)
    {
      begin, end := 0.0, 0.0;
      var n := |timeSamplings|;
      var i := 1;
      while i < n
        invariant 1 <= i <= if n == 0 then 1 else n
        invariant i == 1 ==> begin == 0.0 && end == 0.0
        invariant i > 1 ==> IsEarliestBegin(timeSamplings, 1, i, begin) && IsLatestEnd(timeSamplings, 1, i, end)
      {
        var r := timeSamplings[i];
        if i == 1 {
          begin, end := r.begin, r.end;
        } else {
          begin := if r.begin < begin then r.begin else begin;
          end := if end < r.end then r.end else end;
        }
        i := i + 1;
      }
    }

    /**
     The index of time sampling `ts` in the archive: the first index whose
     sampling is `ts`, or 0 when there is none.
     */
    method GetTimeSamplingIndex(ts: SamplingPtr) returns (index: int)
      ensures var s := SamplingsOf(archive);
        && 0 <= index
        && (|s| == 0 ==> index == 0)
        && (|s| > 0 ==> index < |s|)
        && ((exists k :: 0 <= k < |s| && s[k].ptr == ts) ==>
              s[index].ptr == ts && forall k :: 0 <= k < index ==> s[k].ptr != ts)
        && ((forall k :: 0 <= k < |s| ==> s[k].ptr != ts) ==> index == 0)
    {
      var s := SamplingsOf(archive);
      var n := |s|;
      for i := 0 to n
        invariant forall k :: 0 <= k < i ==> s[k].ptr != ts
      {
        if s[i].ptr == ts {
          return i;
        }
      }
      return 0;
    }

    /** `reset`: drops the loaded archive and everything built from it; keeps the config. */
    method Reset()
      modifies this
      ensures State() == Cleared(old(State()))
    {
      hasTopNode := false;
      timeSamplings := [];
      archive := None;
      path := [];
      streams := 0;
    }

    /**
     `load`: loads the archive at `inPath` unless it is already loaded.
     `outcome` is what the Ogawa reader, then the HDF5 reader, make of the
     normalised path.
     */
    method Load(inPath: Option<string>, outcome: OpenOutcome) returns (ok: bool)
      requires Valid()
      modifies this
      ensures Valid()
      ensures (State(), ok) == LoadStep(old(State()), inPath, outcome)
    {
      LoadKeepsInv(State(), inPath, outcome);
      var p := NormalizePath(inPath);
      if p == path && archive.Some? {
        return true;
      }
      Reset();
      if p == [] {
        return false;
      }
      path := p;
      if archive.None? {
        streams := 1;
        match outcome
        case OgawaOpened(a) =>
          archive := Some(a);
        case Hdf5Opened(a) =>
          streams := 0;
          archive := Some(a);
        case OpenFailed =>
          streams := 0;
      }
      if archive.Some? {
        hasTopNode := true;
        var a := archive.value;
        var n := |a.samplings|;
        ghost var kept := streams;
        timeSamplings := [];
        for i := 0 to n
          invariant path == p && archive == Some(a) && streams == kept && hasTopNode && config == old(config)
          invariant |timeSamplings| == i
          invariant forall k :: 0 <= k < i ==> timeSamplings[k] == a.samplings[k].range
        {
          timeSamplings := timeSamplings + [a.samplings[i].range];
        }
        assert timeSamplings == RangesOf(a);
        ok := true;
      } else {
        Reset();
        ok := false;
      }
    }
  }
}
