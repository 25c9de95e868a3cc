/**
 Path normalisation used as the key of every loaded Alembic archive
 (Source/abci/Importer/aiContext.cpp, `NormalizePath`).

 Paths are sequences of characters; the UTF-8/UTF-16 conversions
 around the loop are the identity here. The Windows build is modelled:
 every backslash becomes a slash and every ASCII capital its lower-case
 letter, all other characters are kept.
 */
module Paths {
  import opened Wrappers

  predicate IsUpper(c: char) {
    'A' <= c <= 'Z'
  }

  /** The rewrite the loop applies to one character. */
  function NormalizeChar(c: char): char {
    if c == '\\' then '/'
    else if IsUpper(c) then ('a' as int + (c as int - 'A' as int)) as char
    else c
  }

  /** A path is normalised when it holds no backslash and no ASCII capital. */
  predicate IsNormalized(s: string) {
    forall i :: 0 <= i < |s| ==> s[i] != '\\' && !IsUpper(s[i])
  }

  /** The normalised form of a non-null path, one character at a time. */
  function Normalize(s: string): (r: string)
    ensures |r| == |s|
    ensures forall i :: 0 <= i < |s| ==> r[i] == NormalizeChar(s[i])
  {
    if s == [] then [] else [NormalizeChar(s[0])] + Normalize(s[1..])
  }

  /** What `NormalizePath` returns: the empty path for a null pointer. */
  function NormalizedPath(inPath: Option<string>): string {
    match inPath
    case None => []
    case Some(s) => Normalize(s)
  }

  /** Each character is a slash for a backslash, the lower-case letter for a capital, and itself otherwise. */
  lemma NormalizeCharCases(c: char)
    ensures c == '\\' ==> NormalizeChar(c) == '/'
    ensures IsUpper(c) ==> NormalizeChar(c) as int == c as int + 32 && 'a' <= NormalizeChar(c) <= 'z'
    ensures c != '\\' && !IsUpper(c) ==> NormalizeChar(c) == c
  {
  }

  /** No backslash and no capital survives normalisation. */
  lemma NormalizedIsClean(s: string)
    ensures IsNormalized(Normalize(s))
  {
  }

  /** Normalisation leaves a path alone exactly when it is already normalised. */
  lemma NormalizeFixedPoint(s: string)
    ensures Normalize(s) == s <==> IsNormalized(s)
  {
  }

  /** Normalising twice is normalising once. */
  lemma NormalizeIdempotent(s: string)
    ensures Normalize(Normalize(s)) == Normalize(s)
  {
  }

  /** The same for the nullable entry point. */
  lemma NormalizedPathIdempotent(inPath: Option<string>)
    ensures NormalizedPath(Some(NormalizedPath(inPath))) == NormalizedPath(inPath)
    ensures inPath.None? ==> NormalizedPath(inPath) == []
  {
  }

  /**
   `NormalizePath`: copies the path into a buffer and rewrites the buffer
   in place, one character per iteration.
   */
  method NormalizePath(inPath: Option<string>) returns (path: string)
    ensures path == NormalizedPath(inPath)
  {
    if inPath.None? {
      return [];
    }
    var s := inPath.value;
    var buf := new char[|s|](i requires 0 <= i < |s| => s[i]);
    var n := buf.Length;
    for i := 0 to n
      invariant forall k :: 0 <= k < i ==> buf[k] == NormalizeChar(s[k])
      invariant forall k :: i <= k < n ==> buf[k] == s[k]
    {
      var c := buf[i];
      if c == '\\' {
        buf[i] := '/';
      } else if 'A' <= c <= 'Z' {
        buf[i] := ('a' as int + (c as int - 'A' as int)) as char;
      }
    }
    path := buf[..];
  }
}
