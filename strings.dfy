/** The few Python string operations the file-name bookkeeping relies on:
    `str.split`, `str.join`, slicing from an index and shell-style globbing
    of a file stem, each stated on `seq<char>`. */
module Strings {
  import opened Wrappers

  /** Python's `s.split(c)` for a one-character separator: the maximal
      pieces of `s` free of `c`, in order; joining them with `c` gives `s`
      back, and there is always at least one piece. */
  function Split(s: string, c: char): (parts: seq<string>)
    ensures |parts| >= 1
    ensures forall i :: 0 <= i < |parts| ==> c !in parts[i]
    ensures Join(parts, c) == s
    decreases |s|
  {
    if |s| == 0 then [""]
    else
      var rest := Split(s[1..], c);
      if s[0] == c then
        assert s == [c] + s[1..];
        [""] + rest
      else
        var parts := [[s[0]] + rest[0]] + rest[1..];
        assert parts[1..] == rest[1..];
        assert s == [s[0]] + s[1..];
        parts
  }

  /** Python's `c.join(parts)`. */
  function Join(parts: seq<string>, c: char): string
  {
    if |parts| == 0 then ""
    else if |parts| == 1 then parts[0]
    else parts[0] + [c] + Join(parts[1..], c)
  }

  /** A piece free of the separator, followed by the separator, is split off
      as the first piece. */
  lemma {:induction false} SplitAtFirstSeparator(a: string, c: char, b: string)
    requires c !in a
    ensures Split(a + [c] + b, c) == [a] + Split(b, c)
    decreases |a|
  {
    if |a| == 0 {
      assert a + [c] + b == [c] + b;
      assert ([c] + b)[1..] == b;
    } else {
      SplitAtFirstSeparator(a[1..], c, b);
      assert (a + [c] + b)[1..] == a[1..] + [c] + b;
      assert [a[0]] + a[1..] == a;
    }
  }

  /** A string free of the separator is a single piece. */
  lemma {:induction false} SplitWithoutSeparator(a: string, c: char)
    requires c !in a
    ensures Split(a, c) == [a]
    decreases |a|
  {
    if |a| > 0 {
      SplitWithoutSeparator(a[1..], c);
      assert [a[0]] + a[1..] == a;
    }
  }

  /** Whether `sep` occurs in `s` starting at index `i`. */
  predicate OccursAt(s: string, sep: string, i: nat)
  {
    i + |sep| <= |s| && s[i..i + |sep|] == sep
  }

  /** Python's `s.split(sep)[0]`: the part of `s` before the first
      occurrence of `sep`, or all of `s` when `sep` does not occur. */
  function PrefixBefore(s: string, sep: string): (r: string)
    requires |sep| > 0
    ensures |r| <= |s| && r == s[..|r|]
    ensures |r| < |s| ==> OccursAt(s, sep, |r|)
    ensures forall i: nat :: i < |r| ==> !OccursAt(s, sep, i)
    decreases |s|
  {
    if |s| < |sep| then s
    else if s[..|sep|] == sep then ""
    else
      var rest := PrefixBefore(s[1..], sep);
      assert forall i: nat :: 1 <= i ==> (OccursAt(s, sep, i) <==> OccursAt(s[1..], sep, i - 1));
      [s[0]] + rest
  }

  /** The first occurrence is the one `PrefixBefore` finds: a string that
      is `a`, then `sep`, then anything, with no occurrence of `sep`
      starting inside `a`, has `a` as its part before `sep`. */
  lemma PrefixBeforeUnique(s: string, sep: string, a: string)
    requires |sep| > 0
    requires |a| <= |s| && s[..|a|] == a
    requires |a| < |s| ==> OccursAt(s, sep, |a|)
    requires forall i: nat :: i < |a| ==> !OccursAt(s, sep, i)
    ensures PrefixBefore(s, sep) == a
  {
  }

  /** For a one-character separator, an occurrence is that character. */
  lemma OccursAtChar(s: string, c: char, i: nat)
    requires i < |s|
    ensures OccursAt(s, [c], i) <==> s[i] == c
  {
    if s[i] == c {
      assert s[i..i + 1] == [c];
    } else {
      assert s[i..i + 1][0] != c;
    }
  }

  /** `s.split(c)` has one piece exactly when `c` does not occur in `s`. */
  lemma SplitSinglePiece(s: string, c: char)
    ensures |Split(s, c)| == 1 <==> c !in s
  {
    var parts := Split(s, c);
    if |parts| == 1 {
      assert s == parts[0];
    } else {
      assert s == parts[0] + [c] + Join(parts[1..], c);
      assert s[|parts[0]|] == c;
    }
  }

  /** The index of the last `c` in `s`, as `str.rfind` finds it. */
  function LastIndexOf(s: string, c: char): (r: Option<nat>)
    ensures r.Some? ==> r.value < |s| && s[r.value] == c && c !in s[r.value + 1..]
    ensures r.None? ==> c !in s
    decreases |s|
  {
    if |s| == 0 then None
    else if s[|s| - 1] == c then Some(|s| - 1)
    else
      var r := LastIndexOf(s[..|s| - 1], c);
      if r.Some? then
        assert s[r.value + 1..] == s[..|s| - 1][r.value + 1..] + [s[|s| - 1]];
        r
      else
        assert s == s[..|s| - 1] + [s[|s| - 1]];
        r
  }

  /** Python's slice `s[n:]`, which is empty when `n` is past the end. */
  function DropFirst(s: string, n: nat): (r: string)
    ensures n <= |s| ==> s == s[..n] + r
    ensures n >= |s| ==> r == ""
  {
    if n <= |s| then s[n..] else ""
  }

  /** Whether a file stem matches the glob `prefix*suffix` (the `*` matches
      any run of characters, possibly empty, that does not overlap the
      literal parts). */
  predicate MatchesGlob(stem: string, prefix: string, suffix: string)
  {
    && |prefix| + |suffix| <= |stem|
    && stem[..|prefix|] == prefix
    && stem[|stem| - |suffix|..] == suffix
  }

  /** The stems of a directory listing that match `prefix*suffix`, in
      listing order. */
  function Glob(listing: seq<string>, prefix: string, suffix: string): (r: seq<string>)
    ensures forall p :: p in r <==> p in listing && MatchesGlob(p, prefix, suffix)
    ensures |r| <= |listing|
  {
    if |listing| == 0 then []
    else
      var rest := Glob(listing[1..], prefix, suffix);
      if MatchesGlob(listing[0], prefix, suffix) then [listing[0]] + rest else rest
  }
}
