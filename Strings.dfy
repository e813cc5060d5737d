/**
  The .NET string operations the ingestion pipeline relies on, over `string` (a `seq<char>`):
  `String.Split` (keeping empty entries), `String.Join`, `StringSplitOptions.RemoveEmptyEntries`,
  `TrimStart(char)`, `StartsWith` and the ordinal ignore-case comparisons, restricted to ASCII
  letters.
*/
module Strings {

  /** `Char.IsWhiteSpace`: the separators `String.Split()` without arguments splits on. */
  predicate IsWhiteSpace(c: char) {
    || ('\U{9}' <= c <= '\U{D}') || c == ' ' || c == '\U{85}' || c == '\U{A0}' || c == '\U{1680}'
    || ('\U{2000}' <= c <= '\U{200A}') || c == '\U{2028}' || c == '\U{2029}'
    || c == '\U{202F}' || c == '\U{205F}' || c == '\U{3000}'
  }

  /** The separator of the stored tag lists. */
  predicate IsComma(c: char) {
    c == ','
  }

  /** `t` contains no separator character. */
  ghost predicate SepFree(t: string, isSep: char -> bool) {
    forall i :: 0 <= i < |t| ==> !isSep(t[i])
  }

  /**
    `s.Split(separators)` without options: the maximal separator-free pieces of `s`, in order,
    empty pieces included (so a string with k separators yields k + 1 pieces).
  */
  function Split(s: string, isSep: char -> bool): (r: seq<string>)
    ensures |r| >= 1
    ensures forall k :: 0 <= k < |r| ==> SepFree(r[k], isSep)
  {
    if s == [] then [""]
    else
      var rest := Split(s[1..], isSep);
      if isSep(s[0]) then [""] + rest
      else [[s[0]] + rest[0]] + rest[1..]
  }

  /** `String.Join(sep, xs)`. */
  function Join(xs: seq<string>, sep: string): string {
    if xs == [] then ""
    else if |xs| == 1 then xs[0]
    else xs[0] + sep + Join(xs[1..], sep)
  }

  /** `StringSplitOptions.RemoveEmptyEntries`: the non-empty pieces, in order. */
  function RemoveEmpty(xs: seq<string>): (r: seq<string>)
    ensures forall k :: 0 <= k < |r| ==> r[k] != ""
    ensures forall x :: x in r <==> x in xs && x != ""
  {
    if xs == [] then []
    else if xs[0] == "" then RemoveEmpty(xs[1..])
    else [xs[0]] + RemoveEmpty(xs[1..])
  }

  /** The pieces of every element, concatenated. */
  function SplitEach(xs: seq<string>, isSep: char -> bool): seq<string> {
    if xs == [] then [] else Split(xs[0], isSep) + SplitEach(xs[1..], isSep)
  }

  /** `s.StartsWith(m)` for a one-character marker. */
  predicate StartsWith(s: string, m: char) {
    |s| > 0 && s[0] == m
  }

  /**
    `s.TrimStart(m)`: `s` without its longest prefix made only of `m`. What remains is a suffix of
    `s` that does not itself start with `m`.
  */
  function TrimStart(s: string, m: char): (r: string)
    ensures |r| <= |s| && r == s[|s| - |r|..]
    ensures forall i :: 0 <= i < |s| - |r| ==> s[i] == m
    ensures !StartsWith(r, m)
  {
    if StartsWith(s, m) then TrimStart(s[1..], m) else s
  }

  /** `char.ToUpperInvariant` on ASCII letters; every other character is its own upper case here. */
  function ToUpperAscii(c: char): char {
    if 'a' <= c <= 'z' then (c as int - 32) as char else c
  }

  /** `StringComparer.OrdinalIgnoreCase.Equals(a, b)`. */
  predicate EqualsIgnoreCase(a: string, b: string) {
    |a| == |b| && forall i :: 0 <= i < |a| ==> ToUpperAscii(a[i]) == ToUpperAscii(b[i])
  }

  /** `s.Contains(w, StringComparison.OrdinalIgnoreCase)`, scanning start positions left to right. */
  predicate ContainsIgnoreCase(s: string, w: string)
    decreases |s|
  {
    |w| <= |s| && (EqualsIgnoreCase(s[..|w|], w) || ContainsIgnoreCase(s[1..], w))
  }

  /** The window of `s` starting at `i` equals `w` ignoring case. */
  predicate MatchesAt(s: string, w: string, i: int) {
    0 <= i && i + |w| <= |s| && EqualsIgnoreCase(s[i..i + |w|], w)
  }

  /** Some window of `s` equals `w` ignoring case. */
  ghost predicate OccursIgnoreCase(s: string, w: string) {
    exists i :: MatchesAt(s, w, i)
  }

  // ---------------------------------------------------------------------------------------------
  // Split

  /** A string without separators is a single piece. */
  lemma {:induction false} SplitSepFree(t: string, isSep: char -> bool)
    requires SepFree(t, isSep)
    ensures Split(t, isSep) == [t]
  {
    if t != [] {
      assert SepFree(t[1..], isSep) by {
        forall i | 0 <= i < |t[1..]| ensures !isSep(t[1..][i]) {
          assert t[1..][i] == t[i + 1];
        }
      }
      SplitSepFree(t[1..], isSep);
      assert [t[0]] + t[1..] == t;
    }
  }

  /** Splitting distributes over a separator: the pieces of `a + [c] + b` are those of `a` then `b`. */
  lemma {:induction false} SplitAtSeparator(a: string, c: char, b: string, isSep: char -> bool)
    requires isSep(c)
    ensures Split(a + [c] + b, isSep) == Split(a, isSep) + Split(b, isSep)
  {
    if a == [] {
      assert a + [c] + b == [c] + b;
      assert ([c] + b)[1..] == b;
    } else {
      assert (a + [c] + b)[1..] == a[1..] + [c] + b;
      SplitAtSeparator(a[1..], c, b, isSep);
    }
  }

  /** Splitting a joined list recovers the pieces of each element, in order. */
  lemma {:induction false} SplitOfJoin(xs: seq<string>, c: char, isSep: char -> bool)
    requires |xs| >= 1 && isSep(c)
    ensures Split(Join(xs, [c]), isSep) == SplitEach(xs, isSep)
  {
    if |xs| == 1 {
      assert SplitEach(xs[1..], isSep) == [];
    } else {
      SplitAtSeparator(xs[0], c, Join(xs[1..], [c]), isSep);
      SplitOfJoin(xs[1..], c, isSep);
    }
  }

  /** When no element holds a separator, the pieces of every element are the elements themselves. */
  lemma {:induction false} SplitEachSepFree(xs: seq<string>, isSep: char -> bool)
    requires forall k :: 0 <= k < |xs| ==> SepFree(xs[k], isSep)
    ensures SplitEach(xs, isSep) == xs
  {
    if xs != [] {
      SplitSepFree(xs[0], isSep);
      SplitEachSepFree(xs[1..], isSep);
    }
  }

  /** Round trip one way: split after join gives back any non-empty list of separator-free strings. */
  lemma SplitJoin(xs: seq<string>, c: char, isSep: char -> bool)
    requires |xs| >= 1 && isSep(c)
    requires forall k :: 0 <= k < |xs| ==> SepFree(xs[k], isSep)
    ensures Split(Join(xs, [c]), isSep) == xs
  {
    SplitOfJoin(xs, c, isSep);
    SplitEachSepFree(xs, isSep);
  }

  lemma JoinPrependToFirst(y: string, xs: seq<string>, sep: string)
    requires |xs| >= 1
    ensures Join([y + xs[0]] + xs[1..], sep) == y + Join(xs, sep)
  {
    var ys := [y + xs[0]] + xs[1..];
    assert ys[1..] == xs[1..];
  }

  /** Round trip the other way: when `c` is the only separator, joining the pieces with `c` restores `s`. */
  lemma {:induction false} JoinSplit(s: string, c: char, isSep: char -> bool)
    requires forall x :: isSep(x) <==> x == c
    ensures Join(Split(s, isSep), [c]) == s
  {
    if s != [] {
      var rest := Split(s[1..], isSep);
      JoinSplit(s[1..], c, isSep);
      if isSep(s[0]) {
        assert ([""] + rest)[1..] == rest;
        assert Join([""] + rest, [c]) == "" + [c] + Join(rest, [c]);
      } else {
        JoinPrependToFirst([s[0]], rest, [c]);
      }
      assert s == [s[0]] + s[1..];
    }
  }

  /** Joining two non-empty lists puts one separator between their joins. */
  lemma {:induction false} JoinAppend(xs: seq<string>, ys: seq<string>, sep: string)
    requires |xs| >= 1 && |ys| >= 1
    ensures Join(xs + ys, sep) == Join(xs, sep) + sep + Join(ys, sep)
    decreases |xs|
  {
    if |xs| == 1 {
      assert (xs + ys)[1..] == ys;
    } else {
      assert (xs + ys)[1..] == xs[1..] + ys;
      JoinAppend(xs[1..], ys, sep);
    }
  }

  /** Removing empty entries distributes over concatenation. */
  lemma {:induction false} RemoveEmptyAppend(xs: seq<string>, ys: seq<string>)
    ensures RemoveEmpty(xs + ys) == RemoveEmpty(xs) + RemoveEmpty(ys)
  {
    if xs == [] {
      assert xs + ys == ys;
    } else {
      assert (xs + ys)[0] == xs[0];
      assert (xs + ys)[1..] == xs[1..] + ys;
      RemoveEmptyAppend(xs[1..], ys);
    }
  }

  /** A list without empty entries is left alone. */
  lemma {:induction false} RemoveEmptyNoEmpty(xs: seq<string>)
    requires forall k :: 0 <= k < |xs| ==> xs[k] != ""
    ensures RemoveEmpty(xs) == xs
  {
    if xs != [] {
      RemoveEmptyNoEmpty(xs[1..]);
    }
  }

  // ---------------------------------------------------------------------------------------------
  // Ignore-case comparison

  /** Ordinal ignore-case equality is an equivalence. */
  lemma EqualsIgnoreCaseEquivalence(a: string, b: string, c: string)
    ensures EqualsIgnoreCase(a, a)
    ensures EqualsIgnoreCase(a, b) ==> EqualsIgnoreCase(b, a)
    ensures EqualsIgnoreCase(a, b) && EqualsIgnoreCase(b, c) ==> EqualsIgnoreCase(a, c)
  {
  }

  lemma MatchesAtShift(s: string, w: string, i: int)
    requires |s| > 0 && 0 <= i
    ensures MatchesAt(s[1..], w, i) <==> MatchesAt(s, w, i + 1)
  {
    if i + |w| <= |s| - 1 {
      assert s[1..][i..i + |w|] == s[i + 1..i + 1 + |w|];
    }
  }

  lemma MatchesAtStart(s: string, w: string)
    ensures MatchesAt(s, w, 0) <==> |w| <= |s| && EqualsIgnoreCase(s[..|w|], w)
  {
    if |w| <= |s| {
      assert s[0..0 + |w|] == s[..|w|];
    }
  }

  /** The left-to-right scan finds `w` exactly when some window of `s` matches it. */
  lemma {:induction false} ContainsIgnoreCaseIff(s: string, w: string)
    ensures ContainsIgnoreCase(s, w) <==> OccursIgnoreCase(s, w)
    decreases |s|
  {
    MatchesAtStart(s, w);
    if |w| > |s| {
      assert forall i :: !MatchesAt(s, w, i);
    } else if !EqualsIgnoreCase(s[..|w|], w) {
      assert |s| > 0;
      ContainsIgnoreCaseIff(s[1..], w);
      if OccursIgnoreCase(s[1..], w) {
        var i :| MatchesAt(s[1..], w, i);
        MatchesAtShift(s, w, i);
      }
      if OccursIgnoreCase(s, w) {
        var i :| MatchesAt(s, w, i);
        MatchesAtShift(s, w, i - 1);
      }
    }
  }
}
