/**
 * The one regular expression of fs/cpusetinfo.go, `processor\s+?:\s+?\d`,
 * and regexp's ReplaceAllString with it. A match is the word "processor",
 * one or more `\s` characters, a colon, one or more `\s` characters and one
 * decimal digit. Neither `:` nor a digit is a `\s` character, so at any
 * starting point there is at most one match and each lazy run of spaces
 * ends exactly where the spaces end.
 */
module Pattern {
  import opened Wrappers
  import opened GoStrings

  /** The literal the pattern starts with. */
  const Label: string := "processor"

  /** `\s` in Go's regexp syntax: tab, newline, form feed, carriage return, space. */
  predicate IsRegexpSpace(c: char)
  {
    c == '\t' || c == '\n' || c == '\U{C}' || c == '\r' || c == ' '
  }

  predicate AllRegexpSpace(s: string)
  {
    forall i :: 0 <= i < |s| ==> IsRegexpSpace(s[i])
  }

  /** The end of the run of `\s` characters in t that starts at k. */
  function SpaceRunEnd(t: string, k: nat): (e: nat)
    requires k <= |t|
    ensures k <= e <= |t|
    ensures AllRegexpSpace(t[k..e])
    ensures e == |t| || !IsRegexpSpace(t[e])
    decreases |t| - k
  {
    if k < |t| && IsRegexpSpace(t[k]) then
      var e := SpaceRunEnd(t, k + 1);
      assert t[k..e] == [t[k]] + t[k + 1..e];
      e
    else k
  }

  /** The length of the match that starts at t[0], if there is one. */
  function MatchLength(t: string): Option<nat>
  {
    if |t| < |Label| || t[..|Label|] != Label then None
    else
      var colon := SpaceRunEnd(t, |Label|);
      if colon == |Label| || colon == |t| || t[colon] != ':' then None
      else
        var digit := SpaceRunEnd(t, colon + 1);
        if digit == colon + 1 || digit == |t| || !IsDigit(t[digit]) then None
        else Some(digit + 1)
  }

  /**
   * The pattern read as a declaration: t starts with "processor", k1 `\s`
   * characters, ':', k2 `\s` characters and a digit, with k1, k2 >= 1.
   */
  predicate MatchesWith(t: string, k1: nat, k2: nat)
  {
    && 1 <= k1 && 1 <= k2 && |Label| + k1 + k2 + 2 <= |t|
    && t[..|Label|] == Label
    && AllRegexpSpace(t[|Label|..|Label| + k1])
    && t[|Label| + k1] == ':'
    && AllRegexpSpace(t[|Label| + k1 + 1..|Label| + k1 + 1 + k2])
    && IsDigit(t[|Label| + k1 + 1 + k2])
  }

  /** The matcher finds only matches of the pattern. */
  lemma MatchLengthSound(t: string)
    requires MatchLength(t).Some?
    ensures exists k1: nat, k2: nat :: MatchesWith(t, k1, k2) && MatchLength(t).value == |Label| + k1 + k2 + 2
  {
    var colon := SpaceRunEnd(t, |Label|);
    var digit := SpaceRunEnd(t, colon + 1);
    assert MatchesWith(t, colon - |Label|, digit - colon - 1);
  }

  lemma {:induction false} SpaceRunEndAt(t: string, k: nat, e: nat)
    requires k <= e <= |t|
    requires AllRegexpSpace(t[k..e])
    requires e == |t| || !IsRegexpSpace(t[e])
    ensures SpaceRunEnd(t, k) == e
    decreases e - k
  {
    if k < e {
      assert t[k] == t[k..e][0];
      assert t[k + 1..e] == t[k..e][1..];
      SpaceRunEndAt(t, k + 1, e);
    }
  }

  /** The matcher finds every match of the pattern, with its one length. */
  lemma MatchLengthComplete(t: string, k1: nat, k2: nat)
    requires MatchesWith(t, k1, k2)
    ensures MatchLength(t) == Some(|Label| + k1 + k2 + 2)
  {
    SpaceRunEndAt(t, |Label|, |Label| + k1);
    SpaceRunEndAt(t, |Label| + k1 + 1, |Label| + k1 + 1 + k2);
  }

  /**
   * regexp.ReplaceAllString with the pattern: every leftmost, non-overlapping
   * match is replaced by `repl`, copied as it is since it holds no `$`
   * for the template expansion to act on; the rest is copied.
   */
  function ReplaceAll(s: string, repl: string): string
    requires '$' !in repl
    decreases |s|
  {
    if |s| == 0 then ""
    else match MatchLength(s)
      case Some(n) => repl + ReplaceAll(s[n..], repl)
      case None => [s[0]] + ReplaceAll(s[1..], repl)
  }

  /** Where no match starts, the scan copies one character and moves on. */
  lemma ReplaceAllCopies(s: string, repl: string)
    requires '$' !in repl
    requires |s| > 0 && MatchLength(s).None?
    ensures ReplaceAll(s, repl) == [s[0]] + ReplaceAll(s[1..], repl)
  {
  }

  /** A position of s[1..] without a match is the next position of s without one. */
  lemma NoMatchShift(s: string, k: nat)
    requires 0 < k <= |s|
    requires forall p :: 0 <= p < k ==> MatchLength(s[p..]).None?
    ensures MatchLength(s).None?
    ensures forall p :: 0 <= p < k - 1 ==> MatchLength(s[1..][p..]).None?
  {
    assert s[0..] == s;
    forall p | 0 <= p < k - 1
      ensures MatchLength(s[1..][p..]).None?
    {
      assert s[1..][p..] == s[p + 1..];
    }
  }

  /** No match starts at any of the first k positions of s, position by position. */
  predicate UnmatchedFrom(s: string, k: nat)
    requires k <= |s|
    decreases k
  {
    k == 0 || (MatchLength(s).None? && UnmatchedFrom(s[1..], k - 1))
  }

  lemma {:induction false} NoMatchesUnmatched(s: string, k: nat)
    requires k <= |s|
    requires forall p :: 0 <= p < k ==> MatchLength(s[p..]).None?
    ensures UnmatchedFrom(s, k)
    decreases k
  {
    if k > 0 {
      NoMatchShift(s, k);
      NoMatchesUnmatched(s[1..], k - 1);
    }
  }

  /** The first k characters of s, at none of which a match starts, are copied unchanged. */
  lemma {:induction false} ReplaceAllSkips(s: string, k: nat, repl: string)
    requires '$' !in repl
    requires k <= |s| && UnmatchedFrom(s, k)
    ensures ReplaceAll(s, repl) == s[..k] + ReplaceAll(s[k..], repl)
    decreases k
  {
    if k == 0 {
      assert s[..0] == [] && s[0..] == s;
    } else {
      var t := s[1..];
      ReplaceAllCopies(s, repl);
      ReplaceAllSkips(t, k - 1, repl);
      assert t[k - 1..] == s[k..];
      assert s[..k] == [s[0]] + t[..k - 1];
    }
  }

  /** Text at whose positions no match starts is copied unchanged. */
  lemma ReplaceAllKeepsUnmatched(a: string, b: string, repl: string)
    requires '$' !in repl
    requires forall p :: 0 <= p < |a| ==> MatchLength((a + b)[p..]).None?
    ensures ReplaceAll(a + b, repl) == a + ReplaceAll(b, repl)
  {
    NoMatchesUnmatched(a + b, |a|);
    ReplaceAllSkips(a + b, |a|, repl);
    assert (a + b)[..|a|] == a && (a + b)[|a|..] == b;
  }

  /** A block in which no match starts is emitted verbatim. */
  lemma ReplaceAllNoMatch(s: string, repl: string)
    requires '$' !in repl
    requires forall p :: 0 <= p < |s| ==> MatchLength(s[p..]).None?
    ensures ReplaceAll(s, repl) == s
  {
    assert s + "" == s;
    ReplaceAllKeepsUnmatched(s, "", repl);
  }

  /** "processor", spaces, ':', spaces and a digit at the start of t form one match. */
  lemma FieldMatches(w1: string, w2: string, d: char, rest: string)
    requires |w1| >= 1 && AllRegexpSpace(w1)
    requires |w2| >= 1 && AllRegexpSpace(w2)
    requires IsDigit(d)
    ensures MatchLength(Label + w1 + ":" + w2 + [d] + rest) == Some(|Label| + |w1| + |w2| + 2)
  {
    var t := Label + w1 + ":" + w2 + [d] + rest;
    assert t[..|Label|] == Label;
    assert t[|Label|..|Label| + |w1|] == w1;
    assert t[|Label| + |w1| + 1..|Label| + |w1| + 1 + |w2|] == w2;
    assert MatchesWith(t, |w1|, |w2|);
    MatchLengthComplete(t, |w1|, |w2|);
  }

  /**
   * An ordinal field "processor", spaces, ':', spaces and a digit is
   * replaced as a whole, and the scan goes on right after that digit.
   */
  lemma ReplaceAllField(w1: string, w2: string, d: char, rest: string, repl: string)
    requires '$' !in repl
    requires |w1| >= 1 && AllRegexpSpace(w1)
    requires |w2| >= 1 && AllRegexpSpace(w2)
    requires IsDigit(d)
    ensures ReplaceAll(Label + w1 + ":" + w2 + [d] + rest, repl) == repl + ReplaceAll(rest, repl)
  {
    var t := Label + w1 + ":" + w2 + [d] + rest;
    FieldMatches(w1, w2, d, rest);
    assert t[|Label| + |w1| + |w2| + 2..] == rest;
  }

  /** No match starts at a digit. */
  lemma NoMatchAtDigit(t: string)
    requires |t| > 0 && IsDigit(t[0])
    ensures MatchLength(t).None?
  {
    if |t| >= |Label| {
      assert t[..|Label|][0] == t[0];
    }
  }

  /**
   * With a number of several digits only the first is consumed: the others
   * stay after the replacement.
   */
  lemma ReplaceAllKeepsExtraDigits(w1: string, w2: string, d: char, ds: string, rest: string, repl: string)
    requires '$' !in repl
    requires |w1| >= 1 && AllRegexpSpace(w1)
    requires |w2| >= 1 && AllRegexpSpace(w2)
    requires IsDigit(d) && AllDigits(ds)
    ensures ReplaceAll(Label + w1 + ":" + w2 + [d] + ds + rest, repl) == repl + ds + ReplaceAll(rest, repl)
  {
    assert Label + w1 + ":" + w2 + [d] + ds + rest == Label + w1 + ":" + w2 + [d] + (ds + rest);
    ReplaceAllField(w1, w2, d, ds + rest, repl);
    forall p | 0 <= p < |ds|
      ensures MatchLength((ds + rest)[p..]).None?
    {
      NoMatchAtDigit((ds + rest)[p..]);
    }
    ReplaceAllKeepsUnmatched(ds, rest, repl);
  }
}
