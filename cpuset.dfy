/**
 * getCpuSets of fs/cpusetinfo.go: the content of cpuset.cpus is trimmed,
 * cut at ',' into tokens and each token at '-'; a one-part token stands for
 * one id, a two-part token for the inclusive range between its ends, any
 * other token for nothing. The ids are written into a fresh array as long as
 * the catalog, whose used prefix is then sorted in place.
 */
module Cpuset {
  import opened GoStrings

  /**
   * parseUint(s, 10, 32), whose body lies outside fs/cpusetinfo.go: the
   * value of a decimal digit string, and `syntaxError` (0 for
   * strconv.ParseUint) for any other text, the empty token included.
   */
  function ParseUint(s: string, syntaxError: nat): nat
  {
    if IsDecimal(s) then DecimalValue(s) else syntaxError
  }

  /** parseUint reads back what "%d" writes. */
  lemma ParseUintFormat(n: nat, syntaxError: nat)
    ensures ParseUint(FormatDecimal(n), syntaxError) == n
  {
  }

  /** The ids lo, lo+1, ..., hi; empty when lo > hi. */
  function Range(lo: int, hi: int): (r: seq<int>)
    ensures |r| == if lo <= hi then hi - lo + 1 else 0
    ensures forall k :: 0 <= k < |r| ==> r[k] == lo + k
    decreases hi - lo
  {
    if lo > hi then [] else Range(lo, hi - 1) + [hi]
  }

  /** The ids that one ','-separated token contributes. */
  function TokenIds(token: string, syntaxError: nat): seq<int>
  {
    var idRange := Split(token, '-');
    if |idRange| == 1 then [ParseUint(idRange[0], syntaxError)]
    else if |idRange| == 2 then Range(ParseUint(idRange[0], syntaxError), ParseUint(idRange[1], syntaxError))
    else []
  }

  /** The ids of the tokens, token after token. */
  function Flatten(tokens: seq<string>, syntaxError: nat): seq<int>
    decreases |tokens|
  {
    if tokens == [] then []
    else Flatten(tokens[..|tokens| - 1], syntaxError) + TokenIds(tokens[|tokens| - 1], syntaxError)
  }

  /** Every id the content of cpuset.cpus contributes, in token order, duplicates kept. */
  function Contributions(cpus: string, syntaxError: nat): seq<int>
  {
    Flatten(Split(TrimSpace(cpus), ','), syntaxError)
  }

  /** The ids fit into the array of `capacity` slots that getCpuSets allocates. */
  predicate Fits(capacity: nat, cpus: string, syntaxError: nat)
  {
    |Contributions(cpus, syntaxError)| <= capacity
  }

  predicate Sorted(s: seq<int>)
  {
    forall i, j :: 0 <= i < j < |s| ==> s[i] <= s[j]
  }

  lemma SortedTail(s: seq<int>)
    requires Sorted(s) && |s| > 0
    ensures Sorted(s[1..])
  {
  }

  lemma SortedCons(h: int, t: seq<int>)
    requires Sorted(t) && (t == [] || h <= t[0])
    ensures Sorted([h] + t)
  {
  }

  lemma MultisetCons(s: seq<int>)
    requires |s| > 0
    ensures multiset(s) == multiset{s[0]} + multiset(s[1..])
    ensures multiset(s[1..]) == multiset(s) - multiset{s[0]}
  {
    assert s == [s[0]] + s[1..];
  }

  /** x put into its place in a sorted sequence. */
  function Insert(x: int, s: seq<int>): (r: seq<int>)
    requires Sorted(s)
    ensures Sorted(r)
    ensures multiset(r) == multiset(s) + multiset{x}
    ensures |r| > 0 && (r[0] == x || (|s| > 0 && r[0] == s[0]))
    decreases |s|
  {
    if s == [] || x <= s[0] then
      SortedCons(x, s);
      [x] + s
    else
      SortedTail(s);
      var t := Insert(x, s[1..]);
      SortedCons(s[0], t);
      MultisetCons(s);
      [s[0]] + t
  }

  /** A reference sort: the ascending rearrangement of s. */
  function Sort(s: seq<int>): (r: seq<int>)
    ensures Sorted(r)
    ensures multiset(r) == multiset(s)
    decreases |s|
  {
    if s == [] then []
    else
      assert s == [s[0]] + s[1..];
      Insert(s[0], Sort(s[1..]))
  }

  /** The selection getCpuSets returns for the content of cpuset.cpus. */
  function CpuSets(cpus: string, syntaxError: nat): seq<int>
  {
    Sort(Contributions(cpus, syntaxError))
  }

  /** The head of a sorted sequence is at most each of its elements. */
  lemma SortedHeadIsLeast(a: seq<int>, x: int)
    requires Sorted(a) && x in multiset(a)
    ensures |a| > 0 && a[0] <= x
  {
    var i :| 0 <= i < |a| && a[i] == x;
  }

  /** Two sorted sequences with the same elements start alike and go on with the same elements. */
  lemma SortedHeadsAgree(a: seq<int>, b: seq<int>)
    requires Sorted(a) && Sorted(b) && multiset(a) == multiset(b) && a != []
    ensures b != [] && a[0] == b[0]
    ensures Sorted(a[1..]) && Sorted(b[1..]) && multiset(a[1..]) == multiset(b[1..])
  {
    assert a[0] in multiset(a);
    SortedHeadIsLeast(b, a[0]);
    assert b[0] in multiset(b);
    SortedHeadIsLeast(a, b[0]);
    MultisetCons(a);
    MultisetCons(b);
    SortedTail(a);
    SortedTail(b);
  }

  /** A sorted sequence is determined by its multiset of elements. */
  lemma {:induction false} SortedUnique(a: seq<int>, b: seq<int>)
    requires Sorted(a) && Sorted(b) && multiset(a) == multiset(b)
    ensures a == b
    decreases |a|
  {
    if a != [] {
      SortedHeadsAgree(a, b);
      SortedUnique(a[1..], b[1..]);
      assert a == [a[0]] + a[1..] && b == [b[0]] + b[1..];
    } else {
      assert |multiset(b)| == 0;
    }
  }

  /** A token without '-' contributes its one parsed id. */
  lemma SingleTokenIds(token: string, syntaxError: nat)
    requires '-' !in token
    ensures TokenIds(token, syntaxError) == [ParseUint(token, syntaxError)]
  {
    SplitJoin([token], '-');
  }

  /** A token "A-B" contributes A, A+1, ..., B, nothing when A > B. */
  lemma RangeTokenIds(a: string, b: string, syntaxError: nat)
    requires '-' !in a && '-' !in b
    ensures TokenIds(a + "-" + b, syntaxError) == Range(ParseUint(a, syntaxError), ParseUint(b, syntaxError))
    ensures ParseUint(a, syntaxError) > ParseUint(b, syntaxError) ==> TokenIds(a + "-" + b, syntaxError) == []
  {
    SplitJoin([a, b], '-');
    assert Join([a, b], '-') == a + "-" + b;
  }

  /** A token with three or more '-'-separated parts contributes nothing. */
  lemma ManyPartTokenIds(parts: seq<string>, syntaxError: nat)
    requires |parts| >= 3
    requires forall i :: 0 <= i < |parts| ==> '-' !in parts[i]
    ensures TokenIds(Join(parts, '-'), syntaxError) == []
  {
    SplitJoin(parts, '-');
  }

  /** The ids of content without outer white space that splits into the given tokens. */
  lemma {:induction false} CpuSetsOfTokens(cpus: string, tokens: seq<string>, ids: seq<int>, syntaxError: nat)
    requires |tokens| >= 1 && forall i :: 0 <= i < |tokens| ==> ',' !in tokens[i]
    requires cpus == Join(tokens, ',') && |cpus| > 0 && !IsSpace(cpus[0]) && !IsSpace(cpus[|cpus| - 1])
    requires Flatten(tokens, syntaxError) == ids
    ensures Contributions(cpus, syntaxError) == ids
  {
    TrimSpaceUnchanged(cpus);
    SplitJoin(tokens, ',');
  }

  /** The token "0-2" contributes 0, 1, 2. */
  /** A one-digit token contributes the digit's value. */
  lemma DigitTokenIds(c: char, syntaxError: nat)
    requires IsDigit(c)
    ensures TokenIds([c], syntaxError) == [DigitValue(c)]
  {
    SingleTokenIds([c], syntaxError);
    assert [c][..0] == [];
    assert IsDecimal([c]);
    assert DecimalValue([c]) == DigitValue(c);
  }

  lemma FlattenPair(t1: string, t2: string, syntaxError: nat)
    ensures Flatten([t1, t2], syntaxError) == TokenIds(t1, syntaxError) + TokenIds(t2, syntaxError)
  {
    assert [t1, t2][..1] == [t1] && [t1][..0] == [];
    assert Flatten([t1], syntaxError) == TokenIds(t1, syntaxError);
  }

  lemma FlattenTriple(t1: string, t2: string, t3: string, syntaxError: nat)
    ensures Flatten([t1, t2, t3], syntaxError) == TokenIds(t1, syntaxError) + TokenIds(t2, syntaxError) + TokenIds(t3, syntaxError)
  {
    assert [t1, t2, t3][..2] == [t1, t2];
    FlattenPair(t1, t2, syntaxError);
  }

  /** A range token of two digits contributes the ids between them. */
  lemma DigitRangeTokenIds(a: char, b: char, syntaxError: nat)
    requires IsDigit(a) && IsDigit(b)
    ensures TokenIds([a, '-', b], syntaxError) == Range(DigitValue(a), DigitValue(b))
  {
    RangeTokenIds([a], [b], syntaxError);
    assert [a] + "-" + [b] == [a, '-', b];
    assert [a][..0] == [] && [b][..0] == [];
    assert IsDecimal([a]) && DecimalValue([a]) == DigitValue(a);
    assert IsDecimal([b]) && DecimalValue([b]) == DigitValue(b);
  }

  /** The token "0-2" contributes 0, 1, 2. */
  lemma RangeTokenExample(syntaxError: nat)
    ensures TokenIds("0-2", syntaxError) == [0, 1, 2]
  {
    DigitRangeTokenIds('0', '2', syntaxError);
    assert Range(0, 2) == [0, 1, 2];
  }

  lemma RangeExampleIds(syntaxError: nat)
    ensures Flatten(["0-2", "4"], syntaxError) == [0, 1, 2, 4]
  {
    FlattenPair("0-2", "4", syntaxError);
    RangeTokenExample(syntaxError);
    DigitTokenIds('4', syntaxError);
  }

  /** A sorted sequence is its own reference sort. */
  lemma {:induction false} SortOfSorted(s: seq<int>)
    requires Sorted(s)
    ensures Sort(s) == s
    decreases |s|
  {
    if s != [] {
      SortOfSorted(s[1..]);
      assert s == [s[0]] + s[1..];
    }
  }

  /** The reference sort leaves the already ascending [0, 1, 2, 4] as it is. */
  lemma SortRangeExample()
    ensures Sort([0, 1, 2, 4]) == [0, 1, 2, 4]
  {
    SortOfSorted([0, 1, 2, 4]);
  }

  /** "0-2,4" selects [0, 1, 2, 4]. */
  lemma ParseRangeExample(cpus: string, syntaxError: nat)
    requires cpus == "0-2,4"
    ensures CpuSets(cpus, syntaxError) == [0, 1, 2, 4]
  {
    assert Contributions(cpus, syntaxError) == [0, 1, 2, 4] by {
      assert Join(["0-2", "4"], ',') == cpus;
      RangeExampleIds(syntaxError);
      CpuSetsOfTokens(cpus, ["0-2", "4"], [0, 1, 2, 4], syntaxError);
    }
    SortRangeExample();
  }

  lemma UnorderedExampleIds(syntaxError: nat)
    ensures Flatten(["3", "1", "0"], syntaxError) == [3, 1, 0]
  {
    FlattenTriple("3", "1", "0", syntaxError);
    DigitTokenIds('3', syntaxError);
    DigitTokenIds('1', syntaxError);
    DigitTokenIds('0', syntaxError);
  }

  lemma InsertAfterHead(x: int, s: seq<int>)
    requires Sorted(s) && |s| > 0 && x > s[0]
    ensures Insert(x, s) == [s[0]] + Insert(x, s[1..])
  {
  }

  lemma SortUnfold(s: seq<int>)
    requires |s| > 0
    ensures Sort(s) == Insert(s[0], Sort(s[1..]))
  {
  }

  lemma SortPairExample()
    ensures Sort([1, 0]) == [0, 1]
  {
    SortUnfold([1, 0]);
    assert [1, 0][1..] == [0];
    SortUnfold([0]);
    assert [0][1..] == [];
    assert Sort([0]) == [0];
    InsertAfterHead(1, [0]);
  }

  /** The reference sort turns [3, 1, 0] into [0, 1, 3], one insertion at a time. */
  lemma SortUnorderedExample()
    ensures Sort([3, 1, 0]) == [0, 1, 3]
  {
    var s: seq<int> := [3, 1, 0];
    SortUnfold(s);
    assert s[1..] == [1, 0];
    SortPairExample();
    InsertAfterHead(3, [0, 1]);
    InsertAfterHead(3, [1]);
  }

  lemma UnorderedContributions(cpus: string, syntaxError: nat)
    requires cpus == "3,1,0"
    ensures Contributions(cpus, syntaxError) == [3, 1, 0]
  {
    assert Join(["3", "1", "0"], ',') == cpus;
    UnorderedExampleIds(syntaxError);
    CpuSetsOfTokens(cpus, ["3", "1", "0"], [3, 1, 0], syntaxError);
  }

  /** "3,1,0" selects [0, 1, 3]: sorted whatever the order of the tokens. */
  lemma ParseUnorderedExample(cpus: string, syntaxError: nat)
    requires cpus == "3,1,0"
    ensures CpuSets(cpus, syntaxError) == [0, 1, 3]
  {
    UnorderedContributions(cpus, syntaxError);
    SortUnorderedExample();
  }

  /**
   * Empty or blank content, which is also what a failed read of
   * cpuset.cpus gives, is one empty token: it selects the single id
   * parseUint gives for "", not the empty selection.
   */
  lemma EmptyContentSelectsSyntaxErrorValue(cpus: string, syntaxError: nat)
    requires AllSpace(cpus)
    ensures CpuSets(cpus, syntaxError) == [syntaxError]
  {
    TrimAllSpace(cpus);
    SingleTokenIds("", syntaxError);
    assert [""][..0] == [];
    assert Flatten([""], syntaxError) == [syntaxError];
    assert Contributions(cpus, syntaxError) == [syntaxError];
    assert [syntaxError][1..] == [];
  }

  /** The ids of a prefix of the tokens are never more than those of all tokens. */
  lemma {:induction false} FlattenPrefix(tokens: seq<string>, k: nat, syntaxError: nat)
    requires k <= |tokens|
    ensures |Flatten(tokens[..k], syntaxError)| <= |Flatten(tokens, syntaxError)|
    decreases |tokens| - k
  {
    if k < |tokens| {
      assert tokens[..k + 1][..k] == tokens[..k];
      FlattenPrefix(tokens, k + 1, syntaxError);
    } else {
      assert tokens[..k] == tokens;
    }
  }

  /** One more token adds its ids at the end. */
  lemma FlattenStep(tokens: seq<string>, t: nat, syntaxError: nat)
    requires t < |tokens|
    ensures Flatten(tokens[..t + 1], syntaxError) == Flatten(tokens[..t], syntaxError) + TokenIds(tokens[t], syntaxError)
  {
    assert tokens[..t + 1][..t] == tokens[..t];
  }

  /** s[..i+1] is in order once the element at the hole j is left aside. */
  predicate SortedAround(s: seq<int>, i: nat, j: nat)
    requires i < |s|
  {
    forall p, q :: 0 <= p < q <= i && p != j && q != j ==> s[p] <= s[q]
  }

  /** The element at j is at most every element after it up to i. */
  predicate LeastUpTo(s: seq<int>, i: nat, j: nat)
    requires i < |s|
  {
    forall q :: j < q <= i ==> s[j] <= s[q]
  }

  /** s with its elements at j - 1 and j exchanged. */
  function Swapped(s: seq<int>, j: nat): (t: seq<int>)
    requires 0 < j < |s|
    ensures |t| == |s| && t[j - 1] == s[j] && t[j] == s[j - 1]
    ensures forall k :: 0 <= k < |s| && k != j - 1 && k != j ==> t[k] == s[k]
  {
    s[j - 1 := s[j]][j := s[j - 1]]
  }

  /** Swapping an out-of-order pair moves the hole one place down. */
  lemma SwapDown(s: seq<int>, i: nat, j: nat)
    requires 0 < j <= i < |s| && s[j - 1] > s[j]
    requires SortedAround(s, i, j) && LeastUpTo(s, i, j)
    ensures SortedAround(Swapped(s, j), i, j - 1)
    ensures LeastUpTo(Swapped(s, j), i, j - 1)
  {
  }

  /** Once the hole's left neighbour is no greater, s[..i+1] is in order. */
  lemma SiftDone(s: seq<int>, i: nat, j: nat)
    requires j <= i < |s|
    requires SortedAround(s, i, j) && LeastUpTo(s, i, j)
    requires j == 0 || s[j - 1] <= s[j]
    ensures Sorted(s[..i + 1])
  {
  }

  /** t rearranges the first m elements of s and keeps the rest in place. */
  predicate Rearranges(t: seq<int>, s: seq<int>, m: nat)
  {
    m <= |s| == |t| && multiset(t[..m]) == multiset(s[..m]) && t[m..] == s[m..]
  }

  /** Swapping two places below m rearranges s[..m] and keeps everything from m on. */
  lemma SwapRearranges(s: seq<int>, j: nat, m: nat)
    requires 0 < j < m <= |s|
    ensures Rearranges(Swapped(s, j), s, m)
  {
    var t := Swapped(s, j);
    assert t[..m] == s[..m][j - 1 := s[j]][j := s[j - 1]];
    assert t[m..] == s[m..];
  }

  /** Rearranging twice within the first m elements is one rearrangement. */
  lemma RearrangesTrans(u: seq<int>, t: seq<int>, s: seq<int>, m: nat)
    requires Rearranges(u, t, m) && Rearranges(t, s, m)
    ensures Rearranges(u, s, m)
  {
  }

  /** A rearrangement of s[..m] that leaves s[m..] alone rearranges every longer prefix. */
  lemma KeepsLonger(t: seq<int>, s: seq<int>, m: nat, n: nat)
    requires m <= n <= |s| && Rearranges(t, s, m)
    ensures Rearranges(t, s, n)
  {
    assert s[..n] == s[..m] + s[m..][..n - m];
    assert t[..n] == t[..m] + t[m..][..n - m];
    assert t[n..] == t[m..][n - m..];
    assert s[n..] == s[m..][n - m..];
  }

  /** What the sift loop keeps: s[..i+1] ordered around the hole j, and a rearrangement of orig[..i+1]. */
  predicate SiftInv(s: seq<int>, orig: seq<int>, i: nat, j: nat)
  {
    j <= i < |s| && SortedAround(s, i, j) && LeastUpTo(s, i, j) && Rearranges(s, orig, i + 1)
  }

  /** One turn of the sift loop, on values. */
  lemma SiftStep(s: seq<int>, orig: seq<int>, i: nat, j: nat)
    requires 0 < j && SiftInv(s, orig, i, j) && s[j - 1] > s[j]
    ensures SiftInv(Swapped(s, j), orig, i, j - 1)
  {
    SwapDown(s, i, j);
    SwapRearranges(s, j, i + 1);
    RearrangesTrans(Swapped(s, j), s, orig, i + 1);
  }

  /** One insertion step: a[i] swapped down into the sorted a[..i]; nothing from i + 1 on moves. */
  method SiftDown(a: array<int>, i: nat)
    requires i < a.Length
    requires Sorted(a[..i])
    modifies a
    ensures Sorted(a[..i + 1])
    ensures multiset(a[..i + 1]) == multiset(old(a[..i + 1]))
    ensures a[i + 1..] == old(a[i + 1..])
  {
    ghost var orig := a[..];
    assert forall p :: 0 <= p < i ==> a[..i][p] == orig[p];
    var j: nat := i;
    while 0 < j && a[j - 1] > a[j]
      invariant j <= i
      invariant SiftInv(a[..], orig, i, j)
    {
      ghost var before := a[..];
      SiftStep(before, orig, i, j);
      a[j - 1], a[j] := a[j], a[j - 1];
      assert a[..] == Swapped(before, j);
      j := j - 1;
    }
    SiftDone(a[..], i, j);
  }

  /** sort.Ints on a[..n]: insertion sort by adjacent swaps. */
  method SortInts(a: array<int>, n: nat)
    requires n <= a.Length
    modifies a
    ensures Sorted(a[..n])
    ensures multiset(a[..n]) == multiset(old(a[..n]))
    ensures a[n..] == old(a[n..])
  {
    ghost var orig := a[..];
    for i := 0 to n
      invariant Sorted(a[..i])
      invariant Rearranges(a[..], orig, n)
    {
      ghost var before := a[..];
      SiftDown(a, i);
      KeepsLonger(a[..], before, i + 1, n);
      RearrangesTrans(a[..], before, orig, n);
    }
  }

  /** The inner loop of getCpuSets: begin .. end written from tmpArray[count] on. */
  method WriteRange(tmpArray: array<int>, count: nat, begin: int, end: int) returns (next: nat)
    requires count + |Range(begin, end)| <= tmpArray.Length
    modifies tmpArray
    ensures next == count + |Range(begin, end)|
    ensures tmpArray[..next] == old(tmpArray[..count]) + Range(begin, end)
    ensures tmpArray[next..] == old(tmpArray[next..])
  {
    next := count;
    var i: int := begin;
    while i <= end
      invariant begin <= i && (i <= end + 1 || i == begin)
      invariant next == count + |Range(begin, i - 1)|
      invariant tmpArray[..next] == old(tmpArray[..count]) + Range(begin, i - 1)
      invariant tmpArray[next..] == old(tmpArray[next..])
      decreases end - i
    {
      assert Range(begin, i) == Range(begin, i - 1) + [i];
      tmpArray[next] := i;
      next := next + 1;
      i := i + 1;
    }
    assert Range(begin, i - 1) == Range(begin, end);
  }

  /** One turn of the loop over the tokens: the token's ids written from tmpArray[count] on. */
  method WriteToken(tmpArray: array<int>, count: nat, token: string, syntaxError: nat) returns (next: nat)
    requires count + |TokenIds(token, syntaxError)| <= tmpArray.Length
    modifies tmpArray
    ensures next == count + |TokenIds(token, syntaxError)|
    ensures tmpArray[..next] == old(tmpArray[..count]) + TokenIds(token, syntaxError)
    ensures tmpArray[next..] == old(tmpArray[next..])
  {
    next := count;
    var idRange := Split(token, '-');
    if |idRange| == 1 {
      var cpuID := ParseUint(idRange[0], syntaxError);
      tmpArray[next] := cpuID;
      next := next + 1;
    } else if |idRange| == 2 {
      var begin := ParseUint(idRange[0], syntaxError);
      var end := ParseUint(idRange[1], syntaxError);
      next := WriteRange(tmpArray, count, begin, end);
    }
  }

  /**
   * getCpuSets, given the content of cpuset.cpus (empty when the file
   * cannot be read): the contributed ids, sorted ascending, duplicates kept.
   */
  method GetCpuSets(cpuinfo: map<int, string>, cpus: string, syntaxError: nat) returns (cpuIDs: seq<int>)
    requires Fits(|cpuinfo|, cpus, syntaxError)
    ensures Sorted(cpuIDs)
    ensures multiset(cpuIDs) == multiset(Contributions(cpus, syntaxError))
    ensures |cpuIDs| == |Contributions(cpus, syntaxError)| <= |cpuinfo|
    ensures cpuIDs == CpuSets(cpus, syntaxError)
  {
    var tmpArray := new int[|cpuinfo|];
    var content := TrimSpace(cpus);
    var tokens := Split(content, ',');
    var count := 0;
    for t := 0 to |tokens|
      invariant count == |Flatten(tokens[..t], syntaxError)| <= tmpArray.Length
      invariant tmpArray[..count] == Flatten(tokens[..t], syntaxError)
    {
      FlattenStep(tokens, t, syntaxError);
      FlattenPrefix(tokens, t + 1, syntaxError);
      count := WriteToken(tmpArray, count, tokens[t], syntaxError);
    }
    assert tokens[..|tokens|] == tokens;
    SortInts(tmpArray, count);
    cpuIDs := tmpArray[..count];
    SortedUnique(cpuIDs, CpuSets(cpus, syntaxError));
  }
}
