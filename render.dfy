/**
 * getCpuInfo of fs/cpusetinfo.go. For a non-empty selection, each selected
 * id found in the catalog contributes its entry with every ordinal field
 * rewritten to the id's position in the selection; ids not in the catalog
 * contribute nothing. For an empty selection every catalog entry is
 * emitted verbatim, in the unspecified order in which Go ranges over a map.
 */
module Render {
  import opened GoStrings
  import Pattern

  function Spaces(n: nat): (r: string)
    ensures |r| == n && forall k :: 0 <= k < n ==> r[k] == ' '
  {
    seq(n, _ => ' ')
  }

  /** fmt's "%-*s": s padded on the right with spaces to `width` characters. */
  function LeftJustify(s: string, width: nat): (r: string)
    ensures |r| == if |s| < width then width else |s|
    ensures r[..|s|] == s
    ensures forall k :: |s| <= k < |r| ==> r[k] == ' '
  {
    if |s| < width then s + Spaces(width - |s|) else s
  }

  /** fmt.Sprintf("%-16s: %d", "processor", i): the rewritten ordinal field. */
  function OrdinalLine(i: nat): (r: string)
    ensures '$' !in r
  {
    var pad := LeftJustify(Pattern.Label, 16);
    assert pad == Pattern.Label + pad[9..];
    FormatDecimalNoDollar(i);
    pad + ": " + FormatDecimal(i)
  }

  lemma FormatDecimalNoDollar(i: nat)
    ensures '$' !in FormatDecimal(i)
  {
    var d := FormatDecimal(i);
    assert forall k :: 0 <= k < |d| ==> IsDigit(d[k]);
  }

  /** The rewritten field: "processor", 7 spaces, ": ", then i in decimal. */
  lemma OrdinalLineForm(i: nat)
    ensures OrdinalLine(i) == "processor       : " + FormatDecimal(i)
  {
    var pad := LeftJustify(Pattern.Label, 16);
    assert pad == pad[..9] + pad[9..];
    assert pad[9..] == "       ";
  }

  /**
   * The ordinal field of a host entry for CPU 12 shown at position 3: only
   * its first digit is part of the match, so the rewritten line reads 32.
   */
  lemma RewriteKeepsTrailingDigits()
    ensures Pattern.ReplaceAll("processor\t: 12\n", OrdinalLine(3)) == "processor       : 32\n"
  {
    var repl := OrdinalLine(3);
    assert "processor\t: 12\n" == Pattern.Label + "\t" + ":" + " " + ['1'] + "2" + "\n";
    Pattern.ReplaceAllKeepsExtraDigits("\t", " ", '1', "2", "\n", repl);
    assert Pattern.ReplaceAll("\n", repl) == "\n" by {
      assert "\n"[1..] == "";
    }
    OrdinalLineForm(3);
    assert FormatDecimal(3) == "3";
  }

  /** What the selected id at position i contributes. */
  function Piece(cpuinfo: map<int, string>, cpuIDs: seq<int>, i: nat): string
    requires i < |cpuIDs|
  {
    if cpuIDs[i] in cpuinfo then Pattern.ReplaceAll(cpuinfo[cpuIDs[i]], OrdinalLine(i)) else ""
  }

  /** The contributions of positions lo .. hi-1, in order. */
  function Segment(cpuinfo: map<int, string>, cpuIDs: seq<int>, lo: nat, hi: nat): string
    requires lo <= hi <= |cpuIDs|
    decreases hi - lo
  {
    if lo == hi then "" else Segment(cpuinfo, cpuIDs, lo, hi - 1) + Piece(cpuinfo, cpuIDs, hi - 1)
  }

  /** The document for a non-empty selection. */
  function Render(cpuinfo: map<int, string>, cpuIDs: seq<int>): string
  {
    Segment(cpuinfo, cpuIDs, 0, |cpuIDs|)
  }

  /** Every id of `order` is a key of the catalog. */
  predicate AllInCatalog(cpuinfo: map<int, string>, order: seq<int>)
  {
    forall i :: 0 <= i < |order| ==> order[i] in cpuinfo
  }

  /** The entries in the given key order, verbatim. */
  function Dump(cpuinfo: map<int, string>, order: seq<int>): string
    requires AllInCatalog(cpuinfo, order)
    decreases |order|
  {
    if order == [] then "" else Dump(cpuinfo, order[..|order| - 1]) + cpuinfo[order[|order| - 1]]
  }

  /** `order` lists every key of the catalog exactly once and nothing else. */
  ghost predicate IsKeyOrder(order: seq<int>, cpuinfo: map<int, string>)
  {
    && (AllInCatalog(cpuinfo, order))
    && multiset(order) == multiset(cpuinfo.Keys)
  }

  /**
   * getCpuInfo: for an empty selection the catalog entries in some order
   * that lists each key once; otherwise the rendered selection.
   */
  method GetCpuInfo(cpuinfo: map<int, string>, cpuIDs: seq<int>) returns (out: string, ghost order: seq<int>)
    ensures |cpuIDs| == 0 ==> IsKeyOrder(order, cpuinfo) && out == Dump(cpuinfo, order)
    ensures |cpuIDs| > 0 ==> out == Render(cpuinfo, cpuIDs)
  {
    out, order := "", [];
    if |cpuIDs| == 0 {
      var rest := cpuinfo.Keys;
      while |rest| > 0
        invariant rest <= cpuinfo.Keys
        invariant AllInCatalog(cpuinfo, order)
        invariant multiset(order) + multiset(rest) == multiset(cpuinfo.Keys)
        invariant out == Dump(cpuinfo, order)
        decreases |rest|
      {
        NonEmptyHasMember(rest);
        var id :| id in rest;
        out := out + cpuinfo[id];
        assert (order + [id])[..|order|] == order;
        assert multiset(rest) == multiset(rest - {id}) + multiset{id};
        order := order + [id];
        rest := rest - {id};
      }
    } else {
      for i := 0 to |cpuIDs|
        invariant out == Segment(cpuinfo, cpuIDs, 0, i)
      {
        var id := cpuIDs[i];
        if id in cpuinfo {
          out := out + Pattern.ReplaceAll(cpuinfo[id], OrdinalLine(i));
        }
      }
    }
  }

  lemma NonEmptyHasMember(s: set<int>)
    requires |s| > 0
    ensures exists x :: x in s
  {
    if forall x :: x !in s {
      assert false;
    }
  }

  /** Rendering splits at any position of the selection. */
  lemma {:induction false} SegmentSplit(cpuinfo: map<int, string>, cpuIDs: seq<int>, lo: nat, mid: nat, hi: nat)
    requires lo <= mid <= hi <= |cpuIDs|
    ensures Segment(cpuinfo, cpuIDs, lo, hi) == Segment(cpuinfo, cpuIDs, lo, mid) + Segment(cpuinfo, cpuIDs, mid, hi)
    decreases hi - mid
  {
    if mid < hi {
      SegmentSplit(cpuinfo, cpuIDs, lo, mid, hi - 1);
    }
  }

  /**
   * The entry of a selected id found in the catalog is written with the
   * id's position j in the selection as its ordinal: not the host id, and
   * not the number of entries emitted before it.
   */
  lemma RenderOrdinalIsPosition(cpuinfo: map<int, string>, cpuIDs: seq<int>, j: nat)
    requires j < |cpuIDs| && cpuIDs[j] in cpuinfo
    ensures Render(cpuinfo, cpuIDs)
         == Segment(cpuinfo, cpuIDs, 0, j)
            + Pattern.ReplaceAll(cpuinfo[cpuIDs[j]], OrdinalLine(j))
            + Segment(cpuinfo, cpuIDs, j + 1, |cpuIDs|)
  {
    SegmentSplit(cpuinfo, cpuIDs, 0, j + 1, |cpuIDs|);
  }

  /** A selected id missing from the catalog is skipped, and later positions keep their ordinals. */
  lemma RenderSkipsAbsent(cpuinfo: map<int, string>, cpuIDs: seq<int>, j: nat)
    requires j < |cpuIDs| && cpuIDs[j] !in cpuinfo
    ensures Render(cpuinfo, cpuIDs) == Segment(cpuinfo, cpuIDs, 0, j) + Segment(cpuinfo, cpuIDs, j + 1, |cpuIDs|)
  {
    SegmentSplit(cpuinfo, cpuIDs, 0, j + 1, |cpuIDs|);
  }

  /** A selection none of whose ids is in the catalog renders as nothing. */
  lemma {:induction false} RenderNoneFound(cpuinfo: map<int, string>, cpuIDs: seq<int>, hi: nat)
    requires hi <= |cpuIDs|
    requires forall i :: 0 <= i < |cpuIDs| ==> cpuIDs[i] !in cpuinfo
    ensures Segment(cpuinfo, cpuIDs, 0, hi) == ""
    decreases hi
  {
    if hi > 0 {
      RenderNoneFound(cpuinfo, cpuIDs, hi - 1);
    }
  }

  /**
   * With a catalog of host ids 0..3, the selection [1, 3] gives host 1's
   * entry as ordinal 0 and host 3's as ordinal 1, and the selection [1, 99]
   * gives host 1's entry as ordinal 0 only.
   */
  lemma RenderSparseSelection(cpuinfo: map<int, string>)
    requires cpuinfo.Keys == {0, 1, 2, 3}
    ensures Render(cpuinfo, [1, 3])
         == Pattern.ReplaceAll(cpuinfo[1], OrdinalLine(0)) + Pattern.ReplaceAll(cpuinfo[3], OrdinalLine(1))
    ensures Render(cpuinfo, [1, 99]) == Pattern.ReplaceAll(cpuinfo[1], OrdinalLine(0))
  {
    RenderPair(cpuinfo, 1, 3);
    RenderPair(cpuinfo, 1, 99);
    assert 1 in cpuinfo && 3 in cpuinfo && 99 !in cpuinfo;
  }

  /** A selection of two ids renders as the piece of the first, then the piece of the second. */
  lemma RenderPair(cpuinfo: map<int, string>, x: int, y: int)
    ensures Render(cpuinfo, [x, y]) == Piece(cpuinfo, [x, y], 0) + Piece(cpuinfo, [x, y], 1)
  {
    assert Segment(cpuinfo, [x, y], 0, 1) == Piece(cpuinfo, [x, y], 0);
  }

  lemma AllInCatalogConcat(cpuinfo: map<int, string>, a: seq<int>, b: seq<int>)
    requires AllInCatalog(cpuinfo, a) && AllInCatalog(cpuinfo, b)
    ensures AllInCatalog(cpuinfo, a + b)
  {
  }

  lemma AllInCatalogPrefix(cpuinfo: map<int, string>, o: seq<int>, k: nat)
    requires AllInCatalog(cpuinfo, o) && k <= |o|
    ensures AllInCatalog(cpuinfo, o[..k])
  {
  }

  lemma {:induction false} DumpAppend(cpuinfo: map<int, string>, a: seq<int>, b: seq<int>)
    requires AllInCatalog(cpuinfo, a)
    requires AllInCatalog(cpuinfo, b)
    ensures AllInCatalog(cpuinfo, a + b)
    ensures Dump(cpuinfo, a + b) == Dump(cpuinfo, a) + Dump(cpuinfo, b)
    decreases |b|
  {
    AllInCatalogConcat(cpuinfo, a, b);
    if b == [] {
      assert a + b == a;
    } else {
      var b' := b[..|b| - 1];
      AllInCatalogPrefix(cpuinfo, b, |b| - 1);
      DumpAppend(cpuinfo, a, b');
      assert (a + b)[..|a + b| - 1] == a + b';
      assert (a + b)[|a + b| - 1] == b[|b| - 1];
    }
  }

  lemma MultisetRemoveAt(o: seq<int>, j: nat)
    requires j < |o|
    ensures multiset(o[..j] + o[j + 1..]) == multiset(o) - multiset{o[j]}
  {
    assert o == o[..j] + [o[j]] + o[j + 1..];
  }

  /** Taking one key out of an order shortens the dump by that key's entry. */
  lemma DumpRemoveAt(cpuinfo: map<int, string>, o: seq<int>, j: nat)
    requires j < |o|
    requires AllInCatalog(cpuinfo, o)
    ensures AllInCatalog(cpuinfo, o[..j] + o[j + 1..])
    ensures |Dump(cpuinfo, o)| == |Dump(cpuinfo, o[..j] + o[j + 1..])| + |cpuinfo[o[j]]|
  {
    var x := o[j];
    assert o == o[..j] + [x] + o[j + 1..];
    DumpAppend(cpuinfo, o[..j], [x]);
    DumpAppend(cpuinfo, o[..j] + [x], o[j + 1..]);
    DumpAppend(cpuinfo, o[..j], o[j + 1..]);
    assert Dump(cpuinfo, [x]) == cpuinfo[x] by {
      assert [x][..0] == [];
    }
  }

  /** The last key of o1 sits at some position j of o2, and the rest of both still match. */
  lemma PermutationStep(o1: seq<int>, o2: seq<int>) returns (j: nat)
    requires |o1| > 0 && multiset(o1) == multiset(o2)
    ensures j < |o2| && o2[j] == o1[|o1| - 1]
    ensures multiset(o1[..|o1| - 1]) == multiset(o2[..j] + o2[j + 1..])
  {
    var last := |o1| - 1;
    assert o1[last] in multiset(o2);
    j :| 0 <= j < |o2| && o2[j] == o1[last];
    MultisetRemoveAt(o1, last);
    MultisetRemoveAt(o2, j);
    assert o1[..last] + o1[last + 1..] == o1[..last];
  }

  /** Emitting the same keys in another order gives a document of the same length. */
  lemma {:induction false} DumpLengthPermutation(cpuinfo: map<int, string>, o1: seq<int>, o2: seq<int>)
    requires AllInCatalog(cpuinfo, o1)
    requires AllInCatalog(cpuinfo, o2)
    requires multiset(o1) == multiset(o2)
    ensures |Dump(cpuinfo, o1)| == |Dump(cpuinfo, o2)|
    decreases |o1|
  {
    if o1 == [] {
      assert |multiset(o2)| == 0;
    } else {
      var j := PermutationStep(o1, o2);
      DumpRemoveAt(cpuinfo, o2, j);
      DumpLengthPermutation(cpuinfo, o1[..|o1| - 1], o2[..j] + o2[j + 1..]);
    }
  }

  /** Any two key orders emit documents of the same length. */
  lemma DumpLengthIndependentOfOrder(cpuinfo: map<int, string>, o1: seq<int>, o2: seq<int>)
    requires IsKeyOrder(o1, cpuinfo) && IsKeyOrder(o2, cpuinfo)
    ensures |Dump(cpuinfo, o1)| == |Dump(cpuinfo, o2)|
  {
    DumpLengthPermutation(cpuinfo, o1, o2);
  }
}
