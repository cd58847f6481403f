/**
 * The host CPU catalog that the second init of fs/cpusetinfo.go builds once
 * from the text of /proc/cpuinfo: the text is cut into lines, each line and
 * a newline go into a buffer, and each empty line first stores the buffer
 * as the next catalog entry and clears it.
 */
module Catalog {
  import opened GoStrings

  /** The entries stored so far, in key order, and the buffer not yet stored. */
  datatype Scan = Scan(blocks: seq<string>, buffer: string)

  /** One turn of the loop over the lines. */
  function Step(s: Scan, line: string): Scan
  {
    if |line| == 0 then Scan(s.blocks + [s.buffer], "" + line + "\n")
    else Scan(s.blocks, s.buffer + line + "\n")
  }

  /** The state of the loop once it has consumed `lines`. */
  function ScanLines(lines: seq<string>): Scan
    decreases |lines|
  {
    if lines == [] then Scan([], "") else Step(ScanLines(lines[..|lines| - 1]), lines[|lines| - 1])
  }

  /** The catalog map with the keys 0 .. |blocks| - 1. */
  function CatalogMap(blocks: seq<string>): (m: map<int, string>)
    ensures forall k :: k in m <==> 0 <= k < |blocks|
    ensures forall k :: 0 <= k < |blocks| ==> m[k] == blocks[k]
  {
    map k | 0 <= k < |blocks| :: blocks[k]
  }

  lemma CatalogMapAppend(blocks: seq<string>, b: string)
    ensures CatalogMap(blocks + [b]) == CatalogMap(blocks)[|blocks| := b]
  {
  }

  /** The catalog built from the text of /proc/cpuinfo. */
  function CatalogOf(raw: string): map<int, string>
  {
    CatalogMap(ScanLines(Split(raw, '\n')).blocks)
  }

  /** The loop of the second init, on a successful read of /proc/cpuinfo. */
  method BuildCatalog(raw: string) returns (cpuinfo: map<int, string>, count: nat, buffer: string)
    ensures forall k :: k in cpuinfo <==> 0 <= k < count
    ensures count == |ScanLines(Split(raw, '\n')).blocks| == CountEmpty(Split(raw, '\n'))
    ensures forall k :: 0 <= k < count ==> cpuinfo[k] == ScanLines(Split(raw, '\n')).blocks[k]
    ensures buffer == ScanLines(Split(raw, '\n')).buffer
    ensures cpuinfo == CatalogOf(raw)
  {
    var lines := Split(raw, '\n');
    cpuinfo, count, buffer := map[], 0, "";
    for n := 0 to |lines|
      invariant count == |ScanLines(lines[..n]).blocks|
      invariant cpuinfo == CatalogMap(ScanLines(lines[..n]).blocks)
      invariant buffer == ScanLines(lines[..n]).buffer
    {
      ghost var before := ScanLines(lines[..n]);
      var line := lines[n];
      assert lines[..n + 1][..n] == lines[..n];
      assert ScanLines(lines[..n + 1]) == Step(before, line);
      if |line| == 0 {
        CatalogMapAppend(before.blocks, buffer);
        cpuinfo := cpuinfo[count := buffer];
        count := count + 1;
        buffer := "";
      }
      buffer := buffer + line + "\n";
    }
    assert lines[..|lines|] == lines;
    ScanCountsEmptyLines(lines);
  }

  /** Every line followed by a newline: the text the loop writes into the buffer. */
  function Lines(lines: seq<string>): string
    decreases |lines|
  {
    if lines == [] then "" else Lines(lines[..|lines| - 1]) + lines[|lines| - 1] + "\n"
  }

  /** The concatenation of the stored entries in key order. */
  function Concat(blocks: seq<string>): string
    decreases |blocks|
  {
    if blocks == [] then "" else Concat(blocks[..|blocks| - 1]) + blocks[|blocks| - 1]
  }

  /** The number of empty strings among the lines. */
  function CountEmpty(lines: seq<string>): nat
    decreases |lines|
  {
    if lines == [] then 0
    else CountEmpty(lines[..|lines| - 1]) + (if |lines[|lines| - 1]| == 0 then 1 else 0)
  }

  /** Nothing written to the buffer is lost: stored entries, then the buffer, give back every line. */
  lemma {:induction false} ScanKeepsText(lines: seq<string>)
    ensures Concat(ScanLines(lines).blocks) + ScanLines(lines).buffer == Lines(lines)
    decreases |lines|
  {
    if lines != [] {
      var init := lines[..|lines| - 1];
      ScanKeepsText(init);
      var s := ScanLines(init);
      var line := lines[|lines| - 1];
      assert Lines(lines) == Lines(init) + line + "\n";
      if |line| == 0 {
        assert (s.blocks + [s.buffer])[..|s.blocks|] == s.blocks;
        assert Concat(s.blocks + [s.buffer]) == Concat(s.blocks) + s.buffer;
        assert ScanLines(lines) == Scan(s.blocks + [s.buffer], "\n");
        assert line + "\n" == "\n";
      } else {
        assert ScanLines(lines) == Scan(s.blocks, s.buffer + line + "\n");
        assert Concat(s.blocks) + (s.buffer + line + "\n") == (Concat(s.blocks) + s.buffer) + line + "\n";
      }
    }
  }

  lemma {:induction false} LinesJoin(lines: seq<string>)
    requires |lines| >= 1
    ensures Lines(lines) == Join(lines, '\n') + "\n"
    decreases |lines|
  {
    if |lines| > 1 {
      var init := lines[..|lines| - 1];
      LinesJoin(init);
      JoinAppend(init, [lines[|lines| - 1]], '\n');
      assert init + [lines[|lines| - 1]] == lines;
    } else {
      assert lines[..0] == [];
    }
  }

  /**
   * Catalog round trip: the stored entries 0 .. count-1 in key order, then
   * the buffer left unstored, give the text of /proc/cpuinfo with one
   * newline appended.
   */
  lemma CatalogRoundTrip(raw: string)
    ensures Concat(ScanLines(Split(raw, '\n')).blocks) + ScanLines(Split(raw, '\n')).buffer == raw + "\n"
  {
    ScanKeepsText(Split(raw, '\n'));
    LinesJoin(Split(raw, '\n'));
  }

  /** The number of entries is the number of empty strings that Split yields. */
  lemma {:induction false} ScanCountsEmptyLines(lines: seq<string>)
    ensures |ScanLines(lines).blocks| == CountEmpty(lines)
    decreases |lines|
  {
    if lines != [] {
      ScanCountsEmptyLines(lines[..|lines| - 1]);
    }
  }

  /**
   * Entry shape: every entry after the first starts with the newline of the
   * empty line that stored the entry before it, and so does the buffer once
   * an entry has been stored; every stored entry is empty or ends a line.
   */
  lemma {:induction false} ScanShape(lines: seq<string>)
    ensures var s := ScanLines(lines);
      && (forall k :: 0 < k < |s.blocks| ==> |s.blocks[k]| > 0 && s.blocks[k][0] == '\n')
      && (forall k :: 0 <= k < |s.blocks| ==> s.blocks[k] == "" || s.blocks[k][|s.blocks[k]| - 1] == '\n')
      && (|s.blocks| > 0 ==> |s.buffer| > 0 && s.buffer[0] == '\n')
      && (s.buffer == "" || s.buffer[|s.buffer| - 1] == '\n')
    decreases |lines|
  {
    if lines != [] {
      ScanShape(lines[..|lines| - 1]);
    }
  }

  /** A dump with no empty line stores nothing: all of it stays in the buffer. */
  lemma {:induction false} NoEmptyLineNoEntry(raw: string)
    requires forall i :: 0 <= i < |Split(raw, '\n')| ==> Split(raw, '\n')[i] != ""
    ensures ScanLines(Split(raw, '\n')).blocks == []
    ensures ScanLines(Split(raw, '\n')).buffer == raw + "\n"
  {
    var lines := Split(raw, '\n');
    NoEmptyCountsZero(lines);
    ScanCountsEmptyLines(lines);
    CatalogRoundTrip(raw);
  }

  lemma {:induction false} NoEmptyCountsZero(lines: seq<string>)
    requires forall i :: 0 <= i < |lines| ==> lines[i] != ""
    ensures CountEmpty(lines) == 0
    decreases |lines|
  {
    if lines != [] {
      NoEmptyCountsZero(lines[..|lines| - 1]);
    }
  }

  /**
   * A dump that ends with an empty line, as /proc/cpuinfo does, stores a
   * last entry that is exactly "\n" and leaves "\n" unstored.
   */
  lemma TrailingEmptyLine(text: string)
    ensures var s := ScanLines(Split(text + "\n\n", '\n'));
      |s.blocks| >= 2 && s.blocks[|s.blocks| - 1] == "\n" && s.buffer == "\n"
  {
    SplitTwoNewlines(text);
    ScanTwoEmptyLines(Split(text, '\n'));
  }

  lemma SplitTwoNewlines(text: string)
    ensures Split(text + "\n\n", '\n') == Split(text, '\n') + ["", ""]
  {
    SplitAtSeparator(text, "\n", '\n');
    SplitAtSeparator("", "", '\n');
    assert text + "\n\n" == text + ['\n'] + "\n";
    assert "\n" == "" + ['\n'] + "";
  }

  /** Two final empty lines store the buffer, then an entry that is one newline. */
  lemma ScanTwoEmptyLines(pre: seq<string>)
    ensures var s := ScanLines(pre + ["", ""]);
      |s.blocks| >= 2 && s.blocks[|s.blocks| - 1] == "\n" && s.buffer == "\n"
  {
    var lines := pre + ["", ""];
    assert lines[..|lines| - 1] == pre + [""];
    assert (pre + [""])[..|pre|] == pre;
  }
}
