# cgroupfs virtual cpuinfo, modelled in Dafny

cgroupfs serves a container a virtual `/proc/cpuinfo` that only lists the
CPUs of the container's cpuset. `fs/cpusetinfo.go` does this in three steps:

1. **Catalog** (its second `init`). The host's `/proc/cpuinfo` is read once
   and cut into per-CPU entries at the empty lines. Entry `k` is the host CPU
   with index `k`. If the read fails, `replacer` stays nil and every read of
   the virtual file is empty.
2. **Cpuset parser** (`getCpuSets`). `cpuset.cpus` of the node's cgroup
   directory is read on each access. It is trimmed and cut at `,` into
   tokens. `N` selects one id, `A-B` the ids `A..B`, and a token with more
   `-` parts selects nothing. The ids go into an array as long as the
   catalog, and the used prefix is sorted in place.
3. **Renderer** (`getCpuInfo`, `ReadAll`, `Attr`). For a non-empty
   selection, each selected id that has a catalog entry contributes that
   entry. Every match of `processor\s+?:\s+?\d` in it is replaced by
   `processor`, padded to 16 characters, then `: ` and the id's position in
   the selection. For an empty selection every entry is written verbatim, in
   Go's map order. `Attr` reports mode 0444 and the length of what
   `ReadAll` returns.

The modules follow these steps. `GoStrings` holds the standard-library
operations the file relies on. `Catalog` holds the init loop. `Cpuset`
holds `getCpuSets` and the `array` it sorts. `Pattern` is a hand-written
matcher for the one fixed pattern plus `ReplaceAllString`. `Render` holds
`getCpuInfo`. `CpuInfoNode` has a class `CpuInfoFile` for the package
state (`cpuinfo` and whether `replacer` is set), with `ReadAll` and `Attr`
as methods.

Some behaviours of the code are easy to misread, and the model follows the
code in each:

- `parseUint` is not part of this model. It is kept abstract: a digit
  string gives its decimal value, and any other text gives the parameter
  `syntaxError` (0 for `strconv.ParseUint`). Empty or blank `cpuset.cpus`
  content, and a failed read of it, split into the one token `""`. So they
  select `[syntaxError]` and not the empty selection. The whole-catalog
  fallback is taken only when the selection is empty. That needs non-empty
  content whose tokens all contribute nothing, for instance `5-3`.
- Entries are not "blocks between blank lines". The newline of the empty
  line that ends an entry starts the next entry. Text after the last empty
  line is never stored. A dump ending in `"\n\n"` stores a last entry that
  is exactly `"\n"`.
- Duplicate ids are kept and sorted next to each other.
- Only the first digit of the old number is part of a match. For host CPU
  12 shown at position 3, the line reads `processor       : 32`.

## Model

| member | source | states |
|---|---|---|
| GoStrings.Split | fs/cpusetinfo.go:129 | strings.Split always yields at least one piece, no piece holds the separator, and joining the pieces gives the input back |
| GoStrings.SplitJoin | fs/cpusetinfo.go:96-97 | splitting the join of separator-free parts gives exactly those parts |
| GoStrings.SplitAtSeparator | fs/cpusetinfo.go:129 | splitting `a + sep + b` gives the pieces of `a` followed by the pieces of `b` |
| GoStrings.SkipSpace | fs/cpusetinfo.go:94 | the position reached is the first one from i on that does not hold white space, everything skipped is white space |
| GoStrings.SkipSpaceBack | fs/cpusetinfo.go:94 | the end reached has no white space before it unless it is the lower bound, everything dropped is white space |
| GoStrings.TrimSpace | fs/cpusetinfo.go:94 | the result is the input with white space removed from both ends, and it neither starts nor ends with white space |
| GoStrings.TrimSpaceUnchanged | fs/cpusetinfo.go:94 | content that neither starts nor ends with white space is left as it is by trimming |
| GoStrings.TrimAllSpace | fs/cpusetinfo.go:94 | content made only of white space trims to the empty string |
| GoStrings.FormatDecimal | fs/cpusetinfo.go:72 | "%d" writes a decimal string with no leading zero whose value is the number |
| Catalog.Step | fs/cpusetinfo.go:130-137 | definition: one turn of the init loop; an empty line stores the buffer as the next entry and restarts it, every line and a newline go to the buffer. Its properties are stated by BuildCatalog, ScanKeepsText and ScanShape |
| Catalog.ScanLines | fs/cpusetinfo.go:129-137 | definition: the loop state after a prefix of the lines. BuildCatalog proves the loop equal to it; CatalogRoundTrip, ScanCountsEmptyLines, ScanShape and TrailingEmptyLine state its properties |
| Catalog.BuildCatalog | fs/cpusetinfo.go:127-138 | the init loop builds a map with keys exactly 0 .. count-1, count is the number of empty lines, the entries and the leftover buffer are those of the line scan, and the map is CatalogOf(raw) |
| Catalog.ScanKeepsText | fs/cpusetinfo.go:129-137 | the stored entries followed by the buffer are every line scanned so far, each followed by a newline |
| Catalog.LinesJoin | fs/cpusetinfo.go:129-137 | writing each line and a newline gives the joined lines plus one newline |
| Catalog.CatalogRoundTrip | fs/cpusetinfo.go:127-138 | the entries 0 .. count-1 in key order, then the unstored buffer, give the host text with one newline appended |
| Catalog.ScanCountsEmptyLines | fs/cpusetinfo.go:130-133 | the number of stored entries equals the number of empty strings Split yields |
| Catalog.ScanShape | fs/cpusetinfo.go:130-137 | every entry after the first starts with a newline, every entry is empty or ends with a newline, and after a first entry the buffer starts with a newline |
| Catalog.NoEmptyLineNoEntry | fs/cpusetinfo.go:127-138 | a host text with no empty line stores no entry, and all of it plus a newline stays in the buffer |
| Catalog.TrailingEmptyLine | fs/cpusetinfo.go:129-137 | a host text ending in two newlines stores a last entry that is exactly a newline, and leaves a newline unstored |
| Cpuset.ParseUintFormat | fs/cpusetinfo.go:101 | parseUint reads back the value that "%d" writes |
| Cpuset.TokenIds | fs/cpusetinfo.go:97-111 | definition: the ids one token contributes. SingleTokenIds, RangeTokenIds and ManyPartTokenIds state its three cases; WriteToken is proved to write exactly these ids |
| Cpuset.Range | fs/cpusetinfo.go:107-110 | the range loop produces begin, begin+1, ..., end, with end-begin+1 ids, and none when begin > end |
| Cpuset.Contributions | fs/cpusetinfo.go:94-111 | definition: all ids the trimmed content contributes, token after token, duplicates kept. CpuSetsOfTokens states it for joined tokens; GetCpuSets returns a sorted permutation of it |
| Cpuset.Insert | fs/cpusetinfo.go:115 | inserting into a sorted sequence keeps it sorted and adds exactly that one element |
| Cpuset.Sort | fs/cpusetinfo.go:115 | the reference sort is sorted and a permutation of its input |
| Cpuset.CpuSets | fs/cpusetinfo.go:94-117 | definition: the sorted contributions, the selection getCpuSets returns. GetCpuSets is proved equal to it; ParseRangeExample, ParseUnorderedExample and EmptyContentSelectsSyntaxErrorValue evaluate it |
| Cpuset.SortedUnique | fs/cpusetinfo.go:115 | two sorted sequences with the same multiset of ids are equal, so the sorted selection is unique |
| Cpuset.SingleTokenIds | fs/cpusetinfo.go:100-103 | a token without '-' contributes exactly its one parsed id |
| Cpuset.RangeTokenIds | fs/cpusetinfo.go:104-111 | a token A-B contributes A, A+1, ..., B, and nothing when A > B |
| Cpuset.ManyPartTokenIds | fs/cpusetinfo.go:100-111 | a token with three or more '-' parts contributes nothing |
| Cpuset.CpuSetsOfTokens | fs/cpusetinfo.go:94-97 | content without outer white space that is the ','-join of some tokens contributes exactly those tokens' ids, in order |
| Cpuset.DigitTokenIds | fs/cpusetinfo.go:100-103 | a one-digit token contributes exactly the digit's value |
| Cpuset.DigitRangeTokenIds | fs/cpusetinfo.go:104-111 | a token of two digits around '-' contributes the ids from the first digit's value to the second's |
| Cpuset.RangeTokenExample | fs/cpusetinfo.go:104-111 | the token "0-2" contributes 0, 1, 2 |
| Cpuset.RangeExampleIds | fs/cpusetinfo.go:96-111 | the tokens "0-2" and "4" contribute 0, 1, 2, 4 |
| Cpuset.SortOfSorted | fs/cpusetinfo.go:115 | sorting an already ascending selection leaves it unchanged |
| Cpuset.SortRangeExample | fs/cpusetinfo.go:115 | sorting leaves 0, 1, 2, 4 unchanged |
| Cpuset.ParseRangeExample | fs/cpusetinfo.go:94-117 | the content "0-2,4" selects [0, 1, 2, 4] |
| Cpuset.UnorderedExampleIds | fs/cpusetinfo.go:96-111 | the tokens "3", "1", "0" contribute 3, 1, 0 in that order |
| Cpuset.SortPairExample | fs/cpusetinfo.go:115 | sorting 1, 0 gives 0, 1 |
| Cpuset.SortUnorderedExample | fs/cpusetinfo.go:115 | sorting 3, 1, 0 gives 0, 1, 3 |
| Cpuset.UnorderedContributions | fs/cpusetinfo.go:94-112 | the content "3,1,0" contributes 3, 1, 0 in token order |
| Cpuset.ParseUnorderedExample | fs/cpusetinfo.go:94-117 | the content "3,1,0" selects [0, 1, 3], whatever the order of the tokens |
| Cpuset.EmptyContentSelectsSyntaxErrorValue | fs/cpusetinfo.go:94-103 | empty or blank content, which a failed read also gives, selects the single id parseUint gives for "" and not the empty selection |
| Cpuset.SwapDown | fs/cpusetinfo.go:115 | swapping an out-of-order neighbour pair keeps the prefix ordered around the element being inserted, one place further down |
| Cpuset.SiftDown | fs/cpusetinfo.go:115 | one insertion step leaves a[..i+1] sorted and a rearrangement of what it held, and leaves a[i+1..] alone |
| Cpuset.SortInts | fs/cpusetinfo.go:115 | sort.Ints on the used prefix leaves it sorted and a permutation of what it held, and leaves the rest of the array alone |
| Cpuset.WriteRange | fs/cpusetinfo.go:107-110 | the range loop writes exactly begin .. end after the first count slots, advances count by their number and leaves every slot after them alone |
| Cpuset.WriteToken | fs/cpusetinfo.go:97-111 | one token's turn writes exactly that token's ids after the first count slots, advances count by their number and leaves every slot after them alone |
| Cpuset.GetCpuSets | fs/cpusetinfo.go:80-118 | the selection is sorted, is a permutation of every id the tokens contribute with duplicates kept, has count ids, never more than the catalog has entries, and is the unique sorted arrangement CpuSets |
| Pattern.SpaceRunEnd | fs/cpusetinfo.go:33 | the lazy run of `\s` characters ends where the `\s` characters end |
| Pattern.MatchLength | fs/cpusetinfo.go:33 | definition: the hand-written matcher for the pattern at one starting point. MatchLengthSound and MatchLengthComplete prove it agrees with the declarative MatchesWith in both directions |
| Pattern.MatchLengthSound | fs/cpusetinfo.go:33 | every match the matcher reports is "processor", one or more `\s`, ':', one or more `\s` and one digit, and its length is that of those parts |
| Pattern.MatchLengthComplete | fs/cpusetinfo.go:33 | every text that starts with such a sequence is a match of exactly that length |
| Pattern.FieldMatches | fs/cpusetinfo.go:33 | "processor", spaces, ':', spaces and a digit at the start of a text form one match of exactly that length |
| Pattern.NoMatchAtDigit | fs/cpusetinfo.go:33 | no match starts at a digit |
| Pattern.ReplaceAll | fs/cpusetinfo.go:71 | definition: ReplaceAllString as a leftmost, non-overlapping scan with a replacement free of `$`. ReplaceAllSkips, ReplaceAllKeepsUnmatched, ReplaceAllNoMatch, ReplaceAllField and ReplaceAllKeepsExtraDigits state its behaviour |
| Pattern.ReplaceAllSkips | fs/cpusetinfo.go:71 | the first k characters, at none of which a match starts, are copied unchanged |
| Pattern.ReplaceAllKeepsUnmatched | fs/cpusetinfo.go:71 | text at whose positions no match starts is copied unchanged by ReplaceAllString |
| Pattern.ReplaceAllNoMatch | fs/cpusetinfo.go:71 | an entry with no match is emitted verbatim |
| Pattern.ReplaceAllField | fs/cpusetinfo.go:71-72 | an ordinal field is replaced as a whole by the replacement, and the scan goes on right after its digit |
| Pattern.ReplaceAllKeepsExtraDigits | fs/cpusetinfo.go:71-72 | for a number of several digits only the first is replaced, and the other digits stay after the new ordinal |
| Render.LeftJustify | fs/cpusetinfo.go:72 | "%-16s" keeps the word and pads it on the right with spaces to 16 characters |
| Render.OrdinalLine | fs/cpusetinfo.go:72 | the replacement text, `"%-16s: %d"` of "processor" and i; it holds no `$`, so ReplaceAllString inserts it as it is. OrdinalLineForm spells it out |
| Render.OrdinalLineForm | fs/cpusetinfo.go:72 | the replacement is "processor", 7 spaces, ": " and the position in decimal |
| Render.RewriteKeepsTrailingDigits | fs/cpusetinfo.go:71-72 | host CPU 12's field at position 3 becomes "processor       : 32" |
| Render.Piece | fs/cpusetinfo.go:69-73 | definition: what position i contributes, the rewritten entry when its id is in the catalog and nothing otherwise. RenderOrdinalIsPosition and RenderSkipsAbsent state both cases |
| Render.Segment | fs/cpusetinfo.go:68-74 | definition: the pieces of positions lo .. hi-1 in order. SegmentSplit cuts it at any position |
| Render.Render | fs/cpusetinfo.go:67-75 | definition: the document for a non-empty selection, the pieces of all positions. GetCpuInfo is proved to produce it; RenderOrdinalIsPosition, RenderSkipsAbsent, RenderNoneFound, RenderPair and RenderSparseSelection state its properties |
| Render.Dump | fs/cpusetinfo.go:63-66 | definition: the entries in a given key order, verbatim. DumpAppend, DumpRemoveAt and DumpLengthIndependentOfOrder state its properties |
| Render.GetCpuInfo | fs/cpusetinfo.go:60-78 | an empty selection emits the catalog entries verbatim in an order that lists every key exactly once; a non-empty one emits the rendered selection |
| Render.RenderOrdinalIsPosition | fs/cpusetinfo.go:67-75 | the entry of a selected id found in the catalog is rewritten with the id's position in the selection, between the output of the earlier and the later positions |
| Render.RenderSkipsAbsent | fs/cpusetinfo.go:69-70 | a selected id with no catalog entry contributes nothing, and later positions keep their ordinals |
| Render.RenderNoneFound | fs/cpusetinfo.go:67-75 | a selection none of whose ids is in the catalog renders as nothing |
| Render.RenderPair | fs/cpusetinfo.go:67-75 | a two-id selection renders as the first position's piece, then the second's |
| Render.RenderSparseSelection | fs/cpusetinfo.go:67-75 | with host ids 0..3, [1, 3] shows host 1 as ordinal 0 and host 3 as ordinal 1, and [1, 99] shows host 1 only |
| Render.SegmentSplit | fs/cpusetinfo.go:68-74 | the output of a range of positions is the output of its first part followed by that of the rest |
| Render.DumpAppend | fs/cpusetinfo.go:64-66 | dumping two key orders one after the other gives the two dumps concatenated |
| Render.DumpRemoveAt | fs/cpusetinfo.go:63-66 | taking one key out of an order shortens the dump by exactly that key's entry |
| Render.DumpLengthPermutation | fs/cpusetinfo.go:63-66 | emitting the same keys in another order gives a document of the same length |
| Render.DumpLengthIndependentOfOrder | fs/cpusetinfo.go:63-66 | any two orders of the catalog keys give fallback documents of the same length |
| CpuInfoNode.IsReadAllContent | fs/cpusetinfo.go:51-58 | definition: what one read may return, "" with replacer nil, else the dump of all entries in some key order for an empty selection or the rendered selection. ReadAll and Attr are specified by it and ReadAllStable relates two reads |
| CpuInfoNode.CpuInfoFile.constructor | fs/cpusetinfo.go:120-146 | a failed read leaves the catalog empty and replacer nil; a successful read builds CatalogOf(raw) and sets replacer |
| CpuInfoNode.CpuInfoFile.ReadAll | fs/cpusetinfo.go:51-58 | the content is empty when replacer is nil, and otherwise the rendered selection, or all entries in some key order when the selection is empty |
| CpuInfoNode.CpuInfoFile.Attr | fs/cpusetinfo.go:42-49 | the attributes get mode 0444 and a size equal to the length of such a ReadAll content |
| CpuInfoNode.ReadAllStable | fs/cpusetinfo.go:42-58 | two reads of the same cpuset content have the same length, so the size Attr reports does not depend on map order; they are equal unless the fallback is taken |

## Left out

- The reads of `/proc/cpuinfo` and `<cgroupdir>/cpuset.cpus` are I/O. The first is passed to the constructor as an `Option` (None for a failed read). The second is passed to `ReadAll` and `Attr` as a string, with "" for a failed read, which is what Go's `string(nil)` gives.
- The `runtime.GOOS` test is left out. A non-Linux host behaves like a failed read (`None`).
- `regexp.Compile` of the constant pattern is not modelled. It always succeeds, so a successful read always sets `replacer`.
- FUSE registration and plumbing are left out: `fileMap`, `INODE_CPUINFO`, `NewCpuInfoFile`, the `cgroupdir` field, `ctx`, the `error` results that are always nil, and `a.Inode`. `FuseAttr` holds only the two fields `Attr` sets other than `Inode`.
- logrus debug logging is left out.
- The shared package `buffer` and the aliasing of `buffer.Bytes()` across concurrent reads are left out. Each read builds a fresh string.
- Go's map iteration order is unspecified. `GetCpuInfo` picks the next key with `:|`, and its ghost `order` records the order used.
- The general regular-expression engine is left out. Only the one fixed pattern is matched, by a hand-written matcher.
- Cpuset.ParseUint: the body of `parseUint` is not shown. It is abstract, and does not model the 32-bit range limit or what is returned for numbers above 2^32-1.
- Cpuset.GetCpuSets: writing past `tmpArray` panics in Go. Here that is the precondition `Fits` instead of a modelled panic.
- CpuInfoNode.CpuInfoFile.ReadAll: carries the same `Fits` precondition, through `CanRead`.
- CpuInfoNode.CpuInfoFile.Attr: `size` counts characters of the model's strings, not UTF-8 bytes. It is an unbounded `nat`, not a `uint64`.
- Cpuset.TokenIds: ids are unbounded `int`s. On 64-bit platforms the `int(cpuID)`, `int(begin)` and `int(end)` conversions of 32-bit `parseUint` results cannot overflow. The wrap of Go's 32-bit `int` on 386 or arm builds is not modelled: there a value of 2^31 or more turns negative, so a token yields a negative id or the range loop writes nothing.
- Pattern.ReplaceAll: the `$` template expansion of `ReplaceAllString` is not modelled. The replacement must hold no `$`, which the one replacement the code uses, `OrdinalLine`, never does.
- `sort.Ints` uses its own sorting algorithm. It is modelled as an insertion sort with the same result, because a sorted permutation is unique (`Cpuset.SortedUnique`).
