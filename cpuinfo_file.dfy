/**
 * The virtual cpuinfo file of fs/cpusetinfo.go. The package state that
 * init sets up (the catalog map `cpuinfo` and whether the pattern
 * `replacer` was compiled) is held by CpuInfoFile; what the node reads from
 * its cgroup directory, the content of cpuset.cpus, is passed in, with ""
 * standing for a failed read.
 */
module CpuInfoNode {
  import opened Wrappers
  import Catalog
  import Cpuset
  import Render

  /** os.FileMode(0444), read permission for owner, group and others. */
  const ReadOnlyMode: int := 4 * 64 + 4 * 8 + 4

  /** The fields of fuse.Attr that Attr sets. */
  class FuseAttr {
    var mode: int
    var size: nat

    constructor ()
      ensures mode == 0 && size == 0
    {
      mode, size := 0, 0;
    }
  }

  /**
   * What ReadAll may return: nothing when the pattern was never compiled;
   * otherwise, for the selection parsed from cpuset.cpus, every catalog
   * entry verbatim in some key order when it is empty, and the rendered
   * selection when it is not.
   */
  ghost predicate IsReadAllContent(cpuinfo: map<int, string>, replacerReady: bool,
                                   cpus: string, syntaxError: nat, data: string, order: seq<int>)
  {
    if !replacerReady then data == ""
    else
      var cpuIDs := Cpuset.CpuSets(cpus, syntaxError);
      if cpuIDs == [] then Render.IsKeyOrder(order, cpuinfo) && data == Render.Dump(cpuinfo, order)
      else data == Render.Render(cpuinfo, cpuIDs)
  }

  class CpuInfoFile {
    /** The catalog, keyed by host CPU index. */
    var cpuinfo: map<int, string>
    /** Whether `replacer` is non-nil, which happens only when /proc/cpuinfo was read. */
    var replacerReady: bool

    /**
     * Package initialisation: the second init, given the text of
     * /proc/cpuinfo or None when reading it failed. The pattern is a
     * constant that compiles, so a successful read always sets `replacer`.
     */
    constructor (hostCpuinfo: Option<string>)
      ensures hostCpuinfo.None? ==> cpuinfo == map[] && !replacerReady
      ensures hostCpuinfo.Some? ==> replacerReady && cpuinfo == Catalog.CatalogOf(hostCpuinfo.value)
    {
      match hostCpuinfo
      case None =>
        cpuinfo, replacerReady := map[], false;
      case Some(raw) =>
        var m, count, buffer := Catalog.BuildCatalog(raw);
        cpuinfo, replacerReady := m, true;
    }

    /** The predicate that getCpuSets does not index past its array. */
    predicate CanRead(cpus: string, syntaxError: nat)
      reads this
    {
      replacerReady ==> Cpuset.Fits(|cpuinfo|, cpus, syntaxError)
    }

    /** ReadAll: the current content of the virtual file, built afresh. */
    method ReadAll(cpus: string, syntaxError: nat) returns (data: string, ghost order: seq<int>)
      requires CanRead(cpus, syntaxError)
      ensures !replacerReady ==> data == ""
      ensures IsReadAllContent(cpuinfo, replacerReady, cpus, syntaxError, data, order)
    {
      order := [];
      if !replacerReady {
        data := "";
        return;
      }
      var cpuIDs := Cpuset.GetCpuSets(cpuinfo, cpus, syntaxError);
      data, order := Render.GetCpuInfo(cpuinfo, cpuIDs);
    }

    /** Attr: mode 0444 and the size of the content ReadAll gives now. */
    method Attr(a: FuseAttr, cpus: string, syntaxError: nat) returns (ghost data: string, ghost order: seq<int>)
      requires CanRead(cpus, syntaxError)
      modifies a
      ensures a.mode == ReadOnlyMode
      ensures a.size == |data|
      ensures IsReadAllContent(cpuinfo, replacerReady, cpus, syntaxError, data, order)
    {
      a.mode := ReadOnlyMode;
      var content;
      content, order := ReadAll(cpus, syntaxError);
      a.size := |content|;
      data := content;
    }
  }

  /**
   * Two reads of an unchanged cpuset.cpus give contents of the same length,
   * so the size Attr reports does not depend on map order; and they give
   * the same content unless the fallback over the whole catalog is taken.
   */
  lemma ReadAllStable(cpuinfo: map<int, string>, replacerReady: bool, cpus: string, syntaxError: nat,
                      d1: string, o1: seq<int>, d2: string, o2: seq<int>)
    requires IsReadAllContent(cpuinfo, replacerReady, cpus, syntaxError, d1, o1)
    requires IsReadAllContent(cpuinfo, replacerReady, cpus, syntaxError, d2, o2)
    ensures |d1| == |d2|
    ensures !replacerReady || Cpuset.CpuSets(cpus, syntaxError) != [] ==> d1 == d2
  {
    if replacerReady && Cpuset.CpuSets(cpus, syntaxError) == [] {
      Render.DumpLengthIndependentOfOrder(cpuinfo, o1, o2);
    }
  }
}
