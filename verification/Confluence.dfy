/**
 The upserts of a batch may reach the asset table in any order. Which attribute values depend on that
 order, and which do not.
 */
module Confluence {
  import opened Wrappers
  import opened EvidenceTables
  import P = Pipeline

  /** One upsert as it reaches the table. */
  datatype Write = Write(tool: string, run: RunId, hint: Hint, newId: AssetId)

  type Assets = map<AssetKey, Asset>

  function Merge(tenant: TenantId, assets: Assets, w: Write): Assets {
    UpsertAsset(Tables(map[], assets, map[], map[]), tenant, w.run, w.hint, w.newId).assets
  }

  function MergeAll(tenant: TenantId, assets: Assets, writes: seq<Write>): Assets {
    if writes == [] then assets
    else Merge(tenant, MergeAll(tenant, assets, writes[..|writes| - 1]), writes[|writes| - 1])
  }

  /** The value of one attribute of one asset, if it is set. */
  function Lookup(assets: Assets, key: AssetKey, attr: string): Option<string> {
    if key in assets && attr in assets[key].attributes then Some(assets[key].attributes[attr]) else None
  }

  /** Does this upsert set the attribute of that asset? */
  predicate Sets(tenant: TenantId, w: Write, key: AssetKey, attr: string) {
    AssetKey(tenant, w.hint.naturalKey) == key && attr in w.hint.attributes
  }

  /** All writers of the attribute write one value. */
  predicate WritersAgree(tenant: TenantId, writes: seq<Write>, key: AssetKey, attr: string) {
    forall i, j | 0 <= i < |writes| && 0 <= j < |writes|
      && Sets(tenant, writes[i], key, attr) && Sets(tenant, writes[j], key, attr) ::
        writes[i].hint.attributes[attr] == writes[j].hint.attributes[attr]
  }

  lemma {:induction false} MergeSetsAttribute(tenant: TenantId, assets: Assets, w: Write, key: AssetKey, attr: string)
    ensures Lookup(Merge(tenant, assets, w), key, attr)
         == if Sets(tenant, w, key, attr) then Some(w.hint.attributes[attr]) else Lookup(assets, key, attr)
  {
  }

  /** Without a writer the old value stays. */
  lemma {:induction false} NoWriterNoChange(
    tenant: TenantId, assets: Assets, writes: seq<Write>, key: AssetKey, attr: string)
    requires forall i | 0 <= i < |writes| :: !Sets(tenant, writes[i], key, attr)
    ensures Lookup(MergeAll(tenant, assets, writes), key, attr) == Lookup(assets, key, attr)
    decreases writes
  {
    if writes != [] {
      var n := |writes| - 1;
      NoWriterNoChange(tenant, assets, writes[..n], key, attr);
      MergeSetsAttribute(tenant, MergeAll(tenant, assets, writes[..n]), writes[n], key, attr);
    }
  }

  /** The last writer wins. */
  lemma {:induction false} LastWriterWins(
    tenant: TenantId, assets: Assets, writes: seq<Write>, last: nat, key: AssetKey, attr: string)
    requires last < |writes| && Sets(tenant, writes[last], key, attr)
    requires forall j | last < j < |writes| :: !Sets(tenant, writes[j], key, attr)
    ensures Lookup(MergeAll(tenant, assets, writes), key, attr) == Some(writes[last].hint.attributes[attr])
    decreases writes
  {
    var n := |writes| - 1;
    MergeSetsAttribute(tenant, MergeAll(tenant, assets, writes[..n]), writes[n], key, attr);
    if last < n {
      LastWriterWins(tenant, assets, writes[..n], last, key, attr);
    }
  }

  /** Where the last writer of an attribute stands. */
  lemma {:induction false} LastWriter(
    tenant: TenantId, writes: seq<Write>, key: AssetKey, attr: string) returns (last: int)
    ensures last == -1 ==> forall i | 0 <= i < |writes| :: !Sets(tenant, writes[i], key, attr)
    ensures last != -1 ==>
      && 0 <= last < |writes| && Sets(tenant, writes[last], key, attr)
      && forall j | last < j < |writes| :: !Sets(tenant, writes[j], key, attr)
    decreases writes
  {
    if writes == [] {
      last := -1;
    } else if Sets(tenant, writes[|writes| - 1], key, attr) {
      last := |writes| - 1;
    } else {
      last := LastWriter(tenant, writes[..|writes| - 1], key, attr);
    }
  }

  ghost predicate IsInterleaving(writes: seq<Write>, order: seq<Write>) {
    multiset(order) == multiset(writes)
  }

  /** Every order of the upserts ends with the same value. */
  ghost predicate OrderIndependent(tenant: TenantId, assets: Assets, writes: seq<Write>, key: AssetKey, attr: string) {
    forall order | IsInterleaving(writes, order) ::
      Lookup(MergeAll(tenant, assets, order), key, attr) == Lookup(MergeAll(tenant, assets, writes), key, attr)
  }

  lemma {:induction false} SameElements(writes: seq<Write>, order: seq<Write>, w: Write)
    requires IsInterleaving(writes, order)
    ensures w in order <==> w in writes
  {
    assert w in multiset(order) <==> w in order;
    assert w in multiset(writes) <==> w in writes;
  }

  /** Agreeing writers: in every order the attribute ends with the written value, or the old one. */
  lemma {:induction false} AgreementDecides(
    tenant: TenantId, assets: Assets, writes: seq<Write>, order: seq<Write>, key: AssetKey, attr: string)
    requires WritersAgree(tenant, writes, key, attr) && IsInterleaving(writes, order)
    ensures forall i | 0 <= i < |writes| && Sets(tenant, writes[i], key, attr) ::
      Lookup(MergeAll(tenant, assets, order), key, attr) == Some(writes[i].hint.attributes[attr])
    ensures (forall i | 0 <= i < |writes| :: !Sets(tenant, writes[i], key, attr)) ==>
      Lookup(MergeAll(tenant, assets, order), key, attr) == Lookup(assets, key, attr)
  {
    var last := LastWriter(tenant, order, key, attr);
    if last == -1 {
      NoWriterNoChange(tenant, assets, order, key, attr);
      forall i | 0 <= i < |writes| ensures !Sets(tenant, writes[i], key, attr) {
        SameElements(writes, order, writes[i]);
        var k :| 0 <= k < |order| && order[k] == writes[i];
      }
    } else {
      LastWriterWins(tenant, assets, order, last, key, attr);
      SameElements(writes, order, order[last]);
      var k :| 0 <= k < |writes| && writes[k] == order[last];
    }
  }

  /** `writes` with one of them moved to the end. */
  function MovedLast(writes: seq<Write>, i: nat): seq<Write>
    requires i < |writes|
  {
    writes[..i] + writes[i + 1..] + [writes[i]]
  }

  lemma {:induction false} MovedLastIsInterleaving(writes: seq<Write>, i: nat)
    requires i < |writes|
    ensures IsInterleaving(writes, MovedLast(writes, i))
  {
    assert writes == writes[..i] + ([writes[i]] + writes[i + 1..]);
  }

  /** The attribute is order-independent exactly when its writers agree. */
  lemma {:induction false} OrderIndependentIffAgreed(
    tenant: TenantId, assets: Assets, writes: seq<Write>, key: AssetKey, attr: string)
    ensures OrderIndependent(tenant, assets, writes, key, attr) <==> WritersAgree(tenant, writes, key, attr)
  {
    if WritersAgree(tenant, writes, key, attr) {
      forall order | IsInterleaving(writes, order)
        ensures Lookup(MergeAll(tenant, assets, order), key, attr)
             == Lookup(MergeAll(tenant, assets, writes), key, attr)
      {
        AgreementDecides(tenant, assets, writes, order, key, attr);
        AgreementDecides(tenant, assets, writes, writes, key, attr);
      }
    }
    if OrderIndependent(tenant, assets, writes, key, attr) {
      forall i | 0 <= i < |writes| && Sets(tenant, writes[i], key, attr)
        ensures Lookup(MergeAll(tenant, assets, writes), key, attr) == Some(writes[i].hint.attributes[attr])
      {
        var order := MovedLast(writes, i);
        MovedLastIsInterleaving(writes, i);
        LastWriterWins(tenant, assets, order, |order| - 1, key, attr);
      }
    }
  }

  // ---------------------------------------------------------------- upserts of whole runs

  /** The upsert that an event performs, if any. */
  ghost function UpsertsIn(w: World, s: P.State, e: P.Event): seq<Write>
    requires P.Enabled(w, s, e)
  {
    if e.Link? then
      var row := s.t.evidence[e.task.id];
      [Write(row.tool, row.run, e.task.stage.n.hint.value, e.newId)]
    else []
  }

  /** The upserts of a run, in the order in which they reach the table. */
  ghost function UpsertsOf(w: World, s: P.State, events: seq<P.Event>): seq<Write>
    requires P.CanRun(w, s, events)
    decreases events
  {
    if events == [] then []
    else UpsertsIn(w, s, events[0]) + UpsertsOf(w, P.Next(w, s, events[0]), events[1..])
  }

  lemma {:induction false} StepMerges(w: World, s: P.State, e: P.Event)
    requires P.Enabled(w, s, e)
    ensures P.Next(w, s, e).t.assets == MergeAll(w.tenant, s.t.assets, UpsertsIn(w, s, e))
  {
    if e.Ingest? {
      P.IngestItemsKeep(s.t, e.run, e.items, e.now);
    } else if e.Link? {
      LinkMerges(w, s, e);
    }
  }

  lemma {:induction false} LinkMerges(w: World, s: P.State, e: P.Event)
    requires P.Enabled(w, s, e) && e.Link?
    ensures P.Next(w, s, e).t.assets == MergeAll(w.tenant, s.t.assets, UpsertsIn(w, s, e))
  {
    assert UpsertsIn(w, s, e)[..0] == [];
  }

  lemma {:induction false} MergeAllFromFront(tenant: TenantId, assets: Assets, w: Write, writes: seq<Write>)
    ensures MergeAll(tenant, assets, [w] + writes) == MergeAll(tenant, Merge(tenant, assets, w), writes)
    decreases writes
  {
    var all := [w] + writes;
    if writes == [] {
      assert all[..0] == [];
    } else {
      var n := |writes| - 1;
      MergeAllFromFront(tenant, assets, w, writes[..n]);
      assert all[..|all| - 1] == [w] + writes[..n];
      assert all[|all| - 1] == writes[n];
    }
  }

  /** Nothing but its upserts decides what a run does to the asset table. */
  lemma {:induction false} RunMergesItsUpserts(w: World, s: P.State, events: seq<P.Event>)
    requires P.CanRun(w, s, events)
    ensures P.Run(w, s, events).t.assets == MergeAll(w.tenant, s.t.assets, UpsertsOf(w, s, events))
    decreases events
  {
    if events != [] {
      var next := P.Next(w, s, events[0]);
      var first := UpsertsIn(w, s, events[0]);
      var rest := UpsertsOf(w, next, events[1..]);
      RunMergesItsUpserts(w, next, events[1..]);
      StepMerges(w, s, events[0]);
      if first == [] {
        assert first + rest == rest;
      } else {
        MergeAllFromFront(w.tenant, s.t.assets, first[0], rest);
        assert first == [first[0]] && first[..0] == [];
      }
    }
  }

  /** The writes without the ids that the database generated. */
  function Unnumbered(writes: seq<Write>): (r: seq<Write>)
    ensures |r| == |writes|
  {
    if writes == [] then []
    else Unnumbered(writes[..|writes| - 1]) + [writes[|writes| - 1].(newId := 0)]
  }

  /** Generated ids do not show in the attributes. */
  lemma {:induction false} NumbersDoNotShow(tenant: TenantId, assets: Assets, writes: seq<Write>)
    ensures MergeAll(tenant, assets, writes).Keys == MergeAll(tenant, assets, Unnumbered(writes)).Keys
    ensures forall key, attr ::
              Lookup(MergeAll(tenant, assets, writes), key, attr)
                == Lookup(MergeAll(tenant, assets, Unnumbered(writes)), key, attr)
    decreases writes
  {
    if writes != [] {
      var n := |writes| - 1;
      var w := writes[n];
      var a, b := MergeAll(tenant, assets, writes[..n]), MergeAll(tenant, assets, Unnumbered(writes[..n]));
      NumbersDoNotShow(tenant, assets, writes[..n]);
      assert (Unnumbered(writes[..n]) + [w.(newId := 0)])[..n] == Unnumbered(writes[..n]);
      assert Unnumbered(writes) == Unnumbered(writes[..n]) + [w.(newId := 0)];
      forall key, attr
        ensures Lookup(Merge(tenant, a, w), key, attr) == Lookup(Merge(tenant, b, w.(newId := 0)), key, attr)
      {
        MergeSetsAttribute(tenant, a, w, key, attr);
        MergeSetsAttribute(tenant, b, w.(newId := 0), key, attr);
      }
    }
  }

  /** Two runs whose upserts are the same up to order and generated ids agree where the writers agree. */
  lemma {:induction false} InterleavedRunsAgree(
    w: World, s: P.State, one: seq<P.Event>, other: seq<P.Event>, key: AssetKey, attr: string)
    requires P.CanRun(w, s, one) && P.CanRun(w, s, other)
    requires IsInterleaving(Unnumbered(UpsertsOf(w, s, one)), Unnumbered(UpsertsOf(w, s, other)))
    requires WritersAgree(w.tenant, Unnumbered(UpsertsOf(w, s, one)), key, attr)
    ensures Lookup(P.Run(w, s, one).t.assets, key, attr) == Lookup(P.Run(w, s, other).t.assets, key, attr)
  {
    var a, b := UpsertsOf(w, s, one), UpsertsOf(w, s, other);
    RunMergesItsUpserts(w, s, one);
    RunMergesItsUpserts(w, s, other);
    NumbersDoNotShow(w.tenant, s.t.assets, a);
    NumbersDoNotShow(w.tenant, s.t.assets, b);
    OrderIndependentIffAgreed(w.tenant, s.t.assets, Unnumbered(a), key, attr);
  }

  // ---------------------------------------------------------------- the parsers' attribute keys

  /** The attribute keys that each parser writes; a missing value is written as null, never left out. */
  const ATTRIBUTES: map<string, set<string>> := map[
    "lscpu" := {"cpu_model", "cpu_vendor", "cpus", "sockets", "cores_per_socket", "threads_per_core",
                "numa_nodes", "architecture"},
    "hwprobe" := {"numa_nodes", "package_count", "core_count", "pu_count", "l3_cache_bytes",
                  "machine_model", "bios_vendor"},
    "lsblk" := {"disk_count", "rotational_disks", "total_storage_bytes"},
    "lspci" := {"pci_device_count", "pci_gpus", "pci_nics", "pci_nvme"},
    "uname" := {"kernel_name", "kernel_release", "os"},
    "ip" := {"network_interface_count", "non_loopback_interfaces"},
    "ss" := {"listening_socket_count"},
    "findmnt" := {"mount_count"}]

  /** The tool that writes an attribute, when only one does. */
  lemma {:induction false} OnlyNumaNodesIsShared(tool: string, other: string, attr: string)
    requires tool in ATTRIBUTES && other in ATTRIBUTES
    requires attr in ATTRIBUTES[tool] && attr in ATTRIBUTES[other] && tool != other
    ensures attr == "numa_nodes" && {tool, other} == {"lscpu", "hwprobe"} && tool in TOOLS && other in TOOLS
  {
    OnlyNumaNodesFrom(tool, other, attr);
    OnlyNumaNodesFrom(other, tool, attr);
  }

  lemma {:induction false} OnlyNumaNodesFrom(tool: string, other: string, attr: string)
    requires tool in ATTRIBUTES && other in ATTRIBUTES
    requires attr in ATTRIBUTES[tool] && attr in ATTRIBUTES[other] && tool != other
    ensures attr == "numa_nodes" && tool in {"lscpu", "hwprobe"}
  {
    if tool in {"lscpu", "hwprobe"} {
      HostToolsShareNumaNodes(tool, other, attr);
    } else {
      OtherToolsShareNothing(tool, other, attr);
    }
  }

  lemma {:induction false} HostToolsShareNumaNodes(tool: string, other: string, attr: string)
    requires tool in {"lscpu", "hwprobe"} && other in ATTRIBUTES
    requires attr in ATTRIBUTES[tool] && attr in ATTRIBUTES[other] && tool != other
    ensures attr == "numa_nodes"
  {
  }

  lemma {:induction false} OtherToolsShareNothing(tool: string, other: string, attr: string)
    requires tool in ATTRIBUTES && tool !in {"lscpu", "hwprobe"} && other in ATTRIBUTES
    requires attr in ATTRIBUTES[tool] && tool != other
    ensures attr !in ATTRIBUTES[other]
  {
    if tool in {"lsblk", "uname"} {
      DiskAndKernelAlone(tool, other, attr);
    } else if tool == "lspci" {
      PciAlone(other, attr);
    } else {
      NetworkAlone(tool, other, attr);
    }
  }

  lemma {:induction false} DiskAndKernelAlone(tool: string, other: string, attr: string)
    requires tool in {"lsblk", "uname"} && other in ATTRIBUTES && attr in ATTRIBUTES[tool] && tool != other
    ensures attr !in ATTRIBUTES[other]
  {
  }

  lemma {:induction false} PciAlone(other: string, attr: string)
    requires other in ATTRIBUTES && attr in ATTRIBUTES["lspci"] && other != "lspci"
    ensures attr !in ATTRIBUTES[other]
  {
  }

  lemma {:induction false} NetworkAlone(tool: string, other: string, attr: string)
    requires tool in {"ip", "ss", "findmnt"} && other in ATTRIBUTES && attr in ATTRIBUTES[tool] && tool != other
    ensures attr !in ATTRIBUTES[other]
  {
  }

  predicate FromParsers(writes: seq<Write>) {
    forall i | 0 <= i < |writes| ::
      writes[i].tool in ATTRIBUTES && writes[i].hint.attributes.Keys == ATTRIBUTES[writes[i].tool]
  }

  /** At most one item of each tool for each host. */
  predicate OnePerToolAndHost(writes: seq<Write>) {
    forall i, j | 0 <= i < j < |writes| ::
      writes[i].tool != writes[j].tool || writes[i].hint.naturalKey != writes[j].hint.naturalKey
  }

  /** With one item per tool and host, every attribute but `numa_nodes` is order-independent. */
  lemma {:induction false} OnlyNumaNodesDependsOnOrder(
    tenant: TenantId, assets: Assets, writes: seq<Write>, key: AssetKey, attr: string)
    requires FromParsers(writes) && OnePerToolAndHost(writes) && attr != "numa_nodes"
    ensures OrderIndependent(tenant, assets, writes, key, attr)
  {
    forall i, j | 0 <= i < |writes| && 0 <= j < |writes|
      && Sets(tenant, writes[i], key, attr) && Sets(tenant, writes[j], key, attr)
      ensures writes[i].hint.attributes[attr] == writes[j].hint.attributes[attr]
    {
      if i != j {
        OnlyNumaNodesIsShared(writes[i].tool, writes[j].tool, attr);
      }
    }
    OrderIndependentIffAgreed(tenant, assets, writes, key, attr);
  }

  /** `numa_nodes` does depend on it whenever the two tools report different values for one host. */
  lemma {:induction false} NumaNodesDependsOnOrder(tenant: TenantId, assets: Assets, lscpu: Write, hwprobe: Write)
    requires FromParsers([lscpu, hwprobe]) && lscpu.tool == "lscpu" && hwprobe.tool == "hwprobe"
    requires lscpu.hint.naturalKey == hwprobe.hint.naturalKey
    requires "numa_nodes" in lscpu.hint.attributes && "numa_nodes" in hwprobe.hint.attributes
    requires lscpu.hint.attributes["numa_nodes"] != hwprobe.hint.attributes["numa_nodes"]
    ensures !OrderIndependent(tenant, assets, [lscpu, hwprobe], AssetKey(tenant, lscpu.hint.naturalKey), "numa_nodes")
  {
    var writes := [lscpu, hwprobe];
    var key := AssetKey(tenant, lscpu.hint.naturalKey);
    assert Sets(tenant, writes[0], key, "numa_nodes") && Sets(tenant, writes[1], key, "numa_nodes");
    OrderIndependentIffAgreed(tenant, assets, writes, key, "numa_nodes");
  }
}
