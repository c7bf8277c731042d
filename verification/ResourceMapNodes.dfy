/** Every node of the map has an id of its own, although fifteen kinds of objects share one space of ids. */
module ResourceMapNodes {
  import opened ResourceMap
  import opened ResourceMapFilter
  import opened ResourceMapServices
  import opened ResourceMapTypes
  import opened Wrappers

  ghost predicate DistinctIds(nodes: seq<Node>) {
    forall i, j :: 0 <= i < j < |nodes| ==> nodes[i].id != nodes[j].id
  }

  ghost predicate OfKind(nodes: seq<Node>, kind: string) {
    forall i :: 0 <= i < |nodes| ==> KindOfId(nodes[i].id) == kind
  }

  function CronJobMeta(r: CronJob): Meta { r.meta }

  function JobMeta(r: Job): Meta { r.meta }

  function HpaMeta(r: Hpa): Meta { r.meta }

  function IngressMeta(r: Ingress): Meta { r.meta }

  function SecretMeta(r: Secret): Meta { r.meta }

  function PvcMeta(r: Pvc): Meta { r.meta }

  function OwnMeta(r: Meta): Meta { r }

  function PvName(pv: Pv): string { GetOr(pv.name, "") }

  /** Within one kind, no two objects share a namespace and a name. */
  ghost predicate DistinctNames(c: Cluster) {
    && UniqueNames(c)
    && DistinctKeys(c.deployments, WorkloadMeta) && DistinctKeys(c.statefulSets, WorkloadMeta)
    && DistinctKeys(c.daemonSets, WorkloadMeta)
    && DistinctKeys(c.cronJobs, CronJobMeta) && DistinctKeys(c.jobs, JobMeta) && DistinctKeys(c.hpas, HpaMeta)
    && DistinctKeys(c.ingresses, IngressMeta) && DistinctKeys(c.configMaps, OwnMeta)
    && DistinctKeys(c.secrets, SecretMeta)
    && DistinctKeys(c.serviceAccounts, OwnMeta) && DistinctKeys(c.pvcs, PvcMeta)
    && forall i, j :: 0 <= i < j < |c.pvs| ==> PvName(c.pvs[i]) != PvName(c.pvs[j])
  }

  // ── One pass ─────────────────────────────────────────────────────────────

  /** What a loop pushes for one resource: nothing, or the node of that resource. */
  ghost predicate NodeOf(nodes: seq<Node>, kind: string, meta: Meta) {
    nodes == [] || (|nodes| == 1 && nodes[0].id == MetaId(kind, meta))
  }

  ghost predicate IsNodeOf<R>(n: Node, rs: seq<R>, metaOf: R -> Meta, kind: string) {
    exists i :: 0 <= i < |rs| && n.id == MetaId(kind, metaOf(rs[i]))
  }

  lemma {:induction false} PassIds<R, X>(
      rs: seq<R>, out: (R, NsFilter, X) -> seq<Node>, f: NsFilter, x: X, metaOf: R -> Meta, kind: string)
    requires DistinctKeys(rs, metaOf) && forall i :: 0 <= i < |rs| ==> NodeOf(out(rs[i], f, x), kind, metaOf(rs[i]))
    ensures var nodes := FlatMap(rs, out, f, x);
      DistinctIds(nodes) && forall k :: 0 <= k < |nodes| ==> IsNodeOf(nodes[k], rs, metaOf, kind)
  {
    if rs == [] {
    } else {
      var init, last := rs[..|rs| - 1], |rs| - 1;
      PassIds(init, out, f, x, metaOf, kind);
      hide DistinctKeys;
      assert NodeOf(out(rs[last], f, x), kind, metaOf(rs[last]));
      var before, all := FlatMap(init, out, f, x), FlatMap(rs, out, f, x);
      assert all == before + out(rs[last], f, x);
      assert forall k :: |before| <= k < |all| ==> all[k].id == MetaId(kind, metaOf(rs[last]));
      hide FlatMap, MetaId, NodeOf;
      forall k | 0 <= k < |all| ensures IsNodeOf(all[k], rs, metaOf, kind) {
        if k < |before| {
          var i :| 0 <= i < |init| && before[k].id == MetaId(kind, metaOf(init[i]));
          assert rs[i] == init[i];
        }
      }
      forall k | 0 <= k < |before| ensures before[k].id != MetaId(kind, metaOf(rs[last])) {
        var i :| 0 <= i < |init| && before[k].id == MetaId(kind, metaOf(init[i]));
        assert rs[i] == init[i];
        MetaIdInjective(kind, metaOf(rs[i]), metaOf(rs[last]));
      }
    }
  }

  lemma PassOfKind<R, X>(
      rs: seq<R>, out: (R, NsFilter, X) -> seq<Node>, f: NsFilter, x: X, metaOf: R -> Meta, kind: string)
    requires SlashFree(kind) && DistinctKeys(rs, metaOf)
    requires forall i :: 0 <= i < |rs| ==> NodeOf(out(rs[i], f, x), kind, metaOf(rs[i]))
    ensures var nodes := FlatMap(rs, out, f, x); DistinctIds(nodes) && OfKind(nodes, kind)
  {
    var nodes := FlatMap(rs, out, f, x);
    PassIds(rs, out, f, x, metaOf, kind);
    hide FlatMap, MetaId;
    forall k | 0 <= k < |nodes| ensures KindOfId(nodes[k].id) == kind {
      var i :| 0 <= i < |rs| && nodes[k].id == MetaId(kind, metaOf(rs[i]));
      KindOf(kind, NsOf(metaOf(rs[i])), NameOf(metaOf(rs[i])));
    }
  }

  lemma {:induction false} PvPassIds(pvs: seq<Pv>, f: NsFilter, volumes: set<string>)
    requires forall i, j :: 0 <= i < j < |pvs| ==> PvName(pvs[i]) != PvName(pvs[j])
    ensures var nodes := FlatMap(pvs, PvNodes, f, volumes);
      && DistinctIds(nodes) && OfKind(nodes, "pv")
      && forall k :: 0 <= k < |nodes| ==> exists i :: 0 <= i < |pvs| && nodes[k].id == VolumeId(PvName(pvs[i]))
  {
    if pvs == [] {
    } else {
      var init, last := pvs[..|pvs| - 1], |pvs| - 1;
      PvPassIds(init, f, volumes);
      var before, all := FlatMap(init, PvNodes, f, volumes), FlatMap(pvs, PvNodes, f, volumes);
      assert all == before + PvNodes(pvs[last], f, volumes);
      VolumeIdKind(PvName(pvs[last]));
      hide FlatMap, VolumeId, KindOfId, ToLower;
      forall k | 0 <= k < |all| ensures exists i :: 0 <= i < |pvs| && all[k].id == VolumeId(PvName(pvs[i])) {
        if k < |before| {
          var i :| 0 <= i < |init| && before[k].id == VolumeId(PvName(init[i]));
          assert pvs[i] == init[i];
        } else {
          assert all[k].id == VolumeId(PvName(pvs[last]));
        }
      }
      forall k | 0 <= k < |before| ensures before[k].id != VolumeId(PvName(pvs[last])) {
        var i :| 0 <= i < |init| && before[k].id == VolumeId(PvName(init[i]));
        VolumeIdInjective(PvName(init[i]), PvName(pvs[last]));
        assert pvs[i] == init[i];
      }
    }
  }

  lemma VolumeIdKind(name: string)
    ensures KindOfId(VolumeId(name)) == "pv"
  {
    assert VolumeId(name) == "pv" + "/" + name;
    SplitAtSlash("pv", name);
  }

  // ── All passes ───────────────────────────────────────────────────────────

  /** The first segment of the ids that each pass gives out, in the order of the passes. */
  const KINDS: seq<string> := [
    "pod", "deployment", "replicaset", "statefulset", "daemonset", "cronjob", "job", "hpa", "service", "ingress",
    "configmap", "secret", "serviceaccount", "pvc", "pv"]

  lemma WorkloadShapes(c: Cluster, f: NsFilter, i: nat)
    requires DistinctNames(c) && i < 5
    ensures DistinctIds(NodePasses(c, f)[i]) && OfKind(NodePasses(c, f)[i], KINDS[i])
  {
    hide FlatMap, DistinctKeys, DistinctIds, OfKind, MakeNode, WorkloadNodes, MetaId, InNs, NsOf, Retired,
      ReferencedSas, ReferencedPvcs, ReferencedPvs;
    if i == 0 { PassOfKind(c.pods, PodNodes, f, (), PodMeta, "pod"); }
    if i == 1 { PassOfKind(c.deployments, DeploymentNodes, f, (), WorkloadMeta, "deployment"); }
    if i == 2 { PassOfKind(c.replicaSets, ReplicaSetNodes, f, (), WorkloadMeta, "replicaset"); }
    if i == 3 { PassOfKind(c.statefulSets, StatefulSetNodes, f, (), WorkloadMeta, "statefulset"); }
    if i == 4 { PassOfKind(c.daemonSets, DaemonSetNodes, f, (), WorkloadMeta, "daemonset"); }
  }

  lemma BatchShapes(c: Cluster, f: NsFilter, i: nat)
    requires DistinctNames(c) && 5 <= i < 10
    ensures DistinctIds(NodePasses(c, f)[i]) && OfKind(NodePasses(c, f)[i], KINDS[i])
  {
    hide FlatMap, DistinctKeys, DistinctIds, OfKind, MakeNode, MetaId, InNs, NsOf, InMap, ReferencedSas,
      ReferencedPvcs, ReferencedPvs;
    if i == 5 { PassOfKind(c.cronJobs, CronJobNodes, f, (), CronJobMeta, "cronjob"); }
    if i == 6 { PassOfKind(c.jobs, JobNodes, f, (), JobMeta, "job"); }
    if i == 7 { PassOfKind(c.hpas, HpaNodes, f, (), HpaMeta, "hpa"); }
    if i == 8 { PassOfKind(c.services, ServiceNodes, f, (), ServiceMeta, "service"); }
    if i == 9 { PassOfKind(c.ingresses, IngressNodes, f, (), IngressMeta, "ingress"); }
  }

  lemma OtherShapes(c: Cluster, f: NsFilter, i: nat)
    requires DistinctNames(c) && 10 <= i < 15
    ensures DistinctIds(NodePasses(c, f)[i]) && OfKind(NodePasses(c, f)[i], KINDS[i])
  {
    var sas, claims := ReferencedSas(c.pods, f), ReferencedPvcs(c.pods, f);
    hide FlatMap, DistinctKeys, DistinctIds, OfKind, MakeNode, MetaId, InNs, NsOf, NameOf, ReferencedSas,
      ReferencedPvcs, ReferencedPvs, ToLower, KeyOf;
    if i == 10 { PassOfKind(c.configMaps, ConfigMapNodes, f, (), OwnMeta, "configmap"); }
    if i == 11 { PassOfKind(c.secrets, SecretNodes, f, (), SecretMeta, "secret"); }
    if i == 12 { PassOfKind(c.serviceAccounts, ServiceAccountNodes, f, sas, OwnMeta, "serviceaccount"); }
    if i == 13 { PassOfKind(c.pvcs, PvcNodes, f, claims, PvcMeta, "pvc"); }
    if i == 14 { PvPassIds(c.pvs, f, ReferencedPvs(c.pvcs, f, claims)); }
  }

  /** Parts of different kinds with distinct ids stay distinct when concatenated. */
  lemma {:induction false} ConcatIds(parts: seq<seq<Node>>, kinds: seq<string>)
    requires |parts| == |kinds| && forall i, j :: 0 <= i < j < |kinds| ==> kinds[i] != kinds[j]
    requires forall i :: 0 <= i < |parts| ==> DistinctIds(parts[i]) && OfKind(parts[i], kinds[i])
    ensures DistinctIds(Concat(parts))
    ensures forall k :: 0 <= k < |Concat(parts)| ==> KindOfId(Concat(parts)[k].id) in kinds
  {
    if parts == [] {
    } else {
      var last := |parts| - 1;
      ConcatIds(parts[..last], kinds[..last]);
      hide KindOfId;
      var before, all := Concat(parts[..last]), Concat(parts);
      assert DistinctIds(parts[last]) && OfKind(parts[last], kinds[last]);
      forall k | 0 <= k < |before| ensures KindOfId(before[k].id) != kinds[last] && KindOfId(before[k].id) in kinds {
        var i :| 0 <= i < last && kinds[..last][i] == KindOfId(before[k].id);
        assert kinds[i] != kinds[last];
      }
      hide Concat;
    }
  }

  /** No two nodes of the map have the same id. */
  lemma NodeIdsAreUnique(c: Cluster, f: NsFilter)
    requires DistinctNames(c)
    ensures DistinctIds(Map(c, f).nodes)
  {
    var parts := NodePasses(c, f);
    forall i | 0 <= i < 15 ensures DistinctIds(parts[i]) && OfKind(parts[i], KINDS[i]) {
      if i < 5 { WorkloadShapes(c, f, i); } else if i < 10 { BatchShapes(c, f, i); } else { OtherShapes(c, f, i); }
    }
    KindsDiffer();
    hide NodePasses, DistinctIds, OfKind, DistinctNames, EdgePasses, SortAndDedup;
    ConcatIds(parts, KINDS);
  }

  lemma KindsDiffer()
    ensures forall i, j :: 0 <= i < j < |KINDS| ==> KINDS[i] != KINDS[j]
  {
  }
}
