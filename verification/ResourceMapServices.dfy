/** Which controllers a service points at, and that sorting and deduplicating lose no edge. */
module ResourceMapServices {
  import opened ResourceMap
  import opened ResourceMapFilter
  import opened ResourceMapTypes
  import opened Sorting
  import opened Strings
  import opened Wrappers

  // ── The final edges ──────────────────────────────────────────────────────

  /** The finished edges are in strict order of (source, target), so each pair occurs once. */
  lemma FinalEdgesStrict(c: Cluster, f: NsFilter)
    ensures StrictlySorted(Map(c, f).edges, EdgeKey)
  {
    var raw := Concat(EdgePasses(c, f));
    SortBySorted(raw, EdgeKey);
    DedupByStrict(SortBy(raw, EdgeKey), EdgeKey);
  }

  // ── Tracing owners without the lookup tables ─────────────────────────────

  ghost predicate DistinctKeys<R>(rs: seq<R>, metaOf: R -> Meta) {
    forall i, j :: 0 <= i < j < |rs| ==> KeyOf(metaOf(rs[i])) != KeyOf(metaOf(rs[j]))
  }

  function PodMeta(pod: Pod): Meta { pod.meta }

  function WorkloadMeta(w: Workload): Meta { w.meta }

  function ServiceMeta(svc: Service): Meta { svc.meta }

  /** No two pods, ReplicaSets or services share a namespace and a name. */
  ghost predicate UniqueNames(c: Cluster) {
    DistinctKeys(c.pods, PodMeta) && DistinctKeys(c.replicaSets, WorkloadMeta) && DistinctKeys(c.services, ServiceMeta)
  }

  function FirstOwner(ns: string, owners: seq<OwnerRef>): Option<OwnerRef> {
    if owners == [] then None
    else if PodOwnerId(ns, owners[0]).Some? then Some(owners[0])
    else FirstOwner(ns, owners[1..])
  }

  ghost predicate NamesDeployment(rs: Workload, key: string, id: string) {
    KeyOf(rs.meta) == key && DeploymentOf(NsOf(rs.meta), rs.meta.owners) == Some(id)
  }

  /** The Deployment of the ReplicaSet of that namespace and name, found by looking through all of them. */
  ghost predicate IsDeploymentOf(rsets: seq<Workload>, key: string, id: string) {
    exists i :: 0 <= i < |rsets| && NamesDeployment(rsets[i], key, id)
  }

  /** pod → ReplicaSet → Deployment, or the direct owner, or the pod itself. */
  ghost predicate IsTopController(c: Cluster, pod: Pod, id: string) {
    var ns := NsOf(pod.meta);
    match FirstOwner(ns, pod.meta.owners)
    case None => id == MetaId("pod", pod.meta)
    case Some(owner) =>
      if owner.kind == "ReplicaSet" && exists d :: IsDeploymentOf(c.replicaSets, ObjectKey(ns, owner.name), d) then
        IsDeploymentOf(c.replicaSets, ObjectKey(ns, owner.name), id)
      else
        PodOwnerId(ns, owner) == Some(id)
  }

  lemma {:induction false} RsToDepExact(rsets: seq<Workload>, key: string)
    requires DistinctKeys(rsets, WorkloadMeta)
    ensures key in RsToDep(rsets) <==> exists d :: IsDeploymentOf(rsets, key, d)
    ensures key in RsToDep(rsets) ==> forall d :: IsDeploymentOf(rsets, key, d) <==> d == RsToDep(rsets)[key]
  {
    if rsets == [] {
    } else {
      var init, rs := rsets[..|rsets| - 1], rsets[|rsets| - 1];
      assert DistinctKeys(init, WorkloadMeta) by {
        forall i, j | 0 <= i < j < |init| ensures KeyOf(WorkloadMeta(init[i])) != KeyOf(WorkloadMeta(init[j])) {
          assert rsets[i] == init[i] && rsets[j] == init[j];
        }
      }
      RsToDepExact(init, key);
      var dep := DeploymentOf(NsOf(rs.meta), rs.meta.owners);
      assert init + [rs] == rsets;
      forall d
        ensures IsDeploymentOf(rsets, key, d) <==>
          IsDeploymentOf(init, key, d) || (KeyOf(rs.meta) == key && dep == Some(d))
      {
        IsDeploymentOfPush(init, rs, key, d);
      }
      if KeyOf(rs.meta) == key && dep.Some? {
        assert IsDeploymentOf(rsets, key, dep.value);
      }
      assert forall d :: KeyOf(rs.meta) == key ==> !IsDeploymentOf(init, key, d) by {
        forall i | 0 <= i < |init| ensures KeyOf(init[i].meta) != KeyOf(rs.meta) {
          assert KeyOf(WorkloadMeta(rsets[i])) != KeyOf(WorkloadMeta(rsets[|rsets| - 1]));
        }
      }
      hide IsDeploymentOf, DistinctKeys, KeyOf, DeploymentOf, NsOf;
    }
  }

  lemma IsDeploymentOfPush(init: seq<Workload>, rs: Workload, key: string, d: string)
    ensures IsDeploymentOf(init + [rs], key, d) <==> IsDeploymentOf(init, key, d) || NamesDeployment(rs, key, d)
  {
    hide NamesDeployment;
    var all := init + [rs];
    if i :| 0 <= i < |init| && NamesDeployment(init[i], key, d) {
      assert all[i] == init[i];
    }
    assert all[|init|] == rs;
  }

  lemma {:induction false} OwnerControllerIsFirst(ns: string, owners: seq<OwnerRef>, rsToDep: map<string, string>)
    ensures OwnerController(ns, owners, rsToDep) ==
      match FirstOwner(ns, owners)
      case None => None
      case Some(owner) =>
        if owner.kind == "ReplicaSet" && ObjectKey(ns, owner.name) in rsToDep then
          Some(rsToDep[ObjectKey(ns, owner.name)])
        else PodOwnerId(ns, owner)
  {
    hide PodOwnerId, ObjectKey;
    if owners == [] {
    } else {
      OwnerControllerIsFirst(ns, owners[1..], rsToDep);
    }
  }

  lemma {:induction false} FirstOwnerKnown(ns: string, owners: seq<OwnerRef>)
    ensures FirstOwner(ns, owners).Some? ==> PodOwnerId(ns, FirstOwner(ns, owners).value).Some?
  {
    hide PodOwnerId;
    if owners == [] {
    } else {
      FirstOwnerKnown(ns, owners[1..]);
    }
  }

  lemma ControllerExact(c: Cluster, pod: Pod, id: string)
    requires DistinctKeys(c.replicaSets, WorkloadMeta)
    ensures Controller(pod, RsToDep(c.replicaSets)) == id <==> IsTopController(c, pod, id)
  {
    var ns := NsOf(pod.meta);
    var first := FirstOwner(ns, pod.meta.owners);
    OwnerControllerIsFirst(ns, pod.meta.owners, RsToDep(c.replicaSets));
    FirstOwnerKnown(ns, pod.meta.owners);
    if first.Some? {
      RsToDepExact(c.replicaSets, ObjectKey(ns, first.value.name));
    }
    hide FirstOwner, OwnerController, RsToDep, IsDeploymentOf, PodOwnerId, ObjectKey, MetaId, NsOf, DistinctKeys;
  }

  /** With distinct names the table gives every pod its own entry. */
  lemma {:induction false} PodToControllerExact(pods: seq<Pod>, rsToDep: map<string, string>, i: nat)
    requires DistinctKeys(pods, PodMeta) && i < |pods|
    ensures LookupController(pods[i], PodToController(pods, rsToDep)) == Controller(pods[i], rsToDep)
  {
    var init, last := pods[..|pods| - 1], pods[|pods| - 1];
    if i < |pods| - 1 {
      assert DistinctKeys(init, PodMeta) by {
        forall i, j | 0 <= i < j < |init| ensures KeyOf(PodMeta(init[i])) != KeyOf(PodMeta(init[j])) {
          assert pods[i] == init[i] && pods[j] == init[j];
        }
      }
      PodToControllerExact(init, rsToDep, i);
      PodToControllerHas(init, rsToDep, i);
      assert KeyOf(PodMeta(pods[i])) != KeyOf(PodMeta(pods[|pods| - 1]));
    }
    hide DistinctKeys, KeyOf, Controller, MetaId;
  }

  lemma {:induction false} PodToControllerHas(pods: seq<Pod>, rsToDep: map<string, string>, i: nat)
    requires i < |pods|
    ensures KeyOf(pods[i].meta) in PodToController(pods, rsToDep)
  {
    hide KeyOf, Controller;
    if i < |pods| - 1 {
      PodToControllerHas(pods[..|pods| - 1], rsToDep, i);
    }
  }

  lemma {:induction false} SelectedExact(svc: Service, pods: seq<Pod>, controllers: map<string, string>, id: string)
    ensures id in SelectedControllers(svc, pods, controllers) <==>
      exists i :: 0 <= i < |pods| && Selects(svc, pods[i]) && LookupController(pods[i], controllers) == id
  {
    hide Selects, LookupController;
    if pods == [] {
    } else {
      var init, pod := pods[..|pods| - 1], pods[|pods| - 1];
      SelectedExact(svc, init, controllers, id);
      if i :| 0 <= i < |init| && Selects(svc, init[i]) && LookupController(init[i], controllers) == id {
        assert pods[i] == init[i];
      }
      if i :| 0 <= i < |pods| && Selects(svc, pods[i]) && LookupController(pods[i], controllers) == id {
        assert i < |init| ==> pods[i] == init[i];
      }
      assert pods[|pods| - 1] == pod;
    }
  }

  // ── The edges that leave a service ───────────────────────────────────────

  lemma {:induction false} ConcatMembers<T>(parts: seq<seq<T>>, e: T)
    ensures e in Concat(parts) <==> exists i :: 0 <= i < |parts| && e in parts[i]
  {
    if parts == [] {
    } else {
      var init, last := parts[..|parts| - 1], parts[|parts| - 1];
      ConcatMembers(init, e);
      if i :| 0 <= i < |init| && e in init[i] {
        assert e in parts[i];
      }
      if i :| 0 <= i < |parts| && e in parts[i] {
        assert i < |init| ==> e in init[i];
      }
    }
  }

  lemma {:induction false} FlatMapMembers<R, X, T>(
      rs: seq<R>, out: (R, NsFilter, X) -> seq<T>, f: NsFilter, x: X, e: T)
    ensures e in FlatMap(rs, out, f, x) <==> exists i :: 0 <= i < |rs| && e in out(rs[i], f, x)
  {
    if rs == [] {
    } else {
      var init, last := rs[..|rs| - 1], rs[|rs| - 1];
      FlatMapMembers(init, out, f, x, e);
      if i :| 0 <= i < |init| && e in out(init[i], f, x) {
        assert e in out(rs[i], f, x);
      }
      if i :| 0 <= i < |rs| && e in out(rs[i], f, x) {
        assert i < |init| ==> e in out(init[i], f, x);
      }
    }
  }

  lemma PassHasNoService<R, X>(rs: seq<R>, out: (R, NsFilter, X) -> seq<Edge>, f: NsFilter, x: X, e: Edge)
    requires KindOfId(e.source) == "service" && forall i :: 0 <= i < |rs| ==> NoServiceSource(out(rs[i], f, x))
    ensures e !in FlatMap(rs, out, f, x)
  {
    FlatMapMembers(rs, out, f, x, e);
    forall i | 0 <= i < |rs| ensures e !in out(rs[i], f, x) {
      assert NoServiceSource(out(rs[i], f, x));
    }
  }

  lemma OtherPassesHaveNoService(c: Cluster, f: NsFilter, e: Edge, i: nat)
    requires PlainNamespaces(c) && KindOfId(e.source) == "service" && i < 7 && i != 4
    ensures e !in EdgePasses(c, f)[i]
  {
    hide FlatMap, ReferencedPvcs, SlashFree, PodToController, RsToDep, KindOfId;
    if i == 0 {
      forall j | 0 <= j < |c.pods| ensures NoServiceSource(PodEdges(c.pods[j], f, ())) { PodEdgesFacts(c.pods[j]); }
      PassHasNoService(c.pods, PodEdges, f, (), e);
    } else if i == 1 {
      forall j | 0 <= j < |c.replicaSets|
        ensures NoServiceSource(ReplicaSetEdges(c.replicaSets[j], f, ()))
      {
        ReplicaSetEdgesFacts(c.replicaSets[j]);
      }
      PassHasNoService(c.replicaSets, ReplicaSetEdges, f, (), e);
    } else if i == 2 {
      forall j | 0 <= j < |c.jobs| ensures NoServiceSource(JobEdges(c.jobs[j], f, ())) { JobEdgesFacts(c.jobs[j]); }
      PassHasNoService(c.jobs, JobEdges, f, (), e);
    } else if i == 3 {
      forall j | 0 <= j < |c.hpas| ensures NoServiceSource(HpaEdges(c.hpas[j], f, ())) { HpaEdgesFacts(c.hpas[j]); }
      PassHasNoService(c.hpas, HpaEdges, f, (), e);
    } else if i == 5 {
      forall j | 0 <= j < |c.ingresses|
        ensures NoServiceSource(IngressEdges(c.ingresses[j], f, ()))
      {
        IngressEdgesFacts(c.ingresses[j]);
      }
      PassHasNoService(c.ingresses, IngressEdges, f, (), e);
    } else {
      var claims := ReferencedPvcs(c.pods, f);
      forall j | 0 <= j < |c.pvcs|
        ensures NoServiceSource(PvcEdges(c.pvcs[j], f, claims))
      {
        PvcEdgesFacts(c.pvcs[j], claims);
      }
      PassHasNoService(c.pvcs, PvcEdges, f, claims, e);
    }
  }

  /** An edge that leaves a service was pushed for that service and no other. */
  lemma ServiceSource(c: Cluster, f: NsFilter, k: nat, e: Edge)
    requires PlainNamespaces(c) && UniqueNames(c) && k < |c.services| &&
      e.source == MetaId("service", c.services[k].meta)
    ensures e in Concat(EdgePasses(c, f)) <==> e in ServiceEdges(c.services[k], f, Lookup(c.pods, Controllers(c)))
  {
    var parts, x := EdgePasses(c, f), Lookup(c.pods, Controllers(c));
    IdFacts("service", NsOf(c.services[k].meta), NameOf(c.services[k].meta));
    ConcatMembers(parts, e);
    FlatMapMembers(c.services, ServiceEdges, f, x, e);
    forall i | 0 <= i < 7 && i != 4 ensures e !in parts[i] {
      OtherPassesHaveNoService(c, f, e, i);
    }
    forall j | 0 <= j < |c.services| && e in ServiceEdges(c.services[j], f, x) ensures j == k {
      ServiceEdgesLeave(c.services[j], f, x, e);
      MetaIdInjective("service", c.services[j].meta, c.services[k].meta);
      assert j != k ==> KeyOf(ServiceMeta(c.services[j])) != KeyOf(ServiceMeta(c.services[k]));
    }
    hide FlatMap, Concat, ServiceEdges, Controllers, ReferencedPvcs, PlainNamespaces, UniqueNames, MetaId, KindOfId;
    assert parts[4] == FlatMap(c.services, ServiceEdges, f, x);
  }

  lemma ServiceEdgesLeave(svc: Service, f: NsFilter, x: Lookup, e: Edge)
    requires e in ServiceEdges(svc, f, x)
    ensures e.source == MetaId("service", svc.meta) && e.edgeType == "selects"
  {
    hide MetaId, SelectedControllers, NsOf, InMap;
  }

  lemma SelectsEdgesExact(svc: Service, targets: seq<string>, target: string)
    ensures Edge(MetaId("service", svc.meta), target, "selects") in SelectsEdges(svc, targets) <==> target in targets
  {
    var es := SelectsEdges(svc, targets);
    if i :| 0 <= i < |targets| && targets[i] == target {
      assert es[i].target == target;
    }
    hide MetaId;
  }

  /** What the loops push for a service in scope: one edge for each top-level controller of a selected pod. */
  lemma PushedForService(c: Cluster, f: NsFilter, svc: Service, target: string)
    requires UniqueNames(c) && InNs(f, NsOf(svc.meta)) && InMap(svc)
    ensures Edge(MetaId("service", svc.meta), target, "selects") in ServiceEdges(svc, f,
      Lookup(c.pods, Controllers(c))) <==>
      exists i :: 0 <= i < |c.pods| && Selects(svc, c.pods[i]) && IsTopController(c, c.pods[i], target)
  {
    var controllers := Controllers(c);
    SelectsEdgesExact(svc, SelectedControllers(svc, c.pods, controllers), target);
    SelectedExact(svc, c.pods, controllers, target);
    forall i | 0 <= i < |c.pods|
      ensures LookupController(c.pods[i], controllers) == target <==> IsTopController(c, c.pods[i], target)
    {
      PodToControllerExact(c.pods, RsToDep(c.replicaSets), i);
      ControllerExact(c, c.pods[i], target);
    }
    hide SelectedControllers, LookupController, IsTopController, Controllers, Selects, UniqueNames, MetaId,
      SelectsEdges, InMap, NsOf;
  }

  /** Every edge of the finished map that leaves a service is a "selects" edge. */
  lemma ServiceEdgesAreSelects(c: Cluster, f: NsFilter, k: nat, e: Edge)
    requires k < |c.services|
    ensures e in Map(c, f).edges && e.source == MetaId("service", c.services[k].meta) ==> e.edgeType == "selects"
  {
    FinalEdgesAreTyped(c, f, e);
    KindOf("service", NsOf(c.services[k].meta), NameOf(c.services[k].meta));
    hide Map, KindOfId, Id, NsOf, NameOf;
  }

  /**
   * In the finished map, a service in scope has "selects" edges to exactly the top-level
   * controllers of the pods that it selects.
   */
  lemma ServiceSelectsControllers(c: Cluster, f: NsFilter, k: nat, target: string)
    requires PlainNamespaces(c) && UniqueNames(c)
    requires k < |c.services| && InNs(f, NsOf(c.services[k].meta)) && InMap(c.services[k])
    ensures var svc := c.services[k];
      Edge(MetaId("service", svc.meta), target, "selects") in Map(c, f).edges <==>
        exists i :: 0 <= i < |c.pods| && Selects(svc, c.pods[i]) && IsTopController(c, c.pods[i], target)
  {
    var e := Edge(MetaId("service", c.services[k].meta), target, "selects");
    FinalEdgesExact(c, f, e);
    PushedForService(c, f, c.services[k], target);
    ServiceSource(c, f, k, e);
    hide *;
  }
}
