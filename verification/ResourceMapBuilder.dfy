/** The handler's loops, which fill one list of nodes and one of edges, build the map of `ResourceMap`. */
module ResourceMapBuilder {
  import opened ResourceMap
  import opened ResourceMapFilter
  import opened ResourceMapMeaning
  import opened ResourceMapServices
  import opened Sorting
  import opened Wrappers

  lemma TakePush<T>(xs: seq<T>, i: nat)
    requires i < |xs|
    ensures xs[..i + 1] == xs[..i] + [xs[i]] && xs[..i + 1][..i] == xs[..i]
  {
  }

  lemma TakeAll<T>(xs: seq<T>)
    ensures xs[..|xs|] == xs
  {
  }

  lemma Associate<T>(a: seq<T>, b: seq<T>, c: seq<T>)
    ensures (a + b) + c == a + (b + c)
  {
  }

  lemma ConcatPush<T>(parts: seq<seq<T>>, part: seq<T>)
    ensures Concat(parts + [part]) == Concat(parts) + part
  {
    assert (parts + [part])[..|parts|] == parts;
  }

  lemma FlatMapPush<R, X, T>(rs: seq<R>, i: nat, out: (R, NsFilter, X) -> seq<T>, f: NsFilter, x: X)
    requires i < |rs|
    ensures FlatMap(rs[..i + 1], out, f, x) == FlatMap(rs[..i], out, f, x) + out(rs[i], f, x)
  {
    TakePush(rs, i);
  }

  lemma VolumeEdgesPush(pod: string, ns: string, volumes: seq<Volume>, i: nat)
    requires i < |volumes|
    ensures VolumeEdges(pod, ns, volumes[..i + 1])
      == VolumeEdges(pod, ns, volumes[..i]) + VolumeEdge(pod, ns, volumes[i])
    ensures VolumeClaims(ns, volumes[..i + 1]) == VolumeClaims(ns, volumes[..i]) + VolumeClaim(ns, volumes[i])
  {
    TakePush(volumes, i);
    hide VolumeEdge, VolumeClaim;
  }

  lemma ReferencesPush(pods: seq<Pod>, f: NsFilter, i: nat)
    requires i < |pods|
    ensures ReferencedSas(pods[..i + 1], f)
         == ReferencedSas(pods[..i], f) + if InNs(f, NsOf(pods[i].meta)) then PodSas(pods[i]) else {}
    ensures ReferencedPvcs(pods[..i + 1], f)
         == ReferencedPvcs(pods[..i], f) + if InNs(f, NsOf(pods[i].meta)) then PodClaims(pods[i]) else {}
  {
    TakePush(pods, i);
    hide PodSas, PodClaims, NsOf;
  }

  class Builder {
    var nodes: seq<Node>
    var edges: seq<Edge>
    /** `ns/name` of what pods refer to, and names of volumes that claims are bound to. */
    var referencedSas: set<string>
    var referencedPvcs: set<string>
    var referencedPvs: set<string>

    constructor ()
      ensures nodes == [] && edges == [] && referencedSas == {} && referencedPvcs == {} && referencedPvs == {}
    {
      nodes, edges, referencedSas, referencedPvcs, referencedPvs := [], [], {}, {}, {};
    }

    // ── Pods ───────────────────────────────────────────────────────────────

    method PushOwners(ns: string, pod: string, owners: seq<OwnerRef>)
      modifies this`edges
      ensures edges == old(edges) + OwnerEdges(ns, pod, owners)
    {
      for i := 0 to |owners|
        invariant edges == old(edges) + OwnerEdges(ns, pod, owners[..i])
      {
        TakePush(owners, i);
        var id := PodOwnerId(ns, owners[i]);
        if id.None? {
          continue;
        }
        edges := edges + [Edge(id.value, pod, "owns")];
      }
      TakeAll(owners);
    }

    method PushVolume(ns: string, pod: string, v: Volume)
      modifies this`edges, this`referencedPvcs
      ensures edges == old(edges) + VolumeEdge(pod, ns, v)
      ensures referencedPvcs == old(referencedPvcs) + VolumeClaim(ns, v)
    {
      hide Id, ObjectKey;
      if v.configMap.Some? {
        if v.configMap.value == "kube-root-ca.crt" {
          return;
        }
        edges := edges + [Edge(pod, Id("configmap", ns, v.configMap.value), "uses")];
      }
      if v.secret.Some? {
        edges := edges + [Edge(pod, Id("secret", ns, v.secret.value), "uses")];
      }
      if v.claim.Some? {
        referencedPvcs := referencedPvcs + {ObjectKey(ns, v.claim.value)};
        edges := edges + [Edge(pod, Id("pvc", ns, v.claim.value), "mounts")];
      }
    }

    method PushVolumes(ns: string, pod: string, volumes: seq<Volume>)
      modifies this`edges, this`referencedPvcs
      ensures edges == old(edges) + VolumeEdges(pod, ns, volumes)
      ensures referencedPvcs == old(referencedPvcs) + VolumeClaims(ns, volumes)
    {
      for i := 0 to |volumes|
        invariant edges == old(edges) + VolumeEdges(pod, ns, volumes[..i])
        invariant referencedPvcs == old(referencedPvcs) + VolumeClaims(ns, volumes[..i])
      {
        hide VolumeEdge, VolumeEdges, VolumeClaim, VolumeClaims;
        PushVolume(ns, pod, volumes[i]);
        VolumeEdgesPush(pod, ns, volumes, i);
        Associate(old(edges), VolumeEdges(pod, ns, volumes[..i]), VolumeEdge(pod, ns, volumes[i]));
      }
      TakeAll(volumes);
    }

    method PushEnvFrom(ns: string, pod: string, sources: seq<EnvFrom>)
      modifies this`edges
      ensures edges == old(edges) + EnvFromEdges(pod, ns, sources)
    {
      for i := 0 to |sources|
        invariant edges == old(edges) + EnvFromEdges(pod, ns, sources[..i])
      {
        TakePush(sources, i);
        if sources[i].configMap.Some? {
          edges := edges + [Edge(pod, Id("configmap", ns, sources[i].configMap.value), "uses")];
        }
        if sources[i].secret.Some? {
          edges := edges + [Edge(pod, Id("secret", ns, sources[i].secret.value), "uses")];
        }
        hide Id;
      }
      TakeAll(sources);
    }

    method PushSpec(ns: string, pod: string, spec: PodSpec)
      modifies this`edges, this`referencedSas, this`referencedPvcs
      ensures edges == old(edges) + SpecEdges(pod, ns, spec)
      ensures referencedSas == old(referencedSas)
        + if ServiceAccountOf(spec).Some? then {ObjectKey(ns, ServiceAccountOf(spec).value)} else {}
      ensures referencedPvcs == old(referencedPvcs) + VolumeClaims(ns, spec.volumes)
    {
      hide Id, ObjectKey, VolumeEdges, EnvFromEdges, VolumeClaims;
      ghost var sas := RefEdge(pod, "serviceaccount", ns, ServiceAccountOf(spec), "uses_sa");
      if spec.serviceAccount.Some? && spec.serviceAccount.value != "default" {
        var sa := spec.serviceAccount.value;
        referencedSas := referencedSas + {ObjectKey(ns, sa)};
        edges := edges + [Edge(pod, Id("serviceaccount", ns, sa), "uses_sa")];
      }
      assert edges == old(edges) + sas;
      hide RefEdge;
      PushVolumes(ns, pod, spec.volumes);
      PushEnvFrom(ns, pod, spec.envFrom);
      Associate(old(edges), sas, VolumeEdges(pod, ns, spec.volumes));
      Associate(old(edges), sas + VolumeEdges(pod, ns, spec.volumes), EnvFromEdges(pod, ns, spec.envFrom));
    }

    method PushPod(pod: Pod, f: NsFilter)
      modifies this`nodes, this`edges, this`referencedSas, this`referencedPvcs
      ensures nodes == old(nodes) + PodNodes(pod, f, ()) && edges == old(edges) + PodEdges(pod, f, ())
      ensures referencedSas == old(referencedSas) + if InNs(f, NsOf(pod.meta)) then PodSas(pod) else {}
      ensures referencedPvcs == old(referencedPvcs) + if InNs(f, NsOf(pod.meta)) then PodClaims(pod) else {}
    {
      hide SpecEdges, OwnerEdges, VolumeClaims, ServiceAccountOf, ObjectKey, NsOf, NameOf, Id, InNs;
      var ns := NsOf(pod.meta);
      if !InNs(f, ns) {
        return;
      }
      var id := Id("pod", ns, NameOf(pod.meta));
      nodes := nodes + [Node(id, "Pod", NameOf(pod.meta), Some(ns), GetOr(pod.phase, "Unknown"))];
      PushOwners(ns, id, pod.meta.owners);
      if pod.spec.Some? {
        PushSpec(ns, id, pod.spec.value);
        Associate(old(edges), OwnerEdges(ns, id, pod.meta.owners), SpecEdges(id, ns, pod.spec.value));
      }
    }

    method PodPass(pods: seq<Pod>, f: NsFilter)
      requires referencedSas == {} && referencedPvcs == {}
      modifies this`nodes, this`edges, this`referencedSas, this`referencedPvcs
      ensures nodes == old(nodes) + FlatMap(pods, PodNodes, f, ())
      ensures edges == old(edges) + FlatMap(pods, PodEdges, f, ())
      ensures referencedSas == ReferencedSas(pods, f) && referencedPvcs == ReferencedPvcs(pods, f)
    {
      for i := 0 to |pods|
        invariant nodes == old(nodes) + FlatMap(pods[..i], PodNodes, f, ())
        invariant edges == old(edges) + FlatMap(pods[..i], PodEdges, f, ())
        invariant referencedSas == ReferencedSas(pods[..i], f) && referencedPvcs == ReferencedPvcs(pods[..i], f)
      {
        hide PodNodes, PodEdges, FlatMap, ReferencedSas, ReferencedPvcs, PodSas, PodClaims, NsOf, InNs;
        PushPod(pods[i], f);
        FlatMapPush(pods, i, PodNodes, f, ());
        FlatMapPush(pods, i, PodEdges, f, ());
        ReferencesPush(pods, f, i);
        Associate(old(nodes), FlatMap(pods[..i], PodNodes, f, ()), PodNodes(pods[i], f, ()));
        Associate(old(edges), FlatMap(pods[..i], PodEdges, f, ()), PodEdges(pods[i], f, ()));
      }
      TakeAll(pods);
    }

    // ── Passes that look at one resource at a time ─────────────────────────

    method NodePass<R, X>(rs: seq<R>, nodesOf: (R, NsFilter, X) -> seq<Node>, f: NsFilter, x: X)
      modifies this`nodes
      ensures nodes == old(nodes) + FlatMap(rs, nodesOf, f, x)
    {
      for i := 0 to |rs|
        invariant nodes == old(nodes) + FlatMap(rs[..i], nodesOf, f, x)
      {
        nodes := nodes + nodesOf(rs[i], f, x);
        FlatMapPush(rs, i, nodesOf, f, x);
        Associate(old(nodes), FlatMap(rs[..i], nodesOf, f, x), nodesOf(rs[i], f, x));
      }
      TakeAll(rs);
    }

    method Pass<R, X>(rs: seq<R>, nodesOf: (R, NsFilter, X) -> seq<Node>, edgesOf: (R, NsFilter, X) -> seq<Edge>,
                      f: NsFilter, x: X)
      modifies this`nodes, this`edges
      ensures nodes == old(nodes) + FlatMap(rs, nodesOf, f, x)
      ensures edges == old(edges) + FlatMap(rs, edgesOf, f, x)
    {
      for i := 0 to |rs|
        invariant nodes == old(nodes) + FlatMap(rs[..i], nodesOf, f, x)
        invariant edges == old(edges) + FlatMap(rs[..i], edgesOf, f, x)
      {
        hide FlatMap;
        nodes := nodes + nodesOf(rs[i], f, x);
        edges := edges + edgesOf(rs[i], f, x);
        FlatMapPush(rs, i, nodesOf, f, x);
        FlatMapPush(rs, i, edgesOf, f, x);
        Associate(old(nodes), FlatMap(rs[..i], nodesOf, f, x), nodesOf(rs[i], f, x));
        Associate(old(edges), FlatMap(rs[..i], edgesOf, f, x), edgesOf(rs[i], f, x));
      }
      TakeAll(rs);
    }

    // ── Services ───────────────────────────────────────────────────────────

    /** Inserting every owning Deployment in turn leaves the last one. */
    static method RecordDeployments(rs: Workload, before: map<string, string>) returns (m: map<string, string>)
      ensures var dep := DeploymentOf(NsOf(rs.meta), rs.meta.owners);
        m == if dep.Some? then before[KeyOf(rs.meta) := dep.value] else before
    {
      m := before;
      var owners, ns := rs.meta.owners, NsOf(rs.meta);
      for i := 0 to |owners|
        invariant var dep := DeploymentOf(ns, owners[..i]);
          m == if dep.Some? then before[KeyOf(rs.meta) := dep.value] else before
      {
        TakePush(owners, i);
        if owners[i].kind == "Deployment" {
          m := m[KeyOf(rs.meta) := Id("deployment", ns, owners[i].name)];
        }
      }
      TakeAll(owners);
    }

    static method BuildRsToDep(rsets: seq<Workload>) returns (m: map<string, string>)
      ensures m == RsToDep(rsets)
    {
      m := map[];
      for i := 0 to |rsets|
        invariant m == RsToDep(rsets[..i])
      {
        m := RecordDeployments(rsets[i], m);
        TakePush(rsets, i);
      }
      TakeAll(rsets);
    }

    /** `find_map` over the owners: the first of a known kind decides. */
    static method FindController(
        ns: string, owners: seq<OwnerRef>, rsToDep: map<string, string>) returns (r: Option<string>)
      ensures r == OwnerController(ns, owners, rsToDep)
    {
      assert owners[0..] == owners;
      for i := 0 to |owners|
        invariant OwnerController(ns, owners, rsToDep) == OwnerController(ns, owners[i..], rsToDep)
      {
        hide ObjectKey, Id;
        var owner := owners[i];
        assert owners[i..][1..] == owners[i + 1..];
        if owner.kind == "ReplicaSet" {
          var key := ObjectKey(ns, owner.name);
          return Some(if key in rsToDep then rsToDep[key] else Id("replicaset", ns, owner.name));
        } else if PodOwnerId(ns, owner).Some? {
          return PodOwnerId(ns, owner);
        }
      }
      r := None;
    }

    static method BuildPodToController(pods: seq<Pod>, rsToDep: map<string, string>) returns (m: map<string, string>)
      ensures m == PodToController(pods, rsToDep)
    {
      m := map[];
      for i := 0 to |pods|
        invariant m == PodToController(pods[..i], rsToDep)
      {
        var pod := pods[i];
        var owner := FindController(NsOf(pod.meta), pod.meta.owners, rsToDep);
        m := m[KeyOf(pod.meta) := GetOr(owner, MetaId("pod", pod.meta))];
        TakePush(pods, i);
      }
      TakeAll(pods);
    }

    /** One edge for each controller of a selected pod: `seen` holds those that have theirs. */
    method PushSelected(svc: Service, pods: seq<Pod>, controllers: map<string, string>)
      modifies this`edges
      ensures edges == old(edges) + SelectsEdges(svc, SelectedControllers(svc, pods, controllers))
    {
      var seen: set<string> := {};
      for i := 0 to |pods|
        invariant var targets := SelectedControllers(svc, pods[..i], controllers);
          edges == old(edges) + SelectsEdges(svc, targets) && seen == set t | t in targets
      {
        TakePush(pods, i);
        hide Selects, LookupController, MetaId;
        if Selects(svc, pods[i]) {
          var controller := LookupController(pods[i], controllers);
          if controller !in seen {
            seen := seen + {controller};
            edges := edges + [Edge(MetaId("service", svc.meta), controller, "selects")];
          }
        }
      }
      TakeAll(pods);
    }

    method ServicePass(services: seq<Service>, f: NsFilter, x: Lookup)
      modifies this`nodes, this`edges
      ensures nodes == old(nodes) + FlatMap(services, ServiceNodes, f, ())
      ensures edges == old(edges) + FlatMap(services, ServiceEdges, f, x)
    {
      for i := 0 to |services|
        invariant nodes == old(nodes) + FlatMap(services[..i], ServiceNodes, f, ())
        invariant edges == old(edges) + FlatMap(services[..i], ServiceEdges, f, x)
      {
        hide FlatMap, SelectsEdges, SelectedControllers, NsOf, NameOf, InNs, InMap;
        var svc := services[i];
        FlatMapPush(services, i, ServiceNodes, f, ());
        FlatMapPush(services, i, ServiceEdges, f, x);
        Associate(old(nodes), FlatMap(services[..i], ServiceNodes, f, ()), ServiceNodes(svc, f, ()));
        Associate(old(edges), FlatMap(services[..i], ServiceEdges, f, x), ServiceEdges(svc, f, x));
        if !InNs(f, NsOf(svc.meta)) || !InMap(svc) {
          continue;
        }
        nodes := nodes + MakeNode("service", "Service", svc.meta, "active");
        PushSelected(svc, x.pods, x.controllers);
      }
      TakeAll(services);
    }

    // ── Claims ─────────────────────────────────────────────────────────────

    method PvcPass(pvcs: seq<Pvc>, f: NsFilter, claims: set<string>)
      modifies this`nodes, this`edges, this`referencedPvs
      ensures nodes == old(nodes) + FlatMap(pvcs, PvcNodes, f, claims)
      ensures edges == old(edges) + FlatMap(pvcs, PvcEdges, f, claims)
      ensures referencedPvs == old(referencedPvs) + ReferencedPvs(pvcs, f, claims)
    {
      for i := 0 to |pvcs|
        invariant nodes == old(nodes) + FlatMap(pvcs[..i], PvcNodes, f, claims)
        invariant edges == old(edges) + FlatMap(pvcs[..i], PvcEdges, f, claims)
        invariant referencedPvs == old(referencedPvs) + ReferencedPvs(pvcs[..i], f, claims)
      {
        TakePush(pvcs, i);
        hide FlatMap, NsOf, NameOf, InNs, KeyOf, BoundVolume, VolumeId, ToLower, MetaId;
        var pvc := pvcs[i];
        FlatMapPush(pvcs, i, PvcNodes, f, claims);
        FlatMapPush(pvcs, i, PvcEdges, f, claims);
        Associate(old(nodes), FlatMap(pvcs[..i], PvcNodes, f, claims), PvcNodes(pvc, f, claims));
        Associate(old(edges), FlatMap(pvcs[..i], PvcEdges, f, claims), PvcEdges(pvc, f, claims));
        if !InNs(f, NsOf(pvc.meta)) || KeyOf(pvc.meta) !in claims {
          continue;
        }
        nodes := nodes + MakeNode("pvc", "PVC", pvc.meta, ToLower(GetOr(pvc.phase, "Unknown")));
        var volume := BoundVolume(pvc);
        if volume.Some? {
          referencedPvs := referencedPvs + {volume.value};
          edges := edges + [Edge(MetaId("pvc", pvc.meta), VolumeId(volume.value), "binds")];
        }
      }
      TakeAll(pvcs);
    }
  }

  // ── The handler ──────────────────────────────────────────────────────────

  lemma NodesPush(c: Cluster, f: NsFilter, k: nat)
    requires k < 15
    ensures Concat(NodePasses(c, f)[..k + 1]) == Concat(NodePasses(c, f)[..k]) + NodePasses(c, f)[k]
  {
    var parts := NodePasses(c, f);
    hide NodePasses;
    TakePush(parts, k);
    ConcatPush(parts[..k], parts[k]);
  }

  lemma EdgesPush(c: Cluster, f: NsFilter, k: nat)
    requires k < 7
    ensures Concat(EdgePasses(c, f)[..k + 1]) == Concat(EdgePasses(c, f)[..k]) + EdgePasses(c, f)[k]
  {
    var parts := EdgePasses(c, f);
    hide EdgePasses;
    TakePush(parts, k);
    ConcatPush(parts[..k], parts[k]);
  }

  lemma WorkloadPasses(c: Cluster, f: NsFilter)
    ensures NodePasses(c, f)[0] == FlatMap(c.pods, PodNodes, f, ())
    ensures NodePasses(c, f)[1] == FlatMap(c.deployments, DeploymentNodes, f, ())
    ensures NodePasses(c, f)[2] == FlatMap(c.replicaSets, ReplicaSetNodes, f, ())
    ensures NodePasses(c, f)[3] == FlatMap(c.statefulSets, StatefulSetNodes, f, ())
    ensures NodePasses(c, f)[4] == FlatMap(c.daemonSets, DaemonSetNodes, f, ())
    ensures NodePasses(c, f)[5] == FlatMap(c.cronJobs, CronJobNodes, f, ())
    ensures NodePasses(c, f)[6] == FlatMap(c.jobs, JobNodes, f, ())
    ensures NodePasses(c, f)[7] == FlatMap(c.hpas, HpaNodes, f, ())
    ensures EdgePasses(c, f)[0] == FlatMap(c.pods, PodEdges, f, ())
    ensures EdgePasses(c, f)[1] == FlatMap(c.replicaSets, ReplicaSetEdges, f, ())
    ensures EdgePasses(c, f)[2] == FlatMap(c.jobs, JobEdges, f, ())
    ensures EdgePasses(c, f)[3] == FlatMap(c.hpas, HpaEdges, f, ())
  {
    hide FlatMap;
  }

  lemma OtherPasses(c: Cluster, f: NsFilter)
    ensures NodePasses(c, f)[8] == FlatMap(c.services, ServiceNodes, f, ())
    ensures NodePasses(c, f)[9] == FlatMap(c.ingresses, IngressNodes, f, ())
    ensures NodePasses(c, f)[10] == FlatMap(c.configMaps, ConfigMapNodes, f, ())
    ensures NodePasses(c, f)[11] == FlatMap(c.secrets, SecretNodes, f, ())
    ensures NodePasses(c, f)[12] == FlatMap(c.serviceAccounts, ServiceAccountNodes, f, ReferencedSas(c.pods, f))
    ensures NodePasses(c, f)[13] == FlatMap(c.pvcs, PvcNodes, f, ReferencedPvcs(c.pods, f))
    ensures NodePasses(c, f)[14] == FlatMap(c.pvs, PvNodes, f, ReferencedPvs(c.pvcs, f, ReferencedPvcs(c.pods, f)))
    ensures EdgePasses(c, f)[4] == FlatMap(c.services, ServiceEdges, f,
      Lookup(c.pods, PodToController(c.pods, RsToDep(c.replicaSets))))
    ensures EdgePasses(c, f)[5] == FlatMap(c.ingresses, IngressEdges, f, ())
    ensures EdgePasses(c, f)[6] == FlatMap(c.pvcs, PvcEdges, f, ReferencedPvcs(c.pods, f))
  {
    hide FlatMap, ReferencedSas, ReferencedPvcs, ReferencedPvs, PodToController, RsToDep;
  }

  ghost predicate Reached(b: Builder, c: Cluster, f: NsFilter, nodePasses: nat, edgePasses: nat)
    requires nodePasses <= 15 && edgePasses <= 7
    reads b
  {
    && b.nodes == Concat(NodePasses(c, f)[..nodePasses])
    && b.edges == Concat(EdgePasses(c, f)[..edgePasses])
    && b.referencedSas == ReferencedSas(c.pods, f)
    && b.referencedPvcs == ReferencedPvcs(c.pods, f)
  }

  method BuildPods(b: Builder, c: Cluster, f: NsFilter)
    requires b.nodes == [] && b.edges == [] && b.referencedSas == {} && b.referencedPvcs == {} && b.referencedPvs == {}
    modifies b
    ensures Reached(b, c, f, 1, 1) && b.referencedPvs == {}
  {
    hide FlatMap, ReferencedSas, ReferencedPvcs, ReferencedPvs, PodToController, RsToDep;
    WorkloadPasses(c, f);
    hide NodePasses, EdgePasses;
    assert Concat(NodePasses(c, f)[..0]) == [] && Concat(EdgePasses(c, f)[..0]) == [];
    hide Concat;
    b.PodPass(c.pods, f);
    NodesPush(c, f, 0);
    EdgesPush(c, f, 0);
    assert b.referencedSas == ReferencedSas(c.pods, f) && b.referencedPvcs == ReferencedPvcs(c.pods, f);
  }

  method BuildWorkloads(b: Builder, c: Cluster, f: NsFilter)
    requires Reached(b, c, f, 1, 1) && b.referencedPvs == {}
    modifies b
    ensures Reached(b, c, f, 8, 4) && b.referencedPvs == {}
  {
    hide FlatMap, ReferencedSas, ReferencedPvcs, ReferencedPvs, PodToController, RsToDep, Concat;
    WorkloadPasses(c, f);
    hide NodePasses, EdgePasses;
    b.NodePass(c.deployments, DeploymentNodes, f, ());
    NodesPush(c, f, 1);
    b.Pass(c.replicaSets, ReplicaSetNodes, ReplicaSetEdges, f, ());
    NodesPush(c, f, 2);
    EdgesPush(c, f, 1);
    assert Reached(b, c, f, 3, 2);
    b.NodePass(c.statefulSets, StatefulSetNodes, f, ());
    NodesPush(c, f, 3);
    b.NodePass(c.daemonSets, DaemonSetNodes, f, ());
    NodesPush(c, f, 4);
    b.NodePass(c.cronJobs, CronJobNodes, f, ());
    NodesPush(c, f, 5);
    assert Reached(b, c, f, 6, 2);
    b.Pass(c.jobs, JobNodes, JobEdges, f, ());
    NodesPush(c, f, 6);
    EdgesPush(c, f, 2);
    assert Reached(b, c, f, 7, 3);
    b.Pass(c.hpas, HpaNodes, HpaEdges, f, ());
    NodesPush(c, f, 7);
    EdgesPush(c, f, 3);
  }

  method BuildRest(b: Builder, c: Cluster, f: NsFilter)
    requires Reached(b, c, f, 8, 4) && b.referencedPvs == {}
    modifies b
    ensures Reached(b, c, f, 15, 7)
  {
    hide FlatMap, Concat, ReferencedSas, ReferencedPvcs, ReferencedPvs, PodToController, RsToDep;
    OtherPasses(c, f);
    hide NodePasses, EdgePasses;
    var rsToDep := Builder.BuildRsToDep(c.replicaSets);
    var controllers := Builder.BuildPodToController(c.pods, rsToDep);
    b.ServicePass(c.services, f, Lookup(c.pods, controllers));
    NodesPush(c, f, 8);
    EdgesPush(c, f, 4);
    assert Reached(b, c, f, 9, 5);
    b.Pass(c.ingresses, IngressNodes, IngressEdges, f, ());
    NodesPush(c, f, 9);
    EdgesPush(c, f, 5);
    assert Reached(b, c, f, 10, 6);
    b.NodePass(c.configMaps, ConfigMapNodes, f, ());
    NodesPush(c, f, 10);
    b.NodePass(c.secrets, SecretNodes, f, ());
    NodesPush(c, f, 11);
    b.NodePass(c.serviceAccounts, ServiceAccountNodes, f, b.referencedSas);
    NodesPush(c, f, 12);
    assert Reached(b, c, f, 13, 6);
    b.PvcPass(c.pvcs, f, b.referencedPvcs);
    NodesPush(c, f, 13);
    EdgesPush(c, f, 6);
    assert b.referencedPvs == ReferencedPvs(c.pvcs, f, ReferencedPvcs(c.pods, f));
    assert Reached(b, c, f, 14, 7);
    b.NodePass(c.pvs, PvNodes, f, b.referencedPvs);
    NodesPush(c, f, 14);
  }

  lemma GraphMeans(c: Cluster, f: NsFilter)
    ensures PlainNamespaces(c) && UniqueNames(c) ==> forall e :: e in Map(c, f).edges <==> IsEdge(c, f, e)
    ensures PlainNamespaces(c) ==> forall n :: n in Map(c, f).nodes <==> IsNode(c, f, n)
  {
    hide Map, PlainNamespaces, UniqueNames, IsEdge, IsNode;
    if PlainNamespaces(c) && UniqueNames(c) {
      forall e ensures e in Map(c, f).edges <==> IsEdge(c, f, e) {
        MapEdgesMean(c, f, e);
      }
    }
    if PlainNamespaces(c) {
      forall n ensures n in Map(c, f).nodes <==> IsNode(c, f, n) {
        MapNodesMean(c, f, n);
      }
    }
  }

  /** The map of a cluster for a `namespace` query parameter, built with one pass over every list. */
  method GetResourceMap(c: Cluster, namespace: Option<string>) returns (g: Graph)
    ensures g == Map(c, ParseFilter(namespace))
    ensures PlainNamespaces(c) && UniqueNames(c) ==> forall e :: e in g.edges <==> IsEdge(c, ParseFilter(namespace), e)
    ensures PlainNamespaces(c) ==> forall n :: n in g.nodes <==> IsNode(c, ParseFilter(namespace), n)
  {
    hide FlatMap, Concat, ParseFilter, SortAndDedup;
    var f := ParseFilter(namespace);
    var b := new Builder();
    BuildPods(b, c, f);
    BuildWorkloads(b, c, f);
    BuildRest(b, c, f);
    TakeAll(NodePasses(c, f));
    TakeAll(EdgePasses(c, f));
    g := Graph(b.nodes, SortAndDedup(b.edges));
    GraphMeans(c, f);
  }
}
