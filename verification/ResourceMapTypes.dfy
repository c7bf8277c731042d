/**
 * The kinds of the two ends of an edge determine its type, so deduplicating by source and target
 * loses nothing: the finished edges are exactly the pushed ones.
 */
module ResourceMapTypes {
  import opened ResourceMap
  import opened ResourceMapFilter
  import opened Sorting
  import opened Wrappers

  // ── Kinds and types ──────────────────────────────────────────────────────

  /** The type of every edge between objects of two kinds. */
  function TypeBetween(source: string, target: string): string {
    if source == "pod" then
      if target == "serviceaccount" then "uses_sa" else if target == "pvc" then "mounts" else "uses"
    else if source == "hpa" then "scales"
    else if source == "service" then "selects"
    else if source == "ingress" then "routes"
    else if source == "pvc" then "binds"
    else "owns"
  }

  predicate WellTyped(e: Edge) {
    e.edgeType == TypeBetween(KindOfId(e.source), KindOfId(e.target))
  }

  ghost predicate AllTyped(edges: seq<Edge>) {
    forall i :: 0 <= i < |edges| ==> WellTyped(edges[i])
  }

  /** Every edge leaves an object of one kind. */
  ghost predicate FromKind(edges: seq<Edge>, kind: string) {
    forall i :: 0 <= i < |edges| ==> KindOfId(edges[i].source) == kind
  }

  lemma KindOf(kind: string, ns: string, name: string)
    requires SlashFree(kind)
    ensures KindOfId(Id(kind, ns, name)) == kind
  {
    assert Id(kind, ns, name) == kind + "/" + (ns + "/" + name);
    SplitAtSlash(kind, ns + "/" + name);
  }

  lemma MetaIdInjective(kind: string, a: Meta, b: Meta)
    ensures MetaId(kind, a) == MetaId(kind, b) <==> KeyOf(a) == KeyOf(b)
  {
    var n := |kind| + 1;
    assert MetaId(kind, a) == kind + "/" + KeyOf(a) && MetaId(kind, a)[n..] == KeyOf(a);
    assert MetaId(kind, b) == kind + "/" + KeyOf(b) && MetaId(kind, b)[n..] == KeyOf(b);
  }

  // ── Pods ─────────────────────────────────────────────────────────────────

  lemma PodOwnerKind(ns: string, owner: OwnerRef)
    ensures var id := PodOwnerId(ns, owner);
      id.Some? ==> KindOfId(id.value) in ["replicaset", "statefulset", "daemonset", "job"]
  {
    KindOf("replicaset", ns, owner.name);
    KindOf("statefulset", ns, owner.name);
    KindOf("daemonset", ns, owner.name);
    KindOf("job", ns, owner.name);
    hide KindOfId, Id;
  }

  lemma {:induction false} OwnerEdgesTyped(ns: string, pod: string, owners: seq<OwnerRef>)
    ensures AllTyped(OwnerEdges(ns, pod, owners))
  {
    hide KindOfId, PodOwnerId;
    if owners == [] {
    } else {
      OwnerEdgesTyped(ns, pod, owners[..|owners| - 1]);
      PodOwnerKind(ns, owners[|owners| - 1]);
    }
  }

  lemma RefEdgeTyped(pod: string, kind: string, ns: string, name: Option<string>, edgeType: string)
    requires KindOfId(pod) == "pod" && SlashFree(kind) && edgeType == TypeBetween("pod", kind)
    ensures AllTyped(RefEdge(pod, kind, ns, name, edgeType))
  {
    if name.Some? {
      KindOf(kind, ns, name.value);
    }
    hide KindOfId, Id;
  }

  lemma VolumeEdgeTyped(pod: string, ns: string, v: Volume)
    requires KindOfId(pod) == "pod"
    ensures AllTyped(VolumeEdge(pod, ns, v))
  {
    RefEdgeTyped(pod, "configmap", ns, v.configMap, "uses");
    RefEdgeTyped(pod, "secret", ns, v.secret, "uses");
    RefEdgeTyped(pod, "pvc", ns, v.claim, "mounts");
    hide RefEdge, WellTyped, IsRootCa, KindOfId;
  }

  lemma {:induction false} VolumeEdgesTyped(pod: string, ns: string, volumes: seq<Volume>)
    requires KindOfId(pod) == "pod"
    ensures AllTyped(VolumeEdges(pod, ns, volumes))
  {
    hide VolumeEdge, WellTyped, KindOfId;
    if volumes == [] {
    } else {
      VolumeEdgesTyped(pod, ns, volumes[..|volumes| - 1]);
      VolumeEdgeTyped(pod, ns, volumes[|volumes| - 1]);
    }
  }

  lemma EnvFromEdgeTyped(pod: string, ns: string, source: EnvFrom)
    requires KindOfId(pod) == "pod"
    ensures AllTyped(EnvFromEdge(pod, ns, source))
  {
    RefEdgeTyped(pod, "configmap", ns, source.configMap, "uses");
    RefEdgeTyped(pod, "secret", ns, source.secret, "uses");
    hide RefEdge, WellTyped, KindOfId;
  }

  lemma {:induction false} EnvFromEdgesTyped(pod: string, ns: string, sources: seq<EnvFrom>)
    requires KindOfId(pod) == "pod"
    ensures AllTyped(EnvFromEdges(pod, ns, sources))
  {
    hide EnvFromEdge, WellTyped, KindOfId;
    if sources == [] {
    } else {
      EnvFromEdgesTyped(pod, ns, sources[..|sources| - 1]);
      EnvFromEdgeTyped(pod, ns, sources[|sources| - 1]);
    }
  }

  lemma SpecEdgesTyped(pod: string, ns: string, spec: PodSpec)
    requires KindOfId(pod) == "pod"
    ensures AllTyped(SpecEdges(pod, ns, spec))
  {
    RefEdgeTyped(pod, "serviceaccount", ns, ServiceAccountOf(spec), "uses_sa");
    VolumeEdgesTyped(pod, ns, spec.volumes);
    EnvFromEdgesTyped(pod, ns, spec.envFrom);
    hide RefEdge, VolumeEdges, EnvFromEdges, WellTyped, KindOfId, ServiceAccountOf;
  }

  lemma PodEdgesTyped(pod: Pod, f: NsFilter)
    ensures AllTyped(PodEdges(pod, f, ()))
  {
    var ns, id := NsOf(pod.meta), MetaId("pod", pod.meta);
    KindOf("pod", ns, NameOf(pod.meta));
    OwnerEdgesTyped(ns, id, pod.meta.owners);
    if pod.spec.Some? {
      SpecEdgesTyped(id, ns, pod.spec.value);
    }
    hide OwnerEdges, SpecEdges, WellTyped, KindOfId, Id, NsOf, NameOf, InNs;
  }

  // ── The other passes ─────────────────────────────────────────────────────

  lemma {:induction false} OwnedByFromKind(
      meta: Meta, ownerKind: string, kind: string, child: string, owners: seq<OwnerRef>)
    requires SlashFree(kind)
    ensures var es := OwnedBy(meta, ownerKind, kind, child, owners);
      FromKind(es, kind) && forall i :: 0 <= i < |es| ==> es[i].edgeType == "owns"
  {
    hide KindOfId, Id;
    if owners == [] {
    } else {
      OwnedByFromKind(meta, ownerKind, kind, child, owners[..|owners| - 1]);
      KindOf(kind, NsOf(meta), owners[|owners| - 1].name);
    }
  }

  lemma ReplicaSetEdgesTyped(rs: Workload, f: NsFilter)
    ensures AllTyped(ReplicaSetEdges(rs, f, ())) && FromKind(ReplicaSetEdges(rs, f, ()), "deployment")
  {
    OwnedByFromKind(rs.meta, "Deployment", "deployment", MetaId("replicaset", rs.meta), rs.meta.owners);
    hide KindOfId, OwnedBy, MetaId, NsOf, InNs, Retired;
  }

  lemma JobEdgesTyped(job: Job, f: NsFilter)
    ensures AllTyped(JobEdges(job, f, ())) && FromKind(JobEdges(job, f, ()), "cronjob")
  {
    OwnedByFromKind(job.meta, "CronJob", "cronjob", MetaId("job", job.meta), job.meta.owners);
    hide KindOfId, OwnedBy, MetaId, NsOf, InNs;
  }

  lemma HpaEdgesTyped(hpa: Hpa, f: NsFilter)
    ensures AllTyped(HpaEdges(hpa, f, ())) && FromKind(HpaEdges(hpa, f, ()), "hpa")
  {
    KindOf("hpa", NsOf(hpa.meta), NameOf(hpa.meta));
    hide KindOfId, Id, NsOf, NameOf, InNs, ToLower;
  }

  lemma ServiceEdgesTyped(svc: Service, f: NsFilter, x: Lookup)
    ensures AllTyped(ServiceEdges(svc, f, x)) && FromKind(ServiceEdges(svc, f, x), "service")
  {
    KindOf("service", NsOf(svc.meta), NameOf(svc.meta));
    assert KindOfId(MetaId("service", svc.meta)) == "service";
    hide KindOfId, MetaId, NsOf, InNs, SelectedControllers, InMap;
    var targets := SelectedControllers(svc, x.pods, x.controllers);
    assert AllTyped(SelectsEdges(svc, targets)) && FromKind(SelectsEdges(svc, targets), "service");
    hide SelectsEdges;
  }

  lemma IngressEdgesTyped(ing: Ingress, f: NsFilter)
    ensures AllTyped(IngressEdges(ing, f, ())) && FromKind(IngressEdges(ing, f, ()), "ingress")
  {
    KindOf("ingress", NsOf(ing.meta), NameOf(ing.meta));
    hide KindOfId, Id, NsOf, NameOf, InNs;
  }

  lemma PvcEdgesTyped(pvc: Pvc, f: NsFilter, claims: set<string>)
    ensures AllTyped(PvcEdges(pvc, f, claims)) && FromKind(PvcEdges(pvc, f, claims), "pvc")
  {
    KindOf("pvc", NsOf(pvc.meta), NameOf(pvc.meta));
    hide KindOfId, Id, NsOf, NameOf, InNs, KeyOf, BoundVolume, VolumeId;
  }

  // ── All passes ───────────────────────────────────────────────────────────

  lemma {:induction false} PassTyped<R, X>(
      rs: seq<R>, out: (R, NsFilter, X) -> seq<Edge>, f: NsFilter, x: X)
    requires forall i :: 0 <= i < |rs| ==> AllTyped(out(rs[i], f, x))
    ensures AllTyped(FlatMap(rs, out, f, x))
  {
    hide WellTyped;
    if rs == [] {
    } else {
      PassTyped(rs[..|rs| - 1], out, f, x);
      assert AllTyped(out(rs[|rs| - 1], f, x));
    }
  }

  lemma PassesTyped(c: Cluster, f: NsFilter, i: nat)
    requires i < 7
    ensures AllTyped(EdgePasses(c, f)[i])
  {
    hide FlatMap, AllTyped, FromKind, Controllers, ReferencedPvcs;
    if i == 0 {
      forall j | 0 <= j < |c.pods| ensures AllTyped(PodEdges(c.pods[j], f, ())) { PodEdgesTyped(c.pods[j], f); }
      PassTyped(c.pods, PodEdges, f, ());
    } else if i == 1 {
      forall j | 0 <= j < |c.replicaSets| ensures AllTyped(ReplicaSetEdges(c.replicaSets[j], f, ())) {
        ReplicaSetEdgesTyped(c.replicaSets[j], f);
      }
      PassTyped(c.replicaSets, ReplicaSetEdges, f, ());
    } else if i == 2 {
      forall j | 0 <= j < |c.jobs| ensures AllTyped(JobEdges(c.jobs[j], f, ())) { JobEdgesTyped(c.jobs[j], f); }
      PassTyped(c.jobs, JobEdges, f, ());
    } else if i == 3 {
      forall j | 0 <= j < |c.hpas| ensures AllTyped(HpaEdges(c.hpas[j], f, ())) { HpaEdgesTyped(c.hpas[j], f); }
      PassTyped(c.hpas, HpaEdges, f, ());
    } else if i == 4 {
      var x := Lookup(c.pods, Controllers(c));
      forall j | 0 <= j < |c.services| ensures AllTyped(ServiceEdges(c.services[j], f, x)) {
        ServiceEdgesTyped(c.services[j], f, x);
      }
      PassTyped(c.services, ServiceEdges, f, x);
    } else if i == 5 {
      forall j | 0 <= j < |c.ingresses| ensures AllTyped(IngressEdges(c.ingresses[j], f, ())) {
        IngressEdgesTyped(c.ingresses[j], f);
      }
      PassTyped(c.ingresses, IngressEdges, f, ());
    } else {
      var claims := ReferencedPvcs(c.pods, f);
      forall j | 0 <= j < |c.pvcs|
        ensures AllTyped(PvcEdges(c.pvcs[j], f, claims))
      {
        PvcEdgesTyped(c.pvcs[j], f, claims);
      }
      PassTyped(c.pvcs, PvcEdges, f, claims);
    }
  }

  lemma {:induction false} ConcatTyped(parts: seq<seq<Edge>>)
    requires forall i :: 0 <= i < |parts| ==> AllTyped(parts[i])
    ensures AllTyped(Concat(parts))
  {
    hide WellTyped;
    if parts == [] {
    } else {
      ConcatTyped(parts[..|parts| - 1]);
      assert AllTyped(parts[|parts| - 1]);
    }
  }

  /** Everything that is pushed has the type that its ends determine. */
  lemma PushedAreTyped(c: Cluster, f: NsFilter)
    ensures AllTyped(Concat(EdgePasses(c, f)))
  {
    forall i | 0 <= i < 7 ensures AllTyped(EdgePasses(c, f)[i]) {
      PassesTyped(c, f, i);
    }
    ConcatTyped(EdgePasses(c, f));
  }

  // ── Deduplication ────────────────────────────────────────────────────────

  /** Deduplicating by source and target invents no edge and loses no pair. */
  lemma FinalEdgesKeepPairs(raw: seq<Edge>)
    ensures forall e :: e in SortAndDedup(raw) ==> e in raw
    ensures forall e :: e in raw ==> exists d :: d in SortAndDedup(raw) && EdgeKey(d) == EdgeKey(e)
  {
    var sorted := SortBy(raw, EdgeKey);
    DedupByMembers(sorted, EdgeKey);
    forall e | e in SortAndDedup(raw) ensures e in raw {
      assert e in sorted;
      assert e in multiset(sorted);
    }
    forall e | e in raw ensures exists d :: d in SortAndDedup(raw) && EdgeKey(d) == EdgeKey(e) {
      assert e in multiset(sorted);
      var j :| 0 <= j < |sorted| && sorted[j] == e;
      var d := DedupByKeeps(sorted, EdgeKey, j);
    }
  }

  /** The finished edges are exactly the pushed ones, each with its type. */
  lemma FinalEdgesExact(c: Cluster, f: NsFilter, e: Edge)
    ensures e in Map(c, f).edges <==> e in Concat(EdgePasses(c, f))
  {
    var raw := Concat(EdgePasses(c, f));
    FinalEdgesKeepPairs(raw);
    PushedAreTyped(c, f);
    hide SortAndDedup, Concat, EdgePasses, NodePasses;
    if e in raw {
      var d :| d in SortAndDedup(raw) && EdgeKey(d) == EdgeKey(e);
      assert WellTyped(d) && WellTyped(e);
      assert d == e;
    }
  }

  /** So every finished edge has the type that its ends determine. */
  lemma FinalEdgesAreTyped(c: Cluster, f: NsFilter, e: Edge)
    ensures e in Map(c, f).edges ==> WellTyped(e)
  {
    FinalEdgesExact(c, f, e);
    PushedAreTyped(c, f);
    hide Map, Concat, EdgePasses, WellTyped;
  }
}
