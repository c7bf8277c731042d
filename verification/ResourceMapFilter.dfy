/**
 * Filtering while building means restricting afterwards: the map of some namespaces is the part of
 * the unfiltered map that belongs to them, with the volumes that their claims are bound to.
 */
module ResourceMapFilter {
  import opened ResourceMap
  import opened Sorting
  import opened Strings
  import opened Wrappers

  // ── The namespace in a node id ───────────────────────────────────────────

  function BeforeSlash(s: string): string {
    if s == "" || s[0] == '/' then "" else [s[0]] + BeforeSlash(s[1..])
  }

  function AfterSlash(s: string): string {
    if s == "" then "" else if s[0] == '/' then s[1..] else AfterSlash(s[1..])
  }

  /** The second segment of an id `kind/namespace/name`. */
  function NsOfId(id: string): string {
    BeforeSlash(AfterSlash(id))
  }

  /** The first segment of an id. */
  function KindOfId(id: string): string {
    BeforeSlash(id)
  }

  predicate SlashFree(s: string) {
    forall i :: 0 <= i < |s| ==> s[i] != '/'
  }

  lemma {:induction false} SplitAtSlash(a: string, b: string)
    requires SlashFree(a)
    ensures BeforeSlash(a + "/" + b) == a && AfterSlash(a + "/" + b) == b
  {
    if a == "" {
      assert a + "/" + b == ['/'] + b;
    } else {
      assert SlashFree(a[1..]);
      SplitAtSlash(a[1..], b);
      assert (a + "/" + b)[0] == a[0];
      assert (a + "/" + b)[1..] == a[1..] + "/" + b;
      assert a == [a[0]] + a[1..];
    }
  }

  predicate IsVolumeId(id: string) {
    "pv/" <= id
  }

  predicate IsKind(kind: string) {
    SlashFree(kind) && |kind| >= 3 && kind[2] != '/'
  }

  /** Ids of namespaced objects tell their kind and namespace and are never the id of a volume. */
  lemma IdFacts(kind: string, ns: string, name: string)
    requires IsKind(kind) && SlashFree(ns)
    ensures KindOfId(Id(kind, ns, name)) == kind && NsOfId(Id(kind, ns, name)) == ns
    ensures !IsVolumeId(Id(kind, ns, name))
  {
    assert Id(kind, ns, name) == kind + "/" + (ns + "/" + name);
    SplitAtSlash(kind, ns + "/" + name);
    SplitAtSlash(ns, name);
    assert Id(kind, ns, name)[2] == kind[2];
  }

  lemma ObjectKeyInjective(ns: string, name: string, ns': string, name': string)
    requires SlashFree(ns) && SlashFree(ns')
    ensures ObjectKey(ns, name) == ObjectKey(ns', name') <==> ns == ns' && name == name'
  {
    SplitAtSlash(ns, name);
    SplitAtSlash(ns', name');
  }

  // ── What the query parameter asks for ────────────────────────────────────

  ghost predicate Lists(parts: seq<string>, ns: string) {
    ns != "" && exists i :: 0 <= i < |parts| && Trim(parts[i]) == ns
  }

  lemma {:induction false} NonEmptyTrimmedMembers(parts: seq<string>, ns: string)
    ensures ns in NonEmptyTrimmed(parts) <==> Lists(parts, ns)
  {
    hide Trim;
    if parts == [] {
    } else {
      NonEmptyTrimmedMembers(parts[1..], ns);
      if i :| 0 <= i < |parts| && Trim(parts[i]) == ns {
        assert i > 0 ==> Trim(parts[1..][i - 1]) == ns;
      }
      if i :| 0 <= i < |parts[1..]| && Trim(parts[1..][i]) == ns {
        assert Trim(parts[i + 1]) == ns;
      }
    }
  }

  /**
   * A non-empty parameter admits the non-blank names between its commas, so one of blanks and
   * commas alone admits no namespace; only an absent or empty one admits all.
   */
  lemma FilterAdmits(param: Option<string>, ns: string)
    ensures InNs(ParseFilter(param), ns) <==>
      param.None? || param.value == "" || Lists(Split(param.value, ","), ns)
  {
    if param.Some? && param.value != "" {
      NonEmptyTrimmedMembers(Split(param.value, ","), ns);
    }
    hide Split, NonEmptyTrimmed, Lists;
  }

  // ── The restriction of a map to namespaces ───────────────────────────────

  predicate KeepsEdge(f: NsFilter, e: Edge) {
    InNs(f, NsOfId(e.source))
  }

  predicate KeepsNode(f: NsFilter, kept: seq<Edge>, n: Node) {
    match n.namespace
    case Some(ns) => InNs(f, ns)
    case None => exists e :: e in kept && e.target == n.id
  }

  function EdgeTest(f: NsFilter): Edge -> bool {
    e => KeepsEdge(f, e)
  }

  function NodeTest(f: NsFilter, kept: seq<Edge>): Node -> bool {
    n => KeepsNode(f, kept, n)
  }

  function Restrict(g: Graph, f: NsFilter): Graph {
    var kept := Filter(EdgeTest(f), g.edges);
    Graph(Filter(NodeTest(f, kept), g.nodes), kept)
  }

  /** Namespaces are labels, so they hold no slash. */
  ghost predicate PlainNamespaces(c: Cluster) {
    && (forall i :: 0 <= i < |c.pods| ==> SlashFree(NsOf(c.pods[i].meta)))
    && (forall i :: 0 <= i < |c.replicaSets| ==> SlashFree(NsOf(c.replicaSets[i].meta)))
    && (forall i :: 0 <= i < |c.jobs| ==> SlashFree(NsOf(c.jobs[i].meta)))
    && (forall i :: 0 <= i < |c.hpas| ==> SlashFree(NsOf(c.hpas[i].meta)))
    && (forall i :: 0 <= i < |c.services| ==> SlashFree(NsOf(c.services[i].meta)))
    && (forall i :: 0 <= i < |c.ingresses| ==> SlashFree(NsOf(c.ingresses[i].meta)))
    && (forall i :: 0 <= i < |c.serviceAccounts| ==> SlashFree(NsOf(c.serviceAccounts[i])))
    && (forall i :: 0 <= i < |c.pvcs| ==> SlashFree(NsOf(c.pvcs[i].meta)))
  }

  // ── Filters through passes ───────────────────────────────────────────────

  lemma {:induction false} FilterFlatMap<R, X, T(!new)>(p: T -> bool, rs: seq<R>, out: (R, NsFilter, X) -> seq<T>,
                                                        f: NsFilter, x: X, g: NsFilter, y: X)
    requires forall i :: 0 <= i < |rs| ==> out(rs[i], f, x) == Filter(p, out(rs[i], g, y))
    ensures FlatMap(rs, out, f, x) == Filter(p, FlatMap(rs, out, g, y))
  {
    if rs == [] {
    } else {
      var init := rs[..|rs| - 1];
      FilterFlatMap(p, init, out, f, x, g, y);
      FilterAppend(p, FlatMap(init, out, g, y), out(rs[|rs| - 1], g, y));
    }
  }

  lemma {:induction false} FilterConcat<T(!new)>(p: T -> bool, a: seq<seq<T>>, b: seq<seq<T>>)
    requires |a| == |b| && forall i :: 0 <= i < |a| ==> a[i] == Filter(p, b[i])
    ensures Concat(a) == Filter(p, Concat(b))
  {
    if a == [] {
    } else {
      var last := |a| - 1;
      FilterConcat(p, a[..last], b[..last]);
      FilterAppend(p, Concat(b[..last]), b[last]);
    }
  }

  lemma {:induction false} FilterAll<T(!new)>(p: T -> bool, xs: seq<T>, keep: bool)
    requires forall i :: 0 <= i < |xs| ==> p(xs[i]) == keep
    ensures Filter(p, xs) == if keep then xs else []
  {
    if xs == [] {
    } else {
      FilterAll(p, xs[1..], keep);
      assert xs == [xs[0]] + xs[1..];
    }
  }

  // ── Edges: their source tells the namespace, and only claims lead to volumes ──

  ghost predicate FromNs(edges: seq<Edge>, ns: string) {
    forall i :: 0 <= i < |edges| ==> NsOfId(edges[i].source) == ns
  }

  ghost predicate NoServiceSource(edges: seq<Edge>) {
    forall i :: 0 <= i < |edges| ==> KindOfId(edges[i].source) != "service"
  }

  ghost predicate AvoidVolumes(edges: seq<Edge>) {
    forall i :: 0 <= i < |edges| ==> !IsVolumeId(edges[i].target)
  }

  lemma PodOwnerFacts(ns: string, owner: OwnerRef)
    requires SlashFree(ns)
    ensures var id := PodOwnerId(ns, owner);
      id.Some? ==> NsOfId(id.value) == ns && !IsVolumeId(id.value) && KindOfId(id.value) != "service"
  {
    IdFacts("replicaset", ns, owner.name);
    IdFacts("statefulset", ns, owner.name);
    IdFacts("daemonset", ns, owner.name);
    IdFacts("job", ns, owner.name);
    hide KindOfId, NsOfId, Id;
  }

  lemma {:induction false} OwnerEdgesFacts(ns: string, pod: string, owners: seq<OwnerRef>)
    requires SlashFree(ns) && !IsVolumeId(pod)
    ensures FromNs(OwnerEdges(ns, pod, owners), ns) && AvoidVolumes(OwnerEdges(ns, pod, owners)) &&
      NoServiceSource(OwnerEdges(ns, pod, owners))
  {
    if owners == [] {
    } else {
      OwnerEdgesFacts(ns, pod, owners[..|owners| - 1]);
      PodOwnerFacts(ns, owners[|owners| - 1]);
    }
    hide KindOfId, NsOfId, PodOwnerId;
  }

  lemma RefEdgeFacts(pod: string, kind: string, ns: string, name: Option<string>, edgeType: string)
    requires SlashFree(ns) && IsKind(kind) && NsOfId(pod) == ns && KindOfId(pod) != "service"
    ensures var es := RefEdge(pod, kind, ns, name, edgeType); FromNs(es, ns) && AvoidVolumes(es) && NoServiceSource(es)
  {
    if name.Some? {
      IdFacts(kind, ns, name.value);
    }
    hide KindOfId, NsOfId, Id;
  }

  lemma VolumeEdgeFacts(pod: string, ns: string, v: Volume)
    requires SlashFree(ns) && NsOfId(pod) == ns && KindOfId(pod) != "service"
    ensures FromNs(VolumeEdge(pod, ns, v), ns) && AvoidVolumes(VolumeEdge(pod, ns, v)) &&
      NoServiceSource(VolumeEdge(pod, ns, v))
  {
    RefEdgeFacts(pod, "configmap", ns, v.configMap, "uses");
    RefEdgeFacts(pod, "secret", ns, v.secret, "uses");
    RefEdgeFacts(pod, "pvc", ns, v.claim, "mounts");
    hide KindOfId, NsOfId, RefEdge, IsVolumeId, IsRootCa, SlashFree;
  }

  lemma {:induction false} VolumeEdgesFacts(pod: string, ns: string, volumes: seq<Volume>)
    requires SlashFree(ns) && NsOfId(pod) == ns && KindOfId(pod) != "service"
    ensures FromNs(VolumeEdges(pod, ns, volumes), ns) && AvoidVolumes(VolumeEdges(pod, ns, volumes)) &&
      NoServiceSource(VolumeEdges(pod, ns, volumes))
  {
    hide KindOfId, NsOfId, VolumeEdge, IsVolumeId, SlashFree;
    if volumes == [] {
    } else {
      VolumeEdgesFacts(pod, ns, volumes[..|volumes| - 1]);
      VolumeEdgeFacts(pod, ns, volumes[|volumes| - 1]);
    }
  }

  lemma EnvFromEdgeFacts(pod: string, ns: string, source: EnvFrom)
    requires SlashFree(ns) && NsOfId(pod) == ns && KindOfId(pod) != "service"
    ensures FromNs(EnvFromEdge(pod, ns, source), ns) && AvoidVolumes(EnvFromEdge(pod, ns, source)) &&
      NoServiceSource(EnvFromEdge(pod, ns, source))
  {
    RefEdgeFacts(pod, "configmap", ns, source.configMap, "uses");
    RefEdgeFacts(pod, "secret", ns, source.secret, "uses");
    hide KindOfId, NsOfId, RefEdge, IsVolumeId, SlashFree;
  }

  lemma {:induction false} EnvFromEdgesFacts(pod: string, ns: string, sources: seq<EnvFrom>)
    requires SlashFree(ns) && NsOfId(pod) == ns && KindOfId(pod) != "service"
    ensures FromNs(EnvFromEdges(pod, ns, sources), ns) && AvoidVolumes(EnvFromEdges(pod, ns, sources)) &&
      NoServiceSource(EnvFromEdges(pod, ns, sources))
  {
    hide KindOfId, NsOfId, EnvFromEdge, IsVolumeId, SlashFree;
    if sources == [] {
    } else {
      EnvFromEdgesFacts(pod, ns, sources[..|sources| - 1]);
      EnvFromEdgeFacts(pod, ns, sources[|sources| - 1]);
    }
  }

  lemma SpecEdgesFacts(pod: string, ns: string, spec: PodSpec)
    requires SlashFree(ns) && NsOfId(pod) == ns && KindOfId(pod) != "service"
    ensures var es := SpecEdges(pod, ns, spec); FromNs(es, ns) && AvoidVolumes(es) && NoServiceSource(es)
  {
    RefEdgeFacts(pod, "serviceaccount", ns, ServiceAccountOf(spec), "uses_sa");
    VolumeEdgesFacts(pod, ns, spec.volumes);
    EnvFromEdgesFacts(pod, ns, spec.envFrom);
    hide KindOfId, NsOfId, VolumeEdges, EnvFromEdges, RefEdge, ServiceAccountOf, SlashFree;
  }

  lemma PodEdgesFacts(pod: Pod)
    requires SlashFree(NsOf(pod.meta))
    ensures var es := PodEdges(pod, None, ()); FromNs(es, NsOf(pod.meta)) && AvoidVolumes(es) && NoServiceSource(es)
  {
    var ns, id := NsOf(pod.meta), MetaId("pod", pod.meta);
    IdFacts("pod", ns, NameOf(pod.meta));
    hide KindOfId, NsOfId, OwnerEdges, SpecEdges, Id, NsOf, NameOf;
    OwnerEdgesFacts(ns, id, pod.meta.owners);
    if pod.spec.Some? {
      SpecEdgesFacts(id, ns, pod.spec.value);
    }
    hide SlashFree;
  }

  lemma {:induction false} OwnedByFacts(
      meta: Meta, ownerKind: string, kind: string, child: string, owners: seq<OwnerRef>)
    requires SlashFree(NsOf(meta)) && IsKind(kind) && kind != "service" && !IsVolumeId(child)
    ensures var es := OwnedBy(meta, ownerKind, kind, child, owners);
      FromNs(es, NsOf(meta)) && AvoidVolumes(es) && NoServiceSource(es)
  {
    if owners == [] {
    } else {
      OwnedByFacts(meta, ownerKind, kind, child, owners[..|owners| - 1]);
      IdFacts(kind, NsOf(meta), owners[|owners| - 1].name);
    }
    hide KindOfId, NsOfId, Id;
  }

  lemma ReplicaSetEdgesFacts(rs: Workload)
    requires SlashFree(NsOf(rs.meta))
    ensures var es := ReplicaSetEdges(rs, None, ());
      FromNs(es, NsOf(rs.meta)) && AvoidVolumes(es) && NoServiceSource(es)
  {
    IdFacts("replicaset", NsOf(rs.meta), NameOf(rs.meta));
    OwnedByFacts(rs.meta, "Deployment", "deployment", MetaId("replicaset", rs.meta), rs.meta.owners);
  }

  lemma JobEdgesFacts(job: Job)
    requires SlashFree(NsOf(job.meta))
    ensures var es := JobEdges(job, None, ()); FromNs(es, NsOf(job.meta)) && AvoidVolumes(es) && NoServiceSource(es)
  {
    IdFacts("job", NsOf(job.meta), NameOf(job.meta));
    OwnedByFacts(job.meta, "CronJob", "cronjob", MetaId("job", job.meta), job.meta.owners);
  }

  lemma HpaEdgesFacts(hpa: Hpa)
    requires SlashFree(NsOf(hpa.meta))
    ensures var es := HpaEdges(hpa, None, ()); FromNs(es, NsOf(hpa.meta)) && AvoidVolumes(es) && NoServiceSource(es)
  {
    var ns := NsOf(hpa.meta);
    IdFacts("hpa", ns, NameOf(hpa.meta));
    if hpa.target.Some? {
      IdFacts("deployment", ns, hpa.target.value.name);
      IdFacts("statefulset", ns, hpa.target.value.name);
      IdFacts("daemonset", ns, hpa.target.value.name);
    }
    hide KindOfId, NsOfId, Id, ToLower;
  }

  lemma IngressEdgesFacts(ing: Ingress)
    requires SlashFree(NsOf(ing.meta))
    ensures var es := IngressEdges(ing, None, ()); FromNs(es, NsOf(ing.meta)) && AvoidVolumes(es) && NoServiceSource(es)
  {
    var ns := NsOf(ing.meta);
    IdFacts("ingress", ns, NameOf(ing.meta));
    forall i | 0 <= i < |ing.backends| ensures !IsVolumeId(Id("service", ns, ing.backends[i])) {
      IdFacts("service", ns, ing.backends[i]);
    }
    hide KindOfId, NsOfId, Id;
  }

  lemma PvcEdgesFacts(pvc: Pvc, claims: set<string>)
    requires SlashFree(NsOf(pvc.meta))
    ensures var es := PvcEdges(pvc, None, claims); FromNs(es, NsOf(pvc.meta)) && NoServiceSource(es)
  {
    IdFacts("pvc", NsOf(pvc.meta), NameOf(pvc.meta));
    hide KindOfId, NsOfId, Id;
  }

  // ── Controllers are never volumes ────────────────────────────────────────

  ghost predicate NoVolumeIn(m: map<string, string>) {
    forall k :: k in m ==> !IsVolumeId(m[k])
  }

  lemma {:induction false} DeploymentOfFacts(ns: string, owners: seq<OwnerRef>)
    requires SlashFree(ns)
    ensures DeploymentOf(ns, owners).Some? ==> !IsVolumeId(DeploymentOf(ns, owners).value)
  {
    if owners == [] {
    } else {
      DeploymentOfFacts(ns, owners[..|owners| - 1]);
      IdFacts("deployment", ns, owners[|owners| - 1].name);
    }
    hide Id;
  }

  lemma {:induction false} RsToDepFacts(rsets: seq<Workload>)
    requires forall i :: 0 <= i < |rsets| ==> SlashFree(NsOf(rsets[i].meta))
    ensures NoVolumeIn(RsToDep(rsets))
  {
    if rsets == [] {
    } else {
      var rs := rsets[|rsets| - 1];
      RsToDepFacts(rsets[..|rsets| - 1]);
      DeploymentOfFacts(NsOf(rs.meta), rs.meta.owners);
    }
    hide DeploymentOf, KeyOf, SlashFree;
  }

  lemma {:induction false} OwnerControllerFacts(ns: string, owners: seq<OwnerRef>, rsToDep: map<string, string>)
    requires SlashFree(ns) && NoVolumeIn(rsToDep)
    ensures var o := OwnerController(ns, owners, rsToDep); o.Some? ==> !IsVolumeId(o.value)
  {
    if owners == [] {
    } else {
      OwnerControllerFacts(ns, owners[1..], rsToDep);
      PodOwnerFacts(ns, owners[0]);
    }
    hide PodOwnerId, SlashFree;
  }

  lemma {:induction false} PodToControllerFacts(pods: seq<Pod>, rsToDep: map<string, string>)
    requires NoVolumeIn(rsToDep)
    requires forall i :: 0 <= i < |pods| ==> SlashFree(NsOf(pods[i].meta))
    ensures NoVolumeIn(PodToController(pods, rsToDep))
  {
    if pods == [] {
    } else {
      var pod := pods[|pods| - 1];
      PodToControllerFacts(pods[..|pods| - 1], rsToDep);
      OwnerControllerFacts(NsOf(pod.meta), pod.meta.owners, rsToDep);
      IdFacts("pod", NsOf(pod.meta), NameOf(pod.meta));
    }
    hide OwnerController, KeyOf, SlashFree, Id;
  }

  lemma {:induction false} SelectedFacts(svc: Service, pods: seq<Pod>, controllers: map<string, string>)
    requires NoVolumeIn(controllers)
    requires forall i :: 0 <= i < |pods| ==> SlashFree(NsOf(pods[i].meta))
    ensures forall id :: id in SelectedControllers(svc, pods, controllers) ==> !IsVolumeId(id)
  {
    hide IsVolumeId;
    if pods == [] {
    } else {
      var pod := pods[|pods| - 1];
      SelectedFacts(svc, pods[..|pods| - 1], controllers);
      IdFacts("pod", NsOf(pod.meta), NameOf(pod.meta));
      assert !IsVolumeId(LookupController(pod, controllers));
    }
  }

  lemma ServiceEdgesFacts(svc: Service, x: Lookup)
    requires SlashFree(NsOf(svc.meta)) && NoVolumeIn(x.controllers)
    requires forall i :: 0 <= i < |x.pods| ==> SlashFree(NsOf(x.pods[i].meta))
    ensures var es := ServiceEdges(svc, None, x); FromNs(es, NsOf(svc.meta)) && AvoidVolumes(es)
  {
    SelectedFacts(svc, x.pods, x.controllers);
    IdFacts("service", NsOf(svc.meta), NameOf(svc.meta));
    assert NsOfId(MetaId("service", svc.meta)) == NsOf(svc.meta);
    hide NsOfId, MetaId, SelectedControllers, SlashFree, InMap, NsOf, NoVolumeIn, IsVolumeId;
  }

  lemma ControllersFacts(c: Cluster)
    requires PlainNamespaces(c)
    ensures NoVolumeIn(Controllers(c))
  {
    RsToDepFacts(c.replicaSets);
    PodToControllerFacts(c.pods, RsToDep(c.replicaSets));
  }

  // ── References under a filter ────────────────────────────────────────────

  lemma {:induction false} SasUnderFilter(pods: seq<Pod>, f: NsFilter, ns: string, name: string)
    requires forall i :: 0 <= i < |pods| ==> SlashFree(NsOf(pods[i].meta))
    requires SlashFree(ns) && InNs(f, ns)
    ensures ObjectKey(ns, name) in ReferencedSas(pods, f) <==> ObjectKey(ns, name) in ReferencedSas(pods, None)
  {
    if pods == [] {
    } else {
      var pod := pods[|pods| - 1];
      SasUnderFilter(pods[..|pods| - 1], f, ns, name);
      if pod.spec.Some? && ServiceAccountOf(pod.spec.value).Some? {
        ObjectKeyInjective(ns, name, NsOf(pod.meta), ServiceAccountOf(pod.spec.value).value);
      }
      hide ObjectKey, SlashFree, ServiceAccountOf, NsOf;
    }
  }

  lemma {:induction false} VolumeClaimsInNs(ns: string, volumes: seq<Volume>, ns': string, name: string)
    requires SlashFree(ns) && SlashFree(ns') && ObjectKey(ns', name) in VolumeClaims(ns, volumes)
    ensures ns == ns'
  {
    var v := volumes[|volumes| - 1];
    if ObjectKey(ns', name) in VolumeClaims(ns, volumes[..|volumes| - 1]) {
      VolumeClaimsInNs(ns, volumes[..|volumes| - 1], ns', name);
    } else {
      ObjectKeyInjective(ns, v.claim.value, ns', name);
    }
  }

  lemma {:induction false} ClaimsUnderFilter(pods: seq<Pod>, f: NsFilter, ns: string, name: string)
    requires forall i :: 0 <= i < |pods| ==> SlashFree(NsOf(pods[i].meta))
    requires SlashFree(ns) && InNs(f, ns)
    ensures ObjectKey(ns, name) in ReferencedPvcs(pods, f) <==> ObjectKey(ns, name) in ReferencedPvcs(pods, None)
  {
    if pods == [] {
    } else {
      var pod := pods[|pods| - 1];
      ClaimsUnderFilter(pods[..|pods| - 1], f, ns, name);
      if pod.spec.Some? && ObjectKey(ns, name) in PodClaims(pod) {
        VolumeClaimsInNs(NsOf(pod.meta), pod.spec.value.volumes, ns, name);
      }
      hide ObjectKey, SlashFree, NsOf, VolumeClaims;
    }
  }

  lemma {:induction false} ClaimsGrow(pods: seq<Pod>, f: NsFilter)
    ensures ReferencedPvcs(pods, f) <= ReferencedPvcs(pods, None)
  {
    if pods == [] {
    } else {
      ClaimsGrow(pods[..|pods| - 1], f);
      hide PodClaims, NsOf;
    }
  }

  lemma {:induction false} VolumesGrow(pvcs: seq<Pvc>, f: NsFilter, claims: set<string>, all: set<string>)
    requires claims <= all
    ensures ReferencedPvs(pvcs, f, claims) <= ReferencedPvs(pvcs, None, all)
  {
    if pvcs == [] {
    } else {
      VolumesGrow(pvcs[..|pvcs| - 1], f, claims, all);
      hide KeyOf, NsOf, BoundVolume;
    }
  }

  // ── Edges commute with the filter ────────────────────────────────────────

  lemma KeepScoped(f: NsFilter, ns: string, edges: seq<Edge>)
    requires FromNs(edges, ns)
    ensures Scoped(f, ns, edges) == Filter(EdgeTest(f), edges)
  {
    FilterAll(EdgeTest(f), edges, InNs(f, ns));
  }

  lemma KeepPodEdges(c: Cluster, f: NsFilter)
    requires PlainNamespaces(c)
    ensures FlatMap(c.pods, PodEdges, f, ()) == Filter(EdgeTest(f), FlatMap(c.pods, PodEdges, None, ()))
  {
    forall i | 0 <= i < |c.pods|
      ensures PodEdges(c.pods[i], f, ()) == Filter(EdgeTest(f), PodEdges(c.pods[i], None, ()))
    {
      PodEdgesFacts(c.pods[i]);
      KeepScoped(f, NsOf(c.pods[i].meta), PodEdges(c.pods[i], None, ()));
    }
    FilterFlatMap(EdgeTest(f), c.pods, PodEdges, f, (), None, ());
  }

  lemma KeepReplicaSetEdges(c: Cluster, f: NsFilter)
    requires PlainNamespaces(c)
    ensures FlatMap(c.replicaSets, ReplicaSetEdges, f, ())
      == Filter(EdgeTest(f), FlatMap(c.replicaSets, ReplicaSetEdges, None, ()))
  {
    forall i | 0 <= i < |c.replicaSets|
      ensures ReplicaSetEdges(c.replicaSets[i], f, ())
        == Filter(EdgeTest(f), ReplicaSetEdges(c.replicaSets[i], None, ()))
    {
      ReplicaSetEdgesFacts(c.replicaSets[i]);
      KeepScoped(f, NsOf(c.replicaSets[i].meta), ReplicaSetEdges(c.replicaSets[i], None, ()));
    }
    FilterFlatMap(EdgeTest(f), c.replicaSets, ReplicaSetEdges, f, (), None, ());
  }

  lemma KeepJobEdges(c: Cluster, f: NsFilter)
    requires PlainNamespaces(c)
    ensures FlatMap(c.jobs, JobEdges, f, ()) == Filter(EdgeTest(f), FlatMap(c.jobs, JobEdges, None, ()))
  {
    forall i | 0 <= i < |c.jobs|
      ensures JobEdges(c.jobs[i], f, ()) == Filter(EdgeTest(f), JobEdges(c.jobs[i], None, ()))
    {
      JobEdgesFacts(c.jobs[i]);
      KeepScoped(f, NsOf(c.jobs[i].meta), JobEdges(c.jobs[i], None, ()));
    }
    FilterFlatMap(EdgeTest(f), c.jobs, JobEdges, f, (), None, ());
  }

  lemma KeepHpaEdges(c: Cluster, f: NsFilter)
    requires PlainNamespaces(c)
    ensures FlatMap(c.hpas, HpaEdges, f, ()) == Filter(EdgeTest(f), FlatMap(c.hpas, HpaEdges, None, ()))
  {
    forall i | 0 <= i < |c.hpas|
      ensures HpaEdges(c.hpas[i], f, ()) == Filter(EdgeTest(f), HpaEdges(c.hpas[i], None, ()))
    {
      HpaEdgesFacts(c.hpas[i]);
      KeepScoped(f, NsOf(c.hpas[i].meta), HpaEdges(c.hpas[i], None, ()));
    }
    FilterFlatMap(EdgeTest(f), c.hpas, HpaEdges, f, (), None, ());
  }

  lemma KeepServiceEdges(c: Cluster, f: NsFilter)
    requires PlainNamespaces(c)
    ensures var x := Lookup(c.pods, Controllers(c));
      FlatMap(c.services, ServiceEdges, f, x) == Filter(EdgeTest(f), FlatMap(c.services, ServiceEdges, None, x))
  {
    var x := Lookup(c.pods, Controllers(c));
    ControllersFacts(c);
    forall i | 0 <= i < |c.services|
      ensures ServiceEdges(c.services[i], f, x) == Filter(EdgeTest(f), ServiceEdges(c.services[i], None, x))
    {
      ServiceEdgesFacts(c.services[i], x);
      KeepScoped(f, NsOf(c.services[i].meta), ServiceEdges(c.services[i], None, x));
    }
    FilterFlatMap(EdgeTest(f), c.services, ServiceEdges, f, x, None, x);
  }

  lemma KeepIngressEdges(c: Cluster, f: NsFilter)
    requires PlainNamespaces(c)
    ensures FlatMap(c.ingresses, IngressEdges, f, ())
      == Filter(EdgeTest(f), FlatMap(c.ingresses, IngressEdges, None, ()))
  {
    forall i | 0 <= i < |c.ingresses|
      ensures IngressEdges(c.ingresses[i], f, ()) == Filter(EdgeTest(f), IngressEdges(c.ingresses[i], None, ()))
    {
      IngressEdgesFacts(c.ingresses[i]);
      KeepScoped(f, NsOf(c.ingresses[i].meta), IngressEdges(c.ingresses[i], None, ()));
    }
    FilterFlatMap(EdgeTest(f), c.ingresses, IngressEdges, f, (), None, ());
  }

  lemma KeepPvcEdges(c: Cluster, f: NsFilter)
    requires PlainNamespaces(c)
    ensures FlatMap(c.pvcs, PvcEdges, f, ReferencedPvcs(c.pods, f))
         == Filter(EdgeTest(f), FlatMap(c.pvcs, PvcEdges, None, ReferencedPvcs(c.pods, None)))
  {
    var some, all := ReferencedPvcs(c.pods, f), ReferencedPvcs(c.pods, None);
    forall i | 0 <= i < |c.pvcs|
      ensures PvcEdges(c.pvcs[i], f, some) == Filter(EdgeTest(f), PvcEdges(c.pvcs[i], None, all))
    {
      var pvc := c.pvcs[i];
      PvcEdgesFacts(pvc, all);
      KeepScoped(f, NsOf(pvc.meta), PvcEdges(pvc, None, all));
      if InNs(f, NsOf(pvc.meta)) {
        ClaimsUnderFilter(c.pods, f, NsOf(pvc.meta), NameOf(pvc.meta));
      }
    }
    FilterFlatMap(EdgeTest(f), c.pvcs, PvcEdges, f, some, None, all);
  }

  lemma KeepRawEdges(c: Cluster, f: NsFilter)
    requires PlainNamespaces(c)
    ensures Concat(EdgePasses(c, f)) == Filter(EdgeTest(f), Concat(EdgePasses(c, None)))
  {
    hide FlatMap, Filter, EdgeTest, Controllers, ReferencedPvcs, PlainNamespaces, Concat;
    forall i | 0 <= i < 7 ensures EdgePasses(c, f)[i] == Filter(EdgeTest(f), EdgePasses(c, None)[i]) {
      if i == 0 { KeepPodEdges(c, f); }
      if i == 1 { KeepReplicaSetEdges(c, f); }
      if i == 2 { KeepJobEdges(c, f); }
      if i == 3 { KeepHpaEdges(c, f); }
      if i == 4 { KeepServiceEdges(c, f); }
      if i == 5 { KeepIngressEdges(c, f); }
      if i == 6 { KeepPvcEdges(c, f); }
    }
    FilterConcat(EdgeTest(f), EdgePasses(c, f), EdgePasses(c, None));
  }

  /** Sorting and deduplicating commute with the filter, because it looks at the source only. */
  lemma FilteredEdges(c: Cluster, f: NsFilter)
    requires PlainNamespaces(c)
    ensures Map(c, f).edges == Filter(EdgeTest(f), Map(c, None).edges)
  {
    var raw := Concat(EdgePasses(c, None));
    KeepRawEdges(c, f);
    FilterSortBy(EdgeTest(f), raw, EdgeKey);
    SortBySorted(raw, EdgeKey);
    FilterDedupBy(EdgeTest(f), SortBy(raw, EdgeKey), EdgeKey);
  }

  // ── Nodes commute with the filter ────────────────────────────────────────

  /** A pass pushes at most one node for a resource, and that node tells its namespace. */
  ghost predicate OneNode(some: seq<Node>, all: seq<Node>, f: NsFilter) {
    (all == [] && some == [])
    || (|all| == 1 && all[0].namespace.Some? && some == Scoped(f, all[0].namespace.value, all))
  }

  lemma KeepNodePass<R, X>(rs: seq<R>, out: (R, NsFilter, X) -> seq<Node>, f: NsFilter, x: X, y: X, kept: seq<Edge>)
    requires forall i :: 0 <= i < |rs| ==> OneNode(out(rs[i], f, x), out(rs[i], None, y), f)
    ensures FlatMap(rs, out, f, x) == Filter(NodeTest(f, kept), FlatMap(rs, out, None, y))
  {
    forall i | 0 <= i < |rs| ensures out(rs[i], f, x) == Filter(NodeTest(f, kept), out(rs[i], None, y)) {
      var some, all := out(rs[i], f, x), out(rs[i], None, y);
      assert OneNode(some, all, f);
      if all != [] {
        FilterAll(NodeTest(f, kept), all, InNs(f, all[0].namespace.value));
      }
    }
    FilterFlatMap(NodeTest(f, kept), rs, out, f, x, None, y);
  }

  lemma KeepServiceAccountNodes(c: Cluster, f: NsFilter, kept: seq<Edge>)
    requires PlainNamespaces(c)
    ensures FlatMap(c.serviceAccounts, ServiceAccountNodes, f, ReferencedSas(c.pods, f))
         == Filter(NodeTest(f, kept), FlatMap(c.serviceAccounts, ServiceAccountNodes, None,
           ReferencedSas(c.pods, None)))
  {
    var some, all := ReferencedSas(c.pods, f), ReferencedSas(c.pods, None);
    forall i | 0 <= i < |c.serviceAccounts|
      ensures OneNode(ServiceAccountNodes(c.serviceAccounts[i], f, some),
        ServiceAccountNodes(c.serviceAccounts[i], None, all), f)
    {
      var sa := c.serviceAccounts[i];
      if InNs(f, NsOf(sa)) {
        SasUnderFilter(c.pods, f, NsOf(sa), NameOf(sa));
      }
    }
    KeepNodePass(c.serviceAccounts, ServiceAccountNodes, f, some, all, kept);
  }

  lemma KeepPvcNodes(c: Cluster, f: NsFilter, kept: seq<Edge>)
    requires PlainNamespaces(c)
    ensures FlatMap(c.pvcs, PvcNodes, f, ReferencedPvcs(c.pods, f))
         == Filter(NodeTest(f, kept), FlatMap(c.pvcs, PvcNodes, None, ReferencedPvcs(c.pods, None)))
  {
    var some, all := ReferencedPvcs(c.pods, f), ReferencedPvcs(c.pods, None);
    forall i | 0 <= i < |c.pvcs| ensures OneNode(PvcNodes(c.pvcs[i], f, some), PvcNodes(c.pvcs[i], None, all), f) {
      var pvc := c.pvcs[i];
      if InNs(f, NsOf(pvc.meta)) {
        ClaimsUnderFilter(c.pods, f, NsOf(pvc.meta), NameOf(pvc.meta));
      }
    }
    KeepNodePass(c.pvcs, PvcNodes, f, some, all, kept);
  }

  // ── Volumes: kept exactly when an edge of the map leads to them ───────────

  lemma VolumeIdInjective(a: string, b: string)
    ensures VolumeId(a) == VolumeId(b) <==> a == b
    ensures IsVolumeId(VolumeId(a))
  {
    assert VolumeId(a)[3..] == a && VolumeId(b)[3..] == b;
  }

  ghost predicate LeadsTo(edges: seq<Edge>, target: string) {
    exists i :: 0 <= i < |edges| && edges[i].target == target
  }

  lemma LeadsToAppend(a: seq<Edge>, b: seq<Edge>, target: string)
    ensures LeadsTo(a + b, target) <==> LeadsTo(a, target) || LeadsTo(b, target)
  {
    var s := a + b;
    if i :| 0 <= i < |a| && a[i].target == target {
      assert s[i] == a[i];
    }
    if i :| 0 <= i < |b| && b[i].target == target {
      assert s[|a| + i] == b[i];
    }
    if i :| 0 <= i < |s| && s[i].target == target {
      assert i < |a| || b[i - |a|] == s[i];
    }
  }

  /** The claims of the claim pass lead to exactly the referenced volumes. */
  lemma {:induction false} ClaimsLeadToVolumes(pvcs: seq<Pvc>, f: NsFilter, claims: set<string>, name: string)
    ensures LeadsTo(FlatMap(pvcs, PvcEdges, f, claims), VolumeId(name)) <==> name in ReferencedPvs(pvcs, f, claims)
  {
    if pvcs == [] {
    } else {
      var init, pvc := pvcs[..|pvcs| - 1], pvcs[|pvcs| - 1];
      var es := PvcEdges(pvc, f, claims);
      ClaimsLeadToVolumes(init, f, claims, name);
      LeadsToAppend(FlatMap(init, PvcEdges, f, claims), es, VolumeId(name));
      if es != [] {
        VolumeIdInjective(BoundVolume(pvc).value, name);
        assert es[0].target == VolumeId(BoundVolume(pvc).value);
      }
      hide FlatMap, BoundVolume, KeyOf, NsOf, VolumeId, InNs;
    }
  }

  /** No pass but the claim pass leads to a volume. */
  lemma {:induction false} PassAvoidsVolumes<R, X>(
      rs: seq<R>, out: (R, NsFilter, X) -> seq<Edge>, f: NsFilter, x: X, target: string)
    requires IsVolumeId(target) && forall i :: 0 <= i < |rs| ==> AvoidVolumes(out(rs[i], f, x))
    ensures !LeadsTo(FlatMap(rs, out, f, x), target)
  {
    if rs == [] {
    } else {
      PassAvoidsVolumes(rs[..|rs| - 1], out, f, x, target);
      LeadsToAppend(FlatMap(rs[..|rs| - 1], out, f, x), out(rs[|rs| - 1], f, x), target);
      assert AvoidVolumes(out(rs[|rs| - 1], f, x));
    }
  }

  lemma {:induction false} ConcatLeadsTo(parts: seq<seq<Edge>>, target: string)
    ensures LeadsTo(Concat(parts), target) <==> exists i :: 0 <= i < |parts| && LeadsTo(parts[i], target)
  {
    if parts == [] {
    } else {
      var init, last := parts[..|parts| - 1], parts[|parts| - 1];
      ConcatLeadsTo(init, target);
      LeadsToAppend(Concat(init), last, target);
      hide LeadsTo;
      if i :| 0 <= i < |init| && LeadsTo(init[i], target) {
        assert LeadsTo(parts[i], target);
      }
      if i :| 0 <= i < |parts| && LeadsTo(parts[i], target) {
        assert i < |init| ==> LeadsTo(init[i], target);
      }
    }
  }

  lemma OtherPassesAvoidVolumes(c: Cluster, f: NsFilter, target: string, i: nat)
    requires PlainNamespaces(c) && IsVolumeId(target) && i < 6
    ensures !LeadsTo(EdgePasses(c, f)[i], target)
  {
    hide FlatMap, ReferencedPvcs, IsVolumeId, SlashFree, LeadsTo, PodToController, RsToDep;
    if i == 0 {
      forall j | 0 <= j < |c.pods| ensures AvoidVolumes(PodEdges(c.pods[j], f, ())) { PodEdgesFacts(c.pods[j]); }
      PassAvoidsVolumes(c.pods, PodEdges, f, (), target);
    } else if i == 1 {
      forall j | 0 <= j < |c.replicaSets|
        ensures AvoidVolumes(ReplicaSetEdges(c.replicaSets[j], f, ()))
      {
        ReplicaSetEdgesFacts(c.replicaSets[j]);
      }
      PassAvoidsVolumes(c.replicaSets, ReplicaSetEdges, f, (), target);
    } else if i == 2 {
      forall j | 0 <= j < |c.jobs| ensures AvoidVolumes(JobEdges(c.jobs[j], f, ())) { JobEdgesFacts(c.jobs[j]); }
      PassAvoidsVolumes(c.jobs, JobEdges, f, (), target);
    } else if i == 3 {
      forall j | 0 <= j < |c.hpas| ensures AvoidVolumes(HpaEdges(c.hpas[j], f, ())) { HpaEdgesFacts(c.hpas[j]); }
      PassAvoidsVolumes(c.hpas, HpaEdges, f, (), target);
    } else if i == 4 {
      var x := Lookup(c.pods, Controllers(c));
      ControllersFacts(c);
      forall j | 0 <= j < |c.services|
        ensures AvoidVolumes(ServiceEdges(c.services[j], f, x))
      {
        ServiceEdgesFacts(c.services[j], x);
      }
      PassAvoidsVolumes(c.services, ServiceEdges, f, x, target);
    } else {
      forall j | 0 <= j < |c.ingresses|
        ensures AvoidVolumes(IngressEdges(c.ingresses[j], f, ()))
      {
        IngressEdgesFacts(c.ingresses[j]);
      }
      PassAvoidsVolumes(c.ingresses, IngressEdges, f, (), target);
    }
  }

  lemma SortAndDedupLeadsTo(es: seq<Edge>, target: string)
    ensures LeadsTo(SortAndDedup(es), target) <==> LeadsTo(es, target)
  {
    var sorted := SortBy(es, EdgeKey);
    DedupByMembers(sorted, EdgeKey);
    if i :| 0 <= i < |es| && es[i].target == target {
      assert es[i] in multiset(sorted);
      var j :| 0 <= j < |sorted| && sorted[j] == es[i];
      var y := DedupByKeeps(sorted, EdgeKey, j);
    }
    if i :| 0 <= i < |SortAndDedup(es)| && SortAndDedup(es)[i].target == target {
      var e := SortAndDedup(es)[i];
      assert e in sorted;
      assert e in multiset(sorted);
      assert e in es;
    }
  }

  /** An edge of the finished map leads to a volume if and only if the claim pass recorded it. */
  lemma ReferencedVolumesAreLedTo(c: Cluster, f: NsFilter, name: string)
    requires PlainNamespaces(c)
    ensures LeadsTo(Map(c, f).edges, VolumeId(name)) <==> name in ReferencedPvs(c.pvcs, f, ReferencedPvcs(c.pods, f))
  {
    var parts := EdgePasses(c, f);
    VolumeIdInjective(name, name);
    ConcatLeadsTo(parts, VolumeId(name));
    ClaimsLeadToVolumes(c.pvcs, f, ReferencedPvcs(c.pods, f), name);
    SortAndDedupLeadsTo(Concat(parts), VolumeId(name));
    forall i | 0 <= i < 6 ensures !LeadsTo(parts[i], VolumeId(name)) {
      OtherPassesAvoidVolumes(c, f, VolumeId(name), i);
    }
    hide LeadsTo, VolumeId, ReferencedPvcs, ReferencedPvs, FlatMap, Concat, SortAndDedup, PlainNamespaces, Controllers;
    assert LeadsTo(parts[6], VolumeId(name)) <==> name in ReferencedPvs(c.pvcs, f, ReferencedPvcs(c.pods, f));
  }

  lemma KeepPvNode(c: Cluster, f: NsFilter, pv: Pv, some: set<string>, all: set<string>)
    requires PlainNamespaces(c) && some <= all && some == ReferencedPvs(c.pvcs, f, ReferencedPvcs(c.pods, f))
    ensures PvNodes(pv, f, some) == Filter(NodeTest(f, Map(c, f).edges), PvNodes(pv, None, all))
  {
    var kept, nodes, name := Map(c, f).edges, PvNodes(pv, None, all), GetOr(pv.name, "");
    ReferencedVolumesAreLedTo(c, f, name);
    hide Map, PlainNamespaces, VolumeId, ReferencedPvs, ReferencedPvcs, ToLower;
    assert LeadsTo(kept, VolumeId(name)) <==> exists e :: e in kept && e.target == VolumeId(name);
    hide LeadsTo, Filter;
    FilterAll(NodeTest(f, kept), nodes, name in some);
  }

  lemma KeepPvNodes(c: Cluster, f: NsFilter)
    requires PlainNamespaces(c)
    ensures var kept := Map(c, f).edges;
      FlatMap(c.pvs, PvNodes, f, ReferencedPvs(c.pvcs, f, ReferencedPvcs(c.pods, f)))
      == Filter(NodeTest(f, kept), FlatMap(c.pvs, PvNodes, None,
        ReferencedPvs(c.pvcs, None, ReferencedPvcs(c.pods, None))))
  {
    var kept := Map(c, f).edges;
    var some, all := ReferencedPvs(c.pvcs, f, ReferencedPvcs(c.pods, f)),
      ReferencedPvs(c.pvcs, None, ReferencedPvcs(c.pods, None));
    ClaimsGrow(c.pods, f);
    VolumesGrow(c.pvcs, f, ReferencedPvcs(c.pods, f), ReferencedPvcs(c.pods, None));
    hide Map, PlainNamespaces, ReferencedPvs, ReferencedPvcs, PvNodes, FlatMap, Filter, NodeTest;
    forall i | 0 <= i < |c.pvs|
      ensures PvNodes(c.pvs[i], f, some) == Filter(NodeTest(f, kept), PvNodes(c.pvs[i], None, all))
    {
      KeepPvNode(c, f, c.pvs[i], some, all);
    }
    FilterFlatMap(NodeTest(f, kept), c.pvs, PvNodes, f, some, None, all);
  }

  lemma KeepWorkloadPass(c: Cluster, f: NsFilter, i: nat)
    requires PlainNamespaces(c) && i < 5
    ensures NodePasses(c, f)[i] == Filter(NodeTest(f, Map(c, f).edges), NodePasses(c, None)[i])
  {
    var kept := Map(c, f).edges;
    hide FlatMap, Filter, ReferencedPvcs, ReferencedPvs, ReferencedSas, PlainNamespaces, Map, MakeNode, WorkloadNodes,
      NsOf, NodeTest, Retired;
    if i == 0 { KeepNodePass(c.pods, PodNodes, f, (), (), kept); }
    if i == 1 { KeepNodePass(c.deployments, DeploymentNodes, f, (), (), kept); }
    if i == 2 { KeepNodePass(c.replicaSets, ReplicaSetNodes, f, (), (), kept); }
    if i == 3 { KeepNodePass(c.statefulSets, StatefulSetNodes, f, (), (), kept); }
    if i == 4 { KeepNodePass(c.daemonSets, DaemonSetNodes, f, (), (), kept); }
  }

  lemma KeepBatchPass(c: Cluster, f: NsFilter, i: nat)
    requires PlainNamespaces(c) && 5 <= i < 10
    ensures NodePasses(c, f)[i] == Filter(NodeTest(f, Map(c, f).edges), NodePasses(c, None)[i])
  {
    var kept := Map(c, f).edges;
    hide FlatMap, Filter, ReferencedPvcs, ReferencedPvs, ReferencedSas, PlainNamespaces, Map, MakeNode, NsOf,
      NodeTest, InMap;
    if i == 5 { KeepNodePass(c.cronJobs, CronJobNodes, f, (), (), kept); }
    if i == 6 { KeepNodePass(c.jobs, JobNodes, f, (), (), kept); }
    if i == 7 { KeepNodePass(c.hpas, HpaNodes, f, (), (), kept); }
    if i == 8 { KeepNodePass(c.services, ServiceNodes, f, (), (), kept); }
    if i == 9 { KeepNodePass(c.ingresses, IngressNodes, f, (), (), kept); }
  }

  lemma KeepOtherPass(c: Cluster, f: NsFilter, i: nat)
    requires PlainNamespaces(c) && 10 <= i < 15
    ensures NodePasses(c, f)[i] == Filter(NodeTest(f, Map(c, f).edges), NodePasses(c, None)[i])
  {
    var kept := Map(c, f).edges;
    hide FlatMap, Filter, ReferencedPvcs, ReferencedPvs, ReferencedSas, PlainNamespaces, Map, MakeNode, NodeTest,
      InMap, NsOf, NameOf;
    if i == 10 { KeepNodePass(c.configMaps, ConfigMapNodes, f, (), (), kept); }
    if i == 11 { KeepNodePass(c.secrets, SecretNodes, f, (), (), kept); }
    if i == 12 { KeepServiceAccountNodes(c, f, kept); }
    if i == 13 { KeepPvcNodes(c, f, kept); }
    if i == 14 { KeepPvNodes(c, f); }
  }

  /** The map of some namespaces is the restriction of the whole map to them. */
  lemma FilterIsRestriction(c: Cluster, f: NsFilter)
    requires PlainNamespaces(c)
    ensures Map(c, f) == Restrict(Map(c, None), f)
  {
    FilteredEdges(c, f);
    forall i | 0 <= i < 15 ensures NodePasses(c, f)[i] == Filter(NodeTest(f, Map(c, f).edges), NodePasses(c, None)[i]) {
      if i < 5 {
        KeepWorkloadPass(c, f, i);
      } else if i < 10 {
        KeepBatchPass(c, f, i);
      } else {
        KeepOtherPass(c, f, i);
      }
    }
    FilterConcat(NodeTest(f, Map(c, f).edges), NodePasses(c, f), NodePasses(c, None));
  }
}
