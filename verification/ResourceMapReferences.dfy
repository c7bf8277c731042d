/** What pods refer to: the edges pushed for a pod, and the service accounts and claims that get a node. */
module ResourceMapReferences {
  import opened ResourceMap
  import opened ResourceMapFilter
  import opened ResourceMapServices
  import opened ResourceMapTypes
  import opened Wrappers

  // ── References, read off the pod ─────────────────────────────────────────

  /** What a volume refers to: a kind, a name and an edge type. The root CA's volume refers to nothing. */
  ghost predicate VolumeRefers(v: Volume, kind: string, name: string, edgeType: string) {
    && !IsRootCa(v)
    && (|| (kind == "configmap" && edgeType == "uses" && v.configMap == Some(name))
        || (kind == "secret" && edgeType == "uses" && v.secret == Some(name))
        || (kind == "pvc" && edgeType == "mounts" && v.claim == Some(name)))
  }

  ghost predicate EnvFromRefers(s: EnvFrom, kind: string, name: string, edgeType: string) {
    edgeType == "uses" && ((kind == "configmap" && s.configMap == Some(name)) ||
      (kind == "secret" && s.secret == Some(name)))
  }

  ghost predicate SomeVolume(volumes: seq<Volume>, kind: string, name: string, edgeType: string) {
    exists i :: 0 <= i < |volumes| && VolumeRefers(volumes[i], kind, name, edgeType)
  }

  ghost predicate SomeEnvFrom(sources: seq<EnvFrom>, kind: string, name: string, edgeType: string) {
    exists i :: 0 <= i < |sources| && EnvFromRefers(sources[i], kind, name, edgeType)
  }

  ghost predicate RunsUnder(pod: Pod, ns: string, account: string) {
    NsOf(pod.meta) == ns && pod.spec.Some? && pod.spec.value.serviceAccount == Some(account) && account != "default"
  }

  ghost predicate Mounts(pod: Pod, ns: string, claim: string) {
    NsOf(pod.meta) == ns && pod.spec.Some? && SomeVolume(pod.spec.value.volumes, "pvc", claim, "mounts")
  }

  /** The pod refers to something of its namespace, in the way the edge type says. */
  ghost predicate Refers(pod: Pod, kind: string, name: string, edgeType: string) {
    && pod.spec.Some?
    && (|| (kind == "serviceaccount" && edgeType == "uses_sa" && RunsUnder(pod, NsOf(pod.meta), name))
        || SomeVolume(pod.spec.value.volumes, kind, name, edgeType)
        || SomeEnvFrom(pod.spec.value.envFrom, kind, name, edgeType))
  }

  // ── Which service accounts and claims are shown ──────────────────────────

  /** The set of `ns/name` strings holds exactly the accounts that a pod in scope runs under. */
  lemma {:induction false} ReferencedSasExact(pods: seq<Pod>, f: NsFilter, ns: string, name: string)
    requires SlashFree(ns) && forall i :: 0 <= i < |pods| ==> SlashFree(NsOf(pods[i].meta))
    ensures ObjectKey(ns, name) in ReferencedSas(pods, f) <==>
      InNs(f, ns) && exists i :: 0 <= i < |pods| && RunsUnder(pods[i], ns, name)
  {
    if pods == [] {
    } else {
      var init, pod := pods[..|pods| - 1], pods[|pods| - 1];
      ReferencedSasExact(init, f, ns, name);
      if pod.spec.Some? && ServiceAccountOf(pod.spec.value).Some? {
        ObjectKeyInjective(ns, name, NsOf(pod.meta), ServiceAccountOf(pod.spec.value).value);
      }
      assert ObjectKey(ns, name) in PodSas(pod) <==> RunsUnder(pod, ns, name);
      assert RunsUnder(pod, ns, name) ==> NsOf(pod.meta) == ns;
      hide RunsUnder, ObjectKey, PodSas, NsOf, SlashFree;
      if i :| 0 <= i < |init| && RunsUnder(init[i], ns, name) {
        assert pods[i] == init[i];
      }
      if i :| 0 <= i < |pods| && RunsUnder(pods[i], ns, name) {
        assert i < |init| ==> init[i] == pods[i];
      }
      assert pods[|pods| - 1] == pod;
    }
  }

  lemma {:induction false} VolumeClaimsExact(ns: string, volumes: seq<Volume>, ns': string, name: string)
    requires SlashFree(ns) && SlashFree(ns')
    ensures ObjectKey(ns', name) in VolumeClaims(ns, volumes) <==>
      ns == ns' && SomeVolume(volumes, "pvc", name, "mounts")
  {
    if volumes == [] {
    } else {
      var init, v := volumes[..|volumes| - 1], volumes[|volumes| - 1];
      VolumeClaimsExact(ns, init, ns', name);
      if v.claim.Some? {
        ObjectKeyInjective(ns, v.claim.value, ns', name);
      }
      SomeVolumePush(init, v, "pvc", name, "mounts");
      assert init + [v] == volumes;
      hide ObjectKey, IsRootCa, SlashFree, SomeVolume;
    }
  }

  lemma SomeVolumePush(init: seq<Volume>, v: Volume, kind: string, name: string, edgeType: string)
    ensures SomeVolume(init + [v], kind, name, edgeType) <==>
      SomeVolume(init, kind, name, edgeType) || VolumeRefers(v, kind, name, edgeType)
  {
    hide VolumeRefers;
    var all := init + [v];
    if i :| 0 <= i < |init| && VolumeRefers(init[i], kind, name, edgeType) {
      assert all[i] == init[i];
    }
    assert all[|init|] == v;
  }

  lemma SomeEnvFromPush(init: seq<EnvFrom>, s: EnvFrom, kind: string, name: string, edgeType: string)
    ensures SomeEnvFrom(init + [s], kind, name, edgeType) <==>
      SomeEnvFrom(init, kind, name, edgeType) || EnvFromRefers(s, kind, name, edgeType)
  {
    hide EnvFromRefers;
    var all := init + [s];
    if i :| 0 <= i < |init| && EnvFromRefers(init[i], kind, name, edgeType) {
      assert all[i] == init[i];
    }
    assert all[|init|] == s;
  }

  /** The set of `ns/name` strings holds exactly the claims that a pod in scope mounts. */
  lemma {:induction false} ReferencedPvcsExact(pods: seq<Pod>, f: NsFilter, ns: string, name: string)
    requires SlashFree(ns) && forall i :: 0 <= i < |pods| ==> SlashFree(NsOf(pods[i].meta))
    ensures ObjectKey(ns, name) in ReferencedPvcs(pods, f) <==>
      InNs(f, ns) && exists i :: 0 <= i < |pods| && Mounts(pods[i], ns, name)
  {
    if pods == [] {
    } else {
      var init, pod := pods[..|pods| - 1], pods[|pods| - 1];
      ReferencedPvcsExact(init, f, ns, name);
      assert ObjectKey(ns, name) in PodClaims(pod) <==> Mounts(pod, ns, name) by {
        if pod.spec.Some? {
          VolumeClaimsExact(NsOf(pod.meta), pod.spec.value.volumes, ns, name);
        }
        hide VolumeClaims, ObjectKey, IsRootCa, NsOf;
      }
      assert Mounts(pod, ns, name) ==> NsOf(pod.meta) == ns;
      hide Mounts, ObjectKey, PodClaims, NsOf, SlashFree;
      if i :| 0 <= i < |init| && Mounts(init[i], ns, name) {
        assert pods[i] == init[i];
      }
      if i :| 0 <= i < |pods| && Mounts(pods[i], ns, name) {
        assert i < |init| ==> init[i] == pods[i];
      }
      assert pods[|pods| - 1] == pod;
    }
  }

  // ── The edges of a pod ───────────────────────────────────────────────────

  lemma {:induction false} OwnerEdgesExact(ns: string, pod: string, owners: seq<OwnerRef>, e: Edge)
    ensures e in OwnerEdges(ns, pod, owners) <==>
      (e.target == pod && e.edgeType == "owns"
       && exists i :: 0 <= i < |owners| && PodOwnerId(ns, owners[i]) == Some(e.source))
  {
    hide PodOwnerId;
    if owners == [] {
    } else {
      var init, owner := owners[..|owners| - 1], owners[|owners| - 1];
      OwnerEdgesExact(ns, pod, init, e);
      if i :| 0 <= i < |init| && PodOwnerId(ns, init[i]) == Some(e.source) {
        assert owners[i] == init[i];
      }
      if i :| 0 <= i < |owners| && PodOwnerId(ns, owners[i]) == Some(e.source) {
        assert i < |init| ==> init[i] == owners[i];
      }
      assert owners[|owners| - 1] == owner;
    }
  }

  /** Kinds and names in ids of one namespace can be told apart. */
  lemma IdParts(kind: string, ns: string, name: string, kind': string, name': string)
    requires SlashFree(kind) && SlashFree(kind')
    ensures Id(kind, ns, name) == Id(kind', ns, name') <==> kind == kind' && name == name'
  {
    assert Id(kind, ns, name) == kind + "/" + (ns + "/" + name);
    assert Id(kind', ns, name') == kind' + "/" + (ns + "/" + name');
    SplitAtSlash(kind, ns + "/" + name);
    SplitAtSlash(kind', ns + "/" + name');
    var n := |ns| + 1;
    assert (ns + "/" + name)[n..] == name && (ns + "/" + name')[n..] == name';
  }

  lemma RefEdgeExact(
      pod: string, kind: string, ns: string, ref: Option<string>, edgeType: string, kind': string,
      name: string, edgeType': string)
    requires SlashFree(kind) && SlashFree(kind')
    ensures Edge(pod, Id(kind', ns, name), edgeType') in RefEdge(pod, kind, ns, ref, edgeType) <==>
      kind' == kind && ref == Some(name) && edgeType' == edgeType
  {
    if ref.Some? {
      IdParts(kind, ns, ref.value, kind', name);
    }
    hide Id, SlashFree;
  }

  lemma VolumeEdgeExact(pod: string, ns: string, v: Volume, kind: string, name: string, edgeType: string)
    requires SlashFree(kind)
    ensures Edge(pod, Id(kind, ns, name), edgeType) in VolumeEdge(pod, ns, v) <==> VolumeRefers(v, kind, name, edgeType)
  {
    RefEdgeExact(pod, "configmap", ns, v.configMap, "uses", kind, name, edgeType);
    RefEdgeExact(pod, "secret", ns, v.secret, "uses", kind, name, edgeType);
    RefEdgeExact(pod, "pvc", ns, v.claim, "mounts", kind, name, edgeType);
    hide Id, RefEdge, SlashFree, IsRootCa;
  }

  lemma {:induction false} VolumeEdgesExact(
      pod: string, ns: string, volumes: seq<Volume>, kind: string, name: string, edgeType: string)
    requires SlashFree(kind)
    ensures Edge(pod, Id(kind, ns, name), edgeType) in VolumeEdges(pod, ns, volumes) <==>
      SomeVolume(volumes, kind, name, edgeType)
  {
    if volumes == [] {
    } else {
      hide Id, VolumeEdge, SomeVolume, SlashFree;
      var init, v := volumes[..|volumes| - 1], volumes[|volumes| - 1];
      VolumeEdgesExact(pod, ns, init, kind, name, edgeType);
      VolumeEdgeExact(pod, ns, v, kind, name, edgeType);
      SomeVolumePush(init, v, kind, name, edgeType);
      assert init + [v] == volumes;
    }
  }

  lemma EnvFromEdgeExact(pod: string, ns: string, s: EnvFrom, kind: string, name: string, edgeType: string)
    requires SlashFree(kind)
    ensures Edge(pod, Id(kind, ns, name), edgeType) in EnvFromEdge(pod, ns, s) <==>
      EnvFromRefers(s, kind, name, edgeType)
  {
    RefEdgeExact(pod, "configmap", ns, s.configMap, "uses", kind, name, edgeType);
    RefEdgeExact(pod, "secret", ns, s.secret, "uses", kind, name, edgeType);
    hide Id, RefEdge, SlashFree;
  }

  lemma {:induction false} EnvFromEdgesExact(
      pod: string, ns: string, sources: seq<EnvFrom>, kind: string, name: string, edgeType: string)
    requires SlashFree(kind)
    ensures Edge(pod, Id(kind, ns, name), edgeType) in EnvFromEdges(pod, ns, sources) <==>
      SomeEnvFrom(sources, kind, name, edgeType)
  {
    if sources == [] {
    } else {
      hide Id, EnvFromEdge, SomeEnvFrom, SlashFree;
      var init, s := sources[..|sources| - 1], sources[|sources| - 1];
      EnvFromEdgesExact(pod, ns, init, kind, name, edgeType);
      EnvFromEdgeExact(pod, ns, s, kind, name, edgeType);
      SomeEnvFromPush(init, s, kind, name, edgeType);
      assert init + [s] == sources;
    }
  }

  lemma SpecEdgesExact(pod: Pod, kind: string, name: string, edgeType: string)
    requires SlashFree(kind) && pod.spec.Some?
    ensures var id, ns := MetaId("pod", pod.meta), NsOf(pod.meta);
      Edge(id, Id(kind, ns, name), edgeType) in SpecEdges(id, ns, pod.spec.value) <==> Refers(pod, kind, name, edgeType)
  {
    var id, ns, spec := MetaId("pod", pod.meta), NsOf(pod.meta), pod.spec.value;
    RefEdgeExact(id, "serviceaccount", ns, ServiceAccountOf(spec), "uses_sa", kind, name, edgeType);
    VolumeEdgesExact(id, ns, spec.volumes, kind, name, edgeType);
    EnvFromEdgesExact(id, ns, spec.envFrom, kind, name, edgeType);
    assert ServiceAccountOf(spec) == Some(name) <==> spec.serviceAccount == Some(name) && name != "default";
    hide Id, MetaId, NsOf, RefEdge, VolumeEdges, EnvFromEdges, SomeVolume, SomeEnvFrom, ServiceAccountOf, SlashFree;
  }

  // ── Ownership ────────────────────────────────────────────────────────────

  ghost predicate NoneOwns(edges: seq<Edge>) {
    forall i :: 0 <= i < |edges| ==> edges[i].edgeType != "owns"
  }

  lemma {:induction false} VolumesNeverOwn(pod: string, ns: string, volumes: seq<Volume>)
    ensures NoneOwns(VolumeEdges(pod, ns, volumes))
  {
    hide Id;
    if volumes == [] {
    } else {
      VolumesNeverOwn(pod, ns, volumes[..|volumes| - 1]);
    }
  }

  lemma {:induction false} EnvFromNeverOwns(pod: string, ns: string, sources: seq<EnvFrom>)
    ensures NoneOwns(EnvFromEdges(pod, ns, sources))
  {
    hide Id;
    if sources == [] {
    } else {
      EnvFromNeverOwns(pod, ns, sources[..|sources| - 1]);
    }
  }

  lemma SpecNeverOwns(pod: string, ns: string, spec: PodSpec, e: Edge)
    requires e in SpecEdges(pod, ns, spec)
    ensures e.edgeType != "owns"
  {
    VolumesNeverOwn(pod, ns, spec.volumes);
    EnvFromNeverOwns(pod, ns, spec.envFrom);
    hide Id, VolumeEdges, EnvFromEdges, ServiceAccountOf;
  }

  /** The edges that a pod in scope pushes to objects of its namespace are exactly its references. */
  lemma PodReferencesExact(pod: Pod, f: NsFilter, kind: string, name: string, edgeType: string)
    requires InNs(f, NsOf(pod.meta)) && SlashFree(kind) && edgeType != "owns"
    ensures Edge(MetaId("pod", pod.meta), Id(kind, NsOf(pod.meta), name), edgeType) in PodEdges(pod, f, ()) <==>
      Refers(pod, kind, name, edgeType)
  {
    var id, ns := MetaId("pod", pod.meta), NsOf(pod.meta);
    OwnerEdgesExact(ns, id, pod.meta.owners, Edge(id, Id(kind, ns, name), edgeType));
    if pod.spec.Some? {
      SpecEdgesExact(pod, kind, name, edgeType);
    }
    hide OwnerEdges, SpecEdges, Id, MetaId, NsOf, InNs, SlashFree, PodOwnerId;
  }

  /** The "owns" edges that a pod in scope pushes come from exactly its owners of a known kind. */
  lemma PodOwnersExact(pod: Pod, f: NsFilter, owner: string)
    requires InNs(f, NsOf(pod.meta))
    ensures Edge(owner, MetaId("pod", pod.meta), "owns") in PodEdges(pod, f, ()) <==>
      exists i :: 0 <= i < |pod.meta.owners| && PodOwnerId(NsOf(pod.meta), pod.meta.owners[i]) == Some(owner)
  {
    var id, ns := MetaId("pod", pod.meta), NsOf(pod.meta);
    var e := Edge(owner, id, "owns");
    OwnerEdgesExact(ns, id, pod.meta.owners, e);
    if pod.spec.Some? && e in SpecEdges(id, ns, pod.spec.value) {
      SpecNeverOwns(id, ns, pod.spec.value, e);
    }
    hide OwnerEdges, SpecEdges, Id, MetaId, NsOf, InNs, PodOwnerId;
  }

  // ── The finished map ─────────────────────────────────────────────────────

  /** An edge pushed for a pod is in the finished map. */
  lemma PushedForPod(c: Cluster, f: NsFilter, k: nat, e: Edge)
    requires k < |c.pods| && e in PodEdges(c.pods[k], f, ())
    ensures e in Map(c, f).edges
  {
    var parts := EdgePasses(c, f);
    FlatMapMembers(c.pods, PodEdges, f, (), e);
    assert e in parts[0] by {
      hide PodEdges, FlatMap, Controllers, ReferencedPvcs;
    }
    hide EdgePasses, PodEdges;
    ConcatMembers(parts, e);
    FinalEdgesExact(c, f, e);
    hide SortAndDedup, Concat, Map;
  }

  /** No reference and no ownership of a pod in scope is missing from the finished map, type included. */
  lemma PodsAreJoined(c: Cluster, f: NsFilter, k: nat, kind: string, name: string, edgeType: string, i: nat)
    requires k < |c.pods| && InNs(f, NsOf(c.pods[k].meta)) && SlashFree(kind)
    ensures var pod := c.pods[k]; var id, ns := MetaId("pod", pod.meta), NsOf(pod.meta);
      && (Refers(pod, kind, name, edgeType) ==> Edge(id, Id(kind, ns, name), edgeType) in Map(c, f).edges)
      && (i < |pod.meta.owners| && PodOwnerId(ns, pod.meta.owners[i]).Some? ==>
            Edge(PodOwnerId(ns, pod.meta.owners[i]).value, id, "owns") in Map(c, f).edges)
  {
    var pod := c.pods[k];
    var id, ns := MetaId("pod", pod.meta), NsOf(pod.meta);
    if Refers(pod, kind, name, edgeType) {
      PodReferencesExact(pod, f, kind, name, edgeType);
      PushedForPod(c, f, k, Edge(id, Id(kind, ns, name), edgeType));
    }
    if i < |pod.meta.owners| && PodOwnerId(ns, pod.meta.owners[i]).Some? {
      PodOwnersExact(pod, f, PodOwnerId(ns, pod.meta.owners[i]).value);
      PushedForPod(c, f, k, Edge(PodOwnerId(ns, pod.meta.owners[i]).value, id, "owns"));
    }
    hide PodEdges, Map, Id, MetaId, PodOwnerId, SlashFree, InNs, SomeVolume, SomeEnvFrom;
  }

  // ── Nothing but its references leaves a pod ──────────────────────────────

  lemma {:induction false} SpecEdgesLeave(pod: string, ns: string, volumes: seq<Volume>, sources: seq<EnvFrom>, e: Edge)
    ensures e in VolumeEdges(pod, ns, volumes) ==> e.source == pod
    ensures e in EnvFromEdges(pod, ns, sources) ==> e.source == pod
    decreases |volumes| + |sources|
  {
    hide Id, IsRootCa;
    if volumes == [] {
    } else {
      SpecEdgesLeave(pod, ns, volumes[..|volumes| - 1], sources, e);
    }
    if sources == [] {
    } else {
      SpecEdgesLeave(pod, ns, volumes, sources[..|sources| - 1], e);
    }
  }

  /** An edge that a pod pushes leaves an owner of it or the pod itself. */
  lemma PodEdgesLeave(pod: Pod, f: NsFilter, e: Edge)
    requires e in PodEdges(pod, f, ())
    ensures e.source == MetaId("pod", pod.meta) || KindOfId(e.source) != "pod"
  {
    var ns, id := NsOf(pod.meta), MetaId("pod", pod.meta);
    OwnerEdgesExact(ns, id, pod.meta.owners, e);
    if e in OwnerEdges(ns, id, pod.meta.owners) {
      var i :| 0 <= i < |pod.meta.owners| && PodOwnerId(ns, pod.meta.owners[i]) == Some(e.source);
      PodOwnerKind(ns, pod.meta.owners[i]);
    } else {
      var spec := pod.spec.value;
      SpecEdgesLeave(id, ns, spec.volumes, spec.envFrom, e);
    }
    hide OwnerEdges, VolumeEdges, EnvFromEdges, KindOfId, MetaId, NsOf, InNs, PodOwnerId, ServiceAccountOf, Id;
  }

  lemma PassLeavesNoPod<R, X>(
      rs: seq<R>, out: (R, NsFilter, X) -> seq<Edge>, f: NsFilter, x: X, kind: string, e: Edge)
    requires kind != "pod" && KindOfId(e.source) == "pod"
    requires forall i :: 0 <= i < |rs| ==> FromKind(out(rs[i], f, x), kind)
    ensures e !in FlatMap(rs, out, f, x)
  {
    FlatMapMembers(rs, out, f, x, e);
    forall i | 0 <= i < |rs| ensures e !in out(rs[i], f, x) {
      assert FromKind(out(rs[i], f, x), kind);
    }
  }

  lemma OtherPassesLeaveNoPod(c: Cluster, f: NsFilter, e: Edge, i: nat)
    requires KindOfId(e.source) == "pod" && 0 < i < 7
    ensures e !in EdgePasses(c, f)[i]
  {
    hide FlatMap, AllTyped, FromKind, Controllers, ReferencedPvcs, KindOfId;
    if i == 1 {
      forall j | 0 <= j < |c.replicaSets| ensures FromKind(ReplicaSetEdges(c.replicaSets[j], f, ()), "deployment") {
        ReplicaSetEdgesTyped(c.replicaSets[j], f);
      }
      PassLeavesNoPod(c.replicaSets, ReplicaSetEdges, f, (), "deployment", e);
    } else if i == 2 {
      forall j | 0 <= j < |c.jobs|
        ensures FromKind(JobEdges(c.jobs[j], f, ()), "cronjob")
      {
        JobEdgesTyped(c.jobs[j], f);
      }
      PassLeavesNoPod(c.jobs, JobEdges, f, (), "cronjob", e);
    } else if i == 3 {
      forall j | 0 <= j < |c.hpas| ensures FromKind(HpaEdges(c.hpas[j], f, ()), "hpa") { HpaEdgesTyped(c.hpas[j], f); }
      PassLeavesNoPod(c.hpas, HpaEdges, f, (), "hpa", e);
    } else if i == 4 {
      var x := Lookup(c.pods, Controllers(c));
      forall j | 0 <= j < |c.services| ensures FromKind(ServiceEdges(c.services[j], f, x), "service") {
        ServiceEdgesTyped(c.services[j], f, x);
      }
      PassLeavesNoPod(c.services, ServiceEdges, f, x, "service", e);
    } else if i == 5 {
      forall j | 0 <= j < |c.ingresses| ensures FromKind(IngressEdges(c.ingresses[j], f, ()), "ingress") {
        IngressEdgesTyped(c.ingresses[j], f);
      }
      PassLeavesNoPod(c.ingresses, IngressEdges, f, (), "ingress", e);
    } else {
      var claims := ReferencedPvcs(c.pods, f);
      forall j | 0 <= j < |c.pvcs| ensures FromKind(PvcEdges(c.pvcs[j], f, claims), "pvc") {
        PvcEdgesTyped(c.pvcs[j], f, claims);
      }
      PassLeavesNoPod(c.pvcs, PvcEdges, f, claims, "pvc", e);
    }
  }

  /** An edge that leaves a pod was pushed for that pod and no other. */
  lemma PodSource(c: Cluster, f: NsFilter, k: nat, e: Edge)
    requires DistinctKeys(c.pods, PodMeta) && k < |c.pods| && e.source == MetaId("pod", c.pods[k].meta)
    ensures e in Map(c, f).edges <==> e in PodEdges(c.pods[k], f, ())
  {
    var parts := EdgePasses(c, f);
    KindOf("pod", NsOf(c.pods[k].meta), NameOf(c.pods[k].meta));
    assert KindOfId(e.source) == "pod";
    FinalEdgesExact(c, f, e);
    ConcatMembers(parts, e);
    FlatMapMembers(c.pods, PodEdges, f, (), e);
    forall i | 0 < i < 7 ensures e !in parts[i] {
      OtherPassesLeaveNoPod(c, f, e, i);
    }
    hide KindOfId;
    forall j | 0 <= j < |c.pods| && e in PodEdges(c.pods[j], f, ()) ensures j == k {
      PodEdgesLeave(c.pods[j], f, e);
      MetaIdInjective("pod", c.pods[j].meta, c.pods[k].meta);
      assert j != k ==> KeyOf(PodMeta(c.pods[j])) != KeyOf(PodMeta(c.pods[k]));
    }
    hide FlatMap, Concat, PodEdges, Controllers, ReferencedPvcs, MetaId, Map;
    assert parts[0] == FlatMap(c.pods, PodEdges, f, ());
  }

  /**
   * In the finished map, a pod in scope leads to exactly what it refers to, by edges of the type
   * that says how.
   */
  lemma PodLeadsToReferences(c: Cluster, f: NsFilter, k: nat, kind: string, name: string, edgeType: string)
    requires DistinctKeys(c.pods, PodMeta) && k < |c.pods| && InNs(f, NsOf(c.pods[k].meta)) && SlashFree(kind)
    ensures var pod := c.pods[k]; var id, ns := MetaId("pod", pod.meta), NsOf(pod.meta);
      Edge(id, Id(kind, ns, name), edgeType) in Map(c, f).edges <==> Refers(pod, kind, name, edgeType)
  {
    var pod := c.pods[k];
    var e := Edge(MetaId("pod", pod.meta), Id(kind, NsOf(pod.meta), name), edgeType);
    hide Map, Id, MetaId, NsOf, PodEdges, SomeVolume, SomeEnvFrom, RunsUnder, InNs, SlashFree, DistinctKeys;
    if edgeType == "owns" {
      PodsOwnNothing(c, f, pod.meta, e);
    } else {
      PodSource(c, f, k, e);
      PodReferencesExact(pod, f, kind, name, edgeType);
    }
  }

  lemma PodsOwnNothing(c: Cluster, f: NsFilter, meta: Meta, e: Edge)
    requires e.source == MetaId("pod", meta) && e.edgeType == "owns"
    ensures e !in Map(c, f).edges
  {
    FinalEdgesAreTyped(c, f, e);
    KindOf("pod", NsOf(meta), NameOf(meta));
    assert KindOfId(e.source) == "pod";
    PodsHaveOtherTypes(KindOfId(e.target));
    hide Map, KindOfId, Id, NsOf, NameOf, TypeBetween, MetaId;
  }

  lemma PodsHaveOtherTypes(target: string)
    ensures TypeBetween("pod", target) != "owns"
  {
  }

  // ── Volumes ──────────────────────────────────────────────────────────────

  /** A claim in scope, mounted by a pod of its namespace, is bound to the volume. */
  ghost predicate BoundByMountedClaim(c: Cluster, f: NsFilter, volume: string) {
    exists i, j :: 0 <= i < |c.pods| && 0 <= j < |c.pvcs| && MountedAndBound(c.pods[i], c.pvcs[j], f, volume)
  }

  ghost predicate MountedAndBound(pod: Pod, pvc: Pvc, f: NsFilter, volume: string) {
    && InNs(f, NsOf(pvc.meta))
    && Mounts(pod, NsOf(pvc.meta), NameOf(pvc.meta))
    && pvc.volumeName == Some(volume) && volume != ""
  }

  ghost predicate Records(pvc: Pvc, f: NsFilter, claims: set<string>, volume: string) {
    InNs(f, NsOf(pvc.meta)) && KeyOf(pvc.meta) in claims && pvc.volumeName == Some(volume) && volume != ""
  }

  lemma {:induction false} ReferencedPvsExact(pvcs: seq<Pvc>, f: NsFilter, claims: set<string>, volume: string)
    ensures volume in ReferencedPvs(pvcs, f, claims) <==>
      exists j :: 0 <= j < |pvcs| && Records(pvcs[j], f, claims, volume)
  {
    hide KeyOf, NsOf, InNs;
    if pvcs == [] {
    } else {
      var init, pvc := pvcs[..|pvcs| - 1], pvcs[|pvcs| - 1];
      ReferencedPvsExact(init, f, claims, volume);
      if j :| 0 <= j < |init| && Records(init[j], f, claims, volume) {
        assert pvcs[j] == init[j];
      }
      if j :| 0 <= j < |pvcs| && Records(pvcs[j], f, claims, volume) {
        assert j < |init| ==> init[j] == pvcs[j];
      }
      assert pvcs[|pvcs| - 1] == pvc;
    }
  }

  /**
   * In the finished map an edge leads to a volume if and only if a claim in scope, mounted by a pod, is
   * bound to it.
   */
  lemma OnlyClaimsLeadToVolumes(c: Cluster, f: NsFilter, volume: string)
    requires PlainNamespaces(c)
    ensures LeadsTo(Map(c, f).edges, VolumeId(volume)) <==> BoundByMountedClaim(c, f, volume)
  {
    var claims := ReferencedPvcs(c.pods, f);
    ReferencedVolumesAreLedTo(c, f, volume);
    ReferencedPvsExact(c.pvcs, f, claims, volume);
    forall j | 0 <= j < |c.pvcs| && InNs(f, NsOf(c.pvcs[j].meta))
      ensures KeyOf(c.pvcs[j].meta) in claims <==>
        exists i :: 0 <= i < |c.pods| && Mounts(c.pods[i], NsOf(c.pvcs[j].meta), NameOf(c.pvcs[j].meta))
    {
      ReferencedPvcsExact(c.pods, f, NsOf(c.pvcs[j].meta), NameOf(c.pvcs[j].meta));
    }
    hide Map, LeadsTo, VolumeId, ReferencedPvs, ReferencedPvcs, Mounts, KeyOf, NsOf, NameOf, InNs, PlainNamespaces;
    if j :| 0 <= j < |c.pvcs| && Records(c.pvcs[j], f, claims, volume) {
      var i :| 0 <= i < |c.pods| && Mounts(c.pods[i], NsOf(c.pvcs[j].meta), NameOf(c.pvcs[j].meta));
      assert MountedAndBound(c.pods[i], c.pvcs[j], f, volume);
    }
    if i, j :| 0 <= i < |c.pods| && 0 <= j < |c.pvcs| && MountedAndBound(c.pods[i], c.pvcs[j], f, volume) {
      assert Records(c.pvcs[j], f, claims, volume);
    }
  }
}
