/**
 * What the resource map means: which edges and which nodes it has, read off the resources alone and
 * not through what the loops push.
 */
module ResourceMapMeaning {
  import opened ResourceMap
  import opened ResourceMapFilter
  import opened ResourceMapReferences
  import opened ResourceMapServices
  import opened ResourceMapTypes
  import opened Wrappers

  // ── Names and owners ─────────────────────────────────────────────────────

  /** The object has that namespace, "default" if none is given, and that name, empty if none is given. */
  ghost predicate Called(meta: Meta, ns: string, name: string) {
    && (meta.namespace == Some(ns) || (meta.namespace == None && ns == "default"))
    && (meta.name == Some(name) || (meta.name == None && name == ""))
  }

  /** The node of an owner of a pod; other kinds of owners have none. */
  ghost predicate OwnerIs(ns: string, owner: OwnerRef, id: string) {
    || (owner.kind == "ReplicaSet" && id == "replicaset/" + ns + "/" + owner.name)
    || (owner.kind == "StatefulSet" && id == "statefulset/" + ns + "/" + owner.name)
    || (owner.kind == "DaemonSet" && id == "daemonset/" + ns + "/" + owner.name)
    || (owner.kind == "Job" && id == "job/" + ns + "/" + owner.name)
  }

  predicate OwnsPods(kind: string) {
    kind == "ReplicaSet" || kind == "StatefulSet" || kind == "DaemonSet" || kind == "Job"
  }

  lemma CalledIs(meta: Meta, ns: string, name: string)
    ensures Called(meta, ns, name) <==> ns == NsOf(meta) && name == NameOf(meta)
  {
  }

  lemma OwnerIsExact(ns: string, owner: OwnerRef, id: string)
    ensures PodOwnerId(ns, owner) == Some(id) <==> OwnerIs(ns, owner, id)
    ensures PodOwnerId(ns, owner).Some? <==> OwnsPods(owner.kind)
  {
    assert "replicaset" + "/" == "replicaset/" && "statefulset" + "/" == "statefulset/";
    assert "daemonset" + "/" == "daemonset/" && "job" + "/" == "job/";
  }

  // ── Edges of pods ────────────────────────────────────────────────────────

  ghost predicate VolumeMeans(ns: string, v: Volume, target: string, edgeType: string) {
    && v.configMap != Some("kube-root-ca.crt")
    && (|| (edgeType == "uses" && v.configMap.Some? && target == "configmap/" + ns + "/" + v.configMap.value)
        || (edgeType == "uses" && v.secret.Some? && target == "secret/" + ns + "/" + v.secret.value)
        || (edgeType == "mounts" && v.claim.Some? && target == "pvc/" + ns + "/" + v.claim.value))
  }

  ghost predicate EnvFromMeans(ns: string, s: EnvFrom, target: string, edgeType: string) {
    && edgeType == "uses"
    && (|| (s.configMap.Some? && target == "configmap/" + ns + "/" + s.configMap.value)
        || (s.secret.Some? && target == "secret/" + ns + "/" + s.secret.value))
  }

  ghost predicate AccountMeans(ns: string, account: Option<string>, target: string, edgeType: string) {
    && account.Some? && account.value != "default"
    && edgeType == "uses_sa" && target == "serviceaccount/" + ns + "/" + account.value
  }

  ghost predicate SpecMeans(ns: string, spec: PodSpec, target: string, edgeType: string) {
    || AccountMeans(ns, spec.serviceAccount, target, edgeType)
    || (exists i :: 0 <= i < |spec.volumes| && VolumeMeans(ns, spec.volumes[i], target, edgeType))
    || (exists i :: 0 <= i < |spec.envFrom| && EnvFromMeans(ns, spec.envFrom[i], target, edgeType))
  }

  /** An owner owns the pod, or the pod uses or mounts something of its namespace. */
  ghost predicate PodEdge(pod: Pod, ns: string, name: string, e: Edge) {
    var id := "pod/" + ns + "/" + name;
    || (e.target == id && e.edgeType == "owns"
        && exists i :: 0 <= i < |pod.meta.owners| && OwnerIs(ns, pod.meta.owners[i], e.source))
    || (e.source == id && pod.spec.Some? && SpecMeans(ns, pod.spec.value, e.target, e.edgeType))
  }

  lemma RefEdgeMeans(pod: string, kind: string, ns: string, ref: Option<string>, edgeType: string, e: Edge)
    ensures e in RefEdge(pod, kind, ns, ref, edgeType) <==>
      ref.Some? && e == Edge(pod, kind + "/" + ns + "/" + ref.value, edgeType)
  {
  }

  lemma VolumeEdgeMeans(pod: string, ns: string, v: Volume, e: Edge)
    ensures e in VolumeEdge(pod, ns, v) <==> e.source == pod && VolumeMeans(ns, v, e.target, e.edgeType)
  {
    RefEdgeMeans(pod, "configmap", ns, v.configMap, "uses", e);
    RefEdgeMeans(pod, "secret", ns, v.secret, "uses", e);
    RefEdgeMeans(pod, "pvc", ns, v.claim, "mounts", e);
    assert "configmap" + "/" == "configmap/" && "secret" + "/" == "secret/" && "pvc" + "/" == "pvc/";
    hide RefEdge;
  }

  lemma {:induction false} VolumeEdgesMean(pod: string, ns: string, volumes: seq<Volume>, e: Edge)
    ensures e in VolumeEdges(pod, ns, volumes) <==>
      e.source == pod && exists i :: 0 <= i < |volumes| && VolumeMeans(ns, volumes[i], e.target, e.edgeType)
  {
    hide VolumeEdge, VolumeMeans;
    if volumes == [] {
    } else {
      var init, last := volumes[..|volumes| - 1], volumes[|volumes| - 1];
      VolumeEdgesMean(pod, ns, init, e);
      VolumeEdgeMeans(pod, ns, last, e);
      assert forall i :: 0 <= i < |init| ==> init[i] == volumes[i];
      if i :| 0 <= i < |volumes| && VolumeMeans(ns, volumes[i], e.target, e.edgeType) {
        assert i < |init| ==> VolumeMeans(ns, init[i], e.target, e.edgeType);
      }
      assert volumes[|volumes| - 1] == last;
    }
  }

  lemma EnvFromEdgeMeans(pod: string, ns: string, s: EnvFrom, e: Edge)
    ensures e in EnvFromEdge(pod, ns, s) <==> e.source == pod && EnvFromMeans(ns, s, e.target, e.edgeType)
  {
    RefEdgeMeans(pod, "configmap", ns, s.configMap, "uses", e);
    RefEdgeMeans(pod, "secret", ns, s.secret, "uses", e);
    assert "configmap" + "/" == "configmap/" && "secret" + "/" == "secret/";
    hide RefEdge;
  }

  lemma {:induction false} EnvFromEdgesMean(pod: string, ns: string, sources: seq<EnvFrom>, e: Edge)
    ensures e in EnvFromEdges(pod, ns, sources) <==>
      e.source == pod && exists i :: 0 <= i < |sources| && EnvFromMeans(ns, sources[i], e.target, e.edgeType)
  {
    hide EnvFromEdge, EnvFromMeans;
    if sources == [] {
    } else {
      var init, last := sources[..|sources| - 1], sources[|sources| - 1];
      EnvFromEdgesMean(pod, ns, init, e);
      EnvFromEdgeMeans(pod, ns, last, e);
      assert forall i :: 0 <= i < |init| ==> init[i] == sources[i];
      if i :| 0 <= i < |sources| && EnvFromMeans(ns, sources[i], e.target, e.edgeType) {
        assert i < |init| ==> EnvFromMeans(ns, init[i], e.target, e.edgeType);
      }
      assert sources[|sources| - 1] == last;
    }
  }

  lemma SpecEdgesMean(pod: string, ns: string, spec: PodSpec, e: Edge)
    ensures e in SpecEdges(pod, ns, spec) <==> e.source == pod && SpecMeans(ns, spec, e.target, e.edgeType)
  {
    RefEdgeMeans(pod, "serviceaccount", ns, ServiceAccountOf(spec), "uses_sa", e);
    assert "serviceaccount" + "/" == "serviceaccount/";
    VolumeEdgesMean(pod, ns, spec.volumes, e);
    EnvFromEdgesMean(pod, ns, spec.envFrom, e);
    hide RefEdge, VolumeEdges, EnvFromEdges, VolumeMeans, EnvFromMeans;
  }

  lemma PodEdgesMean(pod: Pod, f: NsFilter, e: Edge)
    ensures e in PodEdges(pod, f, ()) <==>
      InNs(f, NsOf(pod.meta)) && PodEdge(pod, NsOf(pod.meta), NameOf(pod.meta), e)
  {
    var ns, name := NsOf(pod.meta), NameOf(pod.meta);
    var id := MetaId("pod", pod.meta);
    assert id == "pod/" + ns + "/" + name by {
      assert "pod" + "/" == "pod/";
    }
    OwnerEdgesExact(ns, id, pod.meta.owners, e);
    forall i | 0 <= i < |pod.meta.owners|
      ensures PodOwnerId(ns, pod.meta.owners[i]) == Some(e.source) <==> OwnerIs(ns, pod.meta.owners[i], e.source)
    {
      OwnerIsExact(ns, pod.meta.owners[i], e.source);
    }
    if pod.spec.Some? {
      SpecEdgesMean(id, ns, pod.spec.value, e);
    }
    hide OwnerEdges, SpecEdges, SpecMeans, OwnerIs, PodOwnerId, NsOf, NameOf, MetaId, InNs;
  }

  // ── Edges of workloads ───────────────────────────────────────────────────

  /** Nothing is asked for and nothing is up; what is not said counts as zero. */
  ghost predicate ScaledToZero(w: Workload) {
    (w.desired == None || w.desired == Some(0)) && (w.up == None || w.up == Some(0))
  }

  ghost predicate NamesOwner(owner: OwnerRef, ownerKind: string, ns: string, prefix: string, source: string) {
    owner.kind == ownerKind && source == prefix + "/" + ns + "/" + owner.name
  }

  ghost predicate OwnedByOne(owners: seq<OwnerRef>, ownerKind: string, ns: string, prefix: string, source: string) {
    exists i :: 0 <= i < |owners| && NamesOwner(owners[i], ownerKind, ns, prefix, source)
  }

  /** A Deployment owns a ReplicaSet that is in use. */
  ghost predicate ReplicaSetEdge(rs: Workload, ns: string, name: string, e: Edge) {
    && !ScaledToZero(rs) && OwnedByOne(rs.meta.owners, "Deployment", ns, "deployment", e.source)
    && e.target == "replicaset/" + ns + "/" + name && e.edgeType == "owns"
  }

  /** A CronJob owns a Job. */
  ghost predicate JobEdge(job: Job, ns: string, name: string, e: Edge) {
    && OwnedByOne(job.meta.owners, "CronJob", ns, "cronjob", e.source)
    && e.target == "job/" + ns + "/" + name && e.edgeType == "owns"
  }

  /** `word` is in small letters; the other may have capitals in their place. */
  ghost predicate SameWord(s: string, word: string) {
    && |s| == |word|
    && forall i :: 0 <= i < |s| ==> s[i] == word[i] || ('A' <= s[i] <= 'Z' && s[i] as int + 32 == word[i] as int)
  }

  ghost predicate ScalesKind(kind: string, word: string) {
    SameWord(kind, word) && (word == "deployment" || word == "statefulset" || word == "daemonset")
  }

  /** An HPA scales its target, if that is of a kind that the map shows. */
  ghost predicate HpaEdge(hpa: Hpa, ns: string, name: string, e: Edge) {
    && hpa.target.Some? && e.source == "hpa/" + ns + "/" + name && e.edgeType == "scales"
    && exists word :: ScalesKind(hpa.target.value.kind, word)
                      && e.target == word + "/" + ns + "/" + hpa.target.value.name
  }

  /** An ingress routes to each of its backends. */
  ghost predicate IngressEdge(ing: Ingress, ns: string, name: string, e: Edge) {
    && e.source == "ingress/" + ns + "/" + name && e.edgeType == "routes"
    && exists i :: 0 <= i < |ing.backends| && e.target == "service/" + ns + "/" + ing.backends[i]
  }

  lemma {:induction false} OwnedByMeans(
      meta: Meta, ownerKind: string, kind: string, child: string, owners: seq<OwnerRef>, e: Edge)
    ensures e in OwnedBy(meta, ownerKind, kind, child, owners) <==>
      e.target == child && e.edgeType == "owns" && OwnedByOne(owners, ownerKind, NsOf(meta), kind, e.source)
  {
    hide NsOf;
    if owners == [] {
    } else {
      var init, last := owners[..|owners| - 1], owners[|owners| - 1];
      OwnedByMeans(meta, ownerKind, kind, child, init, e);
      assert forall i :: 0 <= i < |init| ==> init[i] == owners[i];
      assert owners[|owners| - 1] == last;
    }
  }

  lemma ReplicaSetEdgesMean(rs: Workload, f: NsFilter, e: Edge)
    ensures e in ReplicaSetEdges(rs, f, ()) <==>
      InNs(f, NsOf(rs.meta)) && ReplicaSetEdge(rs, NsOf(rs.meta), NameOf(rs.meta), e)
  {
    var child := MetaId("replicaset", rs.meta);
    OwnedByMeans(rs.meta, "Deployment", "deployment", child, rs.meta.owners, e);
    assert child == "replicaset/" + NsOf(rs.meta) + "/" + NameOf(rs.meta) by {
      assert "replicaset" + "/" == "replicaset/";
    }
    hide OwnedBy, NsOf, NameOf, MetaId, InNs;
  }

  lemma JobEdgesMean(job: Job, f: NsFilter, e: Edge)
    ensures e in JobEdges(job, f, ()) <==>
      InNs(f, NsOf(job.meta)) && JobEdge(job, NsOf(job.meta), NameOf(job.meta), e)
  {
    var child := MetaId("job", job.meta);
    OwnedByMeans(job.meta, "CronJob", "cronjob", child, job.meta.owners, e);
    assert child == "job/" + NsOf(job.meta) + "/" + NameOf(job.meta) by {
      assert "job" + "/" == "job/";
    }
    hide OwnedBy, NsOf, NameOf, MetaId, InNs;
  }

  lemma LowerIs(s: string, word: string)
    requires forall i :: 0 <= i < |word| ==> 'a' <= word[i] <= 'z'
    ensures ToLower(s) == word <==> SameWord(s, word)
  {
    if SameWord(s, word) {
      assert forall i :: 0 <= i < |s| ==> ToLower(s)[i] == word[i];
    }
    if ToLower(s) == word {
      assert forall i :: 0 <= i < |s| ==> ToLower(s)[i] == word[i];
    }
  }

  lemma ScaleEdgesMean(hpa: Hpa, target: OwnerRef, e: Edge)
    ensures e in ScaleEdges(hpa, target) <==>
      (e.source == "hpa/" + NsOf(hpa.meta) + "/" + NameOf(hpa.meta) && e.edgeType == "scales"
       && exists word :: ScalesKind(target.kind, word) && e.target == word + "/" + NsOf(hpa.meta) + "/" + target.name)
  {
    LowerIs(target.kind, "deployment");
    LowerIs(target.kind, "statefulset");
    LowerIs(target.kind, "daemonset");
    assert "hpa" + "/" == "hpa/";
    hide ToLower, NsOf, NameOf, SameWord;
    var kind := ToLower(target.kind);
    if kind == "deployment" || kind == "statefulset" || kind == "daemonset" {
      assert ScalesKind(target.kind, kind);
    }
  }

  lemma HpaEdgesMean(hpa: Hpa, f: NsFilter, e: Edge)
    ensures e in HpaEdges(hpa, f, ()) <==>
      InNs(f, NsOf(hpa.meta)) && HpaEdge(hpa, NsOf(hpa.meta), NameOf(hpa.meta), e)
  {
    if hpa.target.Some? {
      ScaleEdgesMean(hpa, hpa.target.value, e);
    }
    hide ScaleEdges, ScalesKind, NsOf, NameOf, InNs;
  }

  lemma IngressEdgesMean(ing: Ingress, f: NsFilter, e: Edge)
    ensures e in IngressEdges(ing, f, ()) <==>
      InNs(f, NsOf(ing.meta)) && IngressEdge(ing, NsOf(ing.meta), NameOf(ing.meta), e)
  {
    var ns := NsOf(ing.meta);
    assert "ingress" + "/" == "ingress/" && "service" + "/" == "service/";
    assert MetaId("ingress", ing.meta) == "ingress/" + ns + "/" + NameOf(ing.meta);
    hide NsOf, NameOf, MetaId, InNs;
    var es := IngressEdges(ing, f, ());
    if InNs(f, ns) {
      forall i | 0 <= i < |ing.backends|
        ensures es[i] == Edge(MetaId("ingress", ing.meta), "service/" + ns + "/" + ing.backends[i], "routes")
      {
      }
      if IngressEdge(ing, ns, NameOf(ing.meta), e) {
        var i :| 0 <= i < |ing.backends| && e.target == "service/" + ns + "/" + ing.backends[i];
        assert es[i] == e;
      }
    }
  }

  // ── Edges of services ────────────────────────────────────────────────────

  ghost predicate IsLastDeployment(owners: seq<OwnerRef>, d: int) {
    && 0 <= d < |owners| && owners[d].kind == "Deployment"
    && forall j :: d < j < |owners| ==> owners[j].kind != "Deployment"
  }

  ghost predicate LastDeploymentIs(owners: seq<OwnerRef>, ns: string, id: string) {
    exists d :: IsLastDeployment(owners, d) && id == "deployment/" + ns + "/" + owners[d].name
  }

  /** The ReplicaSet of that name belongs to the Deployment with that id. */
  ghost predicate Deploys(rs: Workload, ns: string, name: string, id: string) {
    Called(rs.meta, ns, name) && LastDeploymentIs(rs.meta.owners, ns, id)
  }

  ghost predicate SomeDeploys(rsets: seq<Workload>, ns: string, name: string, id: string) {
    exists i :: 0 <= i < |rsets| && Deploys(rsets[i], ns, name, id)
  }

  ghost predicate IsFirstOwner(owners: seq<OwnerRef>, o: int) {
    0 <= o < |owners| && OwnsPods(owners[o].kind) && forall j :: 0 <= j < o ==> !OwnsPods(owners[j].kind)
  }

  /**
   * The top-level controller: the Deployment behind the ReplicaSet that owns the pod, else the first
   * owner of a known kind, else the pod itself.
   */
  ghost predicate TopController(c: Cluster, pod: Pod, ns: string, name: string, id: string) {
    if exists o :: IsFirstOwner(pod.meta.owners, o) then
      exists o :: IsFirstOwner(pod.meta.owners, o) && Controls(c, ns, pod.meta.owners[o], id)
    else id == "pod/" + ns + "/" + name
  }

  ghost predicate Controls(c: Cluster, ns: string, owner: OwnerRef, id: string) {
    if owner.kind == "ReplicaSet" && exists d :: SomeDeploys(c.replicaSets, ns, owner.name, d) then
      SomeDeploys(c.replicaSets, ns, owner.name, id)
    else OwnerIs(ns, owner, id)
  }

  ghost predicate InNamespace(meta: Meta, ns: string) {
    meta.namespace == Some(ns) || (meta.namespace == None && ns == "default")
  }

  /** The pod is in the namespace and has all labels of the selector. */
  ghost predicate Matches(pod: Pod, ns: string, selector: map<string, string>) {
    InNamespace(pod.meta, ns) && forall k :: k in selector ==> k in pod.labels && pod.labels[k] == selector[k]
  }

  /** A service that the map shows: one with a selector, and not the API server's own. */
  ghost predicate ShownService(svc: Service, ns: string, name: string) {
    svc.selector != map[] && !(ns == "default" && name == "kubernetes")
  }

  /** A service selects the top-level controllers of its pods. */
  ghost predicate ServiceEdge(c: Cluster, svc: Service, ns: string, name: string, e: Edge) {
    && ShownService(svc, ns, name) && e.source == "service/" + ns + "/" + name && e.edgeType == "selects"
    && exists i :: 0 <= i < |c.pods| && SelectedAs(c, svc, ns, c.pods[i], e.target)
  }

  ghost predicate SelectedAs(c: Cluster, svc: Service, ns: string, pod: Pod, target: string) {
    Matches(pod, ns, svc.selector) && TopController(c, pod, ns, NameOf(pod.meta), target)
  }

  lemma {:induction false} DeploymentOfMeans(ns: string, owners: seq<OwnerRef>, id: string)
    ensures DeploymentOf(ns, owners) == Some(id) <==> LastDeploymentIs(owners, ns, id)
  {
    assert "deployment" + "/" == "deployment/";
    if owners == [] {
    } else {
      var init, last := owners[..|owners| - 1], owners[|owners| - 1];
      DeploymentOfMeans(ns, init, id);
      if last.kind == "Deployment" {
        assert IsLastDeployment(owners, |owners| - 1);
      } else {
        forall d ensures IsLastDeployment(owners, d) <==> IsLastDeployment(init, d) {
          assert 0 <= d < |init| ==> init[d] == owners[d];
        }
      }
    }
  }

  lemma DeploysIs(rs: Workload, ns: string, name: string, id: string)
    requires SlashFree(ns) && SlashFree(NsOf(rs.meta))
    ensures NamesDeployment(rs, ObjectKey(ns, name), id) <==> Deploys(rs, ns, name, id)
  {
    CalledIs(rs.meta, ns, name);
    ObjectKeyInjective(NsOf(rs.meta), NameOf(rs.meta), ns, name);
    DeploymentOfMeans(NsOf(rs.meta), rs.meta.owners, id);
    hide DeploymentOf, NsOf, NameOf, ObjectKey, SlashFree, Called;
  }

  lemma SomeDeploysIs(c: Cluster, ns: string, name: string, id: string)
    requires PlainNamespaces(c) && SlashFree(ns)
    ensures IsDeploymentOf(c.replicaSets, ObjectKey(ns, name), id) <==> SomeDeploys(c.replicaSets, ns, name, id)
  {
    forall i | 0 <= i < |c.replicaSets|
      ensures NamesDeployment(c.replicaSets[i], ObjectKey(ns, name), id) <==> Deploys(c.replicaSets[i], ns, name, id)
    {
      DeploysIs(c.replicaSets[i], ns, name, id);
    }
    hide NamesDeployment, Deploys, SlashFree, NsOf, ObjectKey;
  }

  lemma {:induction false} FirstOwnerMeans(ns: string, owners: seq<OwnerRef>)
    ensures FirstOwner(ns, owners).None? ==> forall o :: !IsFirstOwner(owners, o)
    ensures FirstOwner(ns, owners).Some? ==> exists o :: IsFirstOwner(owners, o)
    ensures forall o :: IsFirstOwner(owners, o) ==> FirstOwner(ns, owners) == Some(owners[o])
  {
    if owners == [] {
    } else {
      OwnerIsExact(ns, owners[0], "");
      hide PodOwnerId, OwnsPods;
      FirstOwnerMeans(ns, owners[1..]);
      if OwnsPods(owners[0].kind) {
        assert IsFirstOwner(owners, 0);
      } else {
        forall o ensures IsFirstOwner(owners, o) <==> o > 0 && IsFirstOwner(owners[1..], o - 1) {
          FirstOwnerShift(owners, o);
        }
        if FirstOwner(ns, owners[1..]).Some? {
          var o :| IsFirstOwner(owners[1..], o);
          assert IsFirstOwner(owners, o + 1);
        }
      }
    }
  }

  lemma FirstOwnerShift(owners: seq<OwnerRef>, o: int)
    requires owners != [] && !OwnsPods(owners[0].kind)
    ensures IsFirstOwner(owners, o) <==> o > 0 && IsFirstOwner(owners[1..], o - 1)
  {
    hide OwnsPods;
    var rest := owners[1..];
    if o > 0 && IsFirstOwner(rest, o - 1) {
      forall j | 0 <= j < o ensures !OwnsPods(owners[j].kind) {
        assert j > 0 ==> rest[j - 1] == owners[j];
      }
    }
    if IsFirstOwner(owners, o) {
      forall j | 0 <= j < o - 1 ensures !OwnsPods(rest[j].kind) {
        assert rest[j] == owners[j + 1];
      }
    }
  }

  lemma ControlsIs(c: Cluster, ns: string, owner: OwnerRef, id: string)
    requires PlainNamespaces(c) && SlashFree(ns)
    ensures Controls(c, ns, owner, id) <==>
      if owner.kind == "ReplicaSet" && exists d :: IsDeploymentOf(c.replicaSets, ObjectKey(ns, owner.name), d) then
        IsDeploymentOf(c.replicaSets, ObjectKey(ns, owner.name), id)
      else PodOwnerId(ns, owner) == Some(id)
  {
    OwnerIsExact(ns, owner, id);
    forall d ensures IsDeploymentOf(c.replicaSets, ObjectKey(ns, owner.name), d) <==>
        SomeDeploys(c.replicaSets, ns, owner.name, d)
    {
      SomeDeploysIs(c, ns, owner.name, d);
    }
    hide IsDeploymentOf, SomeDeploys, OwnerIs, PodOwnerId, ObjectKey, PlainNamespaces, SlashFree;
  }

  lemma TopControllerIs(c: Cluster, pod: Pod, id: string)
    requires PlainNamespaces(c) && SlashFree(NsOf(pod.meta))
    ensures IsTopController(c, pod, id) <==> TopController(c, pod, NsOf(pod.meta), NameOf(pod.meta), id)
  {
    var ns, owners := NsOf(pod.meta), pod.meta.owners;
    FirstOwnerMeans(ns, owners);
    assert MetaId("pod", pod.meta) == "pod/" + ns + "/" + NameOf(pod.meta) by {
      assert "pod" + "/" == "pod/";
    }
    if FirstOwner(ns, owners).Some? {
      ControlsIs(c, ns, FirstOwner(ns, owners).value, id);
    }
    hide FirstOwner, IsFirstOwner, Controls, IsDeploymentOf, PodOwnerId, ObjectKey, MetaId, NsOf, NameOf,
      PlainNamespaces, SlashFree;
  }

  lemma SelectedIs(c: Cluster, svc: Service, pod: Pod, target: string)
    requires PlainNamespaces(c) && SlashFree(NsOf(pod.meta))
    ensures Selects(svc, pod) && IsTopController(c, pod, target) <==>
      SelectedAs(c, svc, NsOf(svc.meta), pod, target)
  {
    TopControllerIs(c, pod, target);
    assert InNamespace(pod.meta, NsOf(svc.meta)) <==> NsOf(pod.meta) == NsOf(svc.meta);
    hide TopController, IsTopController, NsOf, NameOf, PlainNamespaces, SlashFree;
  }

  lemma ServiceEdgesMean(c: Cluster, svc: Service, f: NsFilter, e: Edge)
    requires PlainNamespaces(c) && UniqueNames(c)
    ensures e in ServiceEdges(svc, f, Lookup(c.pods, Controllers(c))) <==>
      InNs(f, NsOf(svc.meta)) && ServiceEdge(c, svc, NsOf(svc.meta), NameOf(svc.meta), e)
  {
    var ns, name, x := NsOf(svc.meta), NameOf(svc.meta), Lookup(c.pods, Controllers(c));
    assert MetaId("service", svc.meta) == "service/" + ns + "/" + name by {
      assert "service" + "/" == "service/";
    }
    assert InMap(svc) <==> ShownService(svc, ns, name);
    if e in ServiceEdges(svc, f, x) {
      ServiceEdgesLeave(svc, f, x, e);
    }
    if InNs(f, ns) && InMap(svc) {
      PushedForService(c, f, svc, e.target);
    }
    forall i | 0 <= i < |c.pods|
      ensures Selects(svc, c.pods[i]) && IsTopController(c, c.pods[i], e.target) <==>
        SelectedAs(c, svc, ns, c.pods[i], e.target)
    {
      SelectedIs(c, svc, c.pods[i], e.target);
    }
    hide SelectsEdges, SelectedControllers, Selects, IsTopController, SelectedAs, InMap, ShownService, Controllers,
      PlainNamespaces, UniqueNames, MetaId, NsOf, NameOf, InNs;
  }

  // ── Edges of claims ──────────────────────────────────────────────────────

  ghost predicate MountsClaim(pod: Pod, ns: string, claim: string) {
    && InNamespace(pod.meta, ns) && pod.spec.Some?
    && exists i :: 0 <= i < |pod.spec.value.volumes| && pod.spec.value.volumes[i].claim == Some(claim)
         && pod.spec.value.volumes[i].configMap != Some("kube-root-ca.crt")
  }

  ghost predicate MountedClaim(c: Cluster, ns: string, claim: string) {
    exists i :: 0 <= i < |c.pods| && MountsClaim(c.pods[i], ns, claim)
  }

  /** A mounted claim is bound to its volume. */
  ghost predicate PvcEdge(c: Cluster, pvc: Pvc, ns: string, name: string, e: Edge) {
    && MountedClaim(c, ns, name) && pvc.volumeName.Some? && pvc.volumeName.value != ""
    && e == Edge("pvc/" + ns + "/" + name, "pv/" + pvc.volumeName.value, "binds")
  }

  lemma MountsClaimIs(pod: Pod, ns: string, claim: string)
    ensures Mounts(pod, ns, claim) <==> MountsClaim(pod, ns, claim)
  {
    assert InNamespace(pod.meta, ns) <==> NsOf(pod.meta) == ns;
    if pod.spec.Some? {
      var volumes := pod.spec.value.volumes;
      forall i | 0 <= i < |volumes|
        ensures VolumeRefers(volumes[i], "pvc", claim, "mounts") <==>
          volumes[i].claim == Some(claim) && volumes[i].configMap != Some("kube-root-ca.crt")
      {
      }
      hide VolumeRefers, NsOf, InNamespace;
    }
  }

  lemma MountedClaimIs(c: Cluster, f: NsFilter, meta: Meta)
    requires PlainNamespaces(c) && SlashFree(NsOf(meta)) && InNs(f, NsOf(meta))
    ensures KeyOf(meta) in ReferencedPvcs(c.pods, f) <==> MountedClaim(c, NsOf(meta), NameOf(meta))
  {
    var ns, name := NsOf(meta), NameOf(meta);
    assert forall i :: 0 <= i < |c.pods| ==> SlashFree(NsOf(c.pods[i].meta));
    ReferencedPvcsExact(c.pods, f, ns, name);
    forall i | 0 <= i < |c.pods| ensures Mounts(c.pods[i], ns, name) <==> MountsClaim(c.pods[i], ns, name) {
      MountsClaimIs(c.pods[i], ns, name);
    }
    hide ReferencedPvcs, Mounts, MountsClaim, ObjectKey, NsOf, NameOf, InNs, PlainNamespaces, SlashFree;
  }

  lemma PvcEdgesMean(c: Cluster, pvc: Pvc, f: NsFilter, e: Edge)
    requires PlainNamespaces(c) && SlashFree(NsOf(pvc.meta))
    ensures e in PvcEdges(pvc, f, ReferencedPvcs(c.pods, f)) <==>
      InNs(f, NsOf(pvc.meta)) && PvcEdge(c, pvc, NsOf(pvc.meta), NameOf(pvc.meta), e)
  {
    if InNs(f, NsOf(pvc.meta)) {
      MountedClaimIs(c, f, pvc.meta);
    }
    assert MetaId("pvc", pvc.meta) == "pvc/" + NsOf(pvc.meta) + "/" + NameOf(pvc.meta) by {
      assert "pvc" + "/" == "pvc/";
    }
    hide ReferencedPvcs, MountedClaim, KeyOf, MetaId, NsOf, NameOf, InNs, PlainNamespaces, SlashFree;
  }

  // ── All edges ────────────────────────────────────────────────────────────

  ghost predicate InScope(f: NsFilter, meta: Meta) {
    InNs(f, NsOf(meta))
  }

  ghost predicate PodGives(pod: Pod, f: NsFilter, e: Edge) {
    InScope(f, pod.meta) && PodEdge(pod, NsOf(pod.meta), NameOf(pod.meta), e)
  }

  ghost predicate ReplicaSetGives(rs: Workload, f: NsFilter, e: Edge) {
    InScope(f, rs.meta) && ReplicaSetEdge(rs, NsOf(rs.meta), NameOf(rs.meta), e)
  }

  ghost predicate JobGives(job: Job, f: NsFilter, e: Edge) {
    InScope(f, job.meta) && JobEdge(job, NsOf(job.meta), NameOf(job.meta), e)
  }

  ghost predicate HpaGives(hpa: Hpa, f: NsFilter, e: Edge) {
    InScope(f, hpa.meta) && HpaEdge(hpa, NsOf(hpa.meta), NameOf(hpa.meta), e)
  }

  ghost predicate ServiceGives(c: Cluster, svc: Service, f: NsFilter, e: Edge) {
    InScope(f, svc.meta) && ServiceEdge(c, svc, NsOf(svc.meta), NameOf(svc.meta), e)
  }

  ghost predicate IngressGives(ing: Ingress, f: NsFilter, e: Edge) {
    InScope(f, ing.meta) && IngressEdge(ing, NsOf(ing.meta), NameOf(ing.meta), e)
  }

  ghost predicate PvcGives(c: Cluster, pvc: Pvc, f: NsFilter, e: Edge) {
    InScope(f, pvc.meta) && PvcEdge(c, pvc, NsOf(pvc.meta), NameOf(pvc.meta), e)
  }

  ghost predicate SomeOf<R(!new)>(rs: seq<R>, p: R -> bool) {
    exists i :: 0 <= i < |rs| && p(rs[i])
  }

  /** The edges of the map, one clause for each kind of resource that has some. */
  ghost predicate IsEdge(c: Cluster, f: NsFilter, e: Edge) {
    || SomeOf(c.pods, pod => PodGives(pod, f, e))
    || SomeOf(c.replicaSets, rs => ReplicaSetGives(rs, f, e))
    || SomeOf(c.jobs, job => JobGives(job, f, e))
    || SomeOf(c.hpas, hpa => HpaGives(hpa, f, e))
    || SomeOf(c.services, svc => ServiceGives(c, svc, f, e))
    || SomeOf(c.ingresses, ing => IngressGives(ing, f, e))
    || SomeOf(c.pvcs, pvc => PvcGives(c, pvc, f, e))
  }

  lemma PassMeans<R(!new), X, T>(
      rs: seq<R>, out: (R, NsFilter, X) -> seq<T>, f: NsFilter, x: X, y: T, p: R -> bool)
    requires forall i :: 0 <= i < |rs| ==> (y in out(rs[i], f, x) <==> p(rs[i]))
    ensures y in FlatMap(rs, out, f, x) <==> SomeOf(rs, p)
  {
    FlatMapMembers(rs, out, f, x, y);
  }

  lemma PodPassMeans(c: Cluster, f: NsFilter, e: Edge)
    ensures e in EdgePasses(c, f)[0] <==> SomeOf(c.pods, pod => PodGives(pod, f, e))
  {
    forall i | 0 <= i < |c.pods| ensures e in PodEdges(c.pods[i], f, ()) <==> PodGives(c.pods[i], f, e) {
      PodEdgesMean(c.pods[i], f, e);
    }
    hide FlatMap, PodEdges, PodGives, Controllers, ReferencedPvcs;
    PassMeans(c.pods, PodEdges, f, (), e, pod => PodGives(pod, f, e));
  }

  lemma ReplicaSetPassMeans(c: Cluster, f: NsFilter, e: Edge)
    ensures e in EdgePasses(c, f)[1] <==> SomeOf(c.replicaSets, rs => ReplicaSetGives(rs, f, e))
  {
    forall i | 0 <= i < |c.replicaSets|
      ensures e in ReplicaSetEdges(c.replicaSets[i], f, ()) <==> ReplicaSetGives(c.replicaSets[i], f, e)
    {
      ReplicaSetEdgesMean(c.replicaSets[i], f, e);
    }
    hide FlatMap, ReplicaSetEdges, ReplicaSetGives, Controllers, ReferencedPvcs;
    PassMeans(c.replicaSets, ReplicaSetEdges, f, (), e, rs => ReplicaSetGives(rs, f, e));
  }

  lemma JobPassMeans(c: Cluster, f: NsFilter, e: Edge)
    ensures e in EdgePasses(c, f)[2] <==> SomeOf(c.jobs, job => JobGives(job, f, e))
  {
    forall i | 0 <= i < |c.jobs| ensures e in JobEdges(c.jobs[i], f, ()) <==> JobGives(c.jobs[i], f, e) {
      JobEdgesMean(c.jobs[i], f, e);
    }
    hide FlatMap, JobEdges, JobGives, Controllers, ReferencedPvcs;
    PassMeans(c.jobs, JobEdges, f, (), e, job => JobGives(job, f, e));
  }

  lemma HpaPassMeans(c: Cluster, f: NsFilter, e: Edge)
    ensures e in EdgePasses(c, f)[3] <==> SomeOf(c.hpas, hpa => HpaGives(hpa, f, e))
  {
    forall i | 0 <= i < |c.hpas| ensures e in HpaEdges(c.hpas[i], f, ()) <==> HpaGives(c.hpas[i], f, e) {
      HpaEdgesMean(c.hpas[i], f, e);
    }
    hide FlatMap, HpaEdges, HpaGives, Controllers, ReferencedPvcs;
    PassMeans(c.hpas, HpaEdges, f, (), e, hpa => HpaGives(hpa, f, e));
  }

  lemma ServicePassMeans(c: Cluster, f: NsFilter, e: Edge)
    requires PlainNamespaces(c) && UniqueNames(c)
    ensures e in EdgePasses(c, f)[4] <==> SomeOf(c.services, svc => ServiceGives(c, svc, f, e))
  {
    var x := Lookup(c.pods, Controllers(c));
    forall i | 0 <= i < |c.services|
      ensures e in ServiceEdges(c.services[i], f, x) <==> ServiceGives(c, c.services[i], f, e)
    {
      ServiceEdgesMean(c, c.services[i], f, e);
    }
    hide FlatMap, ServiceEdges, ServiceGives, Controllers, ReferencedPvcs, PlainNamespaces, UniqueNames;
    PassMeans(c.services, ServiceEdges, f, x, e, svc => ServiceGives(c, svc, f, e));
  }

  lemma IngressPassMeans(c: Cluster, f: NsFilter, e: Edge)
    ensures e in EdgePasses(c, f)[5] <==> SomeOf(c.ingresses, ing => IngressGives(ing, f, e))
  {
    forall i | 0 <= i < |c.ingresses|
      ensures e in IngressEdges(c.ingresses[i], f, ()) <==> IngressGives(c.ingresses[i], f, e)
    {
      IngressEdgesMean(c.ingresses[i], f, e);
    }
    hide FlatMap, IngressEdges, IngressGives, Controllers, ReferencedPvcs;
    PassMeans(c.ingresses, IngressEdges, f, (), e, ing => IngressGives(ing, f, e));
  }

  lemma PvcPassMeans(c: Cluster, f: NsFilter, e: Edge)
    requires PlainNamespaces(c)
    ensures e in EdgePasses(c, f)[6] <==> SomeOf(c.pvcs, pvc => PvcGives(c, pvc, f, e))
  {
    var claims := ReferencedPvcs(c.pods, f);
    forall i | 0 <= i < |c.pvcs| ensures e in PvcEdges(c.pvcs[i], f, claims) <==> PvcGives(c, c.pvcs[i], f, e) {
      PvcEdgesMean(c, c.pvcs[i], f, e);
    }
    hide FlatMap, PvcEdges, PvcGives, Controllers, ReferencedPvcs, PlainNamespaces;
    PassMeans(c.pvcs, PvcEdges, f, claims, e, pvc => PvcGives(c, pvc, f, e));
  }

  /** The finished map has exactly these edges. */
  lemma MapEdgesMean(c: Cluster, f: NsFilter, e: Edge)
    requires PlainNamespaces(c) && UniqueNames(c)
    ensures e in Map(c, f).edges <==> IsEdge(c, f, e)
  {
    var parts := EdgePasses(c, f);
    FinalEdgesExact(c, f, e);
    ConcatMembers(parts, e);
    PodPassMeans(c, f, e);
    ReplicaSetPassMeans(c, f, e);
    JobPassMeans(c, f, e);
    HpaPassMeans(c, f, e);
    ServicePassMeans(c, f, e);
    IngressPassMeans(c, f, e);
    PvcPassMeans(c, f, e);
    hide Map, Concat, EdgePasses, PlainNamespaces, UniqueNames, SomeOf;
    SevenParts(parts, e);
  }

  lemma SevenParts(parts: seq<seq<Edge>>, e: Edge)
    requires |parts| == 7
    ensures (exists i :: 0 <= i < |parts| && e in parts[i]) <==>
      (e in parts[0] || e in parts[1] || e in parts[2] || e in parts[3] || e in parts[4] || e in parts[5]
       || e in parts[6])
  {
  }

  // ── Nodes ────────────────────────────────────────────────────────────────

  /** The node of a namespaced object. */
  ghost predicate NodeFor(n: Node, f: NsFilter, meta: Meta, prefix: string, display: string, status: string) {
    && InScope(f, meta) && n.kind == display && n.status == status
    && n.namespace.Some? && Called(meta, n.namespace.value, n.name)
    && n.id == prefix + "/" + n.namespace.value + "/" + n.name
  }

  ghost predicate IsPodNode(n: Node, f: NsFilter, pod: Pod) {
    NodeFor(n, f, pod.meta, "pod", "Pod", if pod.phase.Some? then pod.phase.value else "Unknown")
  }

  ghost predicate IsWorkloadNode(n: Node, f: NsFilter, w: Workload, prefix: string, display: string, asked: int) {
    var up, desired := if w.up.Some? then w.up.value else 0, if w.desired.Some? then w.desired.value else asked;
    NodeFor(n, f, w.meta, prefix, display, if up < desired then "degraded" else "ready")
  }

  ghost predicate IsReplicaSetNode(n: Node, f: NsFilter, rs: Workload) {
    !ScaledToZero(rs) && IsWorkloadNode(n, f, rs, "replicaset", "ReplicaSet", 0)
  }

  ghost predicate IsCronJobNode(n: Node, f: NsFilter, cj: CronJob) {
    NodeFor(n, f, cj.meta, "cronjob", "CronJob",
      if cj.suspend == Some(true) then "suspended" else if cj.active == 0 then "ready" else "active")
  }

  ghost predicate Positive(n: Option<int>) {
    n.Some? && n.value > 0
  }

  ghost predicate IsJobNode(n: Node, f: NsFilter, job: Job) {
    NodeFor(n, f, job.meta, "job", "Job",
      if Positive(job.succeeded) then "completed" else if Positive(job.failed) then "failed"
      else if Positive(job.active) then "running" else "pending")
  }

  ghost predicate IsHpaNode(n: Node, f: NsFilter, hpa: Hpa) {
    var current, desired :=
      if hpa.current.Some? then hpa.current.value else 0, if hpa.desired.Some? then hpa.desired.value else 0;
    NodeFor(n, f, hpa.meta, "hpa", "HPA", if current != desired then "scaling" else "synced")
  }

  ghost predicate IsServiceNode(n: Node, f: NsFilter, svc: Service) {
    && NodeFor(n, f, svc.meta, "service", "Service", "active")
    && ShownService(svc, n.namespace.value, n.name)
  }

  ghost predicate IsIngressNode(n: Node, f: NsFilter, ing: Ingress) {
    NodeFor(n, f, ing.meta, "ingress", "Ingress", "active")
  }

  ghost predicate IsConfigMapNode(n: Node, f: NsFilter, cm: Meta) {
    NodeFor(n, f, cm, "configmap", "ConfigMap", "active") && n.name != "kube-root-ca.crt"
  }

  /** Tokens of service accounts and helm's own secrets are not shown. */
  ghost predicate IsSecretNode(n: Node, f: NsFilter, secret: Secret) {
    && NodeFor(n, f, secret.meta, "secret", "Secret", "active")
    && secret.secretType != Some("kubernetes.io/service-account-token")
    && !(|n.name| >= 15 && n.name[..15] == "sh.helm.release")
  }

  ghost predicate UsesAccount(pod: Pod, ns: string, account: string) {
    InNamespace(pod.meta, ns) && pod.spec.Some? && pod.spec.value.serviceAccount == Some(account)
  }

  /** Only accounts that pods use are shown, and not the default one. */
  ghost predicate IsAccountNode(c: Cluster, n: Node, f: NsFilter, sa: Meta) {
    && NodeFor(n, f, sa, "serviceaccount", "ServiceAccount", "active") && n.name != "default"
    && exists i :: 0 <= i < |c.pods| && UsesAccount(c.pods[i], n.namespace.value, n.name)
  }

  /** `lower` is the text with its capitals made small. */
  ghost predicate InSmallLetters(text: string, lower: string) {
    && |lower| == |text|
    && forall i :: 0 <= i < |text| ==>
         lower[i] as int == if 'A' <= text[i] <= 'Z' then text[i] as int + 32 else text[i] as int
  }

  /** Only mounted claims are shown. */
  ghost predicate IsPvcNode(c: Cluster, n: Node, f: NsFilter, pvc: Pvc) {
    && NodeFor(n, f, pvc.meta, "pvc", "PVC", n.status)
    && InSmallLetters(if pvc.phase.Some? then pvc.phase.value else "Unknown", n.status)
    && MountedClaim(c, n.namespace.value, n.name)
  }

  /** Only volumes that a mounted claim in scope is bound to are shown. */
  ghost predicate IsPvNode(c: Cluster, n: Node, f: NsFilter, pv: Pv) {
    && (pv.name == Some(n.name) || (pv.name == None && n.name == ""))
    && n.id == "pv/" + n.name && n.kind == "PV" && n.namespace == None
    && InSmallLetters(if pv.phase.Some? then pv.phase.value else "Unknown", n.status)
    && exists j :: 0 <= j < |c.pvcs| && BoundClaim(c, f, c.pvcs[j], n.name)
  }

  ghost predicate BoundClaim(c: Cluster, f: NsFilter, pvc: Pvc, volume: string) {
    && InScope(f, pvc.meta) && pvc.volumeName == Some(volume) && volume != ""
    && MountedClaim(c, NsOf(pvc.meta), NameOf(pvc.meta))
  }

  lemma MakeNodeMeans(f: NsFilter, meta: Meta, prefix: string, display: string, status: string, n: Node)
    ensures n in Scoped(f, NsOf(meta), MakeNode(prefix, display, meta, status)) <==>
      NodeFor(n, f, meta, prefix, display, status)
  {
    if n.namespace.Some? {
      CalledIs(meta, n.namespace.value, n.name);
    }
    hide Called, NsOf, NameOf, InNs;
  }

  lemma PodNodesMean(pod: Pod, f: NsFilter, n: Node)
    ensures n in PodNodes(pod, f, ()) <==> IsPodNode(n, f, pod)
  {
    MakeNodeMeans(f, pod.meta, "pod", "Pod", GetOr(pod.phase, "Unknown"), n);
    hide MakeNode, NodeFor, Scoped;
  }

  lemma WorkloadNodesMean(prefix: string, display: string, w: Workload, asked: int, f: NsFilter, n: Node)
    ensures n in Scoped(f, NsOf(w.meta), WorkloadNodes(prefix, display, w, asked)) <==>
      IsWorkloadNode(n, f, w, prefix, display, asked)
  {
    MakeNodeMeans(f, w.meta, prefix, display, ReadyStatus(GetOr(w.up, 0), GetOr(w.desired, asked)), n);
    hide MakeNode, NodeFor, Scoped;
  }

  lemma ReplicaSetNodesMean(rs: Workload, f: NsFilter, n: Node)
    ensures n in ReplicaSetNodes(rs, f, ()) <==> IsReplicaSetNode(n, f, rs)
  {
    WorkloadNodesMean("replicaset", "ReplicaSet", rs, 0, f, n);
    assert Retired(rs) <==> ScaledToZero(rs);
    hide WorkloadNodes, IsWorkloadNode, InNs, Retired, ScaledToZero;
  }

  lemma CronJobNodesMean(cj: CronJob, f: NsFilter, n: Node)
    ensures n in CronJobNodes(cj, f, ()) <==> IsCronJobNode(n, f, cj)
  {
    var status := if GetOr(cj.suspend, false) then "suspended" else if cj.active > 0 then "active" else "ready";
    MakeNodeMeans(f, cj.meta, "cronjob", "CronJob", status, n);
    hide MakeNode, NodeFor, Scoped;
  }

  lemma JobNodesMean(job: Job, f: NsFilter, n: Node)
    ensures n in JobNodes(job, f, ()) <==> IsJobNode(n, f, job)
  {
    var status := if GetOr(job.succeeded, 0) > 0 then "completed" else if GetOr(job.failed, 0) > 0 then "failed"
      else if GetOr(job.active, 0) > 0 then "running" else "pending";
    MakeNodeMeans(f, job.meta, "job", "Job", status, n);
    hide MakeNode, NodeFor, Scoped;
  }

  lemma HpaNodesMean(hpa: Hpa, f: NsFilter, n: Node)
    ensures n in HpaNodes(hpa, f, ()) <==> IsHpaNode(n, f, hpa)
  {
    MakeNodeMeans(f, hpa.meta, "hpa", "HPA",
      if GetOr(hpa.current, 0) == GetOr(hpa.desired, 0) then "synced" else "scaling", n);
    hide MakeNode, NodeFor, Scoped;
  }

  lemma ServiceNodesMean(svc: Service, f: NsFilter, n: Node)
    ensures n in ServiceNodes(svc, f, ()) <==> IsServiceNode(n, f, svc)
  {
    MakeNodeMeans(f, svc.meta, "service", "Service", "active", n);
    if n.namespace.Some? {
      CalledIs(svc.meta, n.namespace.value, n.name);
    }
    hide MakeNode, InNs, NsOf, NameOf, Called;
  }

  lemma IngressNodesMean(ing: Ingress, f: NsFilter, n: Node)
    ensures n in IngressNodes(ing, f, ()) <==> IsIngressNode(n, f, ing)
  {
    MakeNodeMeans(f, ing.meta, "ingress", "Ingress", "active", n);
    hide MakeNode, NodeFor, Scoped;
  }

  lemma ConfigMapNodesMean(cm: Meta, f: NsFilter, n: Node)
    ensures n in ConfigMapNodes(cm, f, ()) <==> IsConfigMapNode(n, f, cm)
  {
    MakeNodeMeans(f, cm, "configmap", "ConfigMap", "active", n);
    if n.namespace.Some? {
      CalledIs(cm, n.namespace.value, n.name);
    }
    hide MakeNode, InNs, NsOf, NameOf, Called;
  }

  lemma SecretNodesMean(secret: Secret, f: NsFilter, n: Node)
    ensures n in SecretNodes(secret, f, ()) <==> IsSecretNode(n, f, secret)
  {
    MakeNodeMeans(f, secret.meta, "secret", "Secret", "active", n);
    if n.namespace.Some? {
      CalledIs(secret.meta, n.namespace.value, n.name);
    }
    assert "sh.helm.release" <= n.name <==> |n.name| >= 15 && n.name[..15] == "sh.helm.release";
    hide MakeNode, InNs, NsOf, NameOf, Called;
  }

  lemma AccountNodesMean(c: Cluster, sa: Meta, f: NsFilter, n: Node)
    requires PlainNamespaces(c) && SlashFree(NsOf(sa))
    ensures n in ServiceAccountNodes(sa, f, ReferencedSas(c.pods, f)) <==> IsAccountNode(c, n, f, sa)
  {
    var ns, name := NsOf(sa), NameOf(sa);
    MakeNodeMeans(f, sa, "serviceaccount", "ServiceAccount", "active", n);
    if n.namespace.Some? {
      CalledIs(sa, n.namespace.value, n.name);
    }
    assert forall i :: 0 <= i < |c.pods| ==> SlashFree(NsOf(c.pods[i].meta));
    ReferencedSasExact(c.pods, f, ns, name);
    forall i | 0 <= i < |c.pods|
      ensures RunsUnder(c.pods[i], ns, name) <==> UsesAccount(c.pods[i], ns, name) && name != "default"
    {
      assert InNamespace(c.pods[i].meta, ns) <==> NsOf(c.pods[i].meta) == ns;
    }
    hide MakeNode, InNs, NsOf, NameOf, Called, ReferencedSas, RunsUnder, UsesAccount, ObjectKey, SlashFree,
      PlainNamespaces;
  }

  lemma SmallLetters(text: string, lower: string)
    ensures ToLower(text) == lower <==> InSmallLetters(text, lower)
  {
    if InSmallLetters(text, lower) {
      assert forall i :: 0 <= i < |text| ==> ToLower(text)[i] == lower[i];
    }
  }

  lemma PvcNodesMean(c: Cluster, pvc: Pvc, f: NsFilter, n: Node)
    requires PlainNamespaces(c) && SlashFree(NsOf(pvc.meta))
    ensures n in PvcNodes(pvc, f, ReferencedPvcs(c.pods, f)) <==> IsPvcNode(c, n, f, pvc)
  {
    var phase := GetOr(pvc.phase, "Unknown");
    MakeNodeMeans(f, pvc.meta, "pvc", "PVC", ToLower(phase), n);
    SmallLetters(phase, n.status);
    if n.namespace.Some? {
      CalledIs(pvc.meta, n.namespace.value, n.name);
    }
    if InNs(f, NsOf(pvc.meta)) {
      MountedClaimIs(c, f, pvc.meta);
    }
    hide MakeNode, InNs, NsOf, NameOf, Called, ReferencedPvcs, MountedClaim, KeyOf, SlashFree, PlainNamespaces, ToLower,
      InSmallLetters;
  }

  lemma PvNodesMean(c: Cluster, pv: Pv, f: NsFilter, n: Node)
    requires PlainNamespaces(c)
    ensures n in PvNodes(pv, f, ReferencedPvs(c.pvcs, f, ReferencedPvcs(c.pods, f))) <==> IsPvNode(c, n, f, pv)
  {
    var claims, name := ReferencedPvcs(c.pods, f), GetOr(pv.name, "");
    ReferencedPvsExact(c.pvcs, f, claims, name);
    SmallLetters(GetOr(pv.phase, "Unknown"), n.status);
    forall j | 0 <= j < |c.pvcs| ensures Records(c.pvcs[j], f, claims, name) <==> BoundClaim(c, f, c.pvcs[j], name) {
      if InNs(f, NsOf(c.pvcs[j].meta)) {
        MountedClaimIs(c, f, c.pvcs[j].meta);
      }
    }
    assert "pv/" + name == VolumeId(name);
    hide ReferencedPvs, ReferencedPvcs, Records, BoundClaim, ToLower, InSmallLetters, PlainNamespaces;
  }

  /** The nodes of the map, one clause for each kind of resource. */
  ghost predicate IsNode(c: Cluster, f: NsFilter, n: Node) {
    IsWorkload(c, f, n) || IsBatch(c, f, n) || IsConfiguration(c, f, n)
  }

  ghost predicate IsWorkload(c: Cluster, f: NsFilter, n: Node) {
    || SomeOf(c.pods, pod => IsPodNode(n, f, pod))
    || SomeOf(c.deployments, w => IsWorkloadNode(n, f, w, "deployment", "Deployment", 1))
    || SomeOf(c.replicaSets, rs => IsReplicaSetNode(n, f, rs))
    || SomeOf(c.statefulSets, w => IsWorkloadNode(n, f, w, "statefulset", "StatefulSet", 1))
    || SomeOf(c.daemonSets, w => IsWorkloadNode(n, f, w, "daemonset", "DaemonSet", 0))
  }

  ghost predicate IsBatch(c: Cluster, f: NsFilter, n: Node) {
    || SomeOf(c.cronJobs, cj => IsCronJobNode(n, f, cj))
    || SomeOf(c.jobs, job => IsJobNode(n, f, job))
    || SomeOf(c.hpas, hpa => IsHpaNode(n, f, hpa))
    || SomeOf(c.services, svc => IsServiceNode(n, f, svc))
    || SomeOf(c.ingresses, ing => IsIngressNode(n, f, ing))
  }

  ghost predicate IsConfiguration(c: Cluster, f: NsFilter, n: Node) {
    || SomeOf(c.configMaps, cm => IsConfigMapNode(n, f, cm))
    || SomeOf(c.secrets, secret => IsSecretNode(n, f, secret))
    || SomeOf(c.serviceAccounts, sa => IsAccountNode(c, n, f, sa))
    || SomeOf(c.pvcs, pvc => IsPvcNode(c, n, f, pvc))
    || SomeOf(c.pvs, pv => IsPvNode(c, n, f, pv))
  }

  lemma PlainWorkloadsMean(c: Cluster, f: NsFilter, n: Node)
    ensures n in FlatMap(c.deployments, DeploymentNodes, f, ()) <==>
      SomeOf(c.deployments, w => IsWorkloadNode(n, f, w, "deployment", "Deployment", 1))
    ensures n in FlatMap(c.statefulSets, StatefulSetNodes, f, ()) <==>
      SomeOf(c.statefulSets, w => IsWorkloadNode(n, f, w, "statefulset", "StatefulSet", 1))
    ensures n in FlatMap(c.daemonSets, DaemonSetNodes, f, ()) <==>
      SomeOf(c.daemonSets, w => IsWorkloadNode(n, f, w, "daemonset", "DaemonSet", 0))
  {
    hide FlatMap, IsWorkloadNode, WorkloadNodes, SomeOf;
    forall w: Workload
      ensures n in DeploymentNodes(w, f, ()) <==> IsWorkloadNode(n, f, w, "deployment", "Deployment", 1)
      ensures n in StatefulSetNodes(w, f, ()) <==> IsWorkloadNode(n, f, w, "statefulset", "StatefulSet", 1)
      ensures n in DaemonSetNodes(w, f, ()) <==> IsWorkloadNode(n, f, w, "daemonset", "DaemonSet", 0)
    {
      WorkloadNodesMean("deployment", "Deployment", w, 1, f, n);
      WorkloadNodesMean("statefulset", "StatefulSet", w, 1, f, n);
      WorkloadNodesMean("daemonset", "DaemonSet", w, 0, f, n);
    }
    hide DeploymentNodes, StatefulSetNodes, DaemonSetNodes;
    PassMeans(c.deployments, DeploymentNodes, f, (), n, w => IsWorkloadNode(n, f, w, "deployment", "Deployment", 1));
    PassMeans(c.statefulSets, StatefulSetNodes, f, (), n,
      w => IsWorkloadNode(n, f, w, "statefulset", "StatefulSet", 1));
    PassMeans(c.daemonSets, DaemonSetNodes, f, (), n, w => IsWorkloadNode(n, f, w, "daemonset", "DaemonSet", 0));
  }

  lemma PodsAndReplicaSetsMean(c: Cluster, f: NsFilter, n: Node)
    ensures n in FlatMap(c.pods, PodNodes, f, ()) <==> SomeOf(c.pods, pod => IsPodNode(n, f, pod))
    ensures n in FlatMap(c.replicaSets, ReplicaSetNodes, f, ()) <==>
      SomeOf(c.replicaSets, rs => IsReplicaSetNode(n, f, rs))
  {
    hide FlatMap, IsPodNode, IsReplicaSetNode, PodNodes, ReplicaSetNodes, SomeOf;
    forall i | 0 <= i < |c.pods| ensures n in PodNodes(c.pods[i], f, ()) <==> IsPodNode(n, f, c.pods[i]) {
      PodNodesMean(c.pods[i], f, n);
    }
    PassMeans(c.pods, PodNodes, f, (), n, pod => IsPodNode(n, f, pod));
    forall rs: Workload ensures n in ReplicaSetNodes(rs, f, ()) <==> IsReplicaSetNode(n, f, rs) {
      ReplicaSetNodesMean(rs, f, n);
    }
    PassMeans(c.replicaSets, ReplicaSetNodes, f, (), n, rs => IsReplicaSetNode(n, f, rs));
  }

  lemma WorkloadPassesMean(c: Cluster, f: NsFilter, n: Node)
    ensures IsWorkload(c, f, n) <==> exists i :: 0 <= i < 5 && n in NodePasses(c, f)[i]
  {
    hide FlatMap, SomeOf, ReferencedSas, ReferencedPvcs, ReferencedPvs;
    PodsAndReplicaSetsMean(c, f, n);
    PlainWorkloadsMean(c, f, n);
    FiveOf(NodePasses(c, f), 0, n);
  }

  lemma FiveOf(parts: seq<seq<Node>>, k: nat, n: Node)
    requires k + 5 <= |parts|
    ensures (exists i :: k <= i < k + 5 && n in parts[i]) <==>
      n in parts[k] || n in parts[k + 1] || n in parts[k + 2] || n in parts[k + 3] || n in parts[k + 4]
  {
  }

  lemma BatchPassesMean(c: Cluster, f: NsFilter, n: Node)
    ensures IsBatch(c, f, n) <==> exists i :: 5 <= i < 10 && n in NodePasses(c, f)[i]
  {
    hide FlatMap, IsCronJobNode, IsJobNode, IsHpaNode, IsServiceNode, IsIngressNode, ReferencedSas, ReferencedPvcs,
      ReferencedPvs, CronJobNodes, JobNodes, HpaNodes, ServiceNodes, IngressNodes;
    forall cj: CronJob ensures n in CronJobNodes(cj, f, ()) <==> IsCronJobNode(n, f, cj) { CronJobNodesMean(cj, f, n); }
    PassMeans(c.cronJobs, CronJobNodes, f, (), n, cj => IsCronJobNode(n, f, cj));
    forall job: Job ensures n in JobNodes(job, f, ()) <==> IsJobNode(n, f, job) { JobNodesMean(job, f, n); }
    PassMeans(c.jobs, JobNodes, f, (), n, job => IsJobNode(n, f, job));
    forall hpa: Hpa ensures n in HpaNodes(hpa, f, ()) <==> IsHpaNode(n, f, hpa) { HpaNodesMean(hpa, f, n); }
    PassMeans(c.hpas, HpaNodes, f, (), n, hpa => IsHpaNode(n, f, hpa));
    forall svc: Service ensures n in ServiceNodes(svc, f, ()) <==> IsServiceNode(n, f, svc) {
      ServiceNodesMean(svc, f, n);
    }
    PassMeans(c.services, ServiceNodes, f, (), n, svc => IsServiceNode(n, f, svc));
    forall ing: Ingress ensures n in IngressNodes(ing, f, ()) <==> IsIngressNode(n, f, ing) {
      IngressNodesMean(ing, f, n);
    }
    PassMeans(c.ingresses, IngressNodes, f, (), n, ing => IsIngressNode(n, f, ing));
    hide SomeOf;
    FiveOf(NodePasses(c, f), 5, n);
  }

  lemma ConfigurationPassesMean(c: Cluster, f: NsFilter, n: Node)
    requires PlainNamespaces(c)
    ensures IsConfiguration(c, f, n) <==> exists i :: 10 <= i < 15 && n in NodePasses(c, f)[i]
  {
    var sas, claims := ReferencedSas(c.pods, f), ReferencedPvcs(c.pods, f);
    var volumes := ReferencedPvs(c.pvcs, f, claims);
    hide FlatMap, IsConfigMapNode, IsSecretNode, IsAccountNode, IsPvcNode, IsPvNode, ReferencedSas, ReferencedPvcs,
      ReferencedPvs, ConfigMapNodes, SecretNodes, ServiceAccountNodes, PvcNodes, PvNodes, NsOf;
    forall cm: Meta ensures n in ConfigMapNodes(cm, f, ()) <==> IsConfigMapNode(n, f, cm) {
      ConfigMapNodesMean(cm, f, n);
    }
    PassMeans(c.configMaps, ConfigMapNodes, f, (), n, cm => IsConfigMapNode(n, f, cm));
    forall secret: Secret ensures n in SecretNodes(secret, f, ()) <==> IsSecretNode(n, f, secret) {
      SecretNodesMean(secret, f, n);
    }
    PassMeans(c.secrets, SecretNodes, f, (), n, secret => IsSecretNode(n, f, secret));
    forall i | 0 <= i < |c.serviceAccounts|
      ensures n in ServiceAccountNodes(c.serviceAccounts[i], f, sas) <==> IsAccountNode(c, n, f, c.serviceAccounts[i])
    {
      AccountNodesMean(c, c.serviceAccounts[i], f, n);
    }
    PassMeans(c.serviceAccounts, ServiceAccountNodes, f, sas, n, sa => IsAccountNode(c, n, f, sa));
    forall i | 0 <= i < |c.pvcs| ensures n in PvcNodes(c.pvcs[i], f, claims) <==> IsPvcNode(c, n, f, c.pvcs[i]) {
      PvcNodesMean(c, c.pvcs[i], f, n);
    }
    PassMeans(c.pvcs, PvcNodes, f, claims, n, pvc => IsPvcNode(c, n, f, pvc));
    forall i | 0 <= i < |c.pvs| ensures n in PvNodes(c.pvs[i], f, volumes) <==> IsPvNode(c, n, f, c.pvs[i]) {
      PvNodesMean(c, c.pvs[i], f, n);
    }
    PassMeans(c.pvs, PvNodes, f, volumes, n, pv => IsPvNode(c, n, f, pv));
    hide SomeOf, PlainNamespaces;
    FiveOf(NodePasses(c, f), 10, n);
  }

  /** The map has exactly these nodes. */
  lemma MapNodesMean(c: Cluster, f: NsFilter, n: Node)
    requires PlainNamespaces(c)
    ensures n in Map(c, f).nodes <==> IsNode(c, f, n)
  {
    ConcatMembers(NodePasses(c, f), n);
    WorkloadPassesMean(c, f, n);
    BatchPassesMean(c, f, n);
    ConfigurationPassesMean(c, f, n);
    hide NodePasses, EdgePasses, Concat, IsWorkload, IsBatch, IsConfiguration, PlainNamespaces, SortAndDedup;
  }
}
