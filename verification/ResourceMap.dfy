/**
 * The resource map: fifteen lists of cluster resources joined into a graph. The namespace filter
 * is applied while the graph is built; it is shown to mean the restriction of the whole graph.
 */
module ResourceMap {
  import opened Sorting
  import opened Strings
  import opened Wrappers

  // ── Resources ────────────────────────────────────────────────────────────

  datatype OwnerRef = OwnerRef(kind: string, name: string)

  datatype Meta = Meta(name: Option<string>, namespace: Option<string>, owners: seq<OwnerRef>)

  datatype Volume = Volume(configMap: Option<string>, secret: Option<string>, claim: Option<string>)

  datatype EnvFrom = EnvFrom(configMap: Option<string>, secret: Option<string>)

  /** `envFrom` lists the sources of all containers, then those of all init containers. */
  datatype PodSpec = PodSpec(serviceAccount: Option<string>, volumes: seq<Volume>, envFrom: seq<EnvFrom>)

  datatype Pod = Pod(meta: Meta, labels: map<string, string>, phase: Option<string>, spec: Option<PodSpec>)

  /** Deployments, ReplicaSets, StatefulSets and DaemonSets: replicas that are up and replicas asked for. */
  datatype Workload = Workload(meta: Meta, up: Option<int>, desired: Option<int>)

  datatype CronJob = CronJob(meta: Meta, suspend: Option<bool>, active: nat)

  datatype Job = Job(meta: Meta, succeeded: Option<int>, failed: Option<int>, active: Option<int>)

  datatype Hpa = Hpa(meta: Meta, current: Option<int>, desired: Option<int>, target: Option<OwnerRef>)

  datatype Service = Service(meta: Meta, selector: map<string, string>)

  /** The service backends of all paths of all rules. */
  datatype Ingress = Ingress(meta: Meta, backends: seq<string>)

  datatype Secret = Secret(meta: Meta, secretType: Option<string>)

  datatype Pvc = Pvc(meta: Meta, phase: Option<string>, volumeName: Option<string>)

  datatype Pv = Pv(name: Option<string>, phase: Option<string>)

  datatype Cluster = Cluster(
    pods: seq<Pod>, deployments: seq<Workload>, replicaSets: seq<Workload>, statefulSets: seq<Workload>,
    daemonSets: seq<Workload>, cronJobs: seq<CronJob>, jobs: seq<Job>, hpas: seq<Hpa>, services: seq<Service>,
    ingresses: seq<Ingress>, configMaps: seq<Meta>, secrets: seq<Secret>, serviceAccounts: seq<Meta>,
    pvcs: seq<Pvc>, pvs: seq<Pv>)

  datatype Node = Node(id: string, kind: string, name: string, namespace: Option<string>, status: string)

  datatype Edge = Edge(source: string, target: string, edgeType: string)

  datatype Graph = Graph(nodes: seq<Node>, edges: seq<Edge>)

  function GetOr<T>(o: Option<T>, default: T): T {
    if o.Some? then o.value else default
  }

  function NameOf(meta: Meta): string {
    GetOr(meta.name, "")
  }

  function NsOf(meta: Meta): string {
    GetOr(meta.namespace, "default")
  }

  function Id(kind: string, ns: string, name: string): string {
    kind + "/" + ns + "/" + name
  }

  function MetaId(kind: string, meta: Meta): string {
    Id(kind, NsOf(meta), NameOf(meta))
  }

  /** Volumes belong to the cluster, not to a namespace. */
  function VolumeId(name: string): string {
    "pv/" + name
  }

  /** The key of a namespaced object: `format!("{ns}/{name}")`. */
  function ObjectKey(ns: string, name: string): string {
    ns + "/" + name
  }

  // ── The namespace filter ─────────────────────────────────────────────────

  type NsFilter = Option<seq<string>>

  function NonEmptyTrimmed(parts: seq<string>): seq<string> {
    if parts == [] then []
    else (if Trim(parts[0]) == "" then [] else [Trim(parts[0])]) + NonEmptyTrimmed(parts[1..])
  }

  function ParseFilter(param: Option<string>): NsFilter {
    if param.None? || param.value == "" then None else Some(NonEmptyTrimmed(Split(param.value, ",")))
  }

  predicate InNs(filter: NsFilter, ns: string) {
    filter.None? || ns in filter.value
  }

  /** What a loop pushes for one resource: nothing when it is out of scope. */
  function Scoped<T>(filter: NsFilter, ns: string, out: seq<T>): seq<T> {
    if InNs(filter, ns) then out else []
  }

  // ── What each resource adds ──────────────────────────────────────────────
  // Every function below takes a resource, the filter and what earlier passes have recorded, and
  // gives what the loop body pushes; passes that look at nothing recorded take `()`.

  function MakeNode(kind: string, display: string, meta: Meta, status: string): (r: seq<Node>)
    ensures |r| == 1 && r[0].id == MetaId(kind, meta) && r[0].namespace == Some(NsOf(meta))
  {
    [Node(MetaId(kind, meta), display, NameOf(meta), Some(NsOf(meta)), status)]
  }

  /** The node id of an owner, for the kinds that the map knows as owners of pods. */
  function PodOwnerId(ns: string, owner: OwnerRef): Option<string> {
    match owner.kind
    case "ReplicaSet" => Some(Id("replicaset", ns, owner.name))
    case "StatefulSet" => Some(Id("statefulset", ns, owner.name))
    case "DaemonSet" => Some(Id("daemonset", ns, owner.name))
    case "Job" => Some(Id("job", ns, owner.name))
    case _ => None
  }

  function OwnerEdge(ns: string, pod: string, owner: OwnerRef): seq<Edge> {
    var id := PodOwnerId(ns, owner);
    if id.Some? then [Edge(id.value, pod, "owns")] else []
  }

  function OwnerEdges(ns: string, pod: string, owners: seq<OwnerRef>): seq<Edge> {
    if owners == [] then []
    else OwnerEdges(ns, pod, owners[..|owners| - 1]) + OwnerEdge(ns, pod, owners[|owners| - 1])
  }

  function RefEdge(pod: string, kind: string, ns: string, name: Option<string>, edgeType: string): seq<Edge> {
    if name.Some? then [Edge(pod, Id(kind, ns, name.value), edgeType)] else []
  }

  function ServiceAccountOf(spec: PodSpec): Option<string> {
    if spec.serviceAccount == Some("default") then None else spec.serviceAccount
  }

  /** The CA config map of every namespace is skipped, and with it the rest of its volume. */
  predicate IsRootCa(volume: Volume) {
    volume.configMap == Some("kube-root-ca.crt")
  }

  function VolumeEdge(pod: string, ns: string, v: Volume): seq<Edge> {
    if IsRootCa(v) then []
    else
      RefEdge(pod, "configmap", ns, v.configMap, "uses") + RefEdge(pod, "secret", ns, v.secret, "uses")
      + RefEdge(pod, "pvc", ns, v.claim, "mounts")
  }

  function VolumeEdges(pod: string, ns: string, volumes: seq<Volume>): seq<Edge> {
    if volumes == [] then []
    else VolumeEdges(pod, ns, volumes[..|volumes| - 1]) + VolumeEdge(pod, ns, volumes[|volumes| - 1])
  }

  function EnvFromEdge(pod: string, ns: string, source: EnvFrom): seq<Edge> {
    RefEdge(pod, "configmap", ns, source.configMap, "uses") + RefEdge(pod, "secret", ns, source.secret, "uses")
  }

  function EnvFromEdges(pod: string, ns: string, sources: seq<EnvFrom>): seq<Edge> {
    if sources == [] then []
    else EnvFromEdges(pod, ns, sources[..|sources| - 1]) + EnvFromEdge(pod, ns, sources[|sources| - 1])
  }

  function SpecEdges(pod: string, ns: string, spec: PodSpec): seq<Edge> {
    RefEdge(pod, "serviceaccount", ns, ServiceAccountOf(spec), "uses_sa")
    + VolumeEdges(pod, ns, spec.volumes)
    + EnvFromEdges(pod, ns, spec.envFrom)
  }

  function PodNodes(pod: Pod, f: NsFilter, x: ()): seq<Node> {
    Scoped(f, NsOf(pod.meta), MakeNode("pod", "Pod", pod.meta, GetOr(pod.phase, "Unknown")))
  }

  function PodEdges(pod: Pod, f: NsFilter, x: ()): seq<Edge> {
    var ns, id := NsOf(pod.meta), MetaId("pod", pod.meta);
    Scoped(f, ns,
      OwnerEdges(ns, id, pod.meta.owners) + if pod.spec.Some? then SpecEdges(id, ns, pod.spec.value) else [])
  }

  function PodSas(pod: Pod): set<string> {
    if pod.spec.Some? && ServiceAccountOf(pod.spec.value).Some? then
      {ObjectKey(NsOf(pod.meta), ServiceAccountOf(pod.spec.value).value)}
    else {}
  }

  function VolumeClaim(ns: string, v: Volume): set<string> {
    if !IsRootCa(v) && v.claim.Some? then {ObjectKey(ns, v.claim.value)} else {}
  }

  function VolumeClaims(ns: string, volumes: seq<Volume>): set<string> {
    if volumes == [] then {}
    else VolumeClaims(ns, volumes[..|volumes| - 1]) + VolumeClaim(ns, volumes[|volumes| - 1])
  }

  function PodClaims(pod: Pod): set<string> {
    if pod.spec.Some? then VolumeClaims(NsOf(pod.meta), pod.spec.value.volumes) else {}
  }

  function ReadyStatus(up: int, desired: int): string {
    if up >= desired then "ready" else "degraded"
  }

  function WorkloadNodes(kind: string, display: string, w: Workload, defaultDesired: int): (r: seq<Node>)
    ensures |r| == 1 && r[0].id == MetaId(kind, w.meta) && r[0].namespace == Some(NsOf(w.meta))
  {
    MakeNode(kind, display, w.meta, ReadyStatus(GetOr(w.up, 0), GetOr(w.desired, defaultDesired)))
  }

  function DeploymentNodes(w: Workload, f: NsFilter, x: ()): seq<Node> {
    Scoped(f, NsOf(w.meta), WorkloadNodes("deployment", "Deployment", w, 1))
  }

  function StatefulSetNodes(w: Workload, f: NsFilter, x: ()): seq<Node> {
    Scoped(f, NsOf(w.meta), WorkloadNodes("statefulset", "StatefulSet", w, 1))
  }

  function DaemonSetNodes(w: Workload, f: NsFilter, x: ()): seq<Node> {
    Scoped(f, NsOf(w.meta), WorkloadNodes("daemonset", "DaemonSet", w, 0))
  }

  /** ReplicaSets of old rollouts have nothing up and nothing desired. */
  predicate Retired(rs: Workload) {
    GetOr(rs.desired, 0) == 0 && GetOr(rs.up, 0) == 0
  }

  /** Edges from the owners of one kind. */
  function OwnedBy(meta: Meta, ownerKind: string, kind: string, child: string, owners: seq<OwnerRef>): seq<Edge> {
    if owners == [] then []
    else
      var last := owners[|owners| - 1];
      OwnedBy(meta, ownerKind, kind, child, owners[..|owners| - 1])
      + if last.kind == ownerKind then [Edge(Id(kind, NsOf(meta), last.name), child, "owns")] else []
  }

  function ReplicaSetNodes(rs: Workload, f: NsFilter, x: ()): seq<Node> {
    Scoped(f, NsOf(rs.meta), if Retired(rs) then [] else WorkloadNodes("replicaset", "ReplicaSet", rs, 0))
  }

  function ReplicaSetEdges(rs: Workload, f: NsFilter, x: ()): seq<Edge> {
    Scoped(f, NsOf(rs.meta),
      if Retired(rs) then []
      else OwnedBy(rs.meta, "Deployment", "deployment", MetaId("replicaset", rs.meta), rs.meta.owners))
  }

  function CronJobNodes(cj: CronJob, f: NsFilter, x: ()): seq<Node> {
    Scoped(f, NsOf(cj.meta), MakeNode("cronjob", "CronJob", cj.meta,
      if GetOr(cj.suspend, false) then "suspended" else if cj.active > 0 then "active" else "ready"))
  }

  function JobNodes(job: Job, f: NsFilter, x: ()): seq<Node> {
    Scoped(f, NsOf(job.meta), MakeNode("job", "Job", job.meta,
      if GetOr(job.succeeded, 0) > 0 then "completed" else if GetOr(job.failed, 0) > 0 then "failed"
      else if GetOr(job.active, 0) > 0 then "running" else "pending"))
  }

  function JobEdges(job: Job, f: NsFilter, x: ()): seq<Edge> {
    Scoped(f, NsOf(job.meta), OwnedBy(job.meta, "CronJob", "cronjob", MetaId("job", job.meta), job.meta.owners))
  }

  function ToLower(s: string): string {
    seq(|s|, i requires 0 <= i < |s| => if 'A' <= s[i] <= 'Z' then s[i] - 'A' + 'a' else s[i])
  }

  function HpaNodes(hpa: Hpa, f: NsFilter, x: ()): seq<Node> {
    Scoped(f, NsOf(hpa.meta), MakeNode("hpa", "HPA", hpa.meta,
      if GetOr(hpa.current, 0) == GetOr(hpa.desired, 0) then "synced" else "scaling"))
  }

  function ScaleEdges(hpa: Hpa, target: OwnerRef): seq<Edge> {
    var kind := ToLower(target.kind);
    if kind == "deployment" || kind == "statefulset" || kind == "daemonset" then
      [Edge(MetaId("hpa", hpa.meta), Id(kind, NsOf(hpa.meta), target.name), "scales")]
    else []
  }

  function HpaEdges(hpa: Hpa, f: NsFilter, x: ()): seq<Edge> {
    Scoped(f, NsOf(hpa.meta), if hpa.target.Some? then ScaleEdges(hpa, hpa.target.value) else [])
  }

  predicate InMap(svc: Service) {
    !(NameOf(svc.meta) == "kubernetes" && NsOf(svc.meta) == "default") && svc.selector != map[]
  }

  function ServiceNodes(svc: Service, f: NsFilter, x: ()): seq<Node> {
    Scoped(f, NsOf(svc.meta), if InMap(svc) then MakeNode("service", "Service", svc.meta, "active") else [])
  }

  /** The Deployment that owns a ReplicaSet: the last such owner reference, if any. */
  function DeploymentOf(ns: string, owners: seq<OwnerRef>): Option<string> {
    if owners == [] then None
    else
      var last := owners[|owners| - 1];
      if last.kind == "Deployment" then Some(Id("deployment", ns, last.name))
        else DeploymentOf(ns, owners[..|owners| - 1])
  }

  function KeyOf(meta: Meta): string {
    ObjectKey(NsOf(meta), NameOf(meta))
  }

  function RsToDep(rsets: seq<Workload>): map<string, string> {
    if rsets == [] then map[]
    else
      var rs, before := rsets[|rsets| - 1], RsToDep(rsets[..|rsets| - 1]);
      var dep := DeploymentOf(NsOf(rs.meta), rs.meta.owners);
      if dep.Some? then before[KeyOf(rs.meta) := dep.value] else before
  }

  /** The first owner of a known kind, with a ReplicaSet replaced by its Deployment. */
  function OwnerController(ns: string, owners: seq<OwnerRef>, rsToDep: map<string, string>): Option<string> {
    if owners == [] then None
    else if PodOwnerId(ns, owners[0]).None? then OwnerController(ns, owners[1..], rsToDep)
    else if owners[0].kind == "ReplicaSet" && ObjectKey(ns, owners[0].name) in rsToDep then
      Some(rsToDep[ObjectKey(ns, owners[0].name)])
    else PodOwnerId(ns, owners[0])
  }

  function Controller(pod: Pod, rsToDep: map<string, string>): string {
    GetOr(OwnerController(NsOf(pod.meta), pod.meta.owners, rsToDep), MetaId("pod", pod.meta))
  }

  function PodToController(pods: seq<Pod>, rsToDep: map<string, string>): map<string, string> {
    if pods == [] then map[]
    else
      var pod := pods[|pods| - 1];
      PodToController(pods[..|pods| - 1], rsToDep)[KeyOf(pod.meta) := Controller(pod, rsToDep)]
  }

  predicate Selects(svc: Service, pod: Pod) {
    && NsOf(pod.meta) == NsOf(svc.meta)
    && forall k :: k in svc.selector ==> k in pod.labels && pod.labels[k] == svc.selector[k]
  }

  function LookupController(pod: Pod, controllers: map<string, string>): string {
    if KeyOf(pod.meta) in controllers then controllers[KeyOf(pod.meta)] else MetaId("pod", pod.meta)
  }

  /** The controllers of the selected pods, each once, in the order of the pods. */
  function SelectedControllers(svc: Service, pods: seq<Pod>, controllers: map<string, string>): seq<string> {
    if pods == [] then []
    else
      var pod := pods[|pods| - 1];
      var before := SelectedControllers(svc, pods[..|pods| - 1], controllers);
      if Selects(svc, pod) && LookupController(pod, controllers) !in before then
        before + [LookupController(pod, controllers)]
      else before
  }

  function SelectsEdges(svc: Service, targets: seq<string>): seq<Edge> {
    seq(|targets|, i requires 0 <= i < |targets| => Edge(MetaId("service", svc.meta), targets[i], "selects"))
  }

  datatype Lookup = Lookup(pods: seq<Pod>, controllers: map<string, string>)

  function ServiceEdges(svc: Service, f: NsFilter, x: Lookup): seq<Edge> {
    Scoped(f, NsOf(svc.meta),
      if InMap(svc) then SelectsEdges(svc, SelectedControllers(svc, x.pods, x.controllers)) else [])
  }

  function IngressNodes(ing: Ingress, f: NsFilter, x: ()): seq<Node> {
    Scoped(f, NsOf(ing.meta), MakeNode("ingress", "Ingress", ing.meta, "active"))
  }

  function IngressEdges(ing: Ingress, f: NsFilter, x: ()): seq<Edge> {
    Scoped(f, NsOf(ing.meta), seq(|ing.backends|, i requires 0 <= i < |ing.backends| =>
      Edge(MetaId("ingress", ing.meta), Id("service", NsOf(ing.meta), ing.backends[i]), "routes")))
  }

  function ConfigMapNodes(cm: Meta, f: NsFilter, x: ()): seq<Node> {
    Scoped(f, NsOf(cm),
      if NameOf(cm) == "kube-root-ca.crt" then [] else MakeNode("configmap", "ConfigMap", cm, "active"))
  }

  function SecretNodes(secret: Secret, f: NsFilter, x: ()): seq<Node> {
    Scoped(f, NsOf(secret.meta),
      if secret.secretType == Some("kubernetes.io/service-account-token") ||
        "sh.helm.release" <= NameOf(secret.meta) then []
      else MakeNode("secret", "Secret", secret.meta, "active"))
  }

  function ServiceAccountNodes(sa: Meta, f: NsFilter, sas: set<string>): seq<Node> {
    Scoped(f, NsOf(sa), if KeyOf(sa) in sas then MakeNode("serviceaccount", "ServiceAccount", sa, "active") else [])
  }

  function PvcNodes(pvc: Pvc, f: NsFilter, claims: set<string>): seq<Node> {
    Scoped(f, NsOf(pvc.meta),
      if KeyOf(pvc.meta) in claims then MakeNode("pvc", "PVC", pvc.meta, ToLower(GetOr(pvc.phase, "Unknown"))) else [])
  }

  /** The volume that a claim is bound to. */
  function BoundVolume(pvc: Pvc): Option<string> {
    if pvc.volumeName == Some("") then None else pvc.volumeName
  }

  predicate Binds(pvc: Pvc, claims: set<string>) {
    KeyOf(pvc.meta) in claims && BoundVolume(pvc).Some?
  }

  function PvcEdges(pvc: Pvc, f: NsFilter, claims: set<string>): seq<Edge> {
    Scoped(f, NsOf(pvc.meta),
      if Binds(pvc, claims) then [Edge(MetaId("pvc", pvc.meta), VolumeId(BoundVolume(pvc).value), "binds")] else [])
  }

  function PvNodes(pv: Pv, f: NsFilter, volumes: set<string>): seq<Node> {
    var name := GetOr(pv.name, "");
    if name in volumes then [Node(VolumeId(name), "PV", name, None, ToLower(GetOr(pv.phase, "Unknown")))] else []
  }

  // ── The whole map ────────────────────────────────────────────────────────

  function FlatMap<R, X, T>(rs: seq<R>, out: (R, NsFilter, X) -> seq<T>, f: NsFilter, x: X): seq<T> {
    if rs == [] then [] else FlatMap(rs[..|rs| - 1], out, f, x) + out(rs[|rs| - 1], f, x)
  }

  function Concat<T>(parts: seq<seq<T>>): seq<T> {
    if parts == [] then [] else Concat(parts[..|parts| - 1]) + parts[|parts| - 1]
  }

  /** The service accounts, as `ns/name`, that pods in scope run under. */
  function ReferencedSas(pods: seq<Pod>, f: NsFilter): set<string> {
    if pods == [] then {}
    else
      var pod := pods[|pods| - 1];
      ReferencedSas(pods[..|pods| - 1], f) + if InNs(f, NsOf(pod.meta)) then PodSas(pod) else {}
  }

  /** The claims, as `ns/name`, that pods in scope mount. */
  function ReferencedPvcs(pods: seq<Pod>, f: NsFilter): set<string> {
    if pods == [] then {}
    else
      var pod := pods[|pods| - 1];
      ReferencedPvcs(pods[..|pods| - 1], f) + if InNs(f, NsOf(pod.meta)) then PodClaims(pod) else {}
  }

  /** The volumes that claims in scope are bound to. */
  function ReferencedPvs(pvcs: seq<Pvc>, f: NsFilter, claims: set<string>): set<string> {
    if pvcs == [] then {}
    else
      var pvc := pvcs[|pvcs| - 1];
      ReferencedPvs(pvcs[..|pvcs| - 1], f, claims)
      + if InNs(f, NsOf(pvc.meta)) && Binds(pvc, claims) then {BoundVolume(pvc).value} else {}
  }

  function Controllers(c: Cluster): map<string, string> {
    PodToController(c.pods, RsToDep(c.replicaSets))
  }

  /** The nodes that each of the fifteen passes pushes, in order. */
  function NodePasses(c: Cluster, f: NsFilter): (passes: seq<seq<Node>>)
    ensures |passes| == 15
  {
    var claims := ReferencedPvcs(c.pods, f);
    [FlatMap(c.pods, PodNodes, f, ()),
     FlatMap(c.deployments, DeploymentNodes, f, ()),
     FlatMap(c.replicaSets, ReplicaSetNodes, f, ()),
     FlatMap(c.statefulSets, StatefulSetNodes, f, ()),
     FlatMap(c.daemonSets, DaemonSetNodes, f, ()),
     FlatMap(c.cronJobs, CronJobNodes, f, ()),
     FlatMap(c.jobs, JobNodes, f, ()),
     FlatMap(c.hpas, HpaNodes, f, ()),
     FlatMap(c.services, ServiceNodes, f, ()),
     FlatMap(c.ingresses, IngressNodes, f, ()),
     FlatMap(c.configMaps, ConfigMapNodes, f, ()),
     FlatMap(c.secrets, SecretNodes, f, ()),
     FlatMap(c.serviceAccounts, ServiceAccountNodes, f, ReferencedSas(c.pods, f)),
     FlatMap(c.pvcs, PvcNodes, f, claims),
     FlatMap(c.pvs, PvNodes, f, ReferencedPvs(c.pvcs, f, claims))]
  }

  /** The edges that the passes with edges push, in order. */
  function EdgePasses(c: Cluster, f: NsFilter): (passes: seq<seq<Edge>>)
    ensures |passes| == 7
  {
    [FlatMap(c.pods, PodEdges, f, ()),
     FlatMap(c.replicaSets, ReplicaSetEdges, f, ()),
     FlatMap(c.jobs, JobEdges, f, ()),
     FlatMap(c.hpas, HpaEdges, f, ()),
     FlatMap(c.services, ServiceEdges, f, Lookup(c.pods, Controllers(c))),
     FlatMap(c.ingresses, IngressEdges, f, ()),
     FlatMap(c.pvcs, PvcEdges, f, ReferencedPvcs(c.pods, f))]
  }

  function EdgeKey(e: Edge): Key {
    (e.source, e.target)
  }

  function SortAndDedup(edges: seq<Edge>): seq<Edge> {
    DedupBy(SortBy(edges, EdgeKey), EdgeKey)
  }

  function Map(c: Cluster, f: NsFilter): Graph {
    Graph(Concat(NodePasses(c, f)), SortAndDedup(Concat(EdgePasses(c, f))))
  }
}
