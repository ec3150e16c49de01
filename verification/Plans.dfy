/**
 What a reconcile does to the cluster, as data: a list of steps, each of which makes a few calls,
 and an interpreter that stops at the first step that fails. The reconciler's code is proved to
 do exactly this; what holds in every run is proved about the lists.
 */
module Plans {
  import opened Specs
  import opened Queues
  import opened Cluster

  datatype Step =
    /** Create an object or update it. */
    | Put(key: Key, contents: Object)
    /** Create a random secret unless there is one. */
    | Generate(key: Key)
    /** Make the Housekeeping key pair unless there is a public key. */
    | MakeKeyPair
    /** Read an object that has to be there. */
    | Fetch(key: Key)
    /** Publish the certificate of a secret that has to be there. */
    | Certify(source: Key, target: Key)
    /** Delete a workload that should not run; `strict` tells whether a failed deletion matters. */
    | Retire(workload: Workload, strict: bool)
    /** Delete all Data Updater Plant Deployments if there are more than `limit`. */
    | Shrink(limit: int)
    /** Delete the broker's pods, which are not part of the store, unless a user's secret is there. */
    | RestartUnless(secret: string)

  // --- The interpreter ---

  function Exec(w: World, o: Oracle, steps: seq<Step>): (World, bool)
    decreases |steps|
  {
    if steps == [] then (w, true)
    else
      var (w1, ok) := ExecStep(w, o, steps[0]);
      if ok then Exec(w1, o, steps[1..]) else (w1, false)
  }

  function ExecStep(w: World, o: Oracle, step: Step): (World, bool) {
    match step
    case Put(key, contents) => Write(w, o, PutObject(key, contents))
    case Generate(key) =>
      var (w1, ok) := Read(w, o);
      if ok && key !in w1.store then WriteFresh(w1, o, key) else (w1, ok)
    case MakeKeyPair => ExecMakeKeyPair(w, o)
    case Fetch(key) =>
      var (w1, ok) := Read(w, o);
      (w1, ok && key in w1.store)
    case Certify(source, target) =>
      var (w1, ok) := Read(w, o);
      if ok && source in w1.store then Write(w1, o, PutObject(target, CertificateOf(w1.store[source]))) else (w1, false)
    case Retire(workload, strict) =>
      var (w1, ok) := Read(w, o);
      if ok && Running(workload) in w1.store then
        var (w2, ok2) := Write(w1, o, DropObject(Running(workload)));
        (w2, ok2 || !strict)
      else (w1, true)
    case Shrink(limit) =>
      var (w1, ok) := Read(w, o);
      if ok && |DUPs(w1.store)| > limit then Write(w1, o, DropDUPs) else (w1, ok)
    case RestartUnless(secret) =>
      var (w1, ok) := Read(w, o);
      if ok && UserSecret(secret) !in w1.store then Read(w1, o) else (w1, ok)
  }

  function WriteFresh(w: World, o: Oracle, key: Key): (World, bool) {
    Write(w.(nextToken := w.nextToken + 1), o, PutObject(key, Material(w.nextToken)))
  }

  /** A private key without a public one is a leftover and is deleted before a new pair is made;
      the public key is written last. */
  function ExecMakeKeyPair(w: World, o: Oracle): (World, bool) {
    var (w1, ok1) := Read(w, o);
    if !ok1 || HousekeepingPublicKey in w1.store then (w1, ok1)
    else
      var (w2, ok2) := Read(w1, o);
      if !ok2 then (w2, false)
      else if HousekeepingPrivateKey in w2.store then
        var (w3, ok3) := Write(w2, o, DropObject(HousekeepingPrivateKey));
        if ok3 then StoreKeyPair(w3, o) else (w3, false)
      else StoreKeyPair(w2, o)
  }

  function StoreKeyPair(w: World, o: Oracle): (World, bool) {
    var (w1, ok) := WriteFresh(w, o, HousekeepingPrivateKey);
    if ok then Write(w1, o, PutObject(HousekeepingPublicKey, PublicHalf(w.nextToken))) else (w1, false)
  }

  lemma {:induction false} ExecAppend(w: World, o: Oracle, a: seq<Step>, b: seq<Step>)
    ensures Exec(w, o, a + b) ==
            var (w1, ok) := Exec(w, o, a);
            if ok then Exec(w1, o, b) else (w1, false)
    decreases |a|
  {
    if a == [] {
      assert a + b == b;
    } else {
      assert (a + b)[1..] == a[1..] + b;
      ExecAppend(ExecStep(w, o, a[0]).0, o, a[1..], b);
    }
  }

  /** Executing what is left of a list from position `i` on. */
  lemma ExecAt(w: World, o: Oracle, steps: seq<Step>, i: nat)
    requires i < |steps|
    ensures var (w1, ok) := ExecStep(w, o, steps[i]);
            Exec(w, o, steps[i..]) == if ok then Exec(w1, o, steps[i + 1..]) else (w1, false)
    ensures steps[0..] == steps
    ensures i + 1 == |steps| ==> Exec(w, o, steps[i..]) == ExecStep(w, o, steps[i])
  {
    assert steps[i..][1..] == steps[i + 1..];
  }

  // --- The plan of a reconcile ---

  function WorkloadOf(component: Component): Workload {
    if component == DataUpdaterPlant then DUP(0) else Of(component)
  }

  /** Components that form one Erlang cluster share a cookie. */
  predicate Clustered(component: Component) {
    component == AppEngineAPI || component == DataUpdaterPlant || component == RealmManagement || component == Pairing
  }

  /** The generated Secrets and ConfigMaps that the pods of a component refer to. */
  function ComponentRefs(component: Component, workload: Workload): set<Key> {
    {SecretKeyBase, ErlangConfig, if Clustered(component) then ClusteringCookie else Cookie(workload)} +
    (if component == Housekeeping then {HousekeepingPublicKey} else {})
  }

  function ComponentDeployment(spec: AstarteSpec, component: Component): Object {
    if component == DataUpdaterPlant then DUPDeployment(spec, 0, 1)
    else Deployment(spec, ComponentRefs(component, WorkloadOf(component)), None, map[])
  }

  function DUPDeployment(spec: AstarteSpec, index: nat, replicas: int): Object {
    Deployment(spec, ComponentRefs(DataUpdaterPlant, DUP(index)), Some(Shard(index, replicas, Share(spec.Queues(), index, replicas))), map[])
  }

  function CFSSLDeployment(spec: AstarteSpec): Object {
    Deployment(spec, if spec.caSecret != "" then {CFSSLConfig} else {CFSSLConfig, DevicesCA}, None, spec.cfsslConfig)
  }

  function RBACSteps(workload: Workload): seq<Step> {
    [Put(ServiceAccount(workload), Auxiliary), Put(Role(workload), Auxiliary), Put(RoleBinding(workload), Auxiliary)]
  }

  function BaseSteps(): seq<Step> {
    [MakeKeyPair, Generate(SecretKeyBase), Put(ErlangConfig, Auxiliary), Generate(ClusteringCookie)]
  }

  function PrioritySteps(spec: AstarteSpec): seq<Step> {
    if spec.podPriorities then
      [Put(PriorityClass(High), Auxiliary), Put(PriorityClass(Mid), Auxiliary), Put(PriorityClass(Low), Auxiliary)]
    else
      []
  }

  function CFSSLSteps(spec: AstarteSpec): seq<Step> {
    if !spec.deployCFSSL.GetOr(true) then
      [Retire(CFSSL, true)]
    else
      SidecarSteps(spec) + ([Fetch(CFSSLConfig)] + (CASteps(spec) +
      [Certify(CASecret(spec), CFSSLProxyCA), Put(Running(CFSSL), CFSSLDeployment(spec))]))
  }

  function SidecarSteps(spec: AstarteSpec): seq<Step> {
    [Put(Service(CFSSL), Auxiliary), Put(CFSSLConfig, Config(spec.cfsslConfig))]
  }

  /** A certification authority is made unless the user names one. */
  function CASteps(spec: AstarteSpec): seq<Step> {
    if spec.caSecret != "" then [] else [Generate(DevicesCA)]
  }

  function CASecret(spec: AstarteSpec): Key {
    if spec.caSecret != "" then UserSecret(spec.caSecret) else DevicesCA
  }

  /** The service account of the components that talk to the Kubernetes API. */
  function AccountSteps(component: Component): seq<Step> {
    if component == FlowComponent || component == AppEngineAPI || component == RealmManagement || component == Pairing then
      RBACSteps(Of(component))
    else
      []
  }

  function APISteps(spec: AstarteSpec, component: Component): seq<Step> {
    var workload := Of(component);
    if !spec.Deploys(component) then
      [Retire(workload, false)]
    else
      [Generate(Cookie(workload)), Put(Service(workload), Auxiliary)] +
      (AccountSteps(component) + [Put(Running(workload), ComponentDeployment(spec, component))])
  }

  /** A component that runs as a single Deployment without an API of its own. */
  function BackendSteps(spec: AstarteSpec, component: Component): seq<Step> {
    var workload := WorkloadOf(component);
    if !spec.Deploys(component) then
      [Retire(workload, true)]
    else
      RBACSteps(workload) +
      [Generate(Cookie(workload)), Put(Service(workload), Auxiliary), Put(Running(workload), ComponentDeployment(spec, component))]
  }

  function DUPSteps(spec: AstarteSpec): seq<Step> {
    if !spec.Deploys(DataUpdaterPlant) then
      [Shrink(-1)]
    else if spec.Replicas() == 1 then
      [Shrink(1)] + BackendSteps(spec, DataUpdaterPlant)
    else
      [Shrink(spec.Replicas()), Put(Service(DUP(0)), Auxiliary)] + IndexedSteps(spec, spec.Replicas())
  }

  /** What follows once there are not too many. */
  function RestOfDUP(spec: AstarteSpec): seq<Step> {
    if !spec.Deploys(DataUpdaterPlant) then []
    else if spec.Replicas() == 1 then BackendSteps(spec, DataUpdaterPlant)
    else [Put(Service(DUP(0)), Auxiliary)] + IndexedSteps(spec, spec.Replicas())
  }

  lemma DUPStepsSplit(spec: AstarteSpec)
    ensures DUPSteps(spec) == [Shrink(if spec.Deploys(DataUpdaterPlant) then spec.Replicas() else -1)] + RestOfDUP(spec)
  {
  }

  /** One Deployment after the other, from index 0 up. */
  function IndexedSteps(spec: AstarteSpec, count: int): seq<Step> {
    if count <= 0 then [] else IndexedSteps(spec, count - 1) + IndexedStep(spec, count - 1)
  }

  function IndexedStep(spec: AstarteSpec, index: nat): seq<Step> {
    [Generate(Cookie(DUP(index))), Put(Running(DUP(index)), DUPDeployment(spec, index, spec.Replicas()))]
  }

  function MicroserviceSteps(spec: AstarteSpec): seq<Step> {
    APISteps(spec, Housekeeping) + (APISteps(spec, RealmManagement) + (APISteps(spec, Pairing) + (APISteps(spec, FlowComponent) +
    (BackendSteps(spec, TriggerEngine) + (DUPSteps(spec) + APISteps(spec, AppEngineAPI))))))
  }

  function VerneMQSteps(spec: AstarteSpec): seq<Step> {
    if !spec.deployVerneMQ.GetOr(true) then
      [Retire(VerneMQ, true)]
    else
      RBACSteps(VerneMQ) + ([Put(Service(VerneMQ), Auxiliary)] + (ListenerSteps(spec) +
      [Put(Running(VerneMQ), Deployment(spec, {ClusteringCookie}, None, map[]))]))
  }

  /** A broker that terminates SSL itself needs the user's certificate. */
  function ListenerSteps(spec: AstarteSpec): seq<Step> {
    if spec.listenerSecret.Some? then [RestartUnless(spec.listenerSecret.value)] else []
  }

  function DashboardSteps(spec: AstarteSpec): seq<Step> {
    var workload := Of(Dashboard);
    if !spec.Deploys(Dashboard) then
      [Retire(workload, true)]
    else
      [Put(DashboardConfig, Config(spec.dashboardConfig)), Put(Service(workload), Auxiliary),
       Put(Running(workload), Deployment(spec, {DashboardConfig}, None, map[]))]
  }

  function Plan(spec: AstarteSpec): seq<Step> {
    BaseSteps() + (PrioritySteps(spec) + (CFSSLSteps(spec) + (MicroserviceSteps(spec) + (VerneMQSteps(spec) + DashboardSteps(spec)))))
  }
}
