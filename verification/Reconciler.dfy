/**
 The reconciliation of Astarte's resources: a fixed sequence of calls that stops at the first
 error. Every method is tied to its part of the plan.
 */
module Reconciler {
  import opened Specs
  import opened Queues
  import opened Cluster
  import opened Plans
  import Discipline
  import Outcome

  /** The state and the error that executing some steps leads to. */
  ghost predicate Did(before: World, c: Client, err: bool, steps: seq<Step>)
    reads c
  {
    Exec(before, c.oracle, steps) == (c.State(), !err)
  }

  // --- Common resources ---

  method EnsureHousekeepingKey(c: Client) returns (err: bool)
    modifies c
    ensures ExecStep(old(c.State()), c.oracle, MakeKeyPair) == (c.State(), !err)
  {
    hide StoreKeyPair;
    var publicKey;
    publicKey, err := c.Get(HousekeepingPublicKey);
    if err {
      return;
    }
    if publicKey.None? {
      var privateKey;
      privateKey, err := c.Get(HousekeepingPrivateKey);
      if err {
        return;
      }
      if privateKey.Some? {
        err := c.Delete(HousekeepingPrivateKey);
        if err {
          return;
        }
      }
      err := StoreHousekeepingKeyPair(c);
    }
  }

  method StoreHousekeepingKeyPair(c: Client) returns (err: bool)
    modifies c
    ensures StoreKeyPair(old(c.State()), c.oracle) == (c.State(), !err)
  {
    var key := c.Random();
    err := c.CreateOrUpdate(HousekeepingPrivateKey, Material(key));
    if err {
      return;
    }
    err := c.CreateOrUpdate(HousekeepingPublicKey, PublicHalf(key));
  }

  /** Secrets that are created once and never updated: the key base, the cookies, the CA. */
  method EnsureGeneratedSecret(c: Client, name: Key) returns (err: bool)
    modifies c
    ensures ExecStep(old(c.State()), c.oracle, Generate(name)) == (c.State(), !err)
  {
    var secret;
    secret, err := c.Get(name);
    if err || secret.Some? {
      return;
    }
    var token := c.Random();
    err := c.CreateOrUpdate(name, Material(token));
  }

  method CreateOrUpdate(c: Client, key: Key, contents: Object) returns (err: bool)
    modifies c
    ensures ExecStep(old(c.State()), c.oracle, Put(key, contents)) == (c.State(), !err)
  {
    err := c.CreateOrUpdate(key, contents);
  }

  /** The cleanup of a component that should not be deployed. */
  method DeleteIfPresent(c: Client, workload: Workload, strict: bool) returns (err: bool)
    modifies c
    ensures ExecStep(old(c.State()), c.oracle, Retire(workload, strict)) == (c.State(), !err)
  {
    var deployment;
    deployment, err := c.Get(Running(workload));
    if !err && deployment.Some? {
      err := c.Delete(Running(workload));
      err := err && strict;
    } else {
      err := false;
    }
  }

  method ReconcileRBAC(c: Client, workload: Workload) returns (err: bool)
    modifies c
    ensures Did(old(c.State()), c, err, RBACSteps(workload))
  {
    ghost var steps := RBACSteps(workload);
    ExecAt(c.State(), c.oracle, steps, 0);
    err := CreateOrUpdate(c, ServiceAccount(workload), Auxiliary);
    if err {
      return;
    }
    ExecAt(c.State(), c.oracle, steps, 1);
    err := CreateOrUpdate(c, Role(workload), Auxiliary);
    if err {
      return;
    }
    ExecAt(c.State(), c.oracle, steps, 2);
    err := CreateOrUpdate(c, RoleBinding(workload), Auxiliary);
  }

  method EnsureAstartePriorityClasses(c: Client, spec: AstarteSpec) returns (err: bool)
    modifies c
    ensures Did(old(c.State()), c, err, PrioritySteps(spec))
  {
    err := false;
    if spec.podPriorities {
      ghost var steps := PrioritySteps(spec);
      ExecAt(c.State(), c.oracle, steps, 0);
      err := CreateOrUpdate(c, PriorityClass(High), Auxiliary);
      if err {
        return;
      }
      ExecAt(c.State(), c.oracle, steps, 1);
      err := CreateOrUpdate(c, PriorityClass(Mid), Auxiliary);
      if err {
        return;
      }
      ExecAt(c.State(), c.oracle, steps, 2);
      err := CreateOrUpdate(c, PriorityClass(Low), Auxiliary);
    }
  }

  // --- CFSSL ---

  method EnsureCFSSL(c: Client, spec: AstarteSpec) returns (err: bool)
    modifies c
    ensures Did(old(c.State()), c, err, CFSSLSteps(spec))
  {
    if !spec.deployCFSSL.GetOr(true) {
      ExecAt(c.State(), c.oracle, CFSSLSteps(spec), 0);
      err := DeleteIfPresent(c, CFSSL, true);
      return;
    }
    ghost var deploy := [Certify(CASecret(spec), CFSSLProxyCA), Put(Running(CFSSL), CFSSLDeployment(spec))];
    ExecAppend(c.State(), c.oracle, SidecarSteps(spec), [Fetch(CFSSLConfig)] + (CASteps(spec) + deploy));
    err := EnsureCFSSLCommonSidecars(c, spec);
    if err {
      return;
    }
    ExecAppend(c.State(), c.oracle, [Fetch(CFSSLConfig)], CASteps(spec) + deploy);
    ExecAt(c.State(), c.oracle, [Fetch(CFSSLConfig)], 0);
    var theConfigMap;
    theConfigMap, err := c.Get(CFSSLConfig);
    if err || theConfigMap.None? {
      return true;
    }
    ExecAppend(c.State(), c.oracle, CASteps(spec), deploy);
    var caSecretName := DevicesCA;
    if spec.caSecret != "" {
      caSecretName := UserSecret(spec.caSecret);
    } else {
      ExecAt(c.State(), c.oracle, CASteps(spec), 0);
      err := EnsureGeneratedSecret(c, caSecretName);
      if err {
        return;
      }
    }
    err := DeployCFSSL(c, spec, caSecretName, theConfigMap.value.data);
  }

  method EnsureCFSSLCommonSidecars(c: Client, spec: AstarteSpec) returns (err: bool)
    modifies c
    ensures Did(old(c.State()), c, err, SidecarSteps(spec))
    ensures !err ==> CFSSLConfig in c.store && c.store[CFSSLConfig] == Config(spec.cfsslConfig)
  {
    ExecAt(c.State(), c.oracle, SidecarSteps(spec), 0);
    err := CreateOrUpdate(c, Service(CFSSL), Auxiliary);
    if err {
      return;
    }
    ExecAt(c.State(), c.oracle, SidecarSteps(spec), 1);
    err := CreateOrUpdate(c, CFSSLConfig, Config(spec.cfsslConfig));
  }

  /** The last part of `EnsureCFSSL`: the Deployment carries a checksum of the configuration read back. */
  method DeployCFSSL(c: Client, spec: AstarteSpec, caSecretName: Key, configMapData: map<string, string>) returns (err: bool)
    requires caSecretName == CASecret(spec) && configMapData == spec.cfsslConfig
    modifies c
    ensures Did(old(c.State()), c, err, [Certify(CASecret(spec), CFSSLProxyCA), Put(Running(CFSSL), CFSSLDeployment(spec))])
  {
    ghost var steps := [Certify(CASecret(spec), CFSSLProxyCA), Put(Running(CFSSL), CFSSLDeployment(spec))];
    ExecAt(c.State(), c.oracle, steps, 0);
    err := EnsureCFSSLCAProxySecret(c, caSecretName, CFSSLProxyCA);
    if err {
      return;
    }
    ExecAt(c.State(), c.oracle, steps, 1);
    var refs := if caSecretName.UserSecret? then {CFSSLConfig} else {CFSSLConfig, caSecretName};
    err := CreateOrUpdate(c, Running(CFSSL), Deployment(spec, refs, None, configMapData));
  }

  method EnsureCFSSLCAProxySecret(c: Client, secretName: Key, proxySecretName: Key) returns (err: bool)
    modifies c
    ensures ExecStep(old(c.State()), c.oracle, Certify(secretName, proxySecretName)) == (c.State(), !err)
  {
    hide Read, Write, ExecStep;
    CertifyByCalls(c.State(), c.oracle, secretName, proxySecretName);
    var secret;
    secret, err := c.Get(secretName);
    ghost var answered := c.State();
    assert answered.store == c.store;
    if err || secret.None? {
      return true;
    }
    assert secret.value == answered.store[secretName];
    err := c.CreateOrUpdate(proxySecretName, CertificateOf(secret.value));
  }

  lemma CertifyByCalls(w: World, o: Oracle, source: Key, target: Key)
    ensures var (w1, ok) := Read(w, o);
            ExecStep(w, o, Certify(source, target)) ==
            if ok && source in w1.store then Write(w1, o, PutObject(target, CertificateOf(w1.store[source]))) else (w1, false)
  {
  }

  // --- Components ---

  method EnsureAstarteGenericAPIComponent(c: Client, spec: AstarteSpec, component: Component) returns (err: bool)
    modifies c
    requires component != DataUpdaterPlant
    ensures Did(old(c.State()), c, err, APISteps(spec, component))
  {
    hide ExecStep, RBACSteps;
    var workload := Of(component);
    if !spec.Deploys(component) {
      ExecAt(c.State(), c.oracle, APISteps(spec, component), 0);
      err := DeleteIfPresent(c, workload, false);
      return;
    }
    ghost var first := [Generate(Cookie(workload)), Put(Service(workload), Auxiliary)];
    ghost var last := [Put(Running(workload), ComponentDeployment(spec, component))];
    ExecAppend(c.State(), c.oracle, first, AccountSteps(component) + last);
    ExecAt(c.State(), c.oracle, first, 0);
    err := EnsureGeneratedSecret(c, Cookie(workload));
    if err {
      return;
    }
    ExecAt(c.State(), c.oracle, first, 1);
    err := CreateOrUpdate(c, Service(workload), Auxiliary);
    if err {
      return;
    }
    ExecAppend(c.State(), c.oracle, AccountSteps(component), last);
    if component == FlowComponent {
      err := ReconcileRBAC(c, workload);
      if err {
        return;
      }
    }
    if component == AppEngineAPI || component == RealmManagement || component == Pairing {
      err := ReconcileRBAC(c, workload);
      if err {
        return;
      }
    }
    ExecAt(c.State(), c.oracle, last, 0);
    err := CreateOrUpdate(c, Running(workload), Deployment(spec, ComponentRefs(component, workload), None, map[]));
  }

  method EnsureAstarteGenericBackend(c: Client, spec: AstarteSpec, component: Component) returns (err: bool)
    modifies c
    ensures Did(old(c.State()), c, err, BackendSteps(spec, component))
  {
    hide ExecStep, RBACSteps;
    var workload := WorkloadOf(component);
    if !spec.Deploys(component) {
      ExecAt(c.State(), c.oracle, BackendSteps(spec, component), 0);
      err := DeleteIfPresent(c, workload, true);
      return;
    }
    ghost var last :=
      [Generate(Cookie(workload)), Put(Service(workload), Auxiliary), Put(Running(workload), ComponentDeployment(spec, component))];
    ExecAppend(c.State(), c.oracle, RBACSteps(workload), last);
    err := ReconcileRBAC(c, workload);
    if err {
      return;
    }
    ExecAt(c.State(), c.oracle, last, 0);
    err := EnsureGeneratedSecret(c, Cookie(workload));
    if err {
      return;
    }
    ExecAt(c.State(), c.oracle, last, 1);
    err := CreateOrUpdate(c, Service(workload), Auxiliary);
    if err {
      return;
    }
    ExecAt(c.State(), c.oracle, last, 2);
    var shard: Option<Shard> := None;
    if component == DataUpdaterPlant {
      // A single replica is told to take all queues.
      var range := GetDataUpdaterPlantQueueRange(0, 0, spec.Queues());
      shard := Some(Shard(0, 1, range));
    }
    err := CreateOrUpdate(c, Running(workload), Deployment(spec, ComponentRefs(component, workload), shard, map[]));
  }

  /** Executing the plan of the Data Updater Plant: the excess goes first, then the rest. */
  lemma ExecDUP(w: World, o: Oracle, spec: AstarteSpec)
    ensures Exec(w, o, DUPSteps(spec)) ==
            var (w1, ok) := ExecStep(w, o, Shrink(if spec.Deploys(DataUpdaterPlant) then spec.Replicas() else -1));
            if ok then Exec(w1, o, RestOfDUP(spec)) else (w1, false)
    ensures !spec.Deploys(DataUpdaterPlant) ==> forall v :: Exec(v, o, RestOfDUP(spec)) == (v, true)
  {
    hide ExecStep, RestOfDUP, IndexedSteps, BackendSteps;
    DUPStepsSplit(spec);
    assert DUPSteps(spec)[1..] == RestOfDUP(spec);
    OffLeavesNothing(spec);
  }

  lemma OffLeavesNothing(spec: AstarteSpec)
    ensures !spec.Deploys(DataUpdaterPlant) ==> RestOfDUP(spec) == []
  {
  }

  method EnsureAstarteDataUpdaterPlant(c: Client, spec: AstarteSpec) returns (err: bool)
    modifies c
    ensures Did(old(c.State()), c, err, DUPSteps(spec))
  {
    hide Exec, IndexedSteps, BackendSteps, DUPSteps, ExecStep;
    var replicas := spec.Replicas();
    var deploy := spec.Deploys(DataUpdaterPlant);
    ExecDUP(c.State(), c.oracle, spec);
    err := DeleteExcessDeployments(c, replicas, deploy);
    if err || !deploy {
      return;
    }
    if replicas == 1 {
      err := EnsureAstarteGenericBackend(c, spec, DataUpdaterPlant);
      return;
    }
    ghost var service := [Put(Service(DUP(0)), Auxiliary)];
    ExecAppend(c.State(), c.oracle, service, IndexedSteps(spec, replicas));
    ExecAt(c.State(), c.oracle, service, 0);
    err := CreateOrUpdate(c, Service(DUP(0)), Auxiliary);
    if err {
      return;
    }
    err := CreateIndexedDeployments(c, spec);
  }

  /** A range depends on the replica count, so when there are too many Deployments all of them go. */
  method DeleteExcessDeployments(c: Client, replicas: int, deploy: bool) returns (err: bool)
    modifies c
    ensures ExecStep(old(c.State()), c.oracle, Shrink(if deploy then replicas else -1)) == (c.State(), !err)
  {
    var currentDUPDeployments;
    currentDUPDeployments, err := c.ListDUPs();
    if !err && (|currentDUPDeployments| > replicas || !deploy) {
      err := c.DeleteAllDUPs();
    }
  }

  /** The loop over the replicas. */
  method CreateIndexedDeployments(c: Client, spec: AstarteSpec) returns (err: bool)
    modifies c
    ensures Did(old(c.State()), c, err, IndexedSteps(spec, spec.Replicas()))
  {
    hide Exec, IndexedSteps, IndexedStep;
    ghost var before := c.State();
    NoReplicas(before, c.oracle, spec);
    var i, replicas := 0, spec.Replicas();
    err := false;
    while i < replicas
      invariant i == 0 || 0 <= i <= replicas
      invariant Exec(before, c.oracle, IndexedSteps(spec, i)) == (c.State(), true)
    {
      ghost var start := c.State();
      err := CreateIndexedDataUpdaterPlantDeployment(c, spec, i, replicas);
      NextReplica(before, start, c.State(), c.oracle, spec, i, !err);
      i := i + 1;
      if err {
        StoppedEarly(before, c.State(), c.oracle, spec, i, replicas);
        return;
      }
    }
  }

  lemma NoReplicas(before: World, o: Oracle, spec: AstarteSpec)
    ensures Exec(before, o, IndexedSteps(spec, 0)) == (before, true)
    ensures spec.Replicas() <= 0 ==> IndexedSteps(spec, spec.Replicas()) == IndexedSteps(spec, 0)
  {
  }

  lemma NextReplica(before: World, start: World, after: World, o: Oracle, spec: AstarteSpec, index: nat, ok: bool)
    requires Exec(before, o, IndexedSteps(spec, index)) == (start, true)
    requires Exec(start, o, IndexedStep(spec, index)) == (after, ok)
    ensures Exec(before, o, IndexedSteps(spec, index + 1)) == (after, ok)
  {
    ExecAppend(before, o, IndexedSteps(spec, index), IndexedStep(spec, index));
  }

  lemma {:induction false} StoppedEarly(before: World, after: World, o: Oracle, spec: AstarteSpec, done: int, count: int)
    requires 0 <= done <= count && Exec(before, o, IndexedSteps(spec, done)) == (after, false)
    ensures Exec(before, o, IndexedSteps(spec, count)) == (after, false)
    decreases count
  {
    if done < count {
      StoppedEarly(before, after, o, spec, done, count - 1);
      ExecAppend(before, o, IndexedSteps(spec, count - 1), IndexedStep(spec, count - 1));
    }
  }

  method CreateIndexedDataUpdaterPlantDeployment(c: Client, spec: AstarteSpec, replicaIndex: nat, replicas: int) returns (err: bool)
    requires replicas == spec.Replicas()
    modifies c
    ensures Did(old(c.State()), c, err, IndexedStep(spec, replicaIndex))
  {
    ExecAt(c.State(), c.oracle, IndexedStep(spec, replicaIndex), 0);
    err := EnsureGeneratedSecret(c, Cookie(DUP(replicaIndex)));
    if err {
      return;
    }
    ExecAt(c.State(), c.oracle, IndexedStep(spec, replicaIndex), 1);
    var range := GetDataUpdaterPlantQueueRange(replicaIndex, replicas, spec.Queues());
    var refs := ComponentRefs(DataUpdaterPlant, DUP(replicaIndex));
    err := CreateOrUpdate(c, Running(DUP(replicaIndex)), Deployment(spec, refs, Some(Shard(replicaIndex, replicas, range)), map[]));
  }

  /** Lists the secrets and, unless the listener's certificate is among them, deletes the broker's pods. */
  method MaybeDeleteVerneMQPods(c: Client, secret: string) returns (err: bool)
    modifies c
    ensures ExecStep(old(c.State()), c.oracle, RestartUnless(secret)) == (c.State(), !err)
  {
    var listed;
    listed, err := c.Get(UserSecret(secret));
    if !err && listed.None? {
      err := c.DeletePods();
    }
  }

  method EnsureVerneMQ(c: Client, spec: AstarteSpec) returns (err: bool)
    modifies c
    ensures Did(old(c.State()), c, err, VerneMQSteps(spec))
  {
    if !spec.deployVerneMQ.GetOr(true) {
      ExecAt(c.State(), c.oracle, VerneMQSteps(spec), 0);
      err := DeleteIfPresent(c, VerneMQ, true);
      return;
    }
    ghost var service := [Put(Service(VerneMQ), Auxiliary)];
    ghost var start := [Put(Running(VerneMQ), Deployment(spec, {ClusteringCookie}, None, map[]))];
    ExecAppend(c.State(), c.oracle, RBACSteps(VerneMQ), service + (ListenerSteps(spec) + start));
    err := ReconcileRBAC(c, VerneMQ);
    if err {
      return;
    }
    ExecAppend(c.State(), c.oracle, service, ListenerSteps(spec) + start);
    ExecAt(c.State(), c.oracle, service, 0);
    err := CreateOrUpdate(c, Service(VerneMQ), Auxiliary);
    if err {
      return;
    }
    ExecAppend(c.State(), c.oracle, ListenerSteps(spec), start);
    if spec.listenerSecret.Some? {
      ExecAt(c.State(), c.oracle, ListenerSteps(spec), 0);
      err := MaybeDeleteVerneMQPods(c, spec.listenerSecret.value);
      if err {
        return;
      }
    }
    ExecAt(c.State(), c.oracle, start, 0);
    err := CreateOrUpdate(c, Running(VerneMQ), Deployment(spec, {ClusteringCookie}, None, map[]));
  }

  method EnsureAstarteDashboard(c: Client, spec: AstarteSpec) returns (err: bool)
    modifies c
    ensures Did(old(c.State()), c, err, DashboardSteps(spec))
  {
    var workload := Of(Dashboard);
    ghost var steps := DashboardSteps(spec);
    ExecAt(c.State(), c.oracle, steps, 0);
    if !spec.Deploys(Dashboard) {
      err := DeleteIfPresent(c, workload, true);
      return;
    }
    err := CreateOrUpdate(c, DashboardConfig, Config(spec.dashboardConfig));
    if err {
      return;
    }
    ExecAt(c.State(), c.oracle, steps, 1);
    err := CreateOrUpdate(c, Service(workload), Auxiliary);
    if err {
      return;
    }
    ExecAt(c.State(), c.oracle, steps, 2);
    err := CreateOrUpdate(c, Running(workload), Deployment(spec, {DashboardConfig}, None, map[]));
  }

  // --- The whole ---

  method EnsureAstarteMicroservices(c: Client, spec: AstarteSpec) returns (err: bool)
    modifies c
    ensures Did(old(c.State()), c, err, MicroserviceSteps(spec))
  {
    ghost var fromAppEngine := APISteps(spec, AppEngineAPI);
    ghost var fromDUP := DUPSteps(spec) + fromAppEngine;
    ghost var fromTriggers := BackendSteps(spec, TriggerEngine) + fromDUP;
    ghost var fromFlow := APISteps(spec, FlowComponent) + fromTriggers;
    ghost var fromPairing := APISteps(spec, Pairing) + fromFlow;
    ghost var fromRealms := APISteps(spec, RealmManagement) + fromPairing;
    // Housekeeping comes first: it creates and migrates the database.
    ExecAppend(c.State(), c.oracle, APISteps(spec, Housekeeping), fromRealms);
    err := EnsureAstarteGenericAPIComponent(c, spec, Housekeeping);
    if err {
      return;
    }
    ExecAppend(c.State(), c.oracle, APISteps(spec, RealmManagement), fromPairing);
    err := EnsureAstarteGenericAPIComponent(c, spec, RealmManagement);
    if err {
      return;
    }
    ExecAppend(c.State(), c.oracle, APISteps(spec, Pairing), fromFlow);
    err := EnsureAstarteGenericAPIComponent(c, spec, Pairing);
    if err {
      return;
    }
    ExecAppend(c.State(), c.oracle, APISteps(spec, FlowComponent), fromTriggers);
    err := EnsureAstarteGenericAPIComponent(c, spec, FlowComponent);
    if err {
      return;
    }
    ExecAppend(c.State(), c.oracle, BackendSteps(spec, TriggerEngine), fromDUP);
    err := EnsureAstarteGenericBackend(c, spec, TriggerEngine);
    if err {
      return;
    }
    ExecAppend(c.State(), c.oracle, DUPSteps(spec), fromAppEngine);
    err := EnsureAstarteDataUpdaterPlant(c, spec);
    if err {
      return;
    }
    err := EnsureAstarteGenericAPIComponent(c, spec, AppEngineAPI);
  }

  method ReconcileAstarteResources(c: Client, spec: AstarteSpec) returns (err: bool)
    modifies c
    ensures Did(old(c.State()), c, err, Plan(spec))
    ensures Discipline.PlainUserSecrets(old(c.store)) && !err ==> Outcome.AsWanted(c.store, spec)
  {
    ghost var before := c.State();
    hide Discipline.PlainUserSecrets, Outcome.AsWanted, Exec, ExecStep, PrioritySteps, CFSSLSteps, MicroserviceSteps, VerneMQSteps, DashboardSteps;
    ghost var fromDashboard := DashboardSteps(spec);
    ghost var fromVerneMQ := VerneMQSteps(spec) + fromDashboard;
    ghost var fromServices := MicroserviceSteps(spec) + fromVerneMQ;
    ghost var fromCFSSL := CFSSLSteps(spec) + fromServices;
    ghost var fromPriorities := PrioritySteps(spec) + fromCFSSL;
    assert Plan(spec) == BaseSteps() + fromPriorities;
    hide Plan;
    ExecAppend(c.State(), c.oracle, BaseSteps(), fromPriorities);
    ExecAt(c.State(), c.oracle, BaseSteps(), 0);
    err := EnsureHousekeepingKey(c);
    if err {
      return;
    }
    ExecAt(c.State(), c.oracle, BaseSteps(), 1);
    err := EnsureGeneratedSecret(c, SecretKeyBase);
    if err {
      return;
    }
    ExecAt(c.State(), c.oracle, BaseSteps(), 2);
    err := CreateOrUpdate(c, ErlangConfig, Auxiliary);
    if err {
      return;
    }
    ExecAt(c.State(), c.oracle, BaseSteps(), 3);
    err := EnsureGeneratedSecret(c, ClusteringCookie);
    if err {
      return;
    }
    ExecAppend(c.State(), c.oracle, PrioritySteps(spec), fromCFSSL);
    err := EnsureAstartePriorityClasses(c, spec);
    if err {
      return;
    }
    ExecAppend(c.State(), c.oracle, CFSSLSteps(spec), fromServices);
    err := EnsureCFSSL(c, spec);
    if err {
      return;
    }
    ExecAppend(c.State(), c.oracle, MicroserviceSteps(spec), fromVerneMQ);
    err := EnsureAstarteMicroservices(c, spec);
    if err {
      return;
    }
    ExecAppend(c.State(), c.oracle, VerneMQSteps(spec), fromDashboard);
    err := EnsureVerneMQ(c, spec);
    if err {
      return;
    }
    err := EnsureAstarteDashboard(c, spec);
    if !err && Discipline.PlainUserSecrets(before.store) {
      Outcome.SuccessIsAsWanted(before, c.oracle, spec);
    }
  }
}
