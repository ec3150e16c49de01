/**
 What a reconcile of resources that succeeds leaves behind, object by object, and what the workloads
 look like at every state of every run.
 */
module Outcome {
  import opened Specs
  import opened Queues
  import opened Cluster
  import opened Plans
  import opened Discipline
  import opened Invariants

  // --- What is wanted ---

  /** Workloads with an account for the Kubernetes API. */
  ghost predicate Accounted(spec: AstarteSpec, workload: Workload) {
    match workload
    case Of(component) => Wanted(spec, workload) && component != Housekeeping && component != Dashboard
    case VerneMQ => Wanted(spec, workload)
    case DUP(index) => Wanted(spec, workload) && spec.Replicas() == 1
    case CFSSL => false
    case ForeignDUP(_) => false
  }

  /** The objects that have to be there next to the workloads. */
  ghost predicate Needed(spec: AstarteSpec, key: Key) {
    match key
    case HousekeepingPublicKey => true
    case SecretKeyBase => true
    case ErlangConfig => true
    case ClusteringCookie => true
    case Cookie(workload) => Wanted(spec, workload) && (workload.DUP? || (workload.Of? && workload != Of(Dashboard)))
    case Service(workload) => if workload == DUP(0) then spec.Deploys(DataUpdaterPlant) else !workload.DUP? && Wanted(spec, workload)
    case ServiceAccount(workload) => Accounted(spec, workload)
    case Role(workload) => Accounted(spec, workload)
    case RoleBinding(workload) => Accounted(spec, workload)
    case PriorityClass(_) => spec.podPriorities
    case CFSSLConfig => spec.deployCFSSL.GetOr(true)
    case CFSSLProxyCA => spec.deployCFSSL.GetOr(true)
    case DevicesCA => spec.deployCFSSL.GetOr(true) && spec.caSecret == ""
    case DashboardConfig => spec.Deploys(Dashboard)
    case _ => false
  }

  /** Every wanted workload is rendered from this specification, with its references, its queues and its
      configuration; what it needs is there, with the contents that the specification says. */
  ghost predicate AsWanted(store: Store, spec: AstarteSpec) {
    && (forall workload | Wanted(spec, workload) :: Running(workload) in store && store[Running(workload)] == Rendering(spec, workload))
    && (forall key | Needed(spec, key) :: key in store)
    && (spec.deployCFSSL.GetOr(true) ==>
          && store[CFSSLConfig] == Config(spec.cfsslConfig)
          && store[CFSSLProxyCA] == CertificateOf(if spec.caSecret != "" then Auxiliary else store[DevicesCA]))
    && (spec.Deploys(Dashboard) ==> store[DashboardConfig] == Config(spec.dashboardConfig))
  }

  // --- What steps achieve ---

  /** The step has put in place what it stands for. */
  ghost predicate Done(step: Step, store: Store) {
    match step
    case Put(key, contents) => key in store && store[key] == contents
    case Generate(key) => key in store
    case MakeKeyPair => HousekeepingPublicKey in store
    case Certify(source, target) =>
      && (source in store || source.UserSecret?) && target in store
      && store[target] == CertificateOf(if source.UserSecret? then Auxiliary else store[source])
    case _ => true
  }

  /** What the step stands for is among these objects. */
  ghost predicate Within(step: Step, have: set<Key>) {
    && Adds(step) <= have
    && (step.Certify? ==> step.source in have || step.source.UserSecret?)
  }

  ghost function AllDone(done: seq<Step>): Store -> bool {
    store => forall step <- done :: Done(step, store)
  }

  ghost predicate AllWithin(done: seq<Step>, have: set<Key>) {
    forall step <- done :: Within(step, have)
  }

  lemma OthersKeepDone(action: Action, store: Store, have: set<Key>, step: Step)
    requires Within(step, have) && OperatorsOwn(have) && Done(step, store)
    ensures Done(step, StoreAfter(action, store))
  {
    forall key: Key | !key.UserSecret?
      ensures key in StoreAfter(action, store) <==> key in store
      ensures key in store ==> StoreAfter(action, store)[key] == store[key]
    {
      OthersKeepOut(action, store, key);
    }
  }

  lemma ChangeKeepsDone(step: Step, spec: AstarteSpec, have: set<Key>, store: Store, change: Change, done: Step)
    requires Guarded(step, spec, have) && have <= store.Keys && PlainUserSecrets(store) && MayChange(step, store, change)
    requires Within(done, have) && Done(done, store)
    ensures Done(done, Apply(change, store))
  {
    ChangeKeepsHave(step, spec, have, store, change);
  }

  lemma OthersKeepAll(action: Action, store: Store, have: set<Key>)
    requires OperatorsOwn(have) && have <= store.Keys && PlainUserSecrets(store)
    ensures have <= StoreAfter(action, store).Keys && PlainUserSecrets(StoreAfter(action, store))
  {
    forall key | key in have ensures key in StoreAfter(action, store) {
      OthersKeepOut(action, store, key);
    }
  }

  lemma DoneIsKept(step: Step, spec: AstarteSpec, have: set<Key>, done: seq<Step>)
    requires Guarded(step, spec, have) && OperatorsOwn(have) && AllWithin(done, have)
    ensures Keeps(step, With(AllDone(done), have))
  {
    hide Guarded, MayChange, Within, Done, StoreAfter, Apply, PlainUserSecrets;
    var inv := With(AllDone(done), have);
    forall store: Store, action | inv(store) ensures inv(StoreAfter(action, store)) {
      OthersKeepAll(action, store, have);
      forall d | d in done ensures Done(d, StoreAfter(action, store)) {
        OthersKeepDone(action, store, have, d);
      }
    }
    forall store: Store, change | inv(store) && MayChange(step, store, change) ensures inv(Apply(change, store)) {
      ChangeKeepsHave(step, spec, have, store, change);
      forall d | d in done ensures Done(d, Apply(change, store)) {
        ChangeKeepsDone(step, spec, have, store, change, d);
      }
    }
  }

  lemma StepIsDone(w: World, o: Oracle, step: Step, spec: AstarteSpec, have: set<Key>)
    requires Guarded(step, spec, have) && PlainUserSecrets(w.store) && OperatorsOwn(have) && ExecStep(w, o, step).1
    ensures Done(step, ExecStep(w, o, step).0.store) && Within(step, have + Adds(step)) && OperatorsOwn(have + Adds(step))
  {
    assert (step.Generate? || step.Fetch?) && Guarded(step, spec, have) ==> !step.key.UserSecret?;
    assert step.Certify? ==> step.source != step.target;
    hide ExecStep;
    if !step.Retire? {
      StepEstablishes(w, o, step);
    }
  }

  lemma {:induction false} ExecAchieves(w: World, o: Oracle, steps: seq<Step>, spec: AstarteSpec, have: set<Key>, done: seq<Step>)
    requires GuardedAll(steps, spec, have) && OperatorsOwn(have) && AllWithin(done, have)
    requires With(AllDone(done), have)(w.store) && Exec(w, o, steps).1
    ensures AllDone(done + steps)(Exec(w, o, steps).0.store)
    decreases |steps|
  {
    hide Guarded, Done, Within, ExecStep, PlainUserSecrets, Keeps;
    if steps == [] {
      assert done + steps == done;
    } else {
      var w1 := ExecStep(w, o, steps[0]).0;
      StepGoesOn(w, o, steps[0], spec, have, done);
      ExecAchieves(w1, o, steps[1..], spec, have + Adds(steps[0]), done + [steps[0]]);
      assert done + [steps[0]] + steps[1..] == done + steps;
    }
  }

  lemma StepGoesOn(w: World, o: Oracle, step: Step, spec: AstarteSpec, have: set<Key>, done: seq<Step>)
    requires Guarded(step, spec, have) && OperatorsOwn(have) && AllWithin(done, have)
    requires With(AllDone(done), have)(w.store) && ExecStep(w, o, step).1
    ensures var more := have + Adds(step);
            && OperatorsOwn(more) && AllWithin(done + [step], more)
            && With(AllDone(done + [step]), more)(ExecStep(w, o, step).0.store)
  {
    DoneIsKept(step, spec, have, done);
    assert !(step.Generate? && step.key.UserSecret?);
    hide Guarded, ExecStep, Keeps;
    StepKeeps(w, o, step, With(AllDone(done), have));
    StepIsDone(w, o, step, spec, have);
  }

  // --- The steps of a plan ---

  lemma PartsOfPlan(spec: AstarteSpec, step: Step)
    ensures step in Plan(spec) <==>
            || step in BaseSteps() || step in PrioritySteps(spec) || step in CFSSLSteps(spec) || step in MicroserviceSteps(spec)
            || step in VerneMQSteps(spec) || step in DashboardSteps(spec)
  {
    hide BaseSteps, PrioritySteps, CFSSLSteps, MicroserviceSteps, VerneMQSteps, DashboardSteps;
  }

  predicate API(component: Component) {
    component in [Housekeeping, RealmManagement, Pairing, FlowComponent, AppEngineAPI]
  }

  lemma PartsOfServices(spec: AstarteSpec, step: Step)
    ensures step in MicroserviceSteps(spec) <==>
            || (exists c :: API(c) && step in APISteps(spec, c))
            || step in BackendSteps(spec, TriggerEngine) || step in DUPSteps(spec)
    ensures step in MicroserviceSteps(spec) ==> step in Plan(spec)
  {
    hide APISteps, BackendSteps, DUPSteps, BaseSteps, PrioritySteps, CFSSLSteps, VerneMQSteps, DashboardSteps;
  }

  lemma EachIsDone(steps: seq<Step>, store: Store)
    requires forall step <- steps :: Done(step, store)
    ensures forall i :: 0 <= i < |steps| ==> Done(steps[i], store)
  {
    hide Done;
    assert forall i :: 0 <= i < |steps| ==> steps[i] in steps;
  }

  lemma BaseIsDone(spec: AstarteSpec, store: Store)
    requires AllDone(Plan(spec))(store)
    ensures HousekeepingPublicKey in store && SecretKeyBase in store && ErlangConfig in store && ClusteringCookie in store
    ensures spec.podPriorities ==> PriorityClass(High) in store && PriorityClass(Mid) in store && PriorityClass(Low) in store
  {
    hide Plan;
    var steps := BaseSteps();
    forall step ensures step in steps || step in PrioritySteps(spec) ==> Done(step, store) {
      PartsOfPlan(spec, step);
    }
    EachIsDone(steps, store);
    assert steps[0] == MakeKeyPair && steps[1] == Generate(SecretKeyBase);
    assert steps[2] == Put(ErlangConfig, Auxiliary) && steps[3] == Generate(ClusteringCookie);
    if spec.podPriorities {
      var classes := PrioritySteps(spec);
      EachIsDone(classes, store);
      assert classes[0].key == PriorityClass(High) && classes[1].key == PriorityClass(Mid) && classes[2].key == PriorityClass(Low);
    }
  }

  lemma CFSSLIsDone(spec: AstarteSpec, store: Store)
    requires AllDone(Plan(spec))(store) && spec.deployCFSSL.GetOr(true)
    ensures Service(CFSSL) in store
    ensures CFSSLConfig in store && store[CFSSLConfig] == Config(spec.cfsslConfig)
    ensures spec.caSecret == "" ==> DevicesCA in store
    ensures CFSSLProxyCA in store && store[CFSSLProxyCA] == CertificateOf(if spec.caSecret != "" then Auxiliary else store[DevicesCA])
    ensures Running(CFSSL) in store && store[Running(CFSSL)] == Rendering(spec, CFSSL)
  {
    hide Plan;
    forall step ensures step in CFSSLSteps(spec) ==> Done(step, store) {
      PartsOfPlan(spec, step);
    }
    var sidecars, last := SidecarSteps(spec), [Certify(CASecret(spec), CFSSLProxyCA), Put(Running(CFSSL), CFSSLDeployment(spec))];
    assert sidecars[0] in CFSSLSteps(spec) && sidecars[1] in CFSSLSteps(spec);
    assert last[0] in last && last[1] in last;
    assert last[0] in CFSSLSteps(spec) && last[1] in CFSSLSteps(spec);
    if spec.caSecret == "" {
      assert CASteps(spec)[0] in CFSSLSteps(spec);
    }
  }

  lemma VerneMQIsDone(spec: AstarteSpec, store: Store)
    requires AllDone(Plan(spec))(store) && spec.deployVerneMQ.GetOr(true)
    ensures Service(VerneMQ) in store && ServiceAccount(VerneMQ) in store && Role(VerneMQ) in store && RoleBinding(VerneMQ) in store
    ensures Running(VerneMQ) in store && store[Running(VerneMQ)] == Rendering(spec, VerneMQ)
  {
    hide Plan;
    forall step ensures step in VerneMQSteps(spec) ==> Done(step, store) {
      PartsOfPlan(spec, step);
    }
    AccountsAreIn(VerneMQ, store, VerneMQSteps(spec));
    var service, last := [Put(Service(VerneMQ), Auxiliary)], [Put(Running(VerneMQ), Deployment(spec, {ClusteringCookie}, None, map[]))];
    assert service[0] in service && last[0] in last;
    assert service[0] in VerneMQSteps(spec) && last[0] in VerneMQSteps(spec);
  }

  lemma AccountsAreIn(workload: Workload, store: Store, steps: seq<Step>)
    requires forall step <- RBACSteps(workload) :: step in steps
    requires forall step <- steps :: Done(step, store)
    ensures ServiceAccount(workload) in store && Role(workload) in store && RoleBinding(workload) in store
  {
    var accounts := RBACSteps(workload);
    EachIsDone(accounts, store);
    assert accounts[0].key == ServiceAccount(workload) && accounts[1].key == Role(workload) && accounts[2].key == RoleBinding(workload);
  }

  lemma DashboardIsDone(spec: AstarteSpec, store: Store)
    requires AllDone(Plan(spec))(store) && spec.Deploys(Dashboard)
    ensures DashboardConfig in store && store[DashboardConfig] == Config(spec.dashboardConfig) && Service(Of(Dashboard)) in store
    ensures Running(Of(Dashboard)) in store && store[Running(Of(Dashboard))] == Rendering(spec, Of(Dashboard))
  {
    hide Plan;
    var steps := DashboardSteps(spec);
    forall step ensures step in steps ==> Done(step, store) {
      PartsOfPlan(spec, step);
    }
    EachIsDone(steps, store);
    assert steps[0].key == DashboardConfig && steps[1].key == Service(Of(Dashboard)) && steps[2].key == Running(Of(Dashboard));
  }

  /** A component with a single Deployment. */
  ghost predicate ComponentDone(spec: AstarteSpec, component: Component, store: Store) {
    var workload := Of(component);
    && Cookie(workload) in store && Service(workload) in store
    && (component != Housekeeping ==> ServiceAccount(workload) in store && Role(workload) in store && RoleBinding(workload) in store)
    && Running(workload) in store && store[Running(workload)] == Rendering(spec, workload)
  }

  lemma APIIsDone(spec: AstarteSpec, component: Component, store: Store)
    requires AllDone(Plan(spec))(store) && spec.Deploys(component)
    requires API(component)
    ensures ComponentDone(spec, component, store)
  {
    hide Plan;
    var workload := Of(component);
    forall step ensures step in APISteps(spec, component) ==> Done(step, store) {
      PartsOfServices(spec, step);
    }
    if component != Housekeeping {
      AccountsAreIn(workload, store, APISteps(spec, component));
    }
    var first, last := [Generate(Cookie(workload)), Put(Service(workload), Auxiliary)], [Put(Running(workload), ComponentDeployment(spec, component))];
    assert first[0] in first && first[1] in first && last[0] in last;
    assert first[0] in APISteps(spec, component) && first[1] in APISteps(spec, component) && last[0] in APISteps(spec, component);
  }

  lemma TriggerEngineIsDone(spec: AstarteSpec, store: Store)
    requires AllDone(Plan(spec))(store) && spec.Deploys(TriggerEngine)
    ensures ComponentDone(spec, TriggerEngine, store)
  {
    hide Plan;
    var workload := Of(TriggerEngine);
    forall step ensures step in BackendSteps(spec, TriggerEngine) ==> Done(step, store) {
      PartsOfServices(spec, step);
    }
    BackendParts(spec, TriggerEngine, store);
  }

  /** The last steps of a component that runs as a single Deployment. */
  lemma BackendParts(spec: AstarteSpec, component: Component, store: Store)
    requires spec.Deploys(component) && forall step <- BackendSteps(spec, component) :: Done(step, store)
    ensures var workload := WorkloadOf(component);
            && ServiceAccount(workload) in store && Role(workload) in store && RoleBinding(workload) in store
            && Cookie(workload) in store && Service(workload) in store
            && Running(workload) in store && store[Running(workload)] == ComponentDeployment(spec, component)
  {
    hide ComponentDeployment, RBACSteps;
    var workload := WorkloadOf(component);
    AccountsAreIn(workload, store, BackendSteps(spec, component));
    var last := [Generate(Cookie(workload)), Put(Service(workload), Auxiliary), Put(Running(workload), ComponentDeployment(spec, component))];
    EachIsDone(last, store);
    assert last[0] == Generate(Cookie(workload)) && last[1].key == Service(workload) && last[2].key == Running(workload);
  }

  // --- The Data Updater Plant ---

  lemma {:induction false} IndexedContains(spec: AstarteSpec, count: int, index: nat)
    requires index < count
    ensures Generate(Cookie(DUP(index))) in IndexedSteps(spec, count)
    ensures Put(Running(DUP(index)), DUPDeployment(spec, index, spec.Replicas())) in IndexedSteps(spec, count)
  {
    if index < count - 1 {
      IndexedContains(spec, count - 1, index);
    } else {
      var steps := IndexedStep(spec, index);
      assert steps[0] in steps && steps[1] in steps;
    }
  }

  lemma DUPIsDone(spec: AstarteSpec, index: nat, store: Store)
    requires AllDone(Plan(spec))(store) && spec.Deploys(DataUpdaterPlant) && index < spec.Replicas()
    ensures Cookie(DUP(index)) in store
    ensures spec.Replicas() == 1 ==> ServiceAccount(DUP(0)) in store && Role(DUP(0)) in store && RoleBinding(DUP(0)) in store
    ensures Running(DUP(index)) in store && store[Running(DUP(index))] == Rendering(spec, DUP(index))
  {
    hide Plan;
    forall step ensures step in DUPSteps(spec) ==> Done(step, store) {
      PartsOfServices(spec, step);
    }
    if spec.Replicas() == 1 {
      hide Done;
      BackendParts(spec, DataUpdaterPlant, store);
    } else {
      hide Rendering;
      IndexedContains(spec, spec.Replicas(), index);
      assert Done(Generate(Cookie(DUP(index))), store);
      assert Done(Put(Running(DUP(index)), DUPDeployment(spec, index, spec.Replicas())), store);
      IndexedIsRendered(spec, index);
    }
  }

  lemma IndexedIsRendered(spec: AstarteSpec, index: nat)
    ensures DUPDeployment(spec, index, spec.Replicas()) == Rendering(spec, DUP(index))
  {
  }

  lemma DUPServiceIsDone(spec: AstarteSpec, store: Store)
    requires AllDone(Plan(spec))(store) && spec.Deploys(DataUpdaterPlant)
    ensures Service(DUP(0)) in store
  {
    hide Plan, IndexedSteps;
    var service := Put(Service(DUP(0)), Auxiliary);
    PartsOfServices(spec, service);
    if spec.Replicas() == 1 {
      var last := [Generate(Cookie(DUP(0))), service, Put(Running(DUP(0)), ComponentDeployment(spec, DataUpdaterPlant))];
      assert last[1] in last;
      assert service in DUPSteps(spec);
    } else {
      var first := [Shrink(spec.Replicas()), service];
      assert first[1] in first;
    }
  }

  // --- All of it ---

  lemma WorkloadsAreDone(spec: AstarteSpec, store: Store, workload: Workload)
    requires AllDone(Plan(spec))(store) && Wanted(spec, workload)
    ensures Running(workload) in store && store[Running(workload)] == Rendering(spec, workload)
    ensures Needed(spec, Cookie(workload)) ==> Cookie(workload) in store
    ensures !workload.DUP? ==> Service(workload) in store
    ensures Accounted(spec, workload) ==> ServiceAccount(workload) in store && Role(workload) in store && RoleBinding(workload) in store
  {
    hide AllDone, Plan, Rendering;
    match workload
    case CFSSL => CFSSLIsDone(spec, store);
    case VerneMQ => VerneMQIsDone(spec, store);
    case DUP(index) => DUPIsDone(spec, index, store);
    case Of(component) =>
      match component {
        case Dashboard => DashboardIsDone(spec, store);
        case TriggerEngine => TriggerEngineIsDone(spec, store);
        case _ => APIIsDone(spec, component, store);
      }
    case ForeignDUP(_) =>
  }

  lemma DoneIsAsWanted(spec: AstarteSpec, store: Store)
    requires AllDone(Plan(spec))(store)
    ensures AsWanted(store, spec)
  {
    hide AllDone, Plan, Rendering;
    BaseIsDone(spec, store);
    forall workload | Wanted(spec, workload)
      ensures Running(workload) in store && store[Running(workload)] == Rendering(spec, workload)
    {
      WorkloadsAreDone(spec, store, workload);
    }
    if spec.deployCFSSL.GetOr(true) { CFSSLIsDone(spec, store); }
    if spec.Deploys(Dashboard) { DashboardIsDone(spec, store); }
    if spec.Deploys(DataUpdaterPlant) { DUPServiceIsDone(spec, store); }
    forall key | Needed(spec, key) ensures key in store {
      if key.PriorityClass? {
        assert key.priority == High || key.priority == Mid || key.priority == Low;
      } else if key.Cookie? || key.Service? || key.ServiceAccount? || key.Role? || key.RoleBinding? {
        if Wanted(spec, key.workload) {
          WorkloadsAreDone(spec, store, key.workload);
        }
      }
    }
  }

  /** A reconcile of resources that succeeds, whatever was there before and whatever others do, leaves
      everything that its specification wants, as it wants it. */
  lemma SuccessIsAsWanted(w: World, o: Oracle, spec: AstarteSpec)
    requires PlainUserSecrets(w.store) && Exec(w, o, Plan(spec)).1
    ensures AsWanted(Exec(w, o, Plan(spec)).0.store, spec)
  {
    hide Exec, Plan, GuardedAll, AsWanted;
    PlanIsGuarded(spec);
    assert With(AllDone([]), {})(w.store);
    ExecAchieves(w, o, Plan(spec), spec, {}, []);
    assert [] + Plan(spec) == Plan(spec);
    DoneIsAsWanted(spec, Exec(w, o, Plan(spec)).0.store);
  }

  lemma OthersKeepAsWanted(action: Action, store: Store, spec: AstarteSpec)
    requires AsWanted(store, spec)
    ensures AsWanted(StoreAfter(action, store), spec)
  {
    hide Rendering;
    forall key: Key | !key.UserSecret?
      ensures key in StoreAfter(action, store) <==> key in store
      ensures key in store ==> StoreAfter(action, store)[key] == store[key]
    {
      OthersKeepOut(action, store, key);
    }
  }

  // --- What is switched off ---

  /** The deletion of this workload is tried and reports an error. */
  ghost predicate DeletionFails(w: World, o: Oracle, workload: Workload) {
    Running(workload) in Read(w, o).0.store && Read(w, o).1 && o(w.calls + 1).outcome != Ok
  }

  /** Switching off a component of the API never fails a reconcile; any other workload with one Deployment
      does if and only if its deletion is tried and fails. */
  lemma SwitchingOffFailsExactlyWhen(w: World, o: Oracle, spec: AstarteSpec)
    ensures forall c | API(c) && !spec.Deploys(c) :: Exec(w, o, APISteps(spec, c)).1
    ensures !spec.Deploys(TriggerEngine) ==> (Exec(w, o, BackendSteps(spec, TriggerEngine)).1 <==> !DeletionFails(w, o, Of(TriggerEngine)))
    ensures !spec.Deploys(Dashboard) ==> (Exec(w, o, DashboardSteps(spec)).1 <==> !DeletionFails(w, o, Of(Dashboard)))
    ensures !spec.deployVerneMQ.GetOr(true) ==> (Exec(w, o, VerneMQSteps(spec)).1 <==> !DeletionFails(w, o, VerneMQ))
    ensures !spec.deployCFSSL.GetOr(true) ==> (Exec(w, o, CFSSLSteps(spec)).1 <==> !DeletionFails(w, o, CFSSL))
  {
    hide Exec, DeletionFails;
    forall workload ensures Exec(w, o, [Retire(workload, false)]).1 && (Exec(w, o, [Retire(workload, true)]).1 <==> !DeletionFails(w, o, workload)) {
      RetiringFailsExactlyWhen(w, o, workload);
    }
  }

  lemma RetiringFailsExactlyWhen(w: World, o: Oracle, workload: Workload)
    ensures Exec(w, o, [Retire(workload, false)]).1
    ensures Exec(w, o, [Retire(workload, true)]).1 <==> !DeletionFails(w, o, workload)
  {
    ExecAt(w, o, [Retire(workload, false)], 0);
    ExecAt(w, o, [Retire(workload, true)], 0);
    hide StoreAfter, ResourceAfter, Apply;
  }

  // --- Nothing else ---

  /** What a reconcile may create. */
  ghost predicate Mentioned(spec: AstarteSpec, key: Key) {
    Needed(spec, key) || (key.Running? && Wanted(spec, key.workload)) || key == HousekeepingPrivateKey
  }

  ghost predicate OnlyMentioned(spec: AstarteSpec, step: Step) {
    forall key <- Adds(step) :: Mentioned(spec, key)
  }

  lemma SharedAreMentioned(spec: AstarteSpec, step: Step)
    ensures step in BaseSteps() || step in PrioritySteps(spec) || step in DashboardSteps(spec) ==> OnlyMentioned(spec, step)
  {
  }

  lemma CFSSLIsMentioned(spec: AstarteSpec, step: Step)
    ensures step in CFSSLSteps(spec) ==> OnlyMentioned(spec, step)
  {
  }

  lemma VerneMQIsMentioned(spec: AstarteSpec, step: Step)
    ensures step in VerneMQSteps(spec) ==> OnlyMentioned(spec, step)
  {
  }

  lemma ComponentsAreMentioned(spec: AstarteSpec, component: Component, step: Step)
    ensures API(component) && step in APISteps(spec, component) ==> OnlyMentioned(spec, step)
    ensures step in BackendSteps(spec, TriggerEngine) ==> OnlyMentioned(spec, step)
  {
    hide ComponentDeployment;
  }

  lemma {:induction false} IndexedAreMentioned(spec: AstarteSpec, count: int, step: Step)
    requires spec.Deploys(DataUpdaterPlant) && count <= spec.Replicas() && step in IndexedSteps(spec, count)
    ensures OnlyMentioned(spec, step)
  {
    if step in IndexedSteps(spec, count - 1) {
      IndexedAreMentioned(spec, count - 1, step);
    } else {
      assert step in IndexedStep(spec, count - 1);
    }
  }

  lemma DUPIsMentioned(spec: AstarteSpec, step: Step)
    ensures step in DUPSteps(spec) ==> OnlyMentioned(spec, step)
  {
    hide ComponentDeployment;
    if step in DUPSteps(spec) && spec.Deploys(DataUpdaterPlant) && spec.Replicas() != 1 && step in IndexedSteps(spec, spec.Replicas()) {
      IndexedAreMentioned(spec, spec.Replicas(), step);
    }
  }

  lemma PlanIsMentioned(spec: AstarteSpec, step: Step)
    requires step in Plan(spec)
    ensures OnlyMentioned(spec, step)
  {
    hide Plan, OnlyMentioned, BaseSteps, PrioritySteps, CFSSLSteps, MicroserviceSteps, VerneMQSteps, DashboardSteps, APISteps, BackendSteps, DUPSteps;
    PartsOfPlan(spec, step);
    PartsOfServices(spec, step);
    SharedAreMentioned(spec, step);
    CFSSLIsMentioned(spec, step);
    VerneMQIsMentioned(spec, step);
    DUPIsMentioned(spec, step);
    ComponentsAreMentioned(spec, Housekeeping, step);
    if c :| API(c) && step in APISteps(spec, c) {
      ComponentsAreMentioned(spec, c, step);
    }
  }

  /** The operator's objects are old ones, or mentioned by the specification. */
  ghost function NothingNew(before: Store, spec: AstarteSpec): Store -> bool {
    store => PlainUserSecrets(store) && forall key <- store :: key in before || key.UserSecret? || Mentioned(spec, key)
  }

  lemma StepKeepsNothingNew(step: Step, before: Store, spec: AstarteSpec)
    requires OnlyMentioned(spec, step)
    ensures Keeps(step, NothingNew(before, spec))
  {
    hide Needed;
    var inv := NothingNew(before, spec);
    forall store: Store, change | inv(store) && MayChange(step, store, change) ensures inv(Apply(change, store)) {
      if change.PutObject? && change.key != HousekeepingPrivateKey {
        assert change.key in Adds(step);
      }
      NoUserSecretIsMentioned(spec);
    }
  }

  lemma NoUserSecretIsMentioned(spec: AstarteSpec)
    ensures forall name :: !Mentioned(spec, UserSecret(name))
  {
  }

  lemma {:induction false} ExecCreatesNothingElse(w: World, o: Oracle, steps: seq<Step>, before: Store, spec: AstarteSpec)
    requires (forall step <- steps :: OnlyMentioned(spec, step)) && NothingNew(before, spec)(w.store)
    ensures Throughout(w, Exec(w, o, steps).0, NothingNew(before, spec))
    decreases |steps|
  {
    hide ExecStep, OnlyMentioned, Mentioned, Keeps;
    if steps != [] {
      var (w1, ok) := ExecStep(w, o, steps[0]);
      StepKeepsNothingNew(steps[0], before, spec);
      GeneratesNoUserSecret(spec, steps[0]);
      StepKeeps(w, o, steps[0], NothingNew(before, spec));
      if ok {
        ExecCreatesNothingElse(w1, o, steps[1..], before, spec);
        ThroughoutTransitive(w, w1, Exec(w1, o, steps[1..]).0, NothingNew(before, spec));
      }
    }
  }

  lemma GeneratesNoUserSecret(spec: AstarteSpec, step: Step)
    requires OnlyMentioned(spec, step)
    ensures !(step.Generate? && step.key.UserSecret?)
  {
    hide Mentioned;
    NoUserSecretIsMentioned(spec);
    if step.Generate? {
      assert step.key in Adds(step);
    }
  }

  /** At every state of a reconcile of resources, succeeding or not, the operator's objects are those from
      before and what the specification needs: nothing is created that is switched off. */
  lemma NothingElseIsCreated(w: World, o: Oracle, spec: AstarteSpec)
    requires PlainUserSecrets(w.store)
    ensures Throughout(w, Exec(w, o, Plan(spec)).0, NothingNew(w.store, spec))
  {
    hide Exec, Plan, Mentioned, OnlyMentioned;
    forall step | step in Plan(spec) ensures OnlyMentioned(spec, step) {
      PlanIsMentioned(spec, step);
    }
    ExecCreatesNothingElse(w, o, Plan(spec), w.store, spec);
  }

  // --- At every state ---

  /** Every workload there is, is rendered from one of these specifications, by which it was wanted. */
  ghost function Rendered(asked: AstarteSpec -> bool): Store -> bool {
    store => forall workload | Running(workload) in store ::
      exists spec :: asked(spec) && Wanted(spec, workload) && store[Running(workload)] == Rendering(spec, workload)
  }

  lemma ChangeKeepsRendered(step: Step, spec: AstarteSpec, have: set<Key>, asked: AstarteSpec -> bool, store: Store, change: Change)
    requires Guarded(step, spec, have) && asked(spec) && Rendered(asked)(store) && MayChange(step, store, change)
    ensures Rendered(asked)(Apply(change, store))
  {
    hide Rendering;
    forall workload | Running(workload) in Apply(change, store)
      ensures exists s :: asked(s) && Wanted(s, workload) && Apply(change, store)[Running(workload)] == Rendering(s, workload)
    {
      if change.PutObject? && change.key == Running(workload) {
        assert WellFormed(workload, change.contents, spec, have);
      } else {
        assert Running(workload) in store;
      }
    }
  }

  lemma OthersKeepRendered(action: Action, asked: AstarteSpec -> bool, store: Store)
    requires Rendered(asked)(store)
    ensures Rendered(asked)(StoreAfter(action, store))
  {
    forall workload ensures Running(workload) in StoreAfter(action, store) ==>
      Running(workload) in store && StoreAfter(action, store)[Running(workload)] == store[Running(workload)]
    {
      OthersKeepOut(action, store, Running(workload));
    }
  }

  lemma RenderedWithout(asked: AstarteSpec -> bool, store: Store, key: Key)
    requires RenderedPlainly(asked)(store) && !key.Running?
    ensures RenderedPlainly(asked)(store - {key})
  {
    hide Rendering, Wanted;
    assert Rendered(asked)(store);
    forall workload | Running(workload) in store - {key}
      ensures exists spec :: asked(spec) && Wanted(spec, workload) && (store - {key})[Running(workload)] == Rendering(spec, workload)
    {
      assert Running(workload) in store && store[Running(workload)] == (store - {key})[Running(workload)];
    }
    assert forall name :: UserSecret(name) in store - {key} ==> store[UserSecret(name)] == Auxiliary;
    assert Rendered(asked)(store - {key});
  }

  lemma RenderedIsRespected(spec: AstarteSpec, asked: AstarteSpec -> bool)
    requires asked(spec)
    ensures Respects(spec, Rendered(asked))
  {
    hide Guarded, MayChange, PlainUserSecrets, Apply, StoreAfter;
    forall step, have | Guarded(step, spec, have) && OperatorsOwn(have)
      ensures Keeps(step, With(Rendered(asked), have))
    {
      var inv := With(Rendered(asked), have);
      forall store: Store, action | inv(store) ensures inv(StoreAfter(action, store)) {
        OthersKeepAll(action, store, have);
        OthersKeepRendered(action, asked, store);
      }
      forall store: Store, change | inv(store) && MayChange(step, store, change) ensures inv(Apply(change, store)) {
        ChangeKeepsHave(step, spec, have, store, change);
        ChangeKeepsRendered(step, spec, have, asked, store, change);
      }
    }
  }

  ghost function RenderedPlainly(asked: AstarteSpec -> bool): Store -> bool {
    With(Rendered(asked), {})
  }

  lemma ReconcileKeepsRendered(w: World, o: Oracle, spec: AstarteSpec, asked: AstarteSpec -> bool)
    requires asked(spec) && RenderedPlainly(asked)(w.store)
    ensures Throughout(w, Exec(w, o, Plan(spec)).0, RenderedPlainly(asked))
  {
    hide Exec, Plan, Rendered, Respects, GuardedAll;
    PlanIsGuarded(spec);
    RenderedIsRespected(spec, asked);
    ExecThroughout(w, o, Plan(spec), spec, {}, Rendered(asked));
  }

  /** At every state of every run from a cluster in which nothing runs, interrupted anywhere, each workload
      is one that a specification of the run wanted, with exactly the references, queues and configuration
      that go with it. */
  lemma {:induction false} EveryStateIsRendered(w: World, o: Oracle, specs: seq<AstarteSpec>, asked: AstarteSpec -> bool)
    requires (forall spec <- specs :: asked(spec)) && RenderedPlainly(asked)(w.store)
    ensures Throughout(w, Reconciles(w, o, specs), RenderedPlainly(asked))
    decreases |specs|
  {
    hide Exec, Plan, Rendered, PlainUserSecrets;
    if specs != [] {
      var w1 := Exec(w, o, Plan(specs[0])).0;
      ReconcileKeepsRendered(w, o, specs[0], asked);
      EveryStateIsRendered(w1, o, specs[1..], asked);
      ThroughoutTransitive(w, w1, Reconciles(w, o, specs), RenderedPlainly(asked));
    }
  }

  lemma NothingIsRendered(store: Store, asked: AstarteSpec -> bool)
    requires PlainUserSecrets(store) && forall workload :: Running(workload) !in store
    ensures RenderedPlainly(asked)(store)
  {
  }
}
