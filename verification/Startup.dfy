/**
 The order in which a cluster comes up: with a fixed specification and starting from nothing, the
 workloads that exist are always a first part of one list.
 */
module Startup {
  import opened Specs
  import opened Cluster
  import opened Plans
  import opened Discipline
  import opened Invariants
  import opened Rollout
  import opened Sharding

  // --- The list ---

  function If(condition: bool, workload: Workload): seq<Workload> {
    if condition then [workload] else []
  }

  function Replicas(count: int): seq<Workload> {
    if count <= 0 then [] else Replicas(count - 1) + [DUP(count - 1)]
  }

  /** What should run, in the order in which it may start. */
  function Order(spec: AstarteSpec): seq<Workload> {
    If(spec.deployCFSSL.GetOr(true), CFSSL) +
    If(spec.Deploys(Housekeeping), Of(Housekeeping)) +
    If(spec.Deploys(RealmManagement), Of(RealmManagement)) +
    If(spec.Deploys(Pairing), Of(Pairing)) +
    If(spec.Deploys(FlowComponent), Of(FlowComponent)) +
    If(spec.Deploys(TriggerEngine), Of(TriggerEngine)) +
    (if spec.Deploys(DataUpdaterPlant) then Replicas(spec.Replicas()) else []) +
    If(spec.Deploys(AppEngineAPI), Of(AppEngineAPI)) +
    If(spec.deployVerneMQ.GetOr(true), VerneMQ) +
    If(spec.Deploys(Dashboard), Of(Dashboard))
  }

  // --- The list is the plan's ---

  function Starts(step: Step): seq<Workload> {
    if step.Put? && step.key.Running? then [step.key.workload] else []
  }

  function StartsAll(steps: seq<Step>): seq<Workload> {
    if steps == [] then [] else Starts(steps[0]) + StartsAll(steps[1..])
  }

  lemma {:induction false} StartsAppend(a: seq<Step>, b: seq<Step>)
    ensures StartsAll(a + b) == StartsAll(a) + StartsAll(b)
  {
    if a == [] {
      assert a + b == b;
    } else {
      assert (a + b)[1..] == a[1..] + b;
      StartsAppend(a[1..], b);
    }
  }

  lemma Starts1(a: Step)
    ensures StartsAll([a]) == Starts(a)
  {
  }

  lemma Starts2(a: Step, b: Step)
    ensures StartsAll([a, b]) == Starts(a) + Starts(b)
  {
    assert [a, b][1..] == [b];
    Starts1(b);
  }

  lemma Starts3(a: Step, b: Step, c: Step)
    ensures StartsAll([a, b, c]) == Starts(a) + Starts(b) + Starts(c)
  {
    assert [a, b, c][1..] == [b, c];
    Starts2(b, c);
  }

  lemma BaseStarts(spec: AstarteSpec)
    ensures StartsAll(BaseSteps()) == [] && StartsAll(PrioritySteps(spec)) == []
  {
    assert BaseSteps() == [MakeKeyPair, Generate(SecretKeyBase)] + [Put(ErlangConfig, Auxiliary), Generate(ClusteringCookie)];
    Starts2(MakeKeyPair, Generate(SecretKeyBase));
    Starts2(Put(ErlangConfig, Auxiliary), Generate(ClusteringCookie));
    Starts3(Put(PriorityClass(High), Auxiliary), Put(PriorityClass(Mid), Auxiliary), Put(PriorityClass(Low), Auxiliary));
    hide StartsAll;
    StartsAppend([MakeKeyPair, Generate(SecretKeyBase)], [Put(ErlangConfig, Auxiliary), Generate(ClusteringCookie)]);
  }

  lemma RBACStarts(workload: Workload)
    ensures StartsAll(RBACSteps(workload)) == []
  {
    Starts3(Put(ServiceAccount(workload), Auxiliary), Put(Role(workload), Auxiliary), Put(RoleBinding(workload), Auxiliary));
  }

  lemma CFSSLStarts(spec: AstarteSpec)
    ensures StartsAll(CFSSLSteps(spec)) == If(spec.deployCFSSL.GetOr(true), CFSSL)
  {
    hide StartsAll;
    if !spec.deployCFSSL.GetOr(true) {
      Starts1(Retire(CFSSL, true));
    } else {
      var certify, start := Certify(CASecret(spec), CFSSLProxyCA), Put(Running(CFSSL), CFSSLDeployment(spec));
      Starts2(Put(Service(CFSSL), Auxiliary), Put(CFSSLConfig, Config(spec.cfsslConfig)));
      Starts1(Fetch(CFSSLConfig));
      CAStarts(spec);
      Starts2(certify, start);
      StartsAppend(CASteps(spec), [certify, start]);
      StartsAppend([Fetch(CFSSLConfig)], CASteps(spec) + [certify, start]);
      StartsAppend(SidecarSteps(spec), [Fetch(CFSSLConfig)] + (CASteps(spec) + [certify, start]));
    }
  }

  lemma CAStarts(spec: AstarteSpec)
    ensures StartsAll(CASteps(spec)) == []
  {
    Starts1(Generate(DevicesCA));
  }

  lemma AccountsStart(component: Component)
    ensures StartsAll(AccountSteps(component)) == []
  {
    RBACStarts(Of(component));
  }

  lemma APIStarts(spec: AstarteSpec, component: Component)
    ensures StartsAll(APISteps(spec, component)) == If(spec.Deploys(component), Of(component))
  {
    hide StartsAll;
    var workload, contents := Of(component), ComponentDeployment(spec, component);
    if !spec.Deploys(component) {
      Starts1(Retire(workload, false));
    } else {
      Starts2(Generate(Cookie(workload)), Put(Service(workload), Auxiliary));
      AccountsStart(component);
      Starts1(Put(Running(workload), contents));
      StartsAppend(AccountSteps(component), [Put(Running(workload), contents)]);
      StartsAppend([Generate(Cookie(workload)), Put(Service(workload), Auxiliary)], AccountSteps(component) + [Put(Running(workload), contents)]);
    }
  }

  lemma BackendStarts(spec: AstarteSpec, component: Component)
    ensures StartsAll(BackendSteps(spec, component)) == If(spec.Deploys(component), WorkloadOf(component))
  {
    hide StartsAll;
    var workload, contents := WorkloadOf(component), ComponentDeployment(spec, component);
    if !spec.Deploys(component) {
      Starts1(Retire(workload, true));
    } else {
      RBACStarts(workload);
      Starts3(Generate(Cookie(workload)), Put(Service(workload), Auxiliary), Put(Running(workload), contents));
      StartsAppend(RBACSteps(workload), [Generate(Cookie(workload)), Put(Service(workload), Auxiliary), Put(Running(workload), contents)]);
    }
  }

  lemma {:induction false} IndexedStart(spec: AstarteSpec, count: int)
    ensures StartsAll(IndexedSteps(spec, count)) == Replicas(count)
  {
    hide StartsAll;
    if count <= 0 {
      NothingStarts();
    } else {
      IndexedStart(spec, count - 1);
      StartsAppend(IndexedSteps(spec, count - 1), IndexedStep(spec, count - 1));
      Starts2(Generate(Cookie(DUP(count - 1))), Put(Running(DUP(count - 1)), DUPDeployment(spec, count - 1, spec.Replicas())));
    }
  }

  lemma NothingStarts()
    ensures StartsAll([]) == []
  {
  }

  lemma DUPStarts(spec: AstarteSpec)
    ensures StartsAll(DUPSteps(spec)) == if spec.Deploys(DataUpdaterPlant) then Replicas(spec.Replicas()) else []
  {
    hide StartsAll;
    Starts1(Shrink(Target(spec)));
    if spec.Deploys(DataUpdaterPlant) {
      if spec.Replicas() == 1 {
        BackendStarts(spec, DataUpdaterPlant);
        StartsAppend([Shrink(1)], BackendSteps(spec, DataUpdaterPlant));
        assert Replicas(1) == Replicas(0) + [DUP(0)];
      } else {
        Starts2(Shrink(spec.Replicas()), Put(Service(DUP(0)), Auxiliary));
        IndexedStart(spec, spec.Replicas());
        StartsAppend([Shrink(spec.Replicas()), Put(Service(DUP(0)), Auxiliary)], IndexedSteps(spec, spec.Replicas()));
      }
    }
  }

  lemma ListenerStarts(spec: AstarteSpec)
    ensures StartsAll(ListenerSteps(spec)) == []
  {
    if spec.listenerSecret.Some? { Starts1(RestartUnless(spec.listenerSecret.value)); }
  }

  lemma LastStarts(spec: AstarteSpec)
    ensures StartsAll(VerneMQSteps(spec)) == If(spec.deployVerneMQ.GetOr(true), VerneMQ)
    ensures StartsAll(DashboardSteps(spec)) == If(spec.Deploys(Dashboard), Of(Dashboard))
  {
    hide StartsAll;
    var service, start := [Put(Service(VerneMQ), Auxiliary)], [Put(Running(VerneMQ), Deployment(spec, {ClusteringCookie}, None, map[]))];
    Starts1(Retire(VerneMQ, true));
    Starts1(service[0]);
    ListenerStarts(spec);
    Starts1(start[0]);
    RBACStarts(VerneMQ);
    StartsAppend(ListenerSteps(spec), start);
    StartsAppend(service, ListenerSteps(spec) + start);
    StartsAppend(RBACSteps(VerneMQ), service + (ListenerSteps(spec) + start));
    Starts1(Retire(Of(Dashboard), true));
    Starts3(Put(DashboardConfig, Config(spec.dashboardConfig)), Put(Service(Of(Dashboard)), Auxiliary),
            Put(Running(Of(Dashboard)), Deployment(spec, {DashboardConfig}, None, map[])));
  }

  lemma PlanStartsInOrder(spec: AstarteSpec)
    ensures StartsAll(Plan(spec)) == Order(spec)
  {
    hide StartsAll, BaseSteps, PrioritySteps, CFSSLSteps, APISteps, BackendSteps, DUPSteps, VerneMQSteps, DashboardSteps, If, Replicas;
    BaseStarts(spec);
    CFSSLStarts(spec);
    APIStarts(spec, Housekeeping);
    APIStarts(spec, RealmManagement);
    APIStarts(spec, Pairing);
    APIStarts(spec, FlowComponent);
    BackendStarts(spec, TriggerEngine);
    DUPStarts(spec);
    APIStarts(spec, AppEngineAPI);
    LastStarts(spec);
    var p1 := DUPSteps(spec) + APISteps(spec, AppEngineAPI);
    var p2 := BackendSteps(spec, TriggerEngine) + p1;
    var p3 := APISteps(spec, FlowComponent) + p2;
    var p4 := APISteps(spec, Pairing) + p3;
    var p5 := APISteps(spec, RealmManagement) + p4;
    StartsAppend(DUPSteps(spec), APISteps(spec, AppEngineAPI));
    StartsAppend(BackendSteps(spec, TriggerEngine), p1);
    StartsAppend(APISteps(spec, FlowComponent), p2);
    StartsAppend(APISteps(spec, Pairing), p3);
    StartsAppend(APISteps(spec, RealmManagement), p4);
    StartsAppend(APISteps(spec, Housekeeping), p5);
    var q1 := VerneMQSteps(spec) + DashboardSteps(spec);
    var q2 := MicroserviceSteps(spec) + q1;
    var q3 := CFSSLSteps(spec) + q2;
    StartsAppend(VerneMQSteps(spec), DashboardSteps(spec));
    StartsAppend(MicroserviceSteps(spec), q1);
    StartsAppend(CFSSLSteps(spec), q2);
    StartsAppend(PrioritySteps(spec), q3);
    StartsAppend(BaseSteps(), PrioritySteps(spec) + q3);
  }

  // --- Every state comes up in order ---

  /** Exactly the first `count` workloads of the list exist. */
  ghost predicate Up(store: Store, order: seq<Workload>, count: int)
    requires 0 <= count <= |order|
  {
    forall workload :: Running(workload) in store <==> workload in order[..count]
  }

  ghost predicate UpInOrder(store: Store, order: seq<Workload>, atLeast: int) {
    exists count :: 0 <= count <= |order| && atLeast <= count && Up(store, order, count)
  }

  ghost function InOrder(order: seq<Workload>, atLeast: int): Store -> bool {
    store => UpInOrder(store, order, atLeast) && PlainUserSecrets(store)
  }

  /** Everything on the list should run. */
  ghost predicate AllWanted(order: seq<Workload>, spec: AstarteSpec) {
    forall workload <- order :: Wanted(spec, workload)
  }

  lemma OthersKeepOrder(action: Action, store: Store, order: seq<Workload>, count: int)
    requires 0 <= count <= |order| && Up(store, order, count)
    ensures Up(StoreAfter(action, store), order, count)
  {
    forall workload ensures Running(workload) in StoreAfter(action, store) <==> Running(workload) in store {
      OthersKeepOut(action, store, Running(workload));
    }
  }

  /** Too many Data Updater Plant Deployments never come up, so none are deleted. */
  lemma NeverTooMany(store: Store, order: seq<Workload>, count: int, spec: AstarteSpec, limit: int)
    requires 0 <= count <= |order| && Up(store, order, count) && AllWanted(order, spec)
    requires forall index: nat :: Wanted(spec, DUP(index)) <==> index < limit
    requires |DUPs(store)| > limit
    ensures DUPs(store) == {}
  {
    Numbered(limit);
    forall key | key in DUPs(store) ensures key in Targets(limit) {
      assert key.workload in order;
    }
    SubsetSize(DUPs(store), Targets(limit));
  }

  lemma ChangeKeepsOrder(step: Step, spec: AstarteSpec, have: set<Key>, store: Store, change: Change, order: seq<Workload>, count: int)
    requires Guarded(step, spec, have) && MayChange(step, store, change) && AllWanted(order, spec)
    requires 0 <= count <= |order| && Up(store, order, count)
    requires Starts(step) == []
    ensures Up(Apply(change, store), order, count)
  {
    if step.Shrink? {
      NeverTooMany(store, order, count, spec, step.limit);
    } else if step.Retire? {
      assert step.workload !in order;
      assert Running(step.workload) !in store;
    }
  }

  lemma StepKeepsOrder(step: Step, spec: AstarteSpec, have: set<Key>, order: seq<Workload>, next: int)
    requires Guarded(step, spec, have) && AllWanted(order, spec) && 0 <= next <= |order|
    requires Starts(step) == [] || (next < |order| && Starts(step) == [order[next]])
    ensures Keeps(step, InOrder(order, next))
  {
    hide Guarded, Wanted, PlainUserSecrets, Up, Starts;
    var inv := InOrder(order, next);
    forall store: Store, action | inv(store) ensures inv(StoreAfter(action, store)) {
      var count :| 0 <= count <= |order| && next <= count && Up(store, order, count);
      OthersKeepOrder(action, store, order, count);
      OthersKeepPlain(action, store);
    }
    forall store: Store, change | inv(store) && MayChange(step, store, change) ensures inv(Apply(change, store)) {
      var count :| 0 <= count <= |order| && next <= count && Up(store, order, count);
      PlainChange(step, spec, have, store, change);
      if Starts(step) == [] {
        ChangeKeepsOrder(step, spec, have, store, change, order, count);
      } else {
        StartKeepsOrder(step, store, change, order, next, count);
      }
    }
  }

  lemma OthersKeepPlain(action: Action, store: Store)
    requires PlainUserSecrets(store)
    ensures PlainUserSecrets(StoreAfter(action, store))
  {
  }

  lemma PlainChange(step: Step, spec: AstarteSpec, have: set<Key>, store: Store, change: Change)
    requires Guarded(step, spec, have) && MayChange(step, store, change) && PlainUserSecrets(store)
    ensures PlainUserSecrets(Apply(change, store))
  {
  }

  lemma StartKeepsOrder(step: Step, store: Store, change: Change, order: seq<Workload>, next: int, count: int)
    requires 0 <= next < |order| && Starts(step) == [order[next]] && MayChange(step, store, change)
    requires next <= count <= |order| && Up(store, order, count)
    ensures UpInOrder(Apply(change, store), order, next)
  {
    if count == next {
      assert order[..next + 1] == order[..next] + [order[next]];
      assert Up(Apply(change, store), order, next + 1);
    } else {
      assert order[next] in order[..count];
      assert Up(Apply(change, store), order, count);
    }
  }

  lemma StepInOrder(w: World, o: Oracle, step: Step, spec: AstarteSpec, have: set<Key>, order: seq<Workload>, next: int)
    requires Guarded(step, spec, have) && AllWanted(order, spec) && 0 <= next <= |order|
    requires Starts(step) == [] || (next < |order| && Starts(step) == [order[next]])
    requires InOrder(order, next)(w.store)
    ensures Throughout(w, ExecStep(w, o, step).0, InOrder(order, next))
    ensures ExecStep(w, o, step).1 ==> InOrder(order, next + |Starts(step)|)(ExecStep(w, o, step).0.store)
  {
    hide Wanted, PlainUserSecrets, Up, ExecStep, Keeps;
    StepKeepsOrder(step, spec, have, order, next);
    assert !(step.Generate? && step.key.UserSecret?);
    StepKeeps(w, o, step, InOrder(order, next));
    if ExecStep(w, o, step).1 && Starts(step) != [] {
      PutIsThere(w, o, step);
      OneFurther(ExecStep(w, o, step).0.store, order, next);
    }
  }

  lemma PutIsThere(w: World, o: Oracle, step: Step)
    requires step.Put? && ExecStep(w, o, step).1
    ensures step.key in ExecStep(w, o, step).0.store
  {
  }

  lemma OneFurther(store: Store, order: seq<Workload>, next: int)
    requires 0 <= next < |order| && UpInOrder(store, order, next) && Running(order[next]) in store
    ensures UpInOrder(store, order, next + 1)
  {
    var count :| 0 <= count <= |order| && next <= count && Up(store, order, count);
    if count == next {
      assert order[..next + 1] == order[..next] + [order[next]];
      assert Up(store, order, next + 1);
    }
  }

  lemma {:induction false} ExecInOrder(w: World, o: Oracle, steps: seq<Step>, spec: AstarteSpec, have: set<Key>, order: seq<Workload>, next: int)
    requires GuardedAll(steps, spec, have) && AllWanted(order, spec)
    requires 0 <= next <= |order| && order[next..] == StartsAll(steps)
    requires InOrder(order, next)(w.store)
    ensures Throughout(w, Exec(w, o, steps).0, InOrder(order, 0))
    decreases |steps|
  {
    hide Guarded, AllWanted, Up, ExecStep, PlainUserSecrets;
    if steps == [] {
      AtLeastNone(w.store, order, next);
    } else {
      var (w1, ok) := ExecStep(w, o, steps[0]);
      var further := next + |Starts(steps[0])|;
      assert Starts(steps[0]) == order[next..][..|Starts(steps[0])|];
      assert order[further..] == order[next..][|Starts(steps[0])|..];
      StepInOrder(w, o, steps[0], spec, have, order, next);
      AtLeastZero(w, w1, order, next);
      if ok {
        ExecInOrder(w1, o, steps[1..], spec, have + Adds(steps[0]), order, further);
        ThroughoutTransitive(w, w1, Exec(w, o, steps).0, InOrder(order, 0));
      }
    }
  }

  lemma AtLeastNone(store: Store, order: seq<Workload>, next: int)
    requires UpInOrder(store, order, next) && 0 <= next
    ensures UpInOrder(store, order, 0)
  {
  }

  lemma AtLeastZero(before: World, after: World, order: seq<Workload>, next: int)
    requires Throughout(before, after, InOrder(order, next)) && 0 <= next
    ensures Throughout(before, after, InOrder(order, 0))
  {
    forall store: Store | InOrder(order, next)(store) ensures InOrder(order, 0)(store) {
      AtLeastNone(store, order, next);
    }
  }

  lemma {:induction false} StartsAreWanted(steps: seq<Step>, spec: AstarteSpec, have: set<Key>)
    requires GuardedAll(steps, spec, have)
    ensures AllWanted(StartsAll(steps), spec)
  {
    if steps != [] {
      StartsAreWanted(steps[1..], spec, have + Adds(steps[0]));
    }
  }

  /** With a fixed specification, from a cluster in which nothing runs: at every state of every run,
      finished or interrupted, the workloads that exist are exactly a first part of the list. */
  lemma {:induction false} ComesUpInOrder(w: World, o: Oracle, spec: AstarteSpec, specs: seq<AstarteSpec>)
    requires (forall i :: 0 <= i < |specs| ==> specs[i] == spec) && InOrder(Order(spec), 0)(w.store)
    ensures Throughout(w, Reconciles(w, o, specs), InOrder(Order(spec), 0))
    decreases |specs|
  {
    hide Order, Plan, Exec, GuardedAll, StartsAll;
    if specs != [] {
      assert specs[0] == spec;
      var w1 := Exec(w, o, Plan(spec)).0;
      PlanIsGuarded(spec);
      PlanStartsInOrder(spec);
      StartsAreWanted(Plan(spec), spec, {});
      ExecInOrder(w, o, Plan(spec), spec, {}, Order(spec), 0);
      ComesUpInOrder(w1, o, spec, specs[1..]);
      ThroughoutTransitive(w, w1, Reconciles(w, o, specs), InOrder(Order(spec), 0));
    }
  }

  lemma NothingRunsIsInOrder(store: Store, order: seq<Workload>)
    requires PlainUserSecrets(store) && forall workload :: Running(workload) !in store
    ensures InOrder(order, 0)(store)
  {
    assert Up(store, order, 0);
  }
}
