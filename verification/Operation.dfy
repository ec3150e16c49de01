/**
 From reconciles of resources to the operator as a whole: a top-level reconcile is at most one
 reconcile of resources between calls that leave nearly all objects alone. So what the former keep
 also holds at every state of a run of top-level reconciles, deletion and finalization included.
 */
module Operation {
  import opened Specs
  import opened Cluster
  import opened Plans
  import opened Discipline
  import opened Invariants
  import opened Rollout
  import opened Sharding
  import opened Startup
  import Outcome
  import opened Controller
  import opened Lifecycle
  import opened Locality

  // --- The anatomy of a top-level reconcile ---

  /** A property of stores that everybody else keeps, and that does not depend on what a finalization
      deletes. */
  ghost predicate Steadfast(inv: Store -> bool) {
    && (forall store, action :: inv(store) ==> inv(StoreAfter(action, store)))
    && (forall store: Store, key: Key :: Deletable(key) && inv(store) ==> inv(store - {key}))
  }

  ghost predicate Goes(a: World, b: World, inv: Store -> bool) {
    inv(a.store) ==> Throughout(a, b, inv)
  }

  ghost function Going(inv: Store -> bool): (World, World) -> bool {
    (a: World, b: World) => Goes(a, b, inv)
  }

  lemma GoesOn(a: World, b: World, c: World, inv: Store -> bool)
    requires Goes(a, b, inv) && Goes(b, c, inv)
    ensures Goes(a, c, inv)
  {
    if inv(a.store) {
      ThroughoutTransitive(a, b, c, inv);
    }
  }

  lemma CallsGo(w: World, o: Oracle, inv: Store -> bool)
    requires Steadfast(inv)
    ensures Goes(w, w, inv) && Goes(w, Read(w, o).0, inv) && Goes(w, Logged(w, Finalized), inv)
  {
    if inv(w.store) {
      assert inv(StoreAfter(o(w.calls).action, w.store));
    }
  }

  lemma ResourceCallsGo(w: World, o: Oracle, inv: Store -> bool, version: string, copy: Resource)
    requires Steadfast(inv)
    ensures Goes(w, ExecUpdateStatus(w, o).0, inv)
    ensures Goes(w, ExecRestoreVersion(w, o, version).0, inv)
    ensures Goes(w, ExecUpdateFinalizers(w, o, copy).0, inv)
  {
    if inv(w.store) {
      assert inv(StoreAfter(o(w.calls).action, w.store));
    }
  }

  lemma DroppingGoes(w: World, o: Oracle, key: Key, inv: Store -> bool)
    requires Steadfast(inv) && Deletable(key)
    ensures Goes(w, Write(w, o, DropObject(key)).0, inv)
  {
    var here := StoreAfter(o(w.calls).action, w.store);
    if inv(w.store) {
      assert inv(here) && inv(here - {key});
    }
    hide Steadfast;
  }

  lemma ReadingGoes(o: Oracle, inv: Store -> bool)
    requires Steadfast(inv)
    ensures ClosedWhenReading(o, Going(inv))
  {
    hide Read, Goes, Steadfast;
    var rel := Going(inv);
    forall w ensures rel(w, w) && rel(w, Read(w, o).0) {
      CallsGo(w, o, inv);
    }
    forall a, b, c | rel(a, b) && rel(b, c) ensures rel(a, c) {
      GoesOn(a, b, c, inv);
    }
  }

  lemma FinalizingGoes(w: World, o: Oracle, name: string, inv: Store -> bool)
    requires Steadfast(inv)
    ensures Goes(w, ExecFinalize(w, o, name).0, inv)
  {
    hide ExecFinalize, Read, Write, Logged, Goes, Steadfast;
    var rel := Going(inv);
    forall w ensures rel(w, w) && rel(w, Read(w, o).0) && rel(w, Logged(w, Finalized)) {
      CallsGo(w, o, inv);
    }
    forall a, b, c | rel(a, b) && rel(b, c) ensures rel(a, c) {
      GoesOn(a, b, c, inv);
    }
    forall w, key | Deletable(key) ensures rel(w, Write(w, o, DropObject(key)).0) {
      DroppingGoes(w, o, key, inv);
    }
    FinalizingRelates(o, rel, w, name);
  }

  lemma FinalizationGoes(w: World, o: Oracle, r: Resource, inv: Store -> bool)
    requires Steadfast(inv)
    ensures Goes(w, ExecHandleFinalization(w, o, r).0, inv)
  {
    hide Steadfast, Goes, ExecFinalize, ExecUpdateFinalizers;
    CallsGo(w, o, inv);
    var copy := r.(finalizers := Without(r.finalizers, ASTARTE_FINALIZER));
    var (w1, ok) := ExecFinalize(w, o, r.name);
    FinalizingGoes(w, o, r.name, inv);
    ResourceCallsGo(w1, o, inv, "", copy);
    GoesOn(w, w1, ExecUpdateFinalizers(w1, o, copy).0, inv);
  }

  lemma CoherencyGoes(w: World, o: Oracle, r: Resource, inv: Store -> bool)
    requires Steadfast(inv)
    ensures Goes(w, ExecEnsureStatusCoherency(w, o, r).0, inv)
  {
    hide Steadfast, Goes, Read, ExecRestoreVersion, TagOf;
    CallsGo(w, o, inv);
    if r.status.astarteVersion == "" {
      var (w1, ok1) := Read(w, o);
      var key := Running(Of(Housekeeping));
      if ok1 && key in w1.store && w1.store[key].Deployment? {
        var tag := TagOf(w1.store[key].rendered.HousekeepingImage());
        if tag.Some? {
          var (w2, ok2) := ExecRestoreVersion(w1, o, tag.value);
          ResourceCallsGo(w1, o, inv, tag.value, r);
          GoesOn(w, w1, w2, inv);
          CallsGo(w2, o, inv);
          GoesOn(w, w2, Read(w2, o).0, inv);
        }
      }
    }
  }

  /** A top-level reconcile that does not get to the resources keeps such a property throughout; one
      that does keeps it throughout before and after. */
  lemma Anatomy(w: World, o: Oracle, supported: string -> bool, inv: Store -> bool)
    requires Steadfast(inv)
    ensures var after := ExecReconcile(w, o, supported).0;
            match Started(w, o, supported)
            case None => Goes(w, after, inv)
            case Some((v, r)) => Goes(w, v, inv) && Goes(Exec(v, o, Plan(r.spec)).0, after, inv)
  {
    hide Steadfast, Goes, Read, Exec, Plan, ExecUpdateStatus, ExecHandleFinalization, ExecEnsureStatusCoherency, ExecUpdateFinalizers,
         ExecLook, Seen, SeesGreen, Gated;
    var (w1, ok) := Read(w, o);
    CallsGo(w, o, inv);
    if ok && w1.resource.Some? {
      var r := w1.resource.value;
      CallsGo(w1, o, inv);
      ResourceCallsGo(w1, o, inv, "", r);
      FinalizationGoes(w1, o, r, inv);
      GoesOn(w, w1, ExecUpdateStatus(w1, o).0, inv);
      GoesOn(w, w1, ExecHandleFinalization(w1, o, r).0, inv);
      var w2 := ExecEnsureStatusCoherency(w1, o, r).0;
      CoherencyGoes(w1, o, r, inv);
      GoesOn(w, w1, w2, inv);
      var w3 := ExecEnsureFinalizer(w2, o, r).0;
      CallsGo(w2, o, inv);
      ResourceCallsGo(w2, o, inv, "", r.(finalizers := r.finalizers + [ASTARTE_FINALIZER]));
      GoesOn(w, w2, w3, inv);
      ReadingGoes(o, inv);
      LookingRelates(o, Going(inv), w3, r.spec);
      var w4 := ExecLook(w3, o, r.spec);
      GoesOn(w, w3, w4, inv);
      AfterResources(w3, o, r, inv);
      AfterResources(w4, o, r, inv);
    }
  }

  lemma AfterResources(w: World, o: Oracle, r: Resource, inv: Store -> bool)
    requires Steadfast(inv)
    ensures Goes(Exec(w, o, Plan(r.spec)).0, ExecResources(w, o, r).0, inv)
  {
    hide Steadfast, Goes, Exec, Plan, ExecUpdateStatus;
    var w1 := Exec(w, o, Plan(r.spec)).0;
    CallsGo(w1, o, inv);
    ResourceCallsGo(w1, o, inv, "", r);
  }

  // --- Which specifications are reconciled ---

  ghost predicate Allowed(resource: Option<Resource>, allowed: AstarteSpec -> bool) {
    resource.Some? ==> allowed(resource.value.spec)
  }

  predicate Asks(action: Action) {
    action.EditSpec? || action.CreateResource?
  }

  /** At these calls nobody asks for anything else. */
  ghost predicate OnlyAsksFor(o: Oracle, from: nat, to: nat, allowed: AstarteSpec -> bool) {
    forall call | from <= call < to && Asks(o(call).action) :: allowed(o(call).action.spec)
  }

  ghost function StaysAllowed(start: nat, allowed: AstarteSpec -> bool): (World, World) -> bool {
    (a: World, b: World) => a.calls >= start && Allowed(a.resource, allowed) ==> b.calls >= start && Allowed(b.resource, allowed)
  }

  lemma CallsStayAllowed(w: World, o: Oracle, start: nat, allowed: AstarteSpec -> bool)
    requires (Asks(o(w.calls).action) ==> allowed(o(w.calls).action.spec)) && Allowed(w.resource, allowed) && w.calls >= start
    ensures var rel := StaysAllowed(start, allowed);
            && rel(w, Read(w, o).0) && rel(w, ExecUpdateStatus(w, o).0)
            && (forall change :: rel(w, Write(w, o, change).0))
            && (forall version :: rel(w, ExecRestoreVersion(w, o, version).0))
            && (forall copy :: rel(w, ExecUpdateFinalizers(w, o, copy).0))
  {
  }

  lemma ThroughoutStaysAllowed(w: World, o: Oracle, supported: string -> bool, start: nat, allowed: AstarteSpec -> bool)
    requires (forall call | call >= start && Asks(o(call).action) :: allowed(o(call).action.spec))
    requires Allowed(w.resource, allowed) && w.calls >= start
    ensures Allowed(ExecReconcile(w, o, supported).0.resource, allowed)
  {
    hide Read, Write, ExecReconcile, ExecUpdateStatus, ExecRestoreVersion, ExecUpdateFinalizers;
    var rel := StaysAllowed(start, allowed);
    forall w ensures rel(w, Read(w, o).0) && rel(w, ExecUpdateStatus(w, o).0) {
      if w.calls >= start && Allowed(w.resource, allowed) { CallsStayAllowed(w, o, start, allowed); }
    }
    forall w, change ensures rel(w, Write(w, o, change).0) {
      if w.calls >= start && Allowed(w.resource, allowed) { CallsStayAllowed(w, o, start, allowed); }
    }
    forall w, version ensures rel(w, ExecRestoreVersion(w, o, version).0) {
      if w.calls >= start && Allowed(w.resource, allowed) { CallsStayAllowed(w, o, start, allowed); }
    }
    forall w, copy ensures rel(w, ExecUpdateFinalizers(w, o, copy).0) {
      if w.calls >= start && Allowed(w.resource, allowed) { CallsStayAllowed(w, o, start, allowed); }
    }
    ReconcileRelates(o, rel, w, supported);
  }

  lemma ReconcileStaysAllowed(w: World, o: Oracle, supported: string -> bool, allowed: AstarteSpec -> bool)
    requires OnlyAsksFor(o, w.calls, ExecReconcile(w, o, supported).0.calls, allowed) && Allowed(w.resource, allowed)
    ensures Allowed(ExecReconcile(w, o, supported).0.resource, allowed)
    ensures Started(w, o, supported).Some? ==> allowed(Started(w, o, supported).value.1.spec)
  {
    hide ExecReconcile, Started;
    var stop := ExecReconcile(w, o, supported).0.calls;
    var hushed := Hushed(o, stop);
    assert Agree(o, hushed, stop);
    ReconcileIsLocal(w, o, hushed, supported, stop);
    ThroughoutStaysAllowed(w, hushed, supported, w.calls, allowed);
    ReconcileTakesTime(w, o, supported);
    CallsStayAllowed(w, o, w.calls, allowed);
    StartedIsFound(w, o, supported);
  }

  lemma StartedIsFound(w: World, o: Oracle, supported: string -> bool)
    ensures Started(w, o, supported).Some? ==> Read(w, o).0.resource == Some(Started(w, o, supported).value.1)
  {
    hide Read, ExecEnsureStatusCoherency, ExecUpdateFinalizers, ExecLook, Seen, SeesGreen, Gated;
  }

  // --- Properties of all states ---

  /** Reconciling resources for an allowed specification keeps the property throughout. */
  ghost predicate KeptByReconciles(o: Oracle, allowed: AstarteSpec -> bool, inv: Store -> bool) {
    forall w: World, spec :: allowed(spec) && inv(w.store) ==> Throughout(w, Exec(w, o, Plan(spec)).0, inv)
  }

  /** What reconciles of resources keep throughout for the specifications that are ever asked for
      holds at every state of every run of top-level reconciles. */
  lemma {:induction false} HoldsThroughoutOperation(w: World, o: Oracle, supported: string -> bool, count: nat, allowed: AstarteSpec -> bool, inv: Store -> bool)
    requires Steadfast(inv) && KeptByReconciles(o, allowed, inv) && inv(w.store)
    requires OnlyAsksFor(o, w.calls, Serve(w, o, supported, count).calls, allowed) && Allowed(w.resource, allowed)
    ensures Throughout(w, Serve(w, o, supported, count), inv)
    decreases count
  {
    hide Steadfast, KeptByReconciles, ExecReconcile, Started;
    if count > 0 {
      var w1 := ExecReconcile(w, o, supported).0;
      ReconcileTakesTime(w, o, supported);
      ServingIsLocal(w1, o, o, supported, count - 1, 0);
      ReconcileStaysAllowed(w, o, supported, allowed);
      ReconcileGoes(w, o, supported, allowed, inv);
      HoldsThroughoutOperation(w1, o, supported, count - 1, allowed, inv);
      ThroughoutTransitive(w, w1, Serve(w1, o, supported, count - 1), inv);
    }
  }

  lemma ReconcileGoes(w: World, o: Oracle, supported: string -> bool, allowed: AstarteSpec -> bool, inv: Store -> bool)
    requires Steadfast(inv) && KeptByReconciles(o, allowed, inv)
    requires Started(w, o, supported).Some? ==> allowed(Started(w, o, supported).value.1.spec)
    ensures Goes(w, ExecReconcile(w, o, supported).0, inv)
  {
    hide Steadfast, Exec, Plan, ExecReconcile, Started, Throughout;
    var after := ExecReconcile(w, o, supported).0;
    Anatomy(w, o, supported, inv);
    match Started(w, o, supported)
    case None =>
    case Some((v, r)) =>
      var done := Exec(v, o, Plan(r.spec)).0;
      assert Goes(v, done, inv);
      hide Goes;
      GoesOn(w, v, done, inv);
      GoesOn(w, done, after, inv);
  }

  // --- In particular ---

  ghost function Any(): AstarteSpec -> bool {
    spec => true
  }

  /** The cluster is sound at every state of every run of the operator, whatever fails and whatever is
      asked for: no dangling references, matching keys, no gaps among the Data Updater Plant Deployments. */
  lemma OperationIsSound(w: World, o: Oracle, supported: string -> bool, count: nat)
    requires Sound(w.store)
    ensures Throughout(w, Serve(w, o, supported, count), Sound)
  {
    hide Exec, Plan, Sound;
    forall store, action | Sound(store) ensures Sound(StoreAfter(action, store)) {
      OthersKeepSound(action, store, {});
    }
    forall w: World, spec | Sound(w.store) ensures Throughout(w, Exec(w, o, Plan(spec)).0, Sound) {
      ReconcileIsSound(w, o, spec);
    }
    forall store: Store, key: Key | Deletable(key) && Sound(store) ensures Sound(store - {key}) {
      FinalizingKeepsSound(store, key);
    }
    HoldsThroughoutOperation(w, o, supported, count, Any(), Sound);
  }

  lemma FinalizingKeepsSound(store: Store, key: Key)
    requires Sound(store) && Deletable(key)
    ensures Sound(store - {key})
  {
  }

  /** With a fixed specification the cluster comes up in order, at every state of every run of the
      operator from a cluster in which nothing runs. */
  lemma OperationComesUpInOrder(w: World, o: Oracle, supported: string -> bool, count: nat, spec: AstarteSpec)
    requires OnlyAsksFor(o, w.calls, Serve(w, o, supported, count).calls, Only(spec)) && Allowed(w.resource, Only(spec))
    requires InOrder(Order(spec), 0)(w.store)
    ensures Throughout(w, Serve(w, o, supported, count), InOrder(Order(spec), 0))
  {
    hide InOrder, OnlyAsksFor, Serve, Steadfast, KeptByReconciles;
    OrderIsSteadfast(spec);
    OrderIsKept(o, spec);
    HoldsThroughoutOperation(w, o, supported, count, Only(spec), InOrder(Order(spec), 0));
  }

  lemma OrderIsSteadfast(spec: AstarteSpec)
    ensures Steadfast(InOrder(Order(spec), 0))
  {
    hide Order;
    var inv := InOrder(Order(spec), 0);
    forall store, action | inv(store) ensures inv(StoreAfter(action, store)) {
      OthersKeepUp(action, store, Order(spec));
    }
    forall store: Store, key: Key | Deletable(key) && inv(store) ensures inv(store - {key}) {
      FinalizingKeepsUp(store, key, Order(spec));
    }
  }

  lemma OrderIsKept(o: Oracle, spec: AstarteSpec)
    ensures KeptByReconciles(o, Only(spec), InOrder(Order(spec), 0))
  {
    hide Order, Exec, Plan;
    forall w: World | InOrder(Order(spec), 0)(w.store) ensures Throughout(w, Exec(w, o, Plan(spec)).0, InOrder(Order(spec), 0)) {
      ComesUpInOrder(w, o, spec, [spec]);
      OneReconcile(w, o, spec);
    }
  }

  ghost function Only(spec: AstarteSpec): AstarteSpec -> bool {
    s => s == spec
  }

  lemma OneReconcile(w: World, o: Oracle, spec: AstarteSpec)
    ensures Reconciles(w, o, [spec]) == Exec(w, o, Plan(spec)).0
  {
    hide Exec, Plan;
    var w1 := Exec(w, o, Plan(spec)).0;
    assert [spec][1..] == [];
    assert Reconciles(w1, o, []) == w1;
  }

  lemma OthersKeepUp(action: Action, store: Store, order: seq<Workload>)
    requires UpInOrder(store, order, 0) && PlainUserSecrets(store)
    ensures UpInOrder(StoreAfter(action, store), order, 0) && PlainUserSecrets(StoreAfter(action, store))
  {
    hide Up, StoreAfter, PlainUserSecrets;
    var count :| 0 <= count <= |order| && Up(store, order, count);
    OthersKeepOrder(action, store, order, count);
    OthersKeepPlain(action, store);
  }

  lemma FinalizingKeepsUp(store: Store, key: Key, order: seq<Workload>)
    requires UpInOrder(store, order, 0) && PlainUserSecrets(store) && Deletable(key)
    ensures UpInOrder(store - {key}, order, 0) && PlainUserSecrets(store - {key})
  {
    var count :| 0 <= count <= |order| && Up(store, order, count);
    assert Up(store - {key}, order, count);
  }

  // --- The CA ---

  lemma PlainIsSteadfast()
    ensures Steadfast(Invariants.Plain())
  {
  }

  /** A top-level reconcile that reads a resource neither in maintenance nor marked for deletion, and
      finishes, leaves everything that the specification it read wants, as it wants it. */
  lemma FinishedIsAsWanted(w: World, o: Oracle, supported: string -> bool, r: Resource)
    requires PlainUserSecrets(w.store) && Read(w, o).0.resource == Some(r)
    requires !r.spec.manualMaintenanceMode && !r.deleting && ExecReconcile(w, o, supported).1 == Finished
    ensures Outcome.AsWanted(ExecReconcile(w, o, supported).0.store, r.spec)
  {
    hide Read, Exec, Plan, ExecUpdateStatus, ExecEnsureStatusCoherency, ExecUpdateFinalizers, ExecLook, Seen, SeesGreen, Gated, Steadfast,
         Outcome.AsWanted;
    PlainIsSteadfast();
    Anatomy(w, o, supported, Invariants.Plain());
    var (v, _) := Started(w, o, supported).value;
    var (done, ok) := Exec(v, o, Plan(r.spec));
    Outcome.SuccessIsAsWanted(v, o, r.spec);
    StatusKeepsStore(done, o);
    Outcome.OthersKeepAsWanted(o(done.calls).action, done.store, r.spec);
  }

  lemma StatusKeepsStore(w: World, o: Oracle)
    ensures ExecUpdateStatus(w, o).0.store == StoreAfter(o(w.calls).action, w.store)
  {
  }

  /** At every state of every run of the operator from a cluster in which nothing runs, each workload is one
      that a specification asked for so far wanted, with exactly the references, queues and configuration
      that go with it. */
  lemma OperationIsRendered(w: World, o: Oracle, supported: string -> bool, count: nat, asked: AstarteSpec -> bool)
    requires OnlyAsksFor(o, w.calls, Serve(w, o, supported, count).calls, asked) && Allowed(w.resource, asked)
    requires Outcome.RenderedPlainly(asked)(w.store)
    ensures Throughout(w, Serve(w, o, supported, count), Outcome.RenderedPlainly(asked))
  {
    hide Exec, Plan, OnlyAsksFor, Serve, Outcome.Rendered, Steadfast, KeptByReconciles;
    RenderedIsSteadfast(asked);
    RenderedIsKept(o, asked);
    HoldsThroughoutOperation(w, o, supported, count, asked, Outcome.RenderedPlainly(asked));
  }

  lemma RenderedIsSteadfast(asked: AstarteSpec -> bool)
    ensures Steadfast(Outcome.RenderedPlainly(asked))
  {
    hide Rendering;
    var inv := Outcome.RenderedPlainly(asked);
    forall store, action | inv(store) ensures inv(StoreAfter(action, store)) {
      Outcome.OthersKeepAll(action, store, {});
      Outcome.OthersKeepRendered(action, asked, store);
    }
    forall store: Store, key: Key | Deletable(key) && inv(store) ensures inv(store - {key}) {
      Outcome.RenderedWithout(asked, store, key);
    }
  }

  lemma RenderedIsKept(o: Oracle, asked: AstarteSpec -> bool)
    ensures KeptByReconciles(o, asked, Outcome.RenderedPlainly(asked))
  {
    hide Exec, Plan, Outcome.RenderedPlainly;
    forall w: World, spec | asked(spec) && Outcome.RenderedPlainly(asked)(w.store)
      ensures Throughout(w, Exec(w, o, Plan(spec)).0, Outcome.RenderedPlainly(asked))
    {
      Outcome.ReconcileKeepsRendered(w, o, spec, asked);
    }
  }

  /** This is the generated CA. */
  ghost function CAIs(ca: Object): Store -> bool {
    store => DevicesCA in store && store[DevicesCA] == ca && PlainUserSecrets(store)
  }

  /** The operator never deletes or replaces the CA it generated: not in any run, not by any
      finalization, even if the resource is gone at the end. */
  lemma GeneratedCAStays(w: World, o: Oracle, supported: string -> bool, count: nat)
    requires DevicesCA in w.store && PlainUserSecrets(w.store)
    ensures Throughout(w, Serve(w, o, supported, count), CAIs(w.store[DevicesCA]))
  {
    hide Exec, Plan;
    var inv := CAIs(w.store[DevicesCA]);
    forall store: Store, action | inv(store) ensures inv(StoreAfter(action, store)) {
      OthersKeepOut(action, store, DevicesCA);
    }
    forall w: World, spec | inv(w.store) ensures Throughout(w, Exec(w, o, Plan(spec)).0, inv) {
      ReconcileKeepsCA(w, o, spec, w.store[DevicesCA]);
    }
    HoldsThroughoutOperation(w, o, supported, count, Any(), inv);
  }

  lemma ReconcileKeepsCA(w: World, o: Oracle, spec: AstarteSpec, ca: Object)
    requires CAIs(ca)(w.store)
    ensures Throughout(w, Exec(w, o, Plan(spec)).0, CAIs(ca))
  {
    hide Exec, Plan, GuardedAll, Respects;
    var inv := CAIs(ca);
    assert With(inv, {})(w.store);
    PlanIsGuarded(spec);
    CAIsRespected(spec, ca);
    ExecThroughout(w, o, Plan(spec), spec, {}, inv);
    Weaken(w, Exec(w, o, Plan(spec)).0, With(inv, {}), inv);
  }

  lemma CAIsRespected(spec: AstarteSpec, ca: Object)
    ensures Respects(spec, CAIs(ca))
  {
    forall step, have | Guarded(step, spec, have) && OperatorsOwn(have)
      ensures Keeps(step, With(CAIs(ca), have))
    {
      CAIsKept(step, spec, have, ca);
    }
  }

  lemma CAIsKept(step: Step, spec: AstarteSpec, have: set<Key>, ca: Object)
    requires Guarded(step, spec, have) && OperatorsOwn(have)
    ensures Keeps(step, With(CAIs(ca), have))
  {
    var inv := With(CAIs(ca), have);
    forall store: Store, action | inv(store) ensures inv(StoreAfter(action, store)) {
      forall key: Key | !key.UserSecret?
        ensures key in StoreAfter(action, store) <==> key in store
        ensures key in store ==> StoreAfter(action, store)[key] == store[key]
      {
        OthersKeepOut(action, store, key);
      }
    }
    forall store: Store, change | inv(store) && MayChange(step, store, change) ensures inv(Apply(change, store)) {
      ChangeKeepsHave(step, spec, have, store, change);
    }
  }

  // --- The Housekeeping keys ---

  lemma KeyPairIsSteadfast(pair: (Option<Object>, Option<Object>))
    ensures Steadfast(KeyPairIs(pair))
  {
    var inv := KeyPairIs(pair);
    forall store: Store, action | inv(store) ensures inv(StoreAfter(action, store)) {
      OthersKeepOut(action, store, HousekeepingPublicKey);
      OthersKeepOut(action, store, HousekeepingPrivateKey);
    }
  }

  lemma SamePairFreezes(a: World, b: World)
    requires Throughout(a, b, KeyPairIs(KeyPair(a.store)))
    ensures Freezes(a, b) && PlainUserSecrets(b.store)
  {
  }

  lemma IdleFreezes(a: World, b: World)
    requires PlainUserSecrets(a.store) && Goes(a, b, KeyPairIs(KeyPair(a.store)))
    ensures Freezes(a, b) && PlainUserSecrets(b.store)
  {
    hide Freezes, Throughout, KeyPair, PlainUserSecrets;
    SamePairFreezes(a, b);
  }

  lemma ReconcileFreezes(w: World, o: Oracle, supported: string -> bool)
    requires PlainUserSecrets(w.store)
    ensures Freezes(w, ExecReconcile(w, o, supported).0) && PlainUserSecrets(ExecReconcile(w, o, supported).0.store)
  {
    hide ExecReconcile, Started, Exec, Plan, Freezes, Goes, KeyPair, PlainUserSecrets, GuardedAll, Steadfast;
    var after := ExecReconcile(w, o, supported).0;
    KeyPairIsSteadfast(KeyPair(w.store));
    Anatomy(w, o, supported, KeyPairIs(KeyPair(w.store)));
    match Started(w, o, supported)
    case None =>
      IdleFreezes(w, after);
    case Some((v, r)) =>
      IdleFreezes(w, v);
      var done := Exec(v, o, Plan(r.spec)).0;
      PlanIsGuarded(r.spec);
      ExecFreezes(v, o, Plan(r.spec), r.spec, {});
      KeyPairIsSteadfast(KeyPair(done.store));
      Anatomy(w, o, supported, KeyPairIs(KeyPair(done.store)));
      IdleFreezes(done, after);
      FreezesTransitive(w, v, done);
      FreezesTransitive(w, done, after);
  }

  /** In every run of the operator, from any state with a public key to any later one, neither key of
      Housekeeping changes. */
  lemma {:induction false} OperationFreezesPublishedKeys(w: World, o: Oracle, supported: string -> bool, count: nat)
    requires PlainUserSecrets(w.store)
    ensures Freezes(w, Serve(w, o, supported, count))
    decreases count
  {
    hide ExecReconcile, PlainUserSecrets;
    if count > 0 {
      var w1 := ExecReconcile(w, o, supported).0;
      ReconcileFreezes(w, o, supported);
      OperationFreezesPublishedKeys(w1, o, supported, count - 1);
      hide Freezes;
      FreezesTransitive(w, w1, Serve(w1, o, supported, count - 1));
    }
  }

  // --- The queues ---

  /** Like `Steady`, for the reconciles of resources that top-level reconciles get to. */
  ghost predicate SteadyOperation(w: World, o: Oracle, supported: string -> bool, count: nat, queues: int, last: int, finished: bool)
    decreases count
  {
    count == 0 ||
    var next := ExecReconcile(w, o, supported).0;
    match Started(w, o, supported)
    case None => SteadyOperation(next, o, supported, count - 1, queues, last, finished)
    case Some((v, r)) =>
      && Permitted(r.spec, queues, last, finished)
      && SteadyOperation(next, o, supported, count - 1, queues, NextLast(r.spec, last), NextFinished(r.spec, finished, Exec(v, o, Plan(r.spec)).1))
  }

  lemma FleetIsSteadfast(fleet: Fleet)
    ensures Steadfast(FleetIs(fleet))
  {
    var inv := FleetIs(fleet);
    forall store: Store, action | inv(store) ensures inv(StoreAfter(action, store)) {
      OthersKeepFleet(action, store);
    }
    forall store: Store, key: Key | Deletable(key) && inv(store) ensures inv(store - {key}) {
      assert FleetOf(store - {key}) == FleetOf(store);
    }
  }

  lemma IdleKeepsQueues(a: World, b: World, queues: int, last: int, finished: bool)
    requires PlainUserSecrets(a.store) && CalmFleet(FleetOf(a.store), queues, last, finished)
    requires Goes(a, b, FleetIs(FleetOf(a.store)))
    ensures Throughout(a, b, WithoutOverlap())
    ensures PlainUserSecrets(b.store) && FleetOf(b.store) == FleetOf(a.store)
  {
    hide CalmFleet, NoOverlap, FleetOf, PlainUserSecrets;
    CalmFleetHasNoOverlap(FleetOf(a.store), queues, last, finished);
    forall store: Store | FleetIs(FleetOf(a.store))(store) ensures WithoutOverlap()(store) {}
    Weaken(a, b, FleetIs(FleetOf(a.store)), WithoutOverlap());
  }

  lemma ReconcileKeepsQueues(w: World, o: Oracle, supported: string -> bool, queues: int, last: int, finished: bool)
    requires PlainUserSecrets(w.store) && CalmFleet(FleetOf(w.store), queues, last, finished)
    requires Started(w, o, supported).Some? ==> Permitted(Started(w, o, supported).value.1.spec, queues, last, finished)
    ensures var after := ExecReconcile(w, o, supported).0;
            && Throughout(w, after, WithoutOverlap()) && PlainUserSecrets(after.store)
            && match Started(w, o, supported)
               case None => CalmFleet(FleetOf(after.store), queues, last, finished)
               case Some((v, r)) => CalmFleet(FleetOf(after.store), queues, NextLast(r.spec, last), NextFinished(r.spec, finished, Exec(v, o, Plan(r.spec)).1))
  {
    hide ExecReconcile, Started, Exec, Plan, Goes, PlainUserSecrets, CalmFleet, FleetOf, NoOverlap, Throughout, Target, Steadfast;
    var after := ExecReconcile(w, o, supported).0;
    FleetIsSteadfast(FleetOf(w.store));
    Anatomy(w, o, supported, FleetIs(FleetOf(w.store)));
    match Started(w, o, supported)
    case None =>
      IdleKeepsQueues(w, after, queues, last, finished);
    case Some((v, r)) =>
      IdleKeepsQueues(w, v, queues, last, finished);
      var (done, ok) := Exec(v, o, Plan(r.spec));
      SteadyReconcile(v, o, r.spec, queues, last, finished);
      FleetIsSteadfast(FleetOf(done.store));
      Anatomy(w, o, supported, FleetIs(FleetOf(done.store)));
      IdleKeepsQueues(done, after, queues, NextLast(r.spec, last), NextFinished(r.spec, finished, ok));
      ThroughoutTransitive(w, v, done, WithoutOverlap());
      ThroughoutTransitive(w, done, after, WithoutOverlap());
  }

  /** In every steady run of the operator no two Deployments hold the same queue at any state. */
  lemma {:induction false} SteadyOperationNeverOverlaps(w: World, o: Oracle, supported: string -> bool, count: nat, queues: int, last: int, finished: bool)
    requires SteadyOperation(w, o, supported, count, queues, last, finished)
    requires PlainUserSecrets(w.store) && CalmFleet(FleetOf(w.store), queues, last, finished)
    ensures Throughout(w, Serve(w, o, supported, count), WithoutOverlap())
    decreases count
  {
    hide ExecReconcile, Started, Exec, Plan, PlainUserSecrets, CalmFleet, FleetOf, NoOverlap, Target;
    if count == 0 {
      CalmFleetHasNoOverlap(FleetOf(w.store), queues, last, finished);
    } else {
      var w1 := ExecReconcile(w, o, supported).0;
      ReconcileKeepsQueues(w, o, supported, queues, last, finished);
      match Started(w, o, supported)
      case None =>
        SteadyOperationNeverOverlaps(w1, o, supported, count - 1, queues, last, finished);
        ThroughoutTransitive(w, w1, Serve(w1, o, supported, count - 1), WithoutOverlap());
      case Some((v, r)) =>
        SteadyOperationNeverOverlaps(w1, o, supported, count - 1, queues, NextLast(r.spec, last), NextFinished(r.spec, finished, Exec(v, o, Plan(r.spec)).1));
        ThroughoutTransitive(w, w1, Serve(w1, o, supported, count - 1), WithoutOverlap());
    }
  }
}
