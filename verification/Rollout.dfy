/**
 The rollout of the sharded Data Updater Plant: which Deployments exist, and with which queue
 ranges, at every state of a reconcile; when ranges computed for different replica counts can
 meet; and what repeated reconciles converge to.
 */
module Rollout {
  import opened Specs
  import opened Queues
  import opened Cluster
  import opened Plans
  import opened Discipline

  // --- The Data Updater Plant part of a store ---

  type Fleet = map<Key, Object>

  function FleetOf(store: Store): Fleet {
    map key | key in store && IsDUP(key) :: store[key]
  }

  /** The replica count a reconcile aims at; -1 when the component should not run at all. */
  function Target(spec: AstarteSpec): int {
    if spec.Deploys(DataUpdaterPlant) then spec.Replicas() else -1
  }

  /** What is left of a fleet once there are not too many Deployments. */
  function Kept(fleet: Fleet, target: int): Fleet {
    if |fleet| > target then map[] else fleet
  }

  /** A fleet in which the first `count` Deployments have been brought to the specification. */
  function Rolled(fleet: Fleet, spec: AstarteSpec, count: int): Fleet {
    if count <= 0 then fleet
    else Rolled(fleet, spec, count - 1)[Running(DUP(count - 1)) := DUPDeployment(spec, count - 1, spec.Replicas())]
  }

  /** The fleets that a reconcile goes through. */
  ghost predicate Stage(fleet: Fleet, before: Fleet, spec: AstarteSpec) {
    fleet == before || exists count: nat :: IsRolled(fleet, before, spec, count)
  }

  ghost predicate IsRolled(fleet: Fleet, before: Fleet, spec: AstarteSpec, count: nat) {
    (count == 0 || count <= Target(spec)) && fleet == Rolled(Kept(before, Target(spec)), spec, count)
  }

  // --- Every state of a reconcile ---

  /** The fleet is this one. */
  ghost function FleetIs(fleet: Fleet): Store -> bool {
    store => FleetOf(store) == fleet && PlainUserSecrets(store)
  }

  ghost function InStage(before: Fleet, spec: AstarteSpec): Store -> bool {
    store => Stage(FleetOf(store), before, spec) && PlainUserSecrets(store)
  }

  /** The step leaves the fleet alone. */
  predicate Aloof(step: Step) {
    match step
    case Put(key, _) => !IsDUP(key) && !key.UserSecret?
    case Generate(key) => !IsDUP(key) && !key.UserSecret?
    case Certify(_, target) => !IsDUP(target) && !target.UserSecret?
    case Retire(workload, _) => !workload.DUP? && !workload.ForeignDUP?
    case Shrink(_) => false
    case _ => true
  }

  predicate AllAloof(steps: seq<Step>) {
    forall step <- steps :: Aloof(step)
  }

  lemma AloofKeeps(step: Step, fleet: Fleet)
    requires Aloof(step)
    ensures Keeps(step, FleetIs(fleet))
  {
    var inv := FleetIs(fleet);
    forall store: Store, action | inv(store) ensures inv(StoreAfter(action, store)) {
      OthersKeepFleet(action, store);
    }
    forall store: Store, change | inv(store) && MayChange(step, store, change) ensures inv(Apply(change, store)) {
      assert FleetOf(Apply(change, store)) == FleetOf(store);
    }
  }

  lemma OthersKeepFleet(action: Action, store: Store)
    ensures FleetOf(StoreAfter(action, store)) == FleetOf(store)
    ensures PlainUserSecrets(store) ==> PlainUserSecrets(StoreAfter(action, store))
  {
    forall key | IsDUP(key) {
      OthersKeepOut(action, store, key);
    }
  }

  lemma {:induction false} AloofThroughout(w: World, o: Oracle, steps: seq<Step>)
    requires AllAloof(steps) && PlainUserSecrets(w.store)
    ensures Throughout(w, Exec(w, o, steps).0, FleetIs(FleetOf(w.store)))
    decreases |steps|
  {
    var inv := FleetIs(FleetOf(w.store));
    assert inv(w.store);
    hide FleetIs, FleetOf, ExecStep, Keeps, PlainUserSecrets;
    if steps != [] {
      var (w1, ok) := ExecStep(w, o, steps[0]);
      AloofKeeps(steps[0], FleetOf(w.store));
      AloofStep(w, o, steps[0], inv);
      if ok {
        SameFleet(w1.store, FleetOf(w.store));
        AloofThroughout(w1, o, steps[1..]);
        ThroughoutTransitive(w, w1, Exec(w, o, steps).0, inv);
      }
    }
  }

  lemma AloofStep(w: World, o: Oracle, step: Step, inv: Store -> bool)
    requires Aloof(step) && Keeps(step, inv) && inv(w.store) && forall store :: inv(store) ==> PlainUserSecrets(store)
    ensures Throughout(w, ExecStep(w, o, step).0, inv)
  {
    assert !(step.Generate? && step.key.UserSecret?);
    hide ExecStep, Keeps;
    StepKeeps(w, o, step, inv);
  }

  lemma SameFleet(store: Store, fleet: Fleet)
    requires FleetIs(fleet)(store)
    ensures FleetOf(store) == fleet && PlainUserSecrets(store)
  {
  }

  /** The fleet is a base fleet with at most `count` Deployments brought to the specification. */
  ghost predicate Partly(fleet: Fleet, base: Fleet, spec: AstarteSpec, count: int) {
    exists done: nat :: (done == 0 || done <= count) && fleet == Rolled(base, spec, done)
  }

  ghost function UpTo(base: Fleet, spec: AstarteSpec, count: int): Store -> bool {
    store => Partly(FleetOf(store), base, spec, count) && PlainUserSecrets(store)
  }

  /** A run passes through a state with this fleet. */
  ghost predicate Visits(before: World, after: World, fleet: Fleet) {
    exists i :: |before.log| <= i < |after.log| && FleetOf(after.log[i].store) == fleet
  }

  lemma VisitsEarlier(a: World, b: World, c: World, fleet: Fleet)
    requires Visits(a, b, fleet) && a.log <= b.log <= c.log
    ensures Visits(a, c, fleet)
  {
    var i :| |a.log| <= i < |b.log| && FleetOf(b.log[i].store) == fleet;
    assert c.log[i] == b.log[i];
  }

  lemma VisitsLater(a: World, b: World, c: World, fleet: Fleet)
    requires Visits(b, c, fleet) && a.log <= b.log <= c.log
    ensures Visits(a, c, fleet)
  {
  }

  /** The log grew by the state after one call. */
  ghost predicate OneCall(before: World, after: World) {
    before.log <= after.log && |after.log| == |before.log| + 1 && after.log[|before.log|].store == after.store
  }

  lemma CallThroughout(before: World, after: World, inv: Store -> bool)
    requires OneCall(before, after) && inv(after.store)
    ensures Throughout(before, after, inv)
  {
  }

  lemma CallVisits(before: World, after: World)
    requires OneCall(before, after)
    ensures Visits(before, after, FleetOf(after.store)) && before.log <= after.log
  {
  }

  /** Bringing one Deployment to the specification: other objects first, then the Deployment. */
  lemma OneMore(w: World, o: Oracle, steps: seq<Step>, base: Fleet, spec: AstarteSpec, index: nat)
    requires AllAloof(steps) && PlainUserSecrets(w.store) && FleetOf(w.store) == Rolled(base, spec, index)
    ensures var put := [Put(Running(DUP(index)), DUPDeployment(spec, index, spec.Replicas()))];
            var (after, ok) := Exec(w, o, steps + put);
            && Throughout(w, after, UpTo(base, spec, index + 1))
            && (ok ==> FleetOf(after.store) == Rolled(base, spec, index + 1) && Visits(w, after, Rolled(base, spec, index + 1)))
  {
    var put := [Put(Running(DUP(index)), DUPDeployment(spec, index, spec.Replicas()))];
    var (w1, ok) := Exec(w, o, steps);
    ExecAppend(w, o, steps, put);
    AloofThroughout(w, o, steps);
    FleetUpTo(w, w1, base, spec, index, index + 1);
    if ok {
      PutTrace(w1, o, base, spec, index);
      ThroughoutTransitive(w, w1, Exec(w1, o, put).0, UpTo(base, spec, index + 1));
    }
  }

  lemma FleetUpTo(before: World, after: World, base: Fleet, spec: AstarteSpec, done: nat, count: int)
    requires Throughout(before, after, FleetIs(Rolled(base, spec, done))) && (done == 0 || done <= count)
    ensures Throughout(before, after, UpTo(base, spec, count))
    ensures FleetOf(after.store) == Rolled(base, spec, done) && PlainUserSecrets(after.store)
  {
    forall store: Store | FleetIs(Rolled(base, spec, done))(store)
      ensures UpTo(base, spec, count)(store)
    {
      assert Partly(FleetOf(store), base, spec, count);
    }
  }

  lemma PutTrace(w: World, o: Oracle, base: Fleet, spec: AstarteSpec, index: nat)
    requires PlainUserSecrets(w.store) && FleetOf(w.store) == Rolled(base, spec, index)
    ensures var (after, ok) := Exec(w, o, [Put(Running(DUP(index)), DUPDeployment(spec, index, spec.Replicas()))]);
            && Throughout(w, after, UpTo(base, spec, index + 1))
            && (ok ==> FleetOf(after.store) == Rolled(base, spec, index + 1) && Visits(w, after, Rolled(base, spec, index + 1)))
  {
    var key, contents := Running(DUP(index)), DUPDeployment(spec, index, spec.Replicas());
    var w1 := Write(w, o, PutObject(key, contents)).0;
    ExecAt(w, o, [Put(key, contents)], 0);
    PutFleetTrace(w, o, DUP(index), contents);
    RolledIsPartly(base, spec, index, index + 1);
    RolledIsPartly(base, spec, index + 1, index + 1);
    hide Rolled, Partly, FleetOf, DUPDeployment, PlainUserSecrets, Throughout, Visits, Write;
    CallThroughout(w, w1, UpTo(base, spec, index + 1));
    CallVisits(w, w1);
  }

  lemma PutFleetTrace(w: World, o: Oracle, workload: Workload, contents: Object)
    requires workload.DUP?
    ensures var (after, ok) := Write(w, o, PutObject(Running(workload), contents));
            && OneCall(w, after) && (PlainUserSecrets(w.store) ==> PlainUserSecrets(after.store))
            && FleetOf(after.store) == if ok || o(w.calls).outcome == Landed then FleetOf(w.store)[Running(workload) := contents] else FleetOf(w.store)
  {
    OthersKeepFleet(o(w.calls).action, w.store);
    PutFleet(StoreAfter(o(w.calls).action, w.store), workload, contents);
  }

  lemma RolledIsPartly(base: Fleet, spec: AstarteSpec, done: nat, count: int)
    requires done == 0 || done <= count
    ensures Partly(Rolled(base, spec, done), base, spec, count)
    ensures done > 0 ==>
              Rolled(base, spec, done) == Rolled(base, spec, done - 1)[Running(DUP(done - 1)) := DUPDeployment(spec, done - 1, spec.Replicas())]
  {
  }

  lemma PutFleet(store: Store, workload: Workload, contents: Object)
    requires workload.DUP?
    ensures FleetOf(store[Running(workload) := contents]) == FleetOf(store)[Running(workload) := contents]
    ensures PlainUserSecrets(store) ==> PlainUserSecrets(store[Running(workload) := contents])
  {
  }

  /** How far a run of the loop over the replicas gets, and what it passes through. */
  ghost predicate Rolls(before: World, after: World, ok: bool, base: Fleet, spec: AstarteSpec, count: int) {
    && Throughout(before, after, UpTo(base, spec, count))
    && PlainUserSecrets(after.store)
    && (ok ==> FleetOf(after.store) == Rolled(base, spec, count))
    && (ok ==> forall i: nat :: 0 < i <= count ==> Visits(before, after, Rolled(base, spec, i)))
  }

  /** The loop over the replicas. */
  lemma {:induction false} IndexedRolls(w: World, o: Oracle, base: Fleet, spec: AstarteSpec, count: int)
    requires PlainUserSecrets(w.store) && FleetOf(w.store) == base
    ensures Rolls(w, Exec(w, o, IndexedSteps(spec, count)).0, Exec(w, o, IndexedSteps(spec, count)).1, base, spec, count)
    decreases count
  {
    hide Rolls, IndexedStep, FleetOf, PlainUserSecrets, Exec;
    if count <= 0 {
      NoneRolls(w, o, base, spec, count);
    } else {
      var before, last := IndexedSteps(spec, count - 1), IndexedStep(spec, count - 1);
      var (w1, ok) := Exec(w, o, before);
      ExecAppend(w, o, before, last);
      IndexedRolls(w, o, base, spec, count - 1);
      if ok {
        OneMoreRolls(w, o, w1, base, spec, count - 1);
      } else {
        RollsLonger(w, w1, base, spec, count - 1, count);
      }
    }
  }

  lemma NoneRolls(w: World, o: Oracle, base: Fleet, spec: AstarteSpec, count: int)
    requires PlainUserSecrets(w.store) && FleetOf(w.store) == base && count <= 0
    ensures Rolls(w, w, true, base, spec, count) && Exec(w, o, IndexedSteps(spec, count)) == (w, true)
  {
    hide FleetOf, PlainUserSecrets, Visits;
    RolledIsPartly(base, spec, 0, count);
  }

  lemma RollsLonger(before: World, after: World, base: Fleet, spec: AstarteSpec, less: int, more: int)
    requires Rolls(before, after, false, base, spec, less) && less <= more
    ensures Rolls(before, after, false, base, spec, more)
  {
    UpToGrows(before, after, base, spec, less, more);
  }

  lemma OneMoreRolls(w: World, o: Oracle, w1: World, base: Fleet, spec: AstarteSpec, index: nat)
    requires Rolls(w, w1, true, base, spec, index)
    ensures var (after, ok) := Exec(w1, o, IndexedStep(spec, index)); Rolls(w, after, ok, base, spec, index + 1)
  {
    hide Exec, FleetOf, PlainUserSecrets, Visits, Rolled, IndexedStep, DUPDeployment;
    IndexedStepSplit(spec, index);
    var (after, ok) := Exec(w1, o, IndexedStep(spec, index));
    OneMore(w1, o, [Generate(Cookie(DUP(index)))], base, spec, index);
    UpToTogether(w, w1, after, base, spec, index);
    if ok {
      VisitsAll(w, w1, after, base, spec, index);
    }
  }

  lemma IndexedStepSplit(spec: AstarteSpec, index: nat)
    ensures IndexedStep(spec, index) == [Generate(Cookie(DUP(index)))] + [Put(Running(DUP(index)), DUPDeployment(spec, index, spec.Replicas()))]
    ensures AllAloof([Generate(Cookie(DUP(index)))])
  {
  }

  lemma UpToTogether(a: World, b: World, c: World, base: Fleet, spec: AstarteSpec, count: int)
    requires Throughout(a, b, UpTo(base, spec, count)) && Throughout(b, c, UpTo(base, spec, count + 1))
    ensures Throughout(a, c, UpTo(base, spec, count + 1)) && PlainUserSecrets(c.store)
    ensures a.log <= b.log <= c.log
  {
    hide FleetOf, PlainUserSecrets, Rolled;
    UpToGrows(a, b, base, spec, count, count + 1);
    UpToGrows(b, c, base, spec, count + 1, count + 1);
    ThroughoutTransitive(a, b, c, UpTo(base, spec, count + 1));
  }

  lemma VisitsAll(a: World, b: World, c: World, base: Fleet, spec: AstarteSpec, count: nat)
    requires a.log <= b.log <= c.log
    requires forall i: nat :: 0 < i <= count ==> Visits(a, b, Rolled(base, spec, i))
    requires Visits(b, c, Rolled(base, spec, count + 1))
    ensures forall i: nat :: 0 < i <= count + 1 ==> Visits(a, c, Rolled(base, spec, i))
  {
    hide Visits, Rolled;
    forall i: nat | 0 < i <= count + 1 ensures Visits(a, c, Rolled(base, spec, i)) {
      if i <= count {
        VisitsEarlier(a, b, c, Rolled(base, spec, i));
      } else {
        VisitsLater(a, b, c, Rolled(base, spec, count + 1));
      }
    }
  }

  lemma UpToGrows(before: World, after: World, base: Fleet, spec: AstarteSpec, less: int, more: int)
    requires Throughout(before, after, UpTo(base, spec, less)) && less <= more
    ensures Throughout(before, after, UpTo(base, spec, more))
    ensures PlainUserSecrets(after.store)
  {
    hide Rolled;
    forall store: Store | UpTo(base, spec, less)(store)
      ensures UpTo(base, spec, more)(store)
    {
    }
  }

  // --- The whole component ---

  lemma ShrinkRolls(w: World, o: Oracle, spec: AstarteSpec)
    requires PlainUserSecrets(w.store)
    ensures var (after, ok) := Exec(w, o, [Shrink(Target(spec))]);
            && Throughout(w, after, InStage(FleetOf(w.store), spec)) && PlainUserSecrets(after.store)
            && (ok ==> FleetOf(after.store) == Kept(FleetOf(w.store), Target(spec)))
            && (ok ==> Visits(w, after, Kept(FleetOf(w.store), Target(spec))))
  {
    hide Read, Write, Exec, FleetOf, PlainUserSecrets, Stage, DUPs, Throughout, Visits, Target;
    var fleet, inv := FleetOf(w.store), InStage(FleetOf(w.store), spec);
    var w1 := Read(w, o).0;
    ShrinkCases(w, o, Target(spec));
    ReadFleet(w, o);
    BeforeAndKeptAreStages(fleet, spec);
    DropFleet(w1.store);
    DropFleetTrace(w1, o);
    CallThroughout(w, w1, inv);
    CallVisits(w, w1);
    if Read(w, o).1 && |DUPs(w1.store)| > Target(spec) {
      var w2 := Write(w1, o, DropDUPs).0;
      CallThroughout(w1, w2, inv);
      CallVisits(w1, w2);
      ThroughoutTransitive(w, w1, w2, inv);
      if Write(w1, o, DropDUPs).1 {
        VisitsLater(w, w1, w2, map[]);
      }
    }
  }

  lemma ShrinkCases(w: World, o: Oracle, limit: int)
    ensures Exec(w, o, [Shrink(limit)]) ==
            var (w1, ok) := Read(w, o);
            if ok && |DUPs(w1.store)| > limit then Write(w1, o, DropDUPs) else (w1, ok)
  {
    ExecAt(w, o, [Shrink(limit)], 0);
  }

  lemma ReadFleet(w: World, o: Oracle)
    ensures OneCall(w, Read(w, o).0) && FleetOf(Read(w, o).0.store) == FleetOf(w.store)
    ensures PlainUserSecrets(w.store) ==> PlainUserSecrets(Read(w, o).0.store)
  {
    OthersKeepFleet(o(w.calls).action, w.store);
  }

  lemma DropFleetTrace(w: World, o: Oracle)
    ensures var (after, ok) := Write(w, o, DropDUPs);
            && OneCall(w, after) && (PlainUserSecrets(w.store) ==> PlainUserSecrets(after.store))
            && FleetOf(after.store) == if ok || o(w.calls).outcome == Landed then map[] else FleetOf(w.store)
  {
    OthersKeepFleet(o(w.calls).action, w.store);
    DropFleet(StoreAfter(o(w.calls).action, w.store));
  }

  lemma DropFleet(store: Store)
    ensures |DUPs(store)| == |FleetOf(store)|
    ensures FleetOf(store - DUPs(store)) == map[]
    ensures PlainUserSecrets(store) ==> PlainUserSecrets(store - DUPs(store))
  {
    assert FleetOf(store).Keys == DUPs(store);
  }

  lemma BeforeAndKeptAreStages(fleet: Fleet, spec: AstarteSpec)
    ensures Stage(fleet, fleet, spec) && Stage(Kept(fleet, Target(spec)), fleet, spec)
  {
    assert IsRolled(Kept(fleet, Target(spec)), fleet, spec, 0);
  }

  lemma ShrinksToTarget(spec: AstarteSpec)
    ensures DUPSteps(spec) == [Shrink(Target(spec))] + RestOfDUP(spec)
  {
    DUPStepsSplit(spec);
  }

  lemma SingleSplit(spec: AstarteSpec)
    requires spec.Deploys(DataUpdaterPlant) && spec.Replicas() == 1
    ensures var first := RBACSteps(DUP(0)) + [Generate(Cookie(DUP(0))), Put(Service(DUP(0)), Auxiliary)];
            && AllAloof(first)
            && BackendSteps(spec, DataUpdaterPlant) == first + [Put(Running(DUP(0)), DUPDeployment(spec, 0, spec.Replicas()))]
  {
  }

  lemma SingleRolls(w: World, o: Oracle, base: Fleet, spec: AstarteSpec)
    requires PlainUserSecrets(w.store) && FleetOf(w.store) == base
    requires spec.Deploys(DataUpdaterPlant) && spec.Replicas() == 1
    ensures var (after, ok) := Exec(w, o, BackendSteps(spec, DataUpdaterPlant)); Rolls(w, after, ok, base, spec, 1)
  {
    hide Exec, FleetOf, PlainUserSecrets, Visits, BackendSteps, RBACSteps, AllAloof;
    var (after, ok) := Exec(w, o, BackendSteps(spec, DataUpdaterPlant));
    SingleSplit(spec);
    OneMore(w, o, RBACSteps(DUP(0)) + [Generate(Cookie(DUP(0))), Put(Service(DUP(0)), Auxiliary)], base, spec, 0);
    UpToGrows(w, after, base, spec, 1, 1);
  }

  lemma ManyRoll(w: World, o: Oracle, base: Fleet, spec: AstarteSpec)
    requires PlainUserSecrets(w.store) && FleetOf(w.store) == base
    ensures var (after, ok) := Exec(w, o, [Put(Service(DUP(0)), Auxiliary)] + IndexedSteps(spec, spec.Replicas()));
            Rolls(w, after, ok, base, spec, spec.Replicas())
  {
    hide Exec, FleetOf, PlainUserSecrets, Visits, Rolls, IndexedSteps;
    var first, last := [Put(Service(DUP(0)), Auxiliary)], IndexedSteps(spec, spec.Replicas());
    assert AllAloof(first);
    var (w1, ok) := Exec(w, o, first);
    ExecAppend(w, o, first, last);
    AloofThroughout(w, o, first);
    SameFleet(w1.store, base);
    if ok {
      IndexedRolls(w1, o, base, spec, spec.Replicas());
      RollsAfterAloof(w, w1, Exec(w1, o, last).0, Exec(w1, o, last).1, base, spec, spec.Replicas());
    } else {
      AloofRolls(w, w1, base, spec, spec.Replicas());
    }
  }

  lemma RollsAfterAloof(a: World, b: World, c: World, ok: bool, base: Fleet, spec: AstarteSpec, count: int)
    requires Throughout(a, b, FleetIs(base)) && Rolls(b, c, ok, base, spec, count)
    ensures Rolls(a, c, ok, base, spec, count)
  {
    hide FleetOf, PlainUserSecrets, Visits;
    AloofRolls(a, b, base, spec, count);
    ThroughoutTransitive(a, b, c, UpTo(base, spec, count));
    if ok {
      forall i: nat | 0 < i <= count ensures Visits(a, c, Rolled(base, spec, i)) {
        VisitsLater(a, b, c, Rolled(base, spec, i));
      }
    }
  }

  lemma AloofRolls(before: World, after: World, base: Fleet, spec: AstarteSpec, count: int)
    requires Throughout(before, after, FleetIs(base))
    ensures Rolls(before, after, false, base, spec, count)
  {
    RolledIsPartly(base, spec, 0, count);
    forall store: Store | FleetIs(base)(store)
      ensures UpTo(base, spec, count)(store)
    {
    }
  }

  /** The fleets that a whole reconcile passes through, in order, when it gets that far. */
  ghost predicate Reconciled(before: World, after: World, ok: bool, spec: AstarteSpec) {
    var fleet, target := FleetOf(before.store), Target(spec);
    && Throughout(before, after, InStage(fleet, spec))
    && PlainUserSecrets(after.store)
    && (ok ==> FleetOf(after.store) == Rolled(Kept(fleet, target), spec, target))
    && (ok ==> forall i: nat :: i == 0 || i <= target ==> Visits(before, after, Rolled(Kept(fleet, target), spec, i)))
  }

  lemma RestRolls(w: World, o: Oracle, base: Fleet, spec: AstarteSpec)
    requires PlainUserSecrets(w.store) && FleetOf(w.store) == base
    ensures var (after, ok) := Exec(w, o, RestOfDUP(spec)); Rolls(w, after, ok, base, spec, Target(spec))
  {
    hide Exec, FleetOf, PlainUserSecrets, Rolls, IndexedSteps, BackendSteps;
    if !spec.Deploys(DataUpdaterPlant) {
      NoneRolls(w, o, base, spec, -1);
      assert IndexedSteps(spec, -1) == [] by { NoSteps(spec); }
    } else if spec.Replicas() == 1 {
      SingleRolls(w, o, base, spec);
    } else {
      ManyRoll(w, o, base, spec);
    }
  }

  lemma NoSteps(spec: AstarteSpec)
    ensures IndexedSteps(spec, -1) == []
  {
  }

  lemma DUPReconciles(w: World, o: Oracle, spec: AstarteSpec)
    requires PlainUserSecrets(w.store)
    ensures var (after, ok) := Exec(w, o, DUPSteps(spec)); Reconciled(w, after, ok, spec)
  {
    hide Exec, FleetOf, PlainUserSecrets, Rolls, RestOfDUP, DUPSteps, Visits, Target, Kept, Stage;
    var fleet, base, first, rest := FleetOf(w.store), Kept(FleetOf(w.store), Target(spec)), [Shrink(Target(spec))], RestOfDUP(spec);
    var (w1, ok) := Exec(w, o, first);
    ShrinksToTarget(spec);
    ExecAppend(w, o, first, rest);
    ShrinkRolls(w, o, spec);
    if ok {
      RestRolls(w1, o, base, spec);
      Joined(w, w1, Exec(w1, o, rest).0, Exec(w1, o, rest).1, spec);
    }
  }

  lemma Joined(a: World, b: World, c: World, ok: bool, spec: AstarteSpec)
    requires Throughout(a, b, InStage(FleetOf(a.store), spec))
    requires Visits(a, b, Kept(FleetOf(a.store), Target(spec)))
    requires Rolls(b, c, ok, Kept(FleetOf(a.store), Target(spec)), spec, Target(spec))
    ensures Reconciled(a, c, ok, spec)
  {
    hide FleetOf, PlainUserSecrets, Visits, Target, Kept, Rolled, Stage, Partly;
    var fleet, target := FleetOf(a.store), Target(spec);
    var base := Kept(fleet, target);
    forall store: Store | UpTo(base, spec, target)(store) ensures InStage(fleet, spec)(store) {
      PartlyIsStage(FleetOf(store), fleet, spec);
    }
    ThroughoutTransitive(a, b, c, InStage(fleet, spec));
    if ok {
      RolledZero(base, spec);
      forall i: nat | i == 0 || i <= target ensures Visits(a, c, Rolled(base, spec, i)) {
        if i == 0 {
          VisitsEarlier(a, b, c, base);
        } else {
          VisitsLater(a, b, c, Rolled(base, spec, i));
        }
      }
    }
  }

  lemma PartlyIsStage(fleet: Fleet, before: Fleet, spec: AstarteSpec)
    requires Partly(fleet, Kept(before, Target(spec)), spec, Target(spec))
    ensures Stage(fleet, before, spec)
  {
    hide Rolled, Kept, Target;
    var done: nat :| (done == 0 || done <= Target(spec)) && fleet == Rolled(Kept(before, Target(spec)), spec, done);
    assert IsRolled(fleet, before, spec, done);
  }

  lemma RolledZero(base: Fleet, spec: AstarteSpec)
    ensures Rolled(base, spec, 0) == base
  {
  }

  // --- The whole reconcile ---

  ghost function BeforeDUP(spec: AstarteSpec): seq<Step> {
    BaseSteps() + PrioritySteps(spec) + CFSSLSteps(spec) + APISteps(spec, Housekeeping) + APISteps(spec, RealmManagement) +
    APISteps(spec, Pairing) + APISteps(spec, FlowComponent) + BackendSteps(spec, TriggerEngine)
  }

  ghost function AfterDUP(spec: AstarteSpec): seq<Step> {
    APISteps(spec, AppEngineAPI) + VerneMQSteps(spec) + DashboardSteps(spec)
  }

  lemma PlanSplit(spec: AstarteSpec)
    ensures Plan(spec) == BeforeDUP(spec) + (DUPSteps(spec) + AfterDUP(spec))
  {
    hide BaseSteps, PrioritySteps, CFSSLSteps, APISteps, BackendSteps, DUPSteps, VerneMQSteps, DashboardSteps;
  }

  lemma AloofAppend(a: seq<Step>, b: seq<Step>)
    ensures AllAloof(a + b) <==> AllAloof(a) && AllAloof(b)
  {
    if AllAloof(a + b) {
      forall step <- a ensures Aloof(step) { assert step in a + b; }
      forall step <- b ensures Aloof(step) { assert step in a + b; }
    }
  }

  lemma APIIsAloof(spec: AstarteSpec, component: Component)
    requires component != DataUpdaterPlant
    ensures AllAloof(APISteps(spec, component))
  {
  }

  lemma BackendIsAloof(spec: AstarteSpec)
    ensures AllAloof(BackendSteps(spec, TriggerEngine))
  {
  }

  lemma CFSSLIsAloof(spec: AstarteSpec)
    ensures AllAloof(CFSSLSteps(spec))
  {
  }

  lemma BaseIsAloof(spec: AstarteSpec)
    ensures AllAloof(BaseSteps() + PrioritySteps(spec))
  {
  }

  lemma AfterIsAloof(spec: AstarteSpec)
    ensures AllAloof(VerneMQSteps(spec)) && AllAloof(DashboardSteps(spec))
  {
  }

  lemma RestIsAloof(spec: AstarteSpec)
    ensures AllAloof(BeforeDUP(spec)) && AllAloof(AfterDUP(spec))
  {
    hide AllAloof, BaseSteps, PrioritySteps, CFSSLSteps, APISteps, BackendSteps, VerneMQSteps, DashboardSteps;
    BaseIsAloof(spec);
    CFSSLIsAloof(spec);
    APIIsAloof(spec, Housekeeping);
    APIIsAloof(spec, RealmManagement);
    APIIsAloof(spec, Pairing);
    APIIsAloof(spec, FlowComponent);
    BackendIsAloof(spec);
    APIIsAloof(spec, AppEngineAPI);
    AfterIsAloof(spec);
    var s1 := BaseSteps() + PrioritySteps(spec);
    var s2 := s1 + CFSSLSteps(spec);
    var s3 := s2 + APISteps(spec, Housekeeping);
    var s4 := s3 + APISteps(spec, RealmManagement);
    var s5 := s4 + APISteps(spec, Pairing);
    var s6 := s5 + APISteps(spec, FlowComponent);
    AloofAppend(s1, CFSSLSteps(spec));
    AloofAppend(s2, APISteps(spec, Housekeeping));
    AloofAppend(s3, APISteps(spec, RealmManagement));
    AloofAppend(s4, APISteps(spec, Pairing));
    AloofAppend(s5, APISteps(spec, FlowComponent));
    AloofAppend(s6, BackendSteps(spec, TriggerEngine));
    AloofAppend(APISteps(spec, AppEngineAPI), VerneMQSteps(spec));
    AloofAppend(APISteps(spec, AppEngineAPI) + VerneMQSteps(spec), DashboardSteps(spec));
  }

  /** Every state of a reconcile, whatever fails, is one of the stages; a reconcile that succeeds
      passes through all of them. */
  lemma PlanReconciles(w: World, o: Oracle, spec: AstarteSpec)
    requires PlainUserSecrets(w.store)
    ensures var (after, ok) := Exec(w, o, Plan(spec)); Reconciled(w, after, ok, spec)
  {
    hide Exec, FleetOf, PlainUserSecrets, BeforeDUP, AfterDUP, DUPSteps, AllAloof, Reconciled, Plan;
    var first, middle, last := BeforeDUP(spec), DUPSteps(spec), AfterDUP(spec);
    PlanSplit(spec);
    RestIsAloof(spec);
    var (w1, ok1) := Exec(w, o, first);
    ExecAppend(w, o, first, middle + last);
    AloofThroughout(w, o, first);
    SameFleet(w1.store, FleetOf(w.store));
    if !ok1 {
      AloofReconciles(w, w1, spec);
    } else {
      var (w2, ok2) := Exec(w1, o, middle);
      ExecAppend(w1, o, middle, last);
      DUPReconciles(w1, o, spec);
      ReconciledLater(w, w1, w2, ok2, spec);
      if ok2 {
        ReconciledIsPlain(w, w2, ok2, spec);
        AloofThroughout(w2, o, last);
        ReconciledLonger(w, w2, Exec(w2, o, last).0, spec, Exec(w2, o, last).1);
      }
    }
  }

  lemma ReconciledIsPlain(before: World, after: World, ok: bool, spec: AstarteSpec)
    requires Reconciled(before, after, ok, spec)
    ensures PlainUserSecrets(after.store)
  {
  }

  lemma AloofStage(before: World, after: World, fleet: Fleet, was: Fleet, spec: AstarteSpec)
    requires Throughout(before, after, FleetIs(fleet)) && Stage(fleet, was, spec)
    ensures Throughout(before, after, InStage(was, spec)) && PlainUserSecrets(after.store)
  {
    hide FleetOf, PlainUserSecrets, Stage;
    forall store: Store | FleetIs(fleet)(store) ensures InStage(was, spec)(store) {}
  }

  lemma AloofReconciles(before: World, after: World, spec: AstarteSpec)
    requires Throughout(before, after, FleetIs(FleetOf(before.store)))
    ensures Reconciled(before, after, false, spec)
  {
    BeforeAndKeptAreStages(FleetOf(before.store), spec);
    AloofStage(before, after, FleetOf(before.store), FleetOf(before.store), spec);
  }

  lemma ReconciledLater(a: World, b: World, c: World, ok: bool, spec: AstarteSpec)
    requires Throughout(a, b, FleetIs(FleetOf(a.store))) && Reconciled(b, c, ok, spec)
    ensures Reconciled(a, c, ok, spec)
  {
    var fleet := FleetOf(a.store);
    assert FleetOf(b.store) == fleet;
    hide FleetOf, PlainUserSecrets, Visits, Kept, Rolled, Target;
    AloofReconciles(a, b, spec);
    ThroughoutTransitive(a, b, c, InStage(fleet, spec));
    if ok {
      forall i: nat | i == 0 || i <= Target(spec) ensures Visits(a, c, Rolled(Kept(fleet, Target(spec)), spec, i)) {
        VisitsLater(a, b, c, Rolled(Kept(fleet, Target(spec)), spec, i));
      }
    }
  }

  lemma ReconciledLonger(a: World, b: World, c: World, spec: AstarteSpec, ok: bool)
    requires Reconciled(a, b, true, spec) && Throughout(b, c, FleetIs(FleetOf(b.store)))
    ensures Reconciled(a, c, ok, spec)
  {
    var fleet, target := FleetOf(a.store), Target(spec);
    FinalIsStage(fleet, spec);
    AloofStage(b, c, FleetOf(b.store), fleet, spec);
    assert FleetOf(c.store) == FleetOf(b.store);
    hide FleetOf, PlainUserSecrets, Visits, Kept, Rolled, Target;
    ThroughoutTransitive(a, b, c, InStage(fleet, spec));
    forall i: nat | i == 0 || i <= target ensures Visits(a, c, Rolled(Kept(fleet, target), spec, i)) {
      VisitsEarlier(a, b, c, Rolled(Kept(fleet, target), spec, i));
    }
  }

  lemma FinalIsStage(fleet: Fleet, spec: AstarteSpec)
    ensures Stage(Rolled(Kept(fleet, Target(spec)), spec, Target(spec)), fleet, spec)
  {
    var base, target := Kept(fleet, Target(spec)), Target(spec);
    assert IsRolled(Rolled(base, spec, target), fleet, spec, if target <= 0 then 0 else target);
  }
}
