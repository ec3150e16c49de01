/**
 What the rollout means for the data queues: when two Data Updater Plant Deployments can hold the
 same queue, which runs keep every queue in at most one hand, and where repeated reconciles end.
 */
module Sharding {
  import opened Specs
  import opened Queues
  import opened Cluster
  import opened Plans
  import opened Discipline
  import opened Invariants
  import opened Rollout

  // --- Who consumes what ---

  ghost predicate Consumes(fleet: Fleet, key: Key, queue: int) {
    && key in fleet && fleet[key].Deployment? && fleet[key].shard.Some?
    && fleet[key].shard.value.range.Holds(queue)
  }

  /** No queue is in two hands. */
  ghost predicate NoOverlap(fleet: Fleet) {
    forall a, b, queue :: Consumes(fleet, a, queue) && Consumes(fleet, b, queue) ==> a == b
  }

  ghost function WithoutOverlap(): Store -> bool {
    store => NoOverlap(FleetOf(store))
  }

  /** The fleet consists of Deployments 0, 1, ... whose ranges were computed for these layouts. */
  ghost predicate Deployed(fleet: Fleet, layouts: seq<Layout>) {
    && (forall key <- fleet :: key.Running? && key.workload.DUP? && key.workload.index < |layouts|)
    && forall i: nat :: i < |layouts| ==>
         && layouts[i].replicas > i
         && Running(DUP(i)) in fleet
         && fleet[Running(DUP(i))].Deployment?
         && fleet[Running(DUP(i))].shard == Some(Shard(i, layouts[i].replicas, layouts[i].ShareOf(i)))
  }

  ghost predicate Valid(layouts: seq<Layout>) {
    forall i :: 0 <= i < |layouts| ==> layouts[i].replicas > i
  }

  /** The ranges of two replicas share no queue. */
  ghost predicate Apart(layouts: seq<Layout>, i: int, j: int)
    requires 0 <= i < |layouts| && 0 <= j < |layouts|
  {
    forall queue :: !(layouts[i].ShareOf(i).Holds(queue) && layouts[j].ShareOf(j).Holds(queue))
  }

  ghost predicate Disjoint(layouts: seq<Layout>) {
    forall i, j :: 0 <= i < j < |layouts| ==> Apart(layouts, i, j)
  }

  lemma OverlapByLayouts(fleet: Fleet, layouts: seq<Layout>)
    requires Deployed(fleet, layouts)
    ensures NoOverlap(fleet) <==> Disjoint(layouts)
  {
    hide Share;
    if NoOverlap(fleet) {
      forall i, j | 0 <= i < j < |layouts| ensures Apart(layouts, i, j) {
        forall queue ensures !(layouts[i].ShareOf(i).Holds(queue) && layouts[j].ShareOf(j).Holds(queue)) {
          assert Consumes(fleet, Running(DUP(i)), queue) <==> layouts[i].ShareOf(i).Holds(queue);
          assert Consumes(fleet, Running(DUP(j)), queue) <==> layouts[j].ShareOf(j).Holds(queue);
        }
      }
    }
    if Disjoint(layouts) {
      forall i, j | 0 <= i < j < |layouts|
        ensures forall queue :: layouts[i].ShareOf(i).Holds(queue) ==> !layouts[j].ShareOf(j).Holds(queue)
      {
        assert Apart(layouts, i, j);
      }
      forall a, b, queue | Consumes(fleet, a, queue) && Consumes(fleet, b, queue) ensures a == b {
        var i, j := a.workload.index, b.workload.index;
        assert a == Running(DUP(i)) && b == Running(DUP(j));
      }
    }
  }

  // --- Layouts during a rollout ---

  /** What a reconcile computes ranges from. */
  function Aim(spec: AstarteSpec): Layout {
    Layout(spec.Queues(), Target(spec))
  }

  function RolledLayouts(layouts: seq<Layout>, target: Layout, done: nat): seq<Layout> {
    seq(if done < |layouts| then |layouts| else done, i requires 0 <= i => if i < done || i >= |layouts| then target else layouts[i])
  }

  function KeptLayouts(layouts: seq<Layout>, target: int): seq<Layout> {
    if |layouts| > target then [] else layouts
  }

  lemma {:induction false} RolledDeployed(fleet: Fleet, layouts: seq<Layout>, spec: AstarteSpec, done: nat)
    requires Deployed(fleet, layouts) && (done == 0 || done <= spec.Replicas())
    ensures Deployed(Rolled(fleet, spec, done), RolledLayouts(layouts, Layout(spec.Queues(), spec.Replicas()), done))
  {
    hide Deployed, RolledLayouts, DUPDeployment;
    var target := Layout(spec.Queues(), spec.Replicas());
    if done == 0 {
      NoLayouts(layouts, target);
    } else {
      RolledDeployed(fleet, layouts, spec, done - 1);
      NextLayouts(layouts, target, done);
      OneMoreDeployed(Rolled(fleet, spec, done - 1), RolledLayouts(layouts, target, done - 1), spec, done - 1);
    }
  }

  lemma NoLayouts(layouts: seq<Layout>, target: Layout)
    ensures RolledLayouts(layouts, target, 0) == layouts
  {
  }

  lemma NextLayouts(layouts: seq<Layout>, target: Layout, done: nat)
    requires done > 0
    ensures var before := RolledLayouts(layouts, target, done - 1);
            done - 1 <= |before| && RolledLayouts(layouts, target, done) == if done - 1 < |before| then before[done - 1 := target] else before + [target]
  {
  }

  lemma OneMoreDeployed(fleet: Fleet, layouts: seq<Layout>, spec: AstarteSpec, index: nat)
    requires Deployed(fleet, layouts) && index <= |layouts| && index < spec.Replicas()
    ensures var target := Layout(spec.Queues(), spec.Replicas());
            Deployed(fleet[Running(DUP(index)) := DUPDeployment(spec, index, spec.Replicas())],
                     if index < |layouts| then layouts[index := target] else layouts + [target])
  {
  }

  lemma LayoutsGiveSize(fleet: Fleet, layouts: seq<Layout>)
    requires Deployed(fleet, layouts)
    ensures |fleet| == |layouts|
  {
    Numbered(|layouts|);
    assert fleet.Keys == Targets(|layouts|) by {
      forall key ensures key in fleet.Keys <==> key in Targets(|layouts|) {}
    }
    assert |fleet| == |fleet.Keys|;
  }

  /** The Deployments a reconcile with this many replicas names. */
  ghost function Targets(target: int): set<Key> {
    set i: nat | i < target :: Running(DUP(i))
  }

  lemma {:induction false} Numbered(n: int)
    ensures |Targets(n)| == if n <= 0 then 0 else n
  {
    if n <= 0 {
      assert Targets(n) == {};
    } else {
      Numbered(n - 1);
      assert Targets(n) == Targets(n - 1) + {Running(DUP(n - 1))};
    }
  }

  /** Every fleet of a reconcile, by layouts. */
  lemma StageByLayouts(fleet: Fleet, before: Fleet, layouts: seq<Layout>, spec: AstarteSpec)
    requires Deployed(before, layouts) && Stage(fleet, before, spec)
    ensures || fleet == before
            || exists done: nat :: (done == 0 || done <= Target(spec)) &&
                 Deployed(fleet, RolledLayouts(KeptLayouts(layouts, Target(spec)), Aim(spec), done))
  {
    if fleet != before {
      var done: nat :| IsRolled(fleet, before, spec, done);
      RolledByLayouts(before, layouts, spec, done);
    }
  }

  lemma RolledByLayouts(before: Fleet, layouts: seq<Layout>, spec: AstarteSpec, done: nat)
    requires Deployed(before, layouts) && (done == 0 || done <= Target(spec))
    ensures Deployed(Rolled(Kept(before, Target(spec)), spec, done), RolledLayouts(KeptLayouts(layouts, Target(spec)), Aim(spec), done))
  {
    LayoutsGiveSize(before, layouts);
    var kept := KeptLayouts(layouts, Target(spec));
    assert Deployed(Kept(before, Target(spec)), kept);
    if done > 0 {
      RolledDeployed(Kept(before, Target(spec)), kept, spec, done);
    } else {
      assert RolledLayouts(kept, Aim(spec), 0) == kept;
    }
  }

  // --- When ranges meet ---

  /** What a caller can check before a rollout: either everything goes first, or no new range can
      run into the old range of a replica behind it. */
  predicate Smooth(layouts: seq<Layout>, target: Layout)
    requires Valid(layouts)
  {
    || |layouts| > target.replicas
    || forall j :: 1 <= j < |layouts| ==> Compatible(target, layouts[j], j)
  }

  lemma SmoothStaysDisjoint(layouts: seq<Layout>, target: Layout, done: nat)
    requires Valid(layouts) && Disjoint(layouts) && Smooth(layouts, target)
    requires done == 0 || done <= target.replicas
    ensures Disjoint(RolledLayouts(KeptLayouts(layouts, target.replicas), target, done))
  {
    hide Share, Compatible, Disjoint;
    var kept := KeptLayouts(layouts, target.replicas);
    var after := RolledLayouts(kept, target, done);
    KeptIsDisjoint(layouts, target.replicas);
    forall i, j | 0 <= i < j < |after| ensures Apart(after, i, j) {
      if i < done && done <= j < |kept| {
        MixedRangesCollideExactlyWhen(target, kept[j], j);
        NotColliding(target, kept[j], j, i);
      } else if j < done || j >= |kept| {
        SameLayoutApart(target, i, j);
      } else {
        StillApart(kept, i, j);
      }
    }
    AllApart(after);
  }

  lemma KeptIsDisjoint(layouts: seq<Layout>, target: int)
    requires Disjoint(layouts)
    ensures Disjoint(KeptLayouts(layouts, target))
  {
  }

  lemma StillApart(layouts: seq<Layout>, i: int, j: int)
    requires Disjoint(layouts) && 0 <= i < j < |layouts|
    ensures Apart(layouts, i, j)
  {
  }

  lemma AllApart(layouts: seq<Layout>)
    requires forall i, j :: 0 <= i < j < |layouts| ==> Apart(layouts, i, j)
    ensures Disjoint(layouts)
  {
  }

  lemma NotColliding(target: Layout, stale: Layout, index: int, other: int)
    requires 0 <= other < index && !Collides(target, stale, index)
    ensures forall queue :: !(target.ShareOf(other).Holds(queue) && stale.ShareOf(index).Holds(queue))
  {
  }

  lemma SameLayoutApart(layout: Layout, i: int, j: int)
    requires 0 <= i < j < layout.replicas
    ensures forall queue :: !(layout.ShareOf(i).Holds(queue) && layout.ShareOf(j).Holds(queue))
  {
    hide Share;
    forall queue ensures !(layout.ShareOf(i).Holds(queue) && layout.ShareOf(j).Holds(queue)) {
      SharesPartitionTheQueues(layout.queues, layout.replicas, i, queue);
      SharesPartitionTheQueues(layout.queues, layout.replicas, j, queue);
    }
  }

  lemma RoughOverlaps(layouts: seq<Layout>, target: Layout) returns (done: nat)
    requires Valid(layouts) && !Smooth(layouts, target)
    ensures done <= target.replicas && !Disjoint(RolledLayouts(KeptLayouts(layouts, target.replicas), target, done))
  {
    hide Share;
    var j :| 1 <= j < |layouts| && !Compatible(target, layouts[j], j);
    MixedRangesCollideExactlyWhen(target, layouts[j], j);
    done := j;
    var after := RolledLayouts(layouts, target, j);
    assert after[j] == layouts[j] && KeptLayouts(layouts, target.replicas) == layouts;
    var other, queue :| 0 <= other < j && target.ShareOf(other).Holds(queue) && layouts[j].ShareOf(j).Holds(queue);
    assert after[other] == target;
    assert !Apart(after, other, j);
  }

  /** A reconcile that succeeds kept every queue in one hand at every state exactly when its start
      was smooth; from a smooth start so does a reconcile that is interrupted anywhere. The ranges
      found may stem from any replica counts and any queue counts. */
  lemma NoOverlapExactlyWhenSmooth(w: World, o: Oracle, spec: AstarteSpec, layouts: seq<Layout>)
    requires PlainUserSecrets(w.store)
    requires Deployed(FleetOf(w.store), layouts) && NoOverlap(FleetOf(w.store))
    ensures Valid(layouts)
    ensures Smooth(layouts, Aim(spec)) ==> Throughout(w, Exec(w, o, Plan(spec)).0, WithoutOverlap())
    ensures Exec(w, o, Plan(spec)).1 && Throughout(w, Exec(w, o, Plan(spec)).0, WithoutOverlap()) ==>
              Smooth(layouts, Aim(spec))
  {
    hide Exec, Plan, FleetOf, PlainUserSecrets, Disjoint, NoOverlap, Smooth, Rolled, Target, Kept, Stage;
    var (after, ok) := Exec(w, o, Plan(spec));
    var fleet := FleetOf(w.store);
    assert Valid(layouts);
    PlanReconciles(w, o, spec);
    OverlapByLayouts(fleet, layouts);
    if Smooth(layouts, Aim(spec)) {
      forall store: Store | InStage(fleet, spec)(store) ensures WithoutOverlap()(store) {
        SmoothStages(FleetOf(store), fleet, layouts, spec);
      }
      Weaken(w, after, InStage(fleet, spec), WithoutOverlap());
    } else if ok {
      var done := RoughOverlaps(layouts, Aim(spec));
      RolledByLayouts(fleet, layouts, spec, done);
      var meeting := Rolled(Kept(fleet, Target(spec)), spec, done);
      OverlapByLayouts(meeting, RolledLayouts(KeptLayouts(layouts, Target(spec)), Aim(spec), done));
      assert Visits(w, after, meeting);
    }
  }

  lemma SmoothStages(fleet: Fleet, before: Fleet, layouts: seq<Layout>, spec: AstarteSpec)
    requires Deployed(before, layouts) && Valid(layouts) && Disjoint(layouts)
    requires Smooth(layouts, Aim(spec)) && Stage(fleet, before, spec)
    ensures NoOverlap(fleet)
  {
    hide Disjoint, NoOverlap, Smooth, Deployed, Stage, Target, RolledLayouts, KeptLayouts;
    StageByLayouts(fleet, before, layouts, spec);
    if fleet == before {
      OverlapByLayouts(fleet, layouts);
    } else {
      var done: nat :| (done == 0 || done <= Target(spec)) &&
        Deployed(fleet, RolledLayouts(KeptLayouts(layouts, Target(spec)), Aim(spec), done));
      SmoothStaysDisjoint(layouts, Aim(spec), done);
      OverlapByLayouts(fleet, RolledLayouts(KeptLayouts(layouts, Target(spec)), Aim(spec), done));
    }
  }

  // --- Runs ---

  /** The specification wants Data Updater Plant Deployments. */
  predicate Scales(spec: AstarteSpec) {
    Target(spec) >= 1
  }

  /** If it wants any, the queue count is the same, and after a reconcile that did not finish the
      replica count is no lower; `last` and `finished` tell about the last reconcile that wanted any. */
  predicate Permitted(spec: AstarteSpec, queues: int, last: int, finished: bool) {
    Scales(spec) ==> spec.Queues() == queues && (finished || last <= Target(spec))
  }

  function NextLast(spec: AstarteSpec, last: int): int {
    if Scales(spec) then Target(spec) else last
  }

  /** A reconcile that wants none and succeeds makes up for one that did not finish. */
  predicate NextFinished(spec: AstarteSpec, finished: bool, ok: bool) {
    ok || (finished && !Scales(spec))
  }

  /** A run of permitted reconciles. */
  ghost predicate Steady(w: World, o: Oracle, specs: seq<AstarteSpec>, queues: int, last: int, finished: bool)
    decreases |specs|
  {
    specs == [] ||
    var (w1, ok) := Exec(w, o, Plan(specs[0]));
    && Permitted(specs[0], queues, last, finished)
    && Steady(w1, o, specs[1..], queues, NextLast(specs[0], last), NextFinished(specs[0], finished, ok))
  }

  /** What a steady run keeps: replica counts fall with the index and stay within reach. */
  ghost predicate Calm(layouts: seq<Layout>, queues: int, last: int, finished: bool) {
    && Valid(layouts)
    && (forall i :: 0 <= i < |layouts| ==> layouts[i].queues == queues)
    && (forall i, j :: 0 <= i < j < |layouts| ==> layouts[i].replicas >= layouts[j].replicas)
    && (forall i :: 0 <= i < |layouts| ==> layouts[i].replicas <= last || layouts[i].replicas <= |layouts|)
    && (finished ==> forall i :: 0 <= i < |layouts| ==> layouts[i].replicas == |layouts|)
  }

  lemma CalmIsDisjoint(layouts: seq<Layout>, queues: int, last: int, finished: bool)
    requires Calm(layouts, queues, last, finished)
    ensures Disjoint(layouts)
  {
    hide Share;
    forall i, j | 0 <= i < j < |layouts| ensures Apart(layouts, i, j) {
      MixedRangesCollideExactlyWhen(layouts[i], layouts[j], j);
      GrowingIsCompatible(queues, layouts[i].replicas, layouts[j].replicas, j);
      NotColliding(layouts[i], layouts[j], j, i);
    }
  }

  lemma CalmGoesOn(layouts: seq<Layout>, queues: int, last: int, finished: bool, target: int)
    requires Calm(layouts, queues, last, finished) && (finished || last <= target)
    ensures Calm(layouts, queues, target, false)
    ensures forall done: nat :: done == 0 || done <= target ==>
              Calm(RolledLayouts(KeptLayouts(layouts, target), Layout(queues, target), done), queues, target, done == target || target <= 0)
  {
  }

  ghost predicate CalmFleet(fleet: Fleet, queues: int, last: int, finished: bool) {
    exists layouts :: Deployed(fleet, layouts) && Calm(layouts, queues, last, finished)
  }

  lemma CalmFleetHasNoOverlap(fleet: Fleet, queues: int, last: int, finished: bool)
    requires CalmFleet(fleet, queues, last, finished)
    ensures NoOverlap(fleet)
  {
    hide Deployed, Calm, Disjoint;
    var layouts :| Deployed(fleet, layouts) && Calm(layouts, queues, last, finished);
    CalmIsDisjoint(layouts, queues, last, finished);
    OverlapByLayouts(fleet, layouts);
  }

  lemma CalmStages(fleet: Fleet, before: Fleet, spec: AstarteSpec, last: int, finished: bool)
    requires CalmFleet(before, spec.Queues(), last, finished) && (finished || last <= Target(spec))
    requires Stage(fleet, before, spec)
    ensures CalmFleet(fleet, spec.Queues(), Target(spec), false)
  {
    hide Deployed, Calm, Stage, Target, RolledLayouts, KeptLayouts;
    var layouts :| Deployed(before, layouts) && Calm(layouts, spec.Queues(), last, finished);
    StageByLayouts(fleet, before, layouts, spec);
    CalmGoesOn(layouts, spec.Queues(), last, finished, Target(spec));
    if fleet != before {
      var done: nat :| (done == 0 || done <= Target(spec)) &&
        Deployed(fleet, RolledLayouts(KeptLayouts(layouts, Target(spec)), Aim(spec), done));
      CalmUnfinished(RolledLayouts(KeptLayouts(layouts, Target(spec)), Aim(spec), done), spec.Queues(), Target(spec), done == Target(spec) || Target(spec) <= 0);
    }
  }

  lemma CalmUnfinished(layouts: seq<Layout>, queues: int, last: int, finished: bool)
    requires Calm(layouts, queues, last, finished)
    ensures Calm(layouts, queues, last, false)
  {
  }

  lemma CalmFinal(before: Fleet, spec: AstarteSpec, last: int, finished: bool)
    requires CalmFleet(before, spec.Queues(), last, finished) && (finished || last <= Target(spec))
    ensures CalmFleet(Rolled(Kept(before, Target(spec)), spec, Target(spec)), spec.Queues(), Target(spec), true)
  {
    hide Deployed, Calm, Target, RolledLayouts, KeptLayouts, Kept;
    var target := Target(spec);
    var done := if target <= 0 then 0 else target;
    var layouts :| Deployed(before, layouts) && Calm(layouts, spec.Queues(), last, finished);
    RolledByLayouts(before, layouts, spec, done);
    CalmGoesOn(layouts, spec.Queues(), last, finished, target);
    assert Rolled(Kept(before, target), spec, target) == Rolled(Kept(before, target), spec, done);
  }

  /** In every steady run, interrupted anywhere, no two Deployments hold the same queue at any
      state, including those that mix old and new ranges. */
  lemma {:induction false} SteadyRunsNeverOverlap(w: World, o: Oracle, specs: seq<AstarteSpec>, queues: int, last: int, finished: bool)
    requires Steady(w, o, specs, queues, last, finished)
    requires PlainUserSecrets(w.store) && CalmFleet(FleetOf(w.store), queues, last, finished)
    ensures Throughout(w, Reconciles(w, o, specs), WithoutOverlap())
    decreases |specs|
  {
    hide Exec, Plan, FleetOf, PlainUserSecrets, CalmFleet, NoOverlap, Stage, Rolled, Kept, Visits, Target;
    if specs == [] {
      CalmFleetHasNoOverlap(FleetOf(w.store), queues, last, finished);
    } else {
      var (w1, ok) := Exec(w, o, Plan(specs[0]));
      SteadyReconcile(w, o, specs[0], queues, last, finished);
      SteadyRunsNeverOverlap(w1, o, specs[1..], queues, NextLast(specs[0], last), NextFinished(specs[0], finished, ok));
      ThroughoutTransitive(w, w1, Reconciles(w, o, specs), WithoutOverlap());
    }
  }

  lemma SteadyReconcile(w: World, o: Oracle, spec: AstarteSpec, queues: int, last: int, finished: bool)
    requires PlainUserSecrets(w.store) && CalmFleet(FleetOf(w.store), queues, last, finished)
    requires Permitted(spec, queues, last, finished)
    ensures var (after, ok) := Exec(w, o, Plan(spec));
            && Throughout(w, after, WithoutOverlap())
            && PlainUserSecrets(after.store)
            && CalmFleet(FleetOf(after.store), queues, NextLast(spec, last), NextFinished(spec, finished, ok))
  {
    hide Exec, Plan, FleetOf, PlainUserSecrets, CalmFleet, NoOverlap, Stage, Rolled, Kept, Visits, Target;
    if Scales(spec) {
      ScalingReconcile(w, o, spec, last, finished);
    } else {
      ClearingReconcile(w, o, spec, queues, last, finished);
    }
  }

  lemma ScalingReconcile(w: World, o: Oracle, spec: AstarteSpec, last: int, finished: bool)
    requires PlainUserSecrets(w.store) && CalmFleet(FleetOf(w.store), spec.Queues(), last, finished)
    requires finished || last <= Target(spec)
    ensures var (after, ok) := Exec(w, o, Plan(spec));
            && Throughout(w, after, WithoutOverlap())
            && PlainUserSecrets(after.store)
            && CalmFleet(FleetOf(after.store), spec.Queues(), Target(spec), ok)
  {
    hide Exec, Plan, FleetOf, PlainUserSecrets, CalmFleet, NoOverlap, Stage, Rolled, Kept, Visits, Target;
    var (after, ok) := Exec(w, o, Plan(spec));
    var fleet := FleetOf(w.store);
    PlanReconciles(w, o, spec);
    forall store: Store | InStage(fleet, spec)(store)
      ensures WithoutOverlap()(store) && CalmFleet(FleetOf(store), spec.Queues(), Target(spec), false)
    {
      CalmStages(FleetOf(store), fleet, spec, last, finished);
      CalmFleetHasNoOverlap(FleetOf(store), spec.Queues(), Target(spec), false);
    }
    Weaken(w, after, InStage(fleet, spec), WithoutOverlap());
    if ok {
      CalmFinal(fleet, spec, last, finished);
    }
  }

  /** When no Deployments are wanted, there are the old ones or none. */
  lemma ClearingReconcile(w: World, o: Oracle, spec: AstarteSpec, queues: int, last: int, finished: bool)
    requires PlainUserSecrets(w.store) && CalmFleet(FleetOf(w.store), queues, last, finished) && !Scales(spec)
    ensures var (after, ok) := Exec(w, o, Plan(spec));
            && Throughout(w, after, WithoutOverlap())
            && PlainUserSecrets(after.store)
            && CalmFleet(FleetOf(after.store), queues, last, ok || finished)
  {
    hide Exec, Plan, FleetOf, PlainUserSecrets, CalmFleet, NoOverlap, Stage, Rolled, Kept, Visits, Target;
    var (after, ok) := Exec(w, o, Plan(spec));
    var fleet := FleetOf(w.store);
    PlanReconciles(w, o, spec);
    forall store: Store | InStage(fleet, spec)(store)
      ensures WithoutOverlap()(store) && CalmFleet(FleetOf(store), queues, last, finished)
    {
      OldOrNone(FleetOf(store), fleet, spec);
      NoneIsCalm(queues, last, finished);
      CalmFleetHasNoOverlap(FleetOf(store), queues, last, finished);
    }
    Weaken(w, after, InStage(fleet, spec), WithoutOverlap());
    if ok {
      NoneIsLeft(fleet, spec);
      NoneIsCalm(queues, last, true);
    }
  }

  lemma OldOrNone(fleet: Fleet, before: Fleet, spec: AstarteSpec)
    requires !Scales(spec) && Stage(fleet, before, spec)
    ensures fleet == before || fleet == map[]
  {
  }

  lemma NoneIsLeft(before: Fleet, spec: AstarteSpec)
    requires !Scales(spec)
    ensures Rolled(Kept(before, Target(spec)), spec, Target(spec)) == map[]
  {
  }

  lemma NoneIsCalm(queues: int, last: int, finished: bool)
    ensures CalmFleet(map[], queues, last, finished)
  {
    assert Deployed(map[], []) && Calm([], queues, last, finished);
  }

  /** A cluster without any Data Updater Plant Deployment is a calm start. */
  lemma NoFleetIsCalm(queues: int, last: int)
    ensures CalmFleet(map[], queues, last, true)
  {
    NoneIsCalm(queues, last, true);
  }

  // --- Where it ends ---

  /** After a reconcile that succeeds: what was kept and what it names. */
  lemma {:induction false} RolledKeys(base: Fleet, spec: AstarteSpec, count: int)
    ensures Rolled(base, spec, count).Keys == base.Keys + Targets(count)
  {
    if count <= 0 {
      assert Targets(count) == {};
    } else {
      RolledKeys(base, spec, count - 1);
      assert Targets(count) == Targets(count - 1) + {Running(DUP(count - 1))};
    }
  }

  /** From any Deployments that carry the label, one successful reconcile leaves exactly replicas
      0, 1, ... if and only if there were too many to keep or none that should not be there. */
  lemma OneReconcileConvergesExactlyWhen(w: World, o: Oracle, spec: AstarteSpec)
    requires PlainUserSecrets(w.store) && Exec(w, o, Plan(spec)).1
    ensures FleetOf(Exec(w, o, Plan(spec)).0.store).Keys == Targets(Target(spec)) <==>
            |FleetOf(w.store)| > Target(spec) || FleetOf(w.store).Keys <= Targets(Target(spec))
  {
    hide Exec, Plan, FleetOf, PlainUserSecrets, Target;
    PlanReconciles(w, o, spec);
    RolledKeys(Kept(FleetOf(w.store), Target(spec)), spec, Target(spec));
  }

  /** How many reconciles of a run succeed. */
  ghost function Successes(w: World, o: Oracle, specs: seq<AstarteSpec>): nat
    decreases |specs|
  {
    if specs == [] then 0
    else
      var (w1, ok) := Exec(w, o, Plan(specs[0]));
      (if ok then 1 else 0) + Successes(w1, o, specs[1..])
  }

  /** How far a run with this replica count has got, with so many successes behind it: after one there
      are all wanted replicas or no others, after two exactly the wanted ones. */
  ghost predicate Advanced(keys: set<Key>, target: int, successes: nat) {
    && (successes >= 1 ==> Targets(target) <= keys || keys <= Targets(target))
    && (successes >= 2 ==> keys == Targets(target))
  }

  /** What is left when there are too many, and the first replicas on top. */
  ghost function KeptAnd(keys: set<Key>, target: int, count: int): set<Key> {
    (if |keys| > target then {} else keys) + Targets(count)
  }

  /** Unless there are too many, those that include the wanted ones are the wanted ones. */
  lemma KeptAreNoOthers(keys: set<Key>, target: int)
    requires Targets(target) <= keys
    ensures |keys| > target || keys == Targets(target)
  {
    Numbered(target);
    var rest := keys - Targets(target);
    assert keys == Targets(target) + rest;
    if rest != {} && target >= 0 {
      assert |keys| == |Targets(target)| + |rest|;
    }
  }

  lemma KeysAdvance(keys: set<Key>, target: int, count: int, successes: nat)
    requires Advanced(keys, target, successes) && (count <= 0 || count <= target)
    ensures Advanced(KeptAnd(keys, target, count), target, successes)
    ensures count == target ==> Advanced(KeptAnd(keys, target, count), target, successes + 1)
  {
    Numbered(target);
    assert Targets(count) <= Targets(target);
    if Targets(target) <= keys {
      KeptAreNoOthers(keys, target);
    }
    if target >= 0 && keys == Targets(target) {
      assert |keys| == target;
    }
  }

  lemma Advances(w: World, o: Oracle, spec: AstarteSpec, successes: nat)
    requires PlainUserSecrets(w.store) && Advanced(FleetOf(w.store).Keys, Target(spec), successes)
    ensures var (after, ok) := Exec(w, o, Plan(spec));
            PlainUserSecrets(after.store) && Advanced(FleetOf(after.store).Keys, Target(spec), if ok then successes + 1 else successes)
  {
    hide Exec, Plan, FleetOf, PlainUserSecrets, Target, Advanced, Kept, Visits, Stage;
    var (after, ok) := Exec(w, o, Plan(spec));
    var fleet, target := FleetOf(w.store), Target(spec);
    PlanReconciles(w, o, spec);
    if ok {
      RolledKeysKept(fleet, spec, target);
      KeysAdvance(fleet.Keys, target, target, successes);
    } else {
      StageAdvances(FleetOf(after.store), fleet, spec, successes);
    }
  }

  lemma RolledKeysKept(fleet: Fleet, spec: AstarteSpec, count: int)
    ensures Rolled(Kept(fleet, Target(spec)), spec, count).Keys == KeptAnd(fleet.Keys, Target(spec), count)
  {
    hide Target, Rolled;
    RolledKeys(Kept(fleet, Target(spec)), spec, count);
    assert |fleet| == |fleet.Keys|;
  }

  lemma StageAdvances(fleet: Fleet, before: Fleet, spec: AstarteSpec, successes: nat)
    requires Advanced(before.Keys, Target(spec), successes) && Stage(fleet, before, spec)
    ensures Advanced(fleet.Keys, Target(spec), successes)
  {
    hide Target, Rolled, Kept, Advanced;
    if fleet != before {
      var count: nat :| IsRolled(fleet, before, spec, count);
      RolledKeysKept(before, spec, count);
      KeysAdvance(before.Keys, Target(spec), count, successes);
    }
  }

  /** In any run with one replica count in which two reconciles succeed, whatever the others do before,
      between and after them, replicas 0, 1, ... are left and nothing else. */
  lemma {:induction false} TwoReconcilesConverge(w: World, o: Oracle, specs: seq<AstarteSpec>, target: int)
    requires PlainUserSecrets(w.store) && (forall spec <- specs :: Target(spec) == target) && Successes(w, o, specs) >= 2
    ensures FleetOf(Reconciles(w, o, specs).store).Keys == Targets(target)
  {
    hide Exec, Plan, FleetOf, PlainUserSecrets, Successes, Reconciles, Target;
    RunAdvances(w, o, specs, target, 0);
  }

  lemma {:induction false} RunAdvances(w: World, o: Oracle, specs: seq<AstarteSpec>, target: int, successes: nat)
    requires PlainUserSecrets(w.store) && (forall spec <- specs :: Target(spec) == target)
    requires Advanced(FleetOf(w.store).Keys, target, successes)
    ensures Advanced(FleetOf(Reconciles(w, o, specs).store).Keys, target, successes + Successes(w, o, specs))
    decreases |specs|
  {
    hide Exec, Plan, FleetOf, PlainUserSecrets, Target, Advanced;
    if specs != [] {
      var (w1, ok) := Exec(w, o, Plan(specs[0]));
      Advances(w, o, specs[0], successes);
      RunAdvances(w1, o, specs[1..], target, if ok then successes + 1 else successes);
    }
  }

  lemma SubsetSize(a: set<Key>, b: set<Key>)
    requires a <= b
    ensures |a| <= |b|
  {
    assert b == a + (b - a);
  }

  /** Holding all targets and being no larger than they are leaves no room for anything else. */
  lemma Pigeonhole(fleet: Fleet, target: int)
    requires Targets(target) <= fleet.Keys
    ensures |fleet| > target || fleet.Keys == Targets(target)
  {
    KeptAreNoOthers(fleet.Keys, target);
    assert |fleet| == |fleet.Keys|;
  }

  /** A gap-free fleet converges in one reconcile. */
  lemma GapFreeConverges(store: Store, target: int)
    requires GapFree(store)
    ensures |FleetOf(store)| > target || FleetOf(store).Keys <= Targets(target)
  {
    var fleet := FleetOf(store);
    if |fleet| <= target {
      forall key | key in fleet ensures key in Targets(target) {
        var i := key.workload.index;
        assert Targets(i + 1) <= fleet.Keys;
        Pigeonhole(fleet, i + 1);
        Numbered(i + 1);
        assert |fleet| == |fleet.Keys|;
        assert i < target;
      }
    }
  }

  lemma {:induction false} RolledContents(base: Fleet, spec: AstarteSpec, count: int, index: nat)
    requires index < count
    ensures Running(DUP(index)) in Rolled(base, spec, count)
    ensures Rolled(base, spec, count)[Running(DUP(index))] == DUPDeployment(spec, index, spec.Replicas())
  {
    if index < count - 1 {
      RolledContents(base, spec, count - 1, index);
    }
  }

  /** After a reconcile that succeeds and converges, every existing queue is consumed by its owner
      and by nobody else, and nobody consumes a queue that does not exist. */
  lemma FinishedFleetPartitionsTheQueues(w: World, o: Oracle, spec: AstarteSpec, after: World, key: Key, queue: int)
    requires PlainUserSecrets(w.store) && Exec(w, o, Plan(spec)) == (after, true)
    requires spec.Deploys(DataUpdaterPlant) && spec.Replicas() >= 1
    requires |FleetOf(w.store)| > Target(spec) || FleetOf(w.store).Keys <= Targets(Target(spec))
    ensures Consumes(FleetOf(after.store), key, queue) <==>
            && 0 <= queue < spec.Queues()
            && key.Running? && key.workload.DUP?
            && key.workload.index == Owner(spec.Queues(), spec.Replicas(), queue)
  {
    hide Exec, Plan, FleetOf, PlainUserSecrets, Owner, Share;
    PlanReconciles(w, o, spec);
    OneReconcileConvergesExactlyWhen(w, o, spec);
    OwnerInRange(spec.Queues(), spec.Replicas(), queue);
    if key in Targets(Target(spec)) {
      RolledContents(Kept(FleetOf(w.store), Target(spec)), spec, Target(spec), key.workload.index);
      SharesPartitionTheQueues(spec.Queues(), spec.Replicas(), key.workload.index, queue);
    }
  }

  /** Left to their defaults, one Deployment consumes 128 queues. */
  lemma UnsetCountsMeanOneForAll(w: World, o: Oracle, spec: AstarteSpec, after: World, key: Key, queue: int)
    requires PlainUserSecrets(w.store) && Exec(w, o, Plan(spec)) == (after, true)
    requires spec.Deploys(DataUpdaterPlant) && spec.dupReplicas.None? && spec.dataQueueCount.None?
    requires |FleetOf(w.store)| > 1 || FleetOf(w.store).Keys <= {Running(DUP(0))}
    ensures Consumes(FleetOf(after.store), key, queue) <==> key == Running(DUP(0)) && 0 <= queue < 128
  {
    hide Exec, Plan, FleetOf, PlainUserSecrets, Share, Consumes, Owner;
    assert Targets(1) == {Running(DUP(0))};
    UnsetQueueCountMeans128(w, o, spec, after, key, queue);
    OwnerInRange(128, 1, queue);
  }

  /** Without a queue count, the fleet shares out 128 queues. */
  lemma UnsetQueueCountMeans128(w: World, o: Oracle, spec: AstarteSpec, after: World, key: Key, queue: int)
    requires PlainUserSecrets(w.store) && Exec(w, o, Plan(spec)) == (after, true)
    requires spec.Deploys(DataUpdaterPlant) && spec.Replicas() >= 1 && spec.dataQueueCount.None?
    requires |FleetOf(w.store)| > spec.Replicas() || FleetOf(w.store).Keys <= Targets(spec.Replicas())
    ensures Consumes(FleetOf(after.store), key, queue) <==>
            && 0 <= queue < 128
            && key.Running? && key.workload.DUP?
            && key.workload.index == Owner(128, spec.Replicas(), queue)
  {
    hide Exec, Plan, FleetOf, PlainUserSecrets, Share, Consumes, Owner;
    FinishedFleetPartitionsTheQueues(w, o, spec, after, key, queue);
  }

  lemma OwnerInRange(queues: int, replicas: int, queue: int)
    requires replicas >= 1
    ensures 0 <= queue < queues ==> 0 <= Owner(queues, replicas, queue) < replicas
  {
    if 0 <= queue < queues {
      SharesPartitionTheQueues(queues, replicas, 0, queue);
      if replicas <= queues {
        DivPositive(queues, replicas);
        NonNegativeQuotient(queue, queues / replicas);
      }
    }
  }

  lemma NonNegativeQuotient(a: nat, b: nat)
    requires b > 0
    ensures a / b >= 0
  {
  }
}
