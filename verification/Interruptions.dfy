/**
 Interruptions: a reconcile can stop for good after any of its calls. With that, the run that
 breaks the queue sharding when the replica count goes down after an unfinished reconcile.
 */
module Interruptions {
  import opened Specs
  import opened Queues
  import opened Cluster
  import opened Plans
  import opened Discipline
  import opened Invariants
  import opened Rollout
  import opened Sharding
  import opened Convergence
  import Health

  /** As the oracle says up to a call; from then on nothing gets through and nobody else acts. */
  function Cut(o: Oracle, stop: nat): Oracle {
    (call: nat) => if call < stop then o(call) else Tick(Quiet, Lost, o(call).view)
  }

  /** Every call is logged. */
  ghost predicate Counts(before: World, after: World) {
    before.log <= after.log && before.calls <= after.calls && |after.log| - |before.log| == after.calls - before.calls
  }

  ghost function StoreAt(before: World, after: World, stop: nat): Store
    requires Counts(before, after) && before.calls < stop <= after.calls
  {
    after.log[|before.log| + (stop - before.calls) - 1].store
  }

  /** What cutting a run off does to it: nothing if it was over, or it ends in the state of that time. */
  ghost predicate CutsTo(before: World, whole: (World, bool), cut: (World, bool), stop: nat) {
    && Counts(before, whole.0)
    && (whole.0.calls <= stop ==> cut == whole)
    && (before.calls < stop < whole.0.calls ==> cut.0.store == StoreAt(before, whole.0, stop) && stop <= cut.0.calls)
    && (stop <= before.calls ==> cut.0.store == before.store && stop <= cut.0.calls)
    && (whole.0.calls > before.calls ==> whole.0.store == whole.0.log[|whole.0.log| - 1].store)
    && (whole.0.calls == before.calls ==> whole.0.store == before.store)
  }

  lemma ReadCuts(w: World, o: Oracle, stop: nat)
    ensures CutsTo(w, Read(w, o), Read(w, Cut(o, stop)), stop) && Read(w, o).0.calls == w.calls + 1
    ensures stop <= w.calls ==> !Read(w, Cut(o, stop)).1
  {
  }

  lemma WriteCuts(w: World, o: Oracle, change: Change, stop: nat)
    ensures CutsTo(w, Write(w, o, change), Write(w, Cut(o, stop), change), stop) && Write(w, o, change).0.calls == w.calls + 1
    ensures stop <= w.calls ==> !Write(w, Cut(o, stop), change).1
  {
  }

  /** Two parts of a run, one after the other. */
  lemma ThenCuts(a: World, b: (World, bool), cutB: (World, bool), c: (World, bool), cutC: (World, bool), stop: nat)
    requires CutsTo(a, b, cutB, stop)
    requires CutsTo(b.0, c, cutC, stop)
    requires b.0.calls <= stop
    ensures CutsTo(a, c, cutC, stop)
  {
  }

  /** The first part was still going on when the run was cut off. */
  lemma StoppedInFirst(a: World, b: (World, bool), c: (World, bool), cut: (World, bool), before: (World, bool), stop: nat)
    requires CutsTo(a, b, before, stop) && CutsTo(b.0, c, c, c.0.calls)
    requires stop < b.0.calls && cut.0.store == before.0.store && stop <= cut.0.calls
    ensures CutsTo(a, c, cut, stop)
  {
  }

  lemma WholeCuts(a: World, b: (World, bool), cut: (World, bool), stop: nat)
    requires CutsTo(a, b, cut, stop)
    ensures CutsTo(a, b, b, b.0.calls)
  {
  }

  /** A call and what follows when it succeeds. */
  lemma CallThen(a: World, b: (World, bool), cutB: (World, bool), c: (World, bool), cutC: (World, bool), stop: nat)
    requires CutsTo(a, b, cutB, stop) && b.0.calls == a.calls + 1
    requires CutsTo(b.0, c, cutC, stop)
    ensures b.0.calls <= stop ==> CutsTo(a, c, cutC, stop)
    ensures stop <= a.calls ==> CutsTo(a, c, cutB, stop)
  {
    if b.0.calls <= stop {
      ThenCuts(a, b, cutB, c, cutC, stop);
    } else {
      WholeCuts(b.0, c, cutC, stop);
      StoppedInFirst(a, b, c, cutB, cutB, stop);
    }
  }

  lemma WriteFreshCuts(w: World, o: Oracle, key: Key, stop: nat)
    ensures CutsTo(w, WriteFresh(w, o, key), WriteFresh(w, Cut(o, stop), key), stop)
    ensures WriteFresh(w, o, key).0.calls == w.calls + 1
    ensures stop <= w.calls ==> !WriteFresh(w, Cut(o, stop), key).1
  {
    WriteCuts(w.(nextToken := w.nextToken + 1), o, PutObject(key, Material(w.nextToken)), stop);
  }

  lemma StoringCuts(w: World, o: Oracle, stop: nat)
    ensures CutsTo(w, StoreKeyPair(w, o), StoreKeyPair(w, Cut(o, stop)), stop)
  {
    hide Write, WriteFresh, CutsTo;
    var (w1, ok) := WriteFresh(w, o, HousekeepingPrivateKey);
    WriteFreshCuts(w, o, HousekeepingPrivateKey, stop);
    var cut := WriteFresh(w, Cut(o, stop), HousekeepingPrivateKey);
    var public := PutObject(HousekeepingPublicKey, PublicHalf(w.nextToken));
    SameIfOver(w, (w1, ok), cut, stop);
    if ok {
      WriteCuts(w1, o, public, stop);
      CallThen(w, (w1, ok), cut, Write(w1, o, public), Write(w1, Cut(o, stop), public), stop);
    }
  }

  lemma SameIfOver(a: World, b: (World, bool), cut: (World, bool), stop: nat)
    requires CutsTo(a, b, cut, stop)
    ensures b.0.calls <= stop ==> cut == b
  {
  }

  lemma MakingKeysCuts(w: World, o: Oracle, stop: nat)
    ensures CutsTo(w, ExecMakeKeyPair(w, o), ExecMakeKeyPair(w, Cut(o, stop)), stop)
  {
    hide Read, Write, StoreKeyPair, CutsTo;
    var cut := Cut(o, stop);
    var (w1, ok1) := Read(w, o);
    ReadCuts(w, o, stop);
    SameIfOver(w, Read(w, o), Read(w, cut), stop);
    if ok1 && HousekeepingPublicKey !in w1.store {
      MakingRestCuts(w1, o, stop);
      CallThen(w, Read(w, o), Read(w, cut), MakingRest(w1, o), MakingRest(w1, cut), stop);
    }
  }

  /** Making a key pair once it is known that there is no public key. */
  ghost function MakingRest(w: World, o: Oracle): (World, bool) {
    var (w2, ok2) := Read(w, o);
    if !ok2 then (w2, false)
    else if HousekeepingPrivateKey in w2.store then
      var (w3, ok3) := Write(w2, o, DropObject(HousekeepingPrivateKey));
      if ok3 then StoreKeyPair(w3, o) else (w3, false)
    else StoreKeyPair(w2, o)
  }

  lemma MakingRestCuts(w: World, o: Oracle, stop: nat)
    ensures CutsTo(w, MakingRest(w, o), MakingRest(w, Cut(o, stop)), stop)
  {
    hide Read, Write, StoreKeyPair, CutsTo;
    var cut, drop := Cut(o, stop), DropObject(HousekeepingPrivateKey);
    var (w2, ok2) := Read(w, o);
    ReadCuts(w, o, stop);
    SameIfOver(w, Read(w, o), Read(w, cut), stop);
    if ok2 {
      StoringCuts(w2, o, stop);
      if HousekeepingPrivateKey in w2.store {
        var (w3, ok3) := Write(w2, o, drop);
        var rest := if ok3 then StoreKeyPair(w3, o) else (w3, false);
        var cutRest := if Write(w2, cut, drop).1 then StoreKeyPair(Write(w2, cut, drop).0, cut) else (Write(w2, cut, drop).0, false);
        WriteCuts(w2, o, drop, stop);
        SameIfOver(w2, Write(w2, o, drop), Write(w2, cut, drop), stop);
        StoringCuts(w3, o, stop);
        CallThen(w2, Write(w2, o, drop), Write(w2, cut, drop), StoreKeyPair(w3, o), StoreKeyPair(w3, cut), stop);
        assert CutsTo(w2, rest, cutRest, stop);
        CallThen(w, Read(w, o), Read(w, cut), rest, cutRest, stop);
      } else {
        CallThen(w, Read(w, o), Read(w, cut), StoreKeyPair(w2, o), StoreKeyPair(w2, cut), stop);
      }
    }
  }

  lemma StepCuts(w: World, o: Oracle, step: Step, stop: nat)
    ensures CutsTo(w, ExecStep(w, o, step), ExecStep(w, Cut(o, stop), step), stop)
  {
    hide Read, Write, WriteFresh, ExecMakeKeyPair, CutsTo;
    var cut := Cut(o, stop);
    if step.Put? {
      WriteCuts(w, o, PutObject(step.key, step.contents), stop);
    } else if step.MakeKeyPair? {
      MakingKeysCuts(w, o, stop);
    } else {
      var (w1, ok) := Read(w, o);
      ReadCuts(w, o, stop);
      SameIfOver(w, Read(w, o), Read(w, cut), stop);
      if step.Generate? && ok && step.key !in w1.store {
        WriteFreshCuts(w1, o, step.key, stop);
        CallThen(w, Read(w, o), Read(w, cut), WriteFresh(w1, o, step.key), WriteFresh(w1, cut, step.key), stop);
      } else if step.Certify? && ok && step.source in w1.store {
        var change := PutObject(step.target, CertificateOf(w1.store[step.source]));
        WriteCuts(w1, o, change, stop);
        CallThen(w, Read(w, o), Read(w, cut), Write(w1, o, change), Write(w1, cut, change), stop);
      } else if step.Retire? && ok && Running(step.workload) in w1.store {
        var change := DropObject(Running(step.workload));
        WriteCuts(w1, o, change, stop);
        CallThen(w, Read(w, o), Read(w, cut), Write(w1, o, change), Write(w1, cut, change), stop);
      } else if step.Shrink? && ok && |DUPs(w1.store)| > step.limit {
        WriteCuts(w1, o, DropDUPs, stop);
        CallThen(w, Read(w, o), Read(w, cut), Write(w1, o, DropDUPs), Write(w1, cut, DropDUPs), stop);
      } else if step.RestartUnless? && ok && UserSecret(step.secret) !in w1.store {
        ReadCuts(w1, o, stop);
        CallThen(w, Read(w, o), Read(w, cut), Read(w1, o), Read(w1, cut), stop);
      }
      var whole, stopped := ExecStep(w, o, step), ExecStep(w, cut, step);
      if step.Retire? && ok && Running(step.workload) in w1.store {
        var change := DropObject(Running(step.workload));
        OtherVerdict(w, Write(w1, o, change), if Read(w, cut).1 then Write(w1, cut, change) else Read(w, cut), whole.1, stopped.1, stop);
      } else if whole.0 == w1 {
        OtherVerdict(w, Read(w, o), Read(w, cut), whole.1, stopped.1, stop);
      }
    }
  }

  /** Whether the run counts as a success does not matter for its states. */
  lemma OtherVerdict(a: World, b: (World, bool), cut: (World, bool), verdict: bool, cutVerdict: bool, stop: nat)
    requires b.0.calls <= stop && cut == b ==> verdict == cutVerdict
    ensures CutsTo(a, b, cut, stop) ==> CutsTo(a, (b.0, verdict), (cut.0, cutVerdict), stop)
  {
  }

  lemma {:induction false} ExecCuts(w: World, o: Oracle, steps: seq<Step>, stop: nat)
    ensures CutsTo(w, Exec(w, o, steps), Exec(w, Cut(o, stop), steps), stop)
    decreases |steps|
  {
    hide ExecStep, CutsTo;
    var cut := Cut(o, stop);
    if steps == [] {
      NothingCuts(w, stop);
    } else {
      var first, stopped := ExecStep(w, o, steps[0]), ExecStep(w, cut, steps[0]);
      StepCuts(w, o, steps[0], stop);
      SameIfOver(w, first, stopped, stop);
      if first.1 {
        ExecCuts(first.0, o, steps[1..], stop);
        var rest, whole := Exec(first.0, o, steps[1..]), Exec(w, o, steps);
        if first.0.calls <= stop {
          ThenCuts(w, first, stopped, rest, Exec(first.0, cut, steps[1..]), stop);
        } else {
          WholeCuts(first.0, rest, Exec(first.0, cut, steps[1..]), stop);
          StillStopped(w, first, stopped, o, steps[1..], stop);
          StoppedInFirst(w, first, rest, Exec(w, cut, steps), stopped, stop);
        }
      } else if first.0.calls > stop {
        StillStopped(w, first, stopped, o, steps[1..], stop);
        var ended := Exec(w, cut, steps);
        WholeCuts(w, first, stopped, stop);
        NothingCuts(first.0, first.0.calls);
        StoppedInFirst(w, first, first, ended, stopped, stop);
      }
    }
  }

  lemma NothingCuts(w: World, stop: nat)
    ensures CutsTo(w, (w, true), (w, true), stop)
    ensures CutsTo(w, (w, false), (w, false), stop)
  {
  }

  /** After the cut nothing changes any more. */
  lemma {:induction false} StillStopped(w: World, first: (World, bool), stopped: (World, bool), o: Oracle, rest: seq<Step>, stop: nat)
    requires CutsTo(w, first, stopped, stop) && stop < first.0.calls
    ensures stop <= stopped.0.calls
    ensures Exec(stopped.0, Cut(o, stop), rest).0.store == stopped.0.store
    ensures stop <= Exec(stopped.0, Cut(o, stop), rest).0.calls
  {
    ExecCutFrom(stopped.0, o, rest, stop);
  }

  lemma {:induction false} ExecCutFrom(w: World, o: Oracle, steps: seq<Step>, stop: nat)
    requires stop <= w.calls
    ensures Exec(w, Cut(o, stop), steps).0.store == w.store && stop <= Exec(w, Cut(o, stop), steps).0.calls
    decreases |steps|
  {
    hide ExecStep;
    if steps != [] {
      StepCuts(w, o, steps[0], stop);
      ExecCutFrom(ExecStep(w, Cut(o, stop), steps[0]).0, o, steps[1..], stop);
    }
  }

  /** Every state of a reconcile is the last one of some interrupted reconcile. */
  lemma AnyStateCanBeLast(w: World, o: Oracle, steps: seq<Step>, i: nat) returns (interrupted: Oracle)
    requires |w.log| <= i < |Exec(w, o, steps).0.log|
    ensures Exec(w, interrupted, steps).0.store == Exec(w, o, steps).0.log[i].store
  {
    hide Exec, Cut;
    var stop := w.calls + (i - |w.log|) + 1;
    interrupted := Cut(o, stop);
    ExecCuts(w, o, steps, stop);
  }

  // --- A run that is not steady ---

  const UNDISTURBED: Oracle := (call: nat) => Tick(Quiet, Ok, Health.View(None, None, None))

  /** A reconcile can stop for good right after any number of Deployments. */
  lemma CanStopAfter(w: World, spec: AstarteSpec, done: nat) returns (interrupted: Oracle)
    requires Sound(w.store) && spec.caSecret == "" && done <= Target(spec)
    ensures var (after, ok) := Exec(w, interrupted, Plan(spec));
            && FleetOf(after.store) == Rolled(Kept(FleetOf(w.store), Target(spec)), spec, done)
            && Sound(after.store)
            && (ok ==> Targets(Target(spec)) <= FleetOf(after.store).Keys)
  {
    hide Exec, Plan, FleetOf, Target, Rolled, Kept, GapFree, KeysMatch, NoDanglingReferences;
    var whole := Exec(w, UNDISTURBED, Plan(spec)).0;
    var fleet := Rolled(Kept(FleetOf(w.store), Target(spec)), spec, done);
    FaultlessReconcileSucceeds(w, UNDISTURBED, spec);
    PlanReconciles(w, UNDISTURBED, spec);
    assert Visits(w, whole, fleet);
    var i :| |w.log| <= i < |whole.log| && FleetOf(whole.log[i].store) == fleet;
    interrupted := AnyStateCanBeLast(w, UNDISTURBED, Plan(spec), i);
    ReconcileIsSound(w, interrupted, spec);
    if Exec(w, interrupted, Plan(spec)).1 {
      PlanReconciles(w, interrupted, spec);
      RolledKeys(Kept(FleetOf(w.store), Target(spec)), spec, Target(spec));
    }
  }

  /** With 128 queues complete at 3 replicas, an attempt at 5 that stops after replicas 0 and 1 and
      then an attempt at 4 that stops after replica 0 leave queue 25 in two hands. */
  lemma LoweringAfterAnUnfinishedReconcileOverlaps(w: World, five: AstarteSpec, four: AstarteSpec) returns (first: Oracle, second: Oracle)
    requires Sound(w.store) && Deployed(FleetOf(w.store), AllOf(128, 3, 3))
    requires five.Queues() == 128 && Target(five) == 5 && five.caSecret == ""
    requires four.Queues() == 128 && Target(four) == 4 && four.caSecret == ""
    ensures var (w1, ok1) := Exec(w, first, Plan(five));
            var (w2, ok2) := Exec(w1, second, Plan(four));
            && !ok1 && !ok2
            && HasRange(FleetOf(w2.store), 0, Range(0, 31)) && HasRange(FleetOf(w2.store), 1, Range(25, 49))
            && !NoOverlap(FleetOf(w2.store))
  {
    hide Exec, Plan, Sound, FleetOf, Target, Rolled, Kept, GapFree, KeysMatch, NoDanglingReferences, NoOverlap;
    var fleet := FleetOf(w.store);
    first := CanStopAfter(w, five, 2);
    var w1 := Exec(w, first, Plan(five)).0;
    var fleet1 := FleetOf(w1.store);
    second := CanStopAfter(w1, four, 1);
    FirstAttempt(fleet, fleet1, five);
    SecondAttempt(fleet1, FleetOf(Exec(w1, second, Plan(four)).0.store), four);
  }

  ghost predicate HasRange(fleet: Fleet, index: nat, range: Range) {
    var key := Running(DUP(index));
    key in fleet && fleet[key].Deployment? && fleet[key].shard.Some? && fleet[key].shard.value.range == range
  }

  /** As many replicas, all for the same layout. */
  function AllOf(queues: int, replicas: int, count: nat): seq<Layout> {
    seq(count, i => Layout(queues, replicas))
  }

  lemma FirstAttempt(fleet: Fleet, fleet1: Fleet, five: AstarteSpec)
    requires Deployed(fleet, AllOf(128, 3, 3)) && five.Queues() == 128 && Target(five) == 5
    requires fleet1 == Rolled(Kept(fleet, 5), five, 2)
    ensures Deployed(fleet1, AllOf(128, 5, 2) + AllOf(128, 3, 1)) && !(Targets(5) <= fleet1.Keys)
  {
    hide Target;
    var three := AllOf(128, 3, 3);
    LayoutsGiveSize(fleet, three);
    RolledByLayouts(fleet, three, five, 2);
    assert RolledLayouts(KeptLayouts(three, 5), Layout(128, 5), 2) == AllOf(128, 5, 2) + AllOf(128, 3, 1);
    assert Running(DUP(4)) in Targets(5) && Running(DUP(4)) !in fleet1;
  }

  lemma SecondAttempt(fleet1: Fleet, fleet2: Fleet, four: AstarteSpec)
    requires Deployed(fleet1, AllOf(128, 5, 2) + AllOf(128, 3, 1)) && four.Queues() == 128 && Target(four) == 4
    requires fleet2 == Rolled(Kept(fleet1, 4), four, 1)
    ensures HasRange(fleet2, 0, Range(0, 31)) && HasRange(fleet2, 1, Range(25, 49)) && !NoOverlap(fleet2)
    ensures !(Targets(4) <= fleet2.Keys)
  {
    hide Target;
    var mixed := AllOf(128, 5, 2) + AllOf(128, 3, 1);
    LayoutsGiveSize(fleet1, mixed);
    RolledByLayouts(fleet1, mixed, four, 1);
    var after := RolledLayouts(KeptLayouts(mixed, 4), Layout(128, 4), 1);
    assert after[0] == Layout(128, 4) && after[1] == Layout(128, 5) && |after| == 3;
    assert Running(DUP(3)) in Targets(4) && Running(DUP(3)) !in fleet2;
    assert HasRange(fleet2, 0, Range(0, 31)) && HasRange(fleet2, 1, Range(25, 49));
    assert Consumes(fleet2, Running(DUP(0)), 25) && Consumes(fleet2, Running(DUP(1)), 25);
  }
}
