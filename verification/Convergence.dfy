/**
 Repeating a reconcile: once one has gone through without faults, another one with the same
 specification changes nothing that belongs to the operator, at any of its states, even if it
 meets faults; and without faults the cluster stays as it is even when a reconcile is stuck.
 */
module Convergence {
  import opened Specs
  import opened Cluster
  import opened Plans
  import opened Discipline
  import opened Invariants
  import opened Rollout
  import opened Sharding

  // --- Settled steps ---

  /** A store in which the step has nothing left to do. */
  ghost predicate Settled(step: Step, spec: AstarteSpec, store: Store) {
    match step
    case Shrink(limit) => forall key <- DUPs(store) :: key.workload.DUP? && key.workload.index < limit
    case _ => Established(step, store)
  }

  /** Later steps will not undo what this one did. */
  ghost predicate Covered(step: Step, spec: AstarteSpec, have: set<Key>) {
    && Adds(step) <= have
    && match step
       case Fetch(key) => key in have
       case Certify(source, target) => source in have || source.UserSecret?
       case Retire(workload, _) => !Wanted(spec, workload)
       case Shrink(limit) => forall index: nat :: Wanted(spec, DUP(index)) <==> index < limit
       case _ => true
  }

  ghost predicate AllSettled(steps: seq<Step>, spec: AstarteSpec, store: Store) {
    forall step <- steps :: Settled(step, spec, store)
  }

  ghost predicate AllCovered(steps: seq<Step>, spec: AstarteSpec, have: set<Key>) {
    forall step <- steps :: Covered(step, spec, have)
  }

  ghost function SettledIn(steps: seq<Step>, spec: AstarteSpec): Store -> bool {
    store => AllSettled(steps, spec, store) && GapFree(store)
  }

  lemma ChangeKeepsSettled(step: Step, spec: AstarteSpec, have: set<Key>, store: Store, change: Change, done: Step)
    requires Guarded(step, spec, have) && have <= store.Keys && MayChange(step, store, change)
    requires Covered(done, spec, have) && Settled(done, spec, store)
    ensures Settled(done, spec, Apply(change, store))
  {
  }

  lemma OthersKeepSettled(action: Action, spec: AstarteSpec, have: set<Key>, store: Store, done: Step)
    requires Covered(done, spec, have) && Settled(done, spec, store) && OperatorsOwn(have)
    ensures Settled(done, spec, StoreAfter(action, store))
  {
    OthersStartNothing(action, store);
    forall key: Key | !key.UserSecret?
      ensures key in StoreAfter(action, store) <==> key in store
      ensures key in store ==> StoreAfter(action, store)[key] == store[key]
    {
      OthersKeepOut(action, store, key);
    }
  }

  lemma SettledIsKept(step: Step, spec: AstarteSpec, have: set<Key>, done: seq<Step>)
    requires Guarded(step, spec, have) && OperatorsOwn(have) && AllCovered(done, spec, have)
    ensures Keeps(step, With(SettledIn(done, spec), have))
  {
    hide Guarded, MayChange, Covered, Settled, GapFree, StoreAfter, Apply, PlainUserSecrets;
    var inv := With(SettledIn(done, spec), have);
    forall store: Store, action | inv(store) ensures inv(StoreAfter(action, store)) {
      OthersKeepHave(action, store, have);
      forall d | d in done ensures Settled(d, spec, StoreAfter(action, store)) {
        OthersKeepSettled(action, spec, have, store, d);
      }
    }
    forall store: Store, change | inv(store) && MayChange(step, store, change) ensures inv(Apply(change, store)) {
      ChangeKeepsHave(step, spec, have, store, change);
      ChangeKeepsGapFree(step, spec, have, store, change);
      forall d | d in done ensures Settled(d, spec, Apply(change, store)) {
        ChangeKeepsSettled(step, spec, have, store, change, d);
      }
    }
  }

  lemma OthersKeepHave(action: Action, store: Store, have: set<Key>)
    requires OperatorsOwn(have) && have <= store.Keys && PlainUserSecrets(store) && GapFree(store)
    ensures have <= StoreAfter(action, store).Keys && PlainUserSecrets(StoreAfter(action, store)) && GapFree(StoreAfter(action, store))
  {
    forall key: Key | !key.UserSecret?
      ensures key in StoreAfter(action, store) <==> key in store
    {
      OthersKeepOut(action, store, key);
    }
  }

  /** The only way a disciplined step fails without a fault: the user's CA secret is not there. */
  lemma FaultlessFailure(w: World, o: Oracle, step: Step, spec: AstarteSpec, have: set<Key>)
    requires Guarded(step, spec, have) && OperatorsOwn(have) && have <= w.store.Keys && Faultless(o)
    requires !ExecStep(w, o, step).1
    ensures step.Certify? && spec.caSecret != "" && step.source == UserSecret(spec.caSecret) && step.source !in ExecStep(w, o, step).0.store
    ensures var last := ExecStep(w, o, step).0.calls - 1; last >= 0 && o(last).action != PutUserSecret(spec.caSecret)
  {
    assert o(w.calls).outcome == Ok;
    if step.Fetch? {
      OthersKeepOut(o(w.calls).action, w.store, step.key);
    } else if step.Certify? && !step.source.UserSecret? {
      OthersKeepOut(o(w.calls).action, w.store, step.source);
    }
  }

  lemma StepSettles(w: World, o: Oracle, step: Step, spec: AstarteSpec, have: set<Key>)
    requires Guarded(step, spec, have) && OperatorsOwn(have) && Faultless(o) && PlainUserSecrets(w.store)
    requires ExecStep(w, o, step).1 && GapFree(ExecStep(w, o, step).0.store)
    ensures Settled(step, spec, ExecStep(w, o, step).0.store)
    ensures Covered(step, spec, have + Adds(step))
  {
    hide ExecStep, Established;
    var store := ExecStep(w, o, step).0.store;
    CanEstablish(step, spec, have);
    hide Guarded;
    StepEstablishes(w, o, step);
    if step.Shrink? {
      FewAreNumbered(step.limit, store);
    }
  }

  lemma CanEstablish(step: Step, spec: AstarteSpec, have: set<Key>)
    requires Guarded(step, spec, have) && OperatorsOwn(have)
    ensures (step.Generate? || step.Fetch?) ==> !step.key.UserSecret?
    ensures step.Certify? ==> step.source != step.target
    ensures Covered(step, spec, have + Adds(step))
  {
  }

  /** In a store without gaps, few Deployments are the first ones. */
  lemma FewAreNumbered(limit: int, store: Store)
    requires GapFree(store) && Established(Shrink(limit), store)
    ensures forall key <- DUPs(store) :: key.workload.DUP? && key.workload.index < limit
  {
    GapFreeConverges(store, limit);
    assert FleetOf(store).Keys == DUPs(store);
    assert |FleetOf(store)| == |FleetOf(store).Keys|;
  }

  /** How far a faultless reconcile gets, and that everything up to there is settled when it ends. */
  lemma {:induction false} ExecSettles(w: World, o: Oracle, steps: seq<Step>, spec: AstarteSpec, have: set<Key>, done: seq<Step>) returns (count: nat, all: set<Key>)
    requires GuardedAll(steps, spec, have) && OperatorsOwn(have) && AllCovered(done, spec, have) && Faultless(o)
    requires With(SettledIn(done, spec), have)(w.store)
    ensures count <= |steps| && SettledIn(done + steps[..count], spec)(Exec(w, o, steps).0.store)
    ensures PlainUserSecrets(Exec(w, o, steps).0.store)
    ensures OperatorsOwn(all) && AllCovered(done + steps[..count], spec, all)
    ensures Exec(w, o, steps).1 ==> count == |steps|
    ensures !Exec(w, o, steps).1 ==>
              && spec.caSecret != "" && UserSecret(spec.caSecret) !in Exec(w, o, steps).0.store
              && (var last := Exec(w, o, steps).0.calls - 1; last >= 0 && o(last).action != PutUserSecret(spec.caSecret))
              && count < |steps| && steps[count].Certify? && steps[count].source == UserSecret(spec.caSecret)
    decreases |steps|
  {
    hide Guarded, Settled, Covered, GapFree, ExecStep, PlainUserSecrets, Keeps;
    if steps == [] {
      count, all := 0, have;
      assert done + steps[..0] == done;
    } else {
      var (w1, ok) := ExecStep(w, o, steps[0]);
      StepKeepsSettled(w, o, steps[0], spec, have, done);
      if ok {
        StepSettles(w, o, steps[0], spec, have);
        StepAdds(w, o, steps[0], spec, have, done);
        var more;
        more, all := ExecSettles(w1, o, steps[1..], spec, have + Adds(steps[0]), done + [steps[0]]);
        count := more + 1;
        assert done + [steps[0]] + steps[1..][..more] == done + steps[..count];
      } else {
        FaultlessFailure(w, o, steps[0], spec, have);
        count, all := 0, have;
        assert done + steps[..0] == done;
      }
    }
  }

  lemma StepKeepsSettled(w: World, o: Oracle, step: Step, spec: AstarteSpec, have: set<Key>, done: seq<Step>)
    requires Guarded(step, spec, have) && OperatorsOwn(have) && AllCovered(done, spec, have)
    requires With(SettledIn(done, spec), have)(w.store)
    ensures With(SettledIn(done, spec), have)(ExecStep(w, o, step).0.store)
  {
    SettledIsKept(step, spec, have, done);
    assert !(step.Generate? && step.key.UserSecret?);
    hide ExecStep, Guarded, Keeps;
    StepKeeps(w, o, step, With(SettledIn(done, spec), have));
  }

  lemma StepAdds(w: World, o: Oracle, step: Step, spec: AstarteSpec, have: set<Key>, done: seq<Step>)
    requires Guarded(step, spec, have) && OperatorsOwn(have) && AllCovered(done, spec, have)
    requires ExecStep(w, o, step).1
    requires var store := ExecStep(w, o, step).0.store;
             With(SettledIn(done, spec), have)(store) && Settled(step, spec, store) && Covered(step, spec, have + Adds(step))
    ensures var more := have + Adds(step);
            && OperatorsOwn(more) && AllCovered(done + [step], spec, more)
            && With(SettledIn(done + [step], spec), more)(ExecStep(w, o, step).0.store)
  {
    hide ExecStep;
  }

  // --- Reconciling again ---

  /** The store apart from what users put there. */
  ghost function Own(store: Store): Store {
    map key | key in store && !key.UserSecret? :: store[key]
  }

  ghost function OwnIs(own: Store): Store -> bool {
    store => Own(store) == own && PlainUserSecrets(store)
  }

  /** A settled step changes nothing. */
  lemma SettledStepIsIdle(step: Step, spec: AstarteSpec, have: set<Key>, own: Store)
    requires Guarded(step, spec, have) && Settled(step, spec, own) && GapFree(own)
    ensures Keeps(step, OwnIs(own))
  {
    var inv := OwnIs(own);
    forall store: Store, action | inv(store) ensures inv(StoreAfter(action, store)) {
    }
    forall store: Store, change | inv(store) && MayChange(step, store, change) ensures inv(Apply(change, store)) {
      IdleChange(step, spec, have, store, change);
    }
  }

  lemma IdleChange(step: Step, spec: AstarteSpec, have: set<Key>, store: Store, change: Change)
    requires Guarded(step, spec, have) && PlainUserSecrets(store) && GapFree(Own(store))
    requires Settled(step, spec, Own(store)) && MayChange(step, store, change)
    ensures Own(Apply(change, store)) == Own(store) && PlainUserSecrets(Apply(change, store))
  {
    var own := Own(store);
    assert forall key: Key :: !key.UserSecret? ==> (key in own <==> key in store) && (key in store ==> own[key] == store[key]);
    if step.Shrink? {
      SettledShrinkIsIdle(step.limit, store);
    }
  }

  lemma SettledShrinkIsIdle(limit: int, store: Store)
    requires forall key <- DUPs(Own(store)) :: key.workload.DUP? && key.workload.index < limit
    requires GapFree(Own(store)) && |DUPs(store)| > limit
    ensures DUPs(store) == {}
  {
    assert DUPs(Own(store)) == DUPs(store);
    Numbered(limit);
    assert DUPs(store) <= Targets(limit);
    SubsetSize(DUPs(store), Targets(limit));
  }

  lemma {:induction false} SettledIsIdle(w: World, o: Oracle, steps: seq<Step>, spec: AstarteSpec, have: set<Key>, own: Store)
    requires GuardedAll(steps, spec, have) && AllSettled(steps, spec, own) && GapFree(own)
    requires OwnIs(own)(w.store)
    ensures Throughout(w, Exec(w, o, steps).0, OwnIs(own))
    decreases |steps|
  {
    hide Guarded, Settled, ExecStep, Keeps, GapFree, PlainUserSecrets;
    if steps != [] {
      var (w1, ok) := ExecStep(w, o, steps[0]);
      SettledStepIsIdle(steps[0], spec, have, own);
      GuardedStepKeeps(w, o, steps[0], spec, have, OwnIs(own));
      if ok {
        SettledIsIdle(w1, o, steps[1..], spec, have + Adds(steps[0]), own);
        ThroughoutTransitive(w, w1, Exec(w, o, steps).0, OwnIs(own));
      }
    }
  }

  lemma GuardedStepKeeps(w: World, o: Oracle, step: Step, spec: AstarteSpec, have: set<Key>, inv: Store -> bool)
    requires Guarded(step, spec, have) && Keeps(step, inv) && inv(w.store) && forall store :: inv(store) ==> PlainUserSecrets(store)
    ensures Throughout(w, ExecStep(w, o, step).0, inv)
  {
    assert !(step.Generate? && step.key.UserSecret?);
    hide ExecStep, Keeps;
    StepKeeps(w, o, step, inv);
  }

  ghost predicate NeverPut(o: Oracle, name: string) {
    forall call :: o(call).action != PutUserSecret(name)
  }

  lemma ReadAway(w: World, o: Oracle, name: string)
    requires NeverPut(o, name) && UserSecret(name) !in w.store
    ensures UserSecret(name) !in Read(w, o).0.store
  {
  }

  lemma WriteAway(w: World, o: Oracle, change: Change, name: string)
    requires NeverPut(o, name) && UserSecret(name) !in w.store && !(change.PutObject? && change.key.UserSecret?)
    ensures UserSecret(name) !in Write(w, o, change).0.store
  {
  }

  lemma MakingKeysAway(w: World, o: Oracle, name: string)
    requires NeverPut(o, name) && UserSecret(name) !in w.store
    ensures UserSecret(name) !in ExecMakeKeyPair(w, o).0.store
  {
    hide Read, Write, NeverPut;
    var w1 := Read(w, o).0;
    var w2 := Read(w1, o).0;
    var w3 := Write(w2, o, DropObject(HousekeepingPrivateKey)).0;
    ReadAway(w, o, name);
    ReadAway(w1, o, name);
    WriteAway(w2, o, DropObject(HousekeepingPrivateKey), name);
    StoringAway(w2, o, name);
    StoringAway(w3, o, name);
  }

  lemma StoringAway(w: World, o: Oracle, name: string)
    requires NeverPut(o, name) && UserSecret(name) !in w.store
    ensures UserSecret(name) !in StoreKeyPair(w, o).0.store
  {
    hide Read, Write, NeverPut;
    var start := w.(nextToken := w.nextToken + 1);
    WriteAway(start, o, PutObject(HousekeepingPrivateKey, Material(w.nextToken)), name);
    WriteAway(WriteFresh(w, o, HousekeepingPrivateKey).0, o, PutObject(HousekeepingPublicKey, PublicHalf(w.nextToken)), name);
  }

  /** Only users provide the secrets of users. */
  lemma StaysAway(w: World, o: Oracle, step: Step, spec: AstarteSpec, have: set<Key>, name: string)
    requires Guarded(step, spec, have) && NeverPut(o, name) && UserSecret(name) !in w.store
    ensures UserSecret(name) !in ExecStep(w, o, step).0.store
  {
    hide Read, Write, NeverPut, ExecMakeKeyPair;
    if step.Put? {
      WriteAway(w, o, PutObject(step.key, step.contents), name);
    } else if step.MakeKeyPair? {
      MakingKeysAway(w, o, name);
    } else {
      var w1 := Read(w, o).0;
      ReadAway(w, o, name);
      ReadAway(w1, o, name);
      WriteAway(w1, o, DropDUPs, name);
      if step.Generate? {
        WriteAway(w1.(nextToken := w1.nextToken + 1), o, PutObject(step.key, Material(w1.nextToken)), name);
      } else if step.Certify? && step.source in w1.store {
        WriteAway(w1, o, PutObject(step.target, CertificateOf(w1.store[step.source])), name);
      } else if step.Retire? {
        WriteAway(w1, o, DropObject(Running(step.workload)), name);
      }
    }
  }

  lemma {:induction false} StaysAwayThroughout(w: World, o: Oracle, steps: seq<Step>, spec: AstarteSpec, have: set<Key>, name: string)
    requires GuardedAll(steps, spec, have) && NeverPut(o, name) && UserSecret(name) !in w.store
    ensures UserSecret(name) !in Exec(w, o, steps).0.store
    decreases |steps|
  {
    hide Guarded, ExecStep, NeverPut;
    if steps != [] {
      StaysAway(w, o, steps[0], spec, have, name);
      if ExecStep(w, o, steps[0]).1 {
        StaysAwayThroughout(ExecStep(w, o, steps[0]).0, o, steps[1..], spec, have + Adds(steps[0]), name);
      }
    }
  }

  lemma CertifyStaysStuck(w: World, o: Oracle, step: Step, own: Store, name: string)
    requires step.Certify? && step.source == UserSecret(name) && NeverPut(o, name) && UserSecret(name) !in w.store
    requires OwnIs(own)(w.store)
    ensures Throughout(w, ExecStep(w, o, step).0, OwnIs(own)) && !ExecStep(w, o, step).1
  {
    var here := StoreAfter(o(w.calls).action, w.store);
    assert Own(here) == Own(w.store);
  }

  /** Reconciling twice is reconciling once: after a reconcile that met no fault, another one with
      the same specification, which may meet any faults, leaves all that the operator made as it
      is, generated values included, at each of its states. It does not matter whether the first one
      succeeded; only when it got stuck on a missing CA secret must nobody provide that secret now. */
  lemma ReconcilingTwiceIsOnce(w: World, o1: Oracle, o2: Oracle, spec: AstarteSpec)
    requires PlainUserSecrets(w.store) && GapFree(w.store) && Faultless(o1)
    requires Exec(w, o1, Plan(spec)).1 || NeverPut(o2, spec.caSecret)
    ensures var w1 := Exec(w, o1, Plan(spec)).0;
            Throughout(w1, Exec(w1, o2, Plan(spec)).0, OwnIs(Own(w1.store)))
  {
    hide Plan, Exec, GuardedAll, Settled, GapFree, PlainUserSecrets, NeverPut, Faultless, Own, Covered;
    var (w1, ok) := Exec(w, o1, Plan(spec));
    var own := Own(w1.store);
    PlanIsGuarded(spec);
    var count, all := ExecSettles(w, o1, Plan(spec), spec, {}, []);
    assert [] + Plan(spec)[..count] == Plan(spec)[..count];
    SettledInOwn(Plan(spec)[..count], spec, all, w1.store);
    if ok {
      assert Plan(spec)[..count] == Plan(spec);
      SettledIsIdle(w1, o2, Plan(spec), spec, {}, own);
    } else {
      StuckIsIdle(w1, o2, Plan(spec), count, spec, own);
    }
  }

  lemma SettledInOwn(steps: seq<Step>, spec: AstarteSpec, have: set<Key>, store: Store)
    requires SettledIn(steps, spec)(store) && OperatorsOwn(have) && AllCovered(steps, spec, have)
    ensures AllSettled(steps, spec, Own(store)) && GapFree(Own(store))
  {
    assert DUPs(Own(store)) == DUPs(store);
    forall step | step in steps ensures Settled(step, spec, Own(store)) {
      assert Settled(step, spec, store) && Covered(step, spec, have);
    }
  }

  lemma StuckIsIdle(w: World, o: Oracle, steps: seq<Step>, count: nat, spec: AstarteSpec, own: Store)
    requires GuardedAll(steps, spec, {}) && NeverPut(o, spec.caSecret) && UserSecret(spec.caSecret) !in w.store
    requires count < |steps| && AllSettled(steps[..count], spec, own) && GapFree(own) && OwnIs(own)(w.store)
    requires steps[count].Certify? && steps[count].source == UserSecret(spec.caSecret)
    ensures Throughout(w, Exec(w, o, steps).0, OwnIs(own))
  {
    hide Exec, GuardedAll, Settled, GapFree, PlainUserSecrets, NeverPut, ExecStep;
    var first := steps[..count];
    assert steps == first + steps[count..];
    GuardedAppend(first, steps[count..], spec, {});
    SettledIsIdle(w, o, first, spec, {}, own);
    StaysAwayThroughout(w, o, first, spec, {}, spec.caSecret);
    ExecAppend(w, o, first, steps[count..]);
    var (w1, ok) := Exec(w, o, first);
    if ok {
      ExecAt(w1, o, steps, count);
      CertifyStaysStuck(w1, o, steps[count], own, spec.caSecret);
      ThroughoutTransitive(w, w1, ExecStep(w1, o, steps[count]).0, OwnIs(own));
    }
  }

  /** Without faults a reconcile succeeds, unless the user names a CA secret that is missing. */
  lemma FaultlessReconcileSucceeds(w: World, o: Oracle, spec: AstarteSpec)
    requires PlainUserSecrets(w.store) && GapFree(w.store) && Faultless(o)
    ensures !Exec(w, o, Plan(spec)).1 ==>
              && spec.caSecret != "" && UserSecret(spec.caSecret) !in Exec(w, o, Plan(spec)).0.store
              && exists call :: o(call).action != PutUserSecret(spec.caSecret)
  {
    hide Plan, Exec, GuardedAll, Settled, GapFree, PlainUserSecrets, Faultless;
    PlanIsGuarded(spec);
    var count, _ := ExecSettles(w, o, Plan(spec), spec, {}, []);
  }
}
