/**
 What every run of reconciles keeps at every state, wherever it is interrupted and however the
 specification is edited in between: no workload refers to something that is not there, the
 Housekeeping keys match, and a published key pair never changes again.
 */
module Invariants {
  import opened Specs
  import opened Cluster
  import opened Plans
  import opened Discipline

  // --- Properties of a store ---

  /** Every workload finds all the generated Secrets and ConfigMaps that it refers to. */
  ghost predicate NoDanglingReferences(store: Store) {
    forall workload :: Running(workload) in store ==>
      && store[Running(workload)].Deployment?
      && forall ref <- store[Running(workload)].refs :: ref in store && Lasting(ref)
  }

  /** A public key comes with the private key it belongs to. */
  ghost predicate KeysMatch(store: Store) {
    HousekeepingPublicKey in store ==>
      && HousekeepingPrivateKey in store
      && store[HousekeepingPrivateKey].Material?
      && store[HousekeepingPublicKey] == PublicHalf(store[HousekeepingPrivateKey].token)
  }

  /** The Data Updater Plant Deployments are numbered from 0 without gaps, and all are the operator's. */
  ghost predicate GapFree(store: Store) {
    && (forall name :: Running(ForeignDUP(name)) !in store)
    && (forall i: nat, j: nat :: j < i && Running(DUP(i)) in store ==> Running(DUP(j)) in store)
  }

  ghost predicate Sound(store: Store) {
    PlainUserSecrets(store) && NoDanglingReferences(store) && KeysMatch(store) && GapFree(store)
  }

  // --- Invariants of disciplined steps ---

  /** The operator's own objects. */
  ghost predicate OperatorsOwn(have: set<Key>) {
    forall key <- have :: !key.UserSecret?
  }

  /** The property, in the presence of some objects. */
  ghost function With(inv: Store -> bool, have: set<Key>): Store -> bool {
    store => inv(store) && have <= store.Keys && PlainUserSecrets(store)
  }

  /** Every disciplined step keeps the property, and what it relies on stays. */
  ghost predicate Respects(spec: AstarteSpec, inv: Store -> bool) {
    forall step, have :: Guarded(step, spec, have) && OperatorsOwn(have) ==> Keeps(step, With(inv, have))
  }

  lemma {:induction false} ExecThroughout(w: World, o: Oracle, steps: seq<Step>, spec: AstarteSpec, have: set<Key>, inv: Store -> bool)
    requires GuardedAll(steps, spec, have) && OperatorsOwn(have) && Respects(spec, inv) && With(inv, have)(w.store)
    ensures Throughout(w, Exec(w, o, steps).0, With(inv, {}))
    ensures Exec(w, o, steps).1 ==> have + AddsAll(steps) <= Exec(w, o, steps).0.store.Keys
    decreases |steps|
  {
    hide Respects, Guarded, Keeps, ExecStep, PlainUserSecrets;
    if steps != [] {
      var (w1, ok) := ExecStep(w, o, steps[0]);
      StepThroughout(w, o, steps[0], spec, have, inv);
      if ok {
        ExecThroughout(w1, o, steps[1..], spec, have + Adds(steps[0]), inv);
        ThroughoutTransitive(w, w1, Exec(w, o, steps).0, With(inv, {}));
        assert have + Adds(steps[0]) + AddsAll(steps[1..]) == have + AddsAll(steps);
      }
    }
  }

  lemma StepThroughout(w: World, o: Oracle, step: Step, spec: AstarteSpec, have: set<Key>, inv: Store -> bool)
    requires Guarded(step, spec, have) && OperatorsOwn(have) && Respects(spec, inv) && With(inv, have)(w.store)
    ensures Throughout(w, ExecStep(w, o, step).0, With(inv, {}))
    ensures ExecStep(w, o, step).1 ==> With(inv, have + Adds(step))(ExecStep(w, o, step).0.store)
    ensures OperatorsOwn(have + Adds(step))
  {
    assert Keeps(step, With(inv, have)) && !(step.Generate? && step.key.UserSecret?);
    hide Keeps, Respects, ExecStep;
    StepKeeps(w, o, step, With(inv, have));
    if ExecStep(w, o, step).1 && !step.Retire? && !step.Fetch? {
      assert step.Certify? ==> step.source != step.target;
      assert step.Generate? ==> !step.key.UserSecret?;
      hide Guarded;
      StepEstablishes(w, o, step);
    }
  }

  lemma ChangeKeepsHave(step: Step, spec: AstarteSpec, have: set<Key>, store: Store, change: Change)
    requires Guarded(step, spec, have) && have <= store.Keys && PlainUserSecrets(store) && MayChange(step, store, change)
    ensures have <= Apply(change, store).Keys && PlainUserSecrets(Apply(change, store))
    ensures forall key <- have :: Apply(change, store)[key] == store[key]
  {
  }

  lemma ChangeKeepsReferences(step: Step, spec: AstarteSpec, have: set<Key>, store: Store, change: Change)
    requires Guarded(step, spec, have) && have <= store.Keys && NoDanglingReferences(store) && MayChange(step, store, change)
    ensures NoDanglingReferences(Apply(change, store))
  {
    forall workload | Running(workload) in Apply(change, store)
      ensures Apply(change, store)[Running(workload)].Deployment?
      ensures forall ref <- Apply(change, store)[Running(workload)].refs :: ref in Apply(change, store) && Lasting(ref)
    {
      if change == PutObject(Running(workload), if change.PutObject? then change.contents else Auxiliary) {
        assert WellFormed(workload, change.contents, spec, have);
      } else {
        assert Running(workload) in store;
      }
    }
  }

  lemma ChangeKeepsKeys(step: Step, spec: AstarteSpec, have: set<Key>, store: Store, change: Change)
    requires Guarded(step, spec, have) && KeysMatch(store) && MayChange(step, store, change)
    ensures KeysMatch(Apply(change, store))
  {
  }

  lemma ChangeKeepsGapFree(step: Step, spec: AstarteSpec, have: set<Key>, store: Store, change: Change)
    requires Guarded(step, spec, have) && have <= store.Keys && GapFree(store) && MayChange(step, store, change)
    ensures GapFree(Apply(change, store))
  {
    if change.PutObject? && change.key.Running? && change.key.workload.DUP? {
      PutKeepsGapFree(step, spec, have, store, change);
    }
  }

  lemma PutKeepsGapFree(step: Step, spec: AstarteSpec, have: set<Key>, store: Store, change: Change)
    requires Guarded(step, spec, have) && have <= store.Keys && GapFree(store) && MayChange(step, store, change)
    requires change.PutObject? && change.key.Running? && change.key.workload.DUP?
    ensures GapFree(Apply(change, store))
  {
  }

  lemma OthersKeepSound(action: Action, store: Store, have: set<Key>)
    requires OperatorsOwn(have) && have <= store.Keys && Sound(store)
    ensures have <= StoreAfter(action, store).Keys && Sound(StoreAfter(action, store))
  {
    forall key: Key | !key.UserSecret?
      ensures key in StoreAfter(action, store) <==> key in store
      ensures key in store ==> StoreAfter(action, store)[key] == store[key]
    {
      OthersKeepOut(action, store, key);
    }
  }

  lemma SoundIsRespected(spec: AstarteSpec)
    ensures Respects(spec, Sound)
  {
    forall step, have | Guarded(step, spec, have) && OperatorsOwn(have)
      ensures Keeps(step, With(Sound, have))
    {
      SoundIsKept(step, spec, have);
    }
  }

  lemma SoundIsKept(step: Step, spec: AstarteSpec, have: set<Key>)
    requires Guarded(step, spec, have) && OperatorsOwn(have)
    ensures Keeps(step, With(Sound, have))
  {
    forall store: Store, action | With(Sound, have)(store)
      ensures With(Sound, have)(StoreAfter(action, store))
    {
      assert Sound(store);
      OthersKeepSound(action, store, have);
    }
    forall store: Store, change | With(Sound, have)(store) && MayChange(step, store, change)
      ensures With(Sound, have)(Apply(change, store))
    {
      assert Sound(store);
      ChangeKeepsHave(step, spec, have, store, change);
      ChangeKeepsReferences(step, spec, have, store, change);
      ChangeKeepsKeys(step, spec, have, store, change);
      ChangeKeepsGapFree(step, spec, have, store, change);
      assert Sound(Apply(change, store));
    }
  }

  // --- Runs ---

  /** One reconcile after the other, each with the specification of its time, whether they succeed or not. */
  function Reconciles(w: World, o: Oracle, specs: seq<AstarteSpec>): World
    decreases |specs|
  {
    if specs == [] then w else Reconciles(Exec(w, o, Plan(specs[0])).0, o, specs[1..])
  }

  /** In every run from a sound store, and so from an empty cluster, every state is sound. */
  lemma {:induction false} EveryStateIsSound(w: World, o: Oracle, specs: seq<AstarteSpec>)
    requires Sound(w.store)
    ensures Throughout(w, Reconciles(w, o, specs), Sound)
    decreases |specs|
  {
    hide Exec, Plan, Sound;
    if specs != [] {
      var w1 := Exec(w, o, Plan(specs[0])).0;
      ReconcileIsSound(w, o, specs[0]);
      EveryStateIsSound(w1, o, specs[1..]);
      ThroughoutTransitive(w, w1, Reconciles(w, o, specs), Sound);
    }
  }

  lemma ReconcileIsSound(w: World, o: Oracle, spec: AstarteSpec)
    requires Sound(w.store)
    ensures Throughout(w, Exec(w, o, Plan(spec)).0, Sound)
  {
    var after := Exec(w, o, Plan(spec)).0;
    assert With(Sound, {})(w.store);
    hide Exec, Plan, NoDanglingReferences, KeysMatch, GapFree;
    PlanIsGuarded(spec);
    SoundIsRespected(spec);
    ExecThroughout(w, o, Plan(spec), spec, {}, Sound);
    Weaken(w, after, With(Sound, {}), Sound);
  }

  lemma Weaken(before: World, after: World, strong: Store -> bool, weak: Store -> bool)
    requires Throughout(before, after, strong) && forall store :: strong(store) ==> weak(store)
    ensures Throughout(before, after, weak)
  {
  }

  // --- The Housekeeping keys ---

  /** The key pair as far as it is there: the public and the private key. */
  ghost function KeyPair(store: Store): (Option<Object>, Option<Object>) {
    (if HousekeepingPublicKey in store then Some(store[HousekeepingPublicKey]) else None,
     if HousekeepingPrivateKey in store then Some(store[HousekeepingPrivateKey]) else None)
  }

  /** Once published, the key pair is still the same. */
  ghost predicate SameKeys(earlier: Store, later: Store) {
    HousekeepingPublicKey in earlier ==> KeyPair(later) == KeyPair(earlier)
  }

  /** From any state to any later one between two worlds, a published key pair stays the same. */
  ghost predicate Freezes(before: World, after: World) {
    && before.log <= after.log
    && SameKeys(before.store, after.store)
    && (forall i | |before.log| <= i < |after.log| ::
          SameKeys(before.store, after.log[i].store) && SameKeys(after.log[i].store, after.store))
    && (forall i, j | |before.log| <= i <= j < |after.log| :: SameKeys(after.log[i].store, after.log[j].store))
  }

  lemma FreezesTransitive(a: World, b: World, c: World)
    requires Freezes(a, b) && Freezes(b, c)
    ensures Freezes(a, c)
  {
    forall i | |a.log| <= i < |b.log|
      ensures c.log[i] == b.log[i]
    {
    }
  }

  /** In every run, once the public key exists the operator changes neither key again. */
  lemma {:induction false} PublishedKeysAreFrozen(w: World, o: Oracle, specs: seq<AstarteSpec>)
    requires PlainUserSecrets(w.store)
    ensures Freezes(w, Reconciles(w, o, specs))
    decreases |specs|
  {
    if specs != [] {
      var w1 := Exec(w, o, Plan(specs[0])).0;
      PlanIsGuarded(specs[0]);
      hide Plan, Exec, Freezes, GuardedAll;
      ExecFreezes(w, o, Plan(specs[0]), specs[0], {});
      PublishedKeysAreFrozen(w1, o, specs[1..]);
      FreezesTransitive(w, w1, Reconciles(w, o, specs));
    }
  }

  lemma {:induction false} ExecFreezes(w: World, o: Oracle, steps: seq<Step>, spec: AstarteSpec, have: set<Key>)
    requires GuardedAll(steps, spec, have) && PlainUserSecrets(w.store)
    ensures Freezes(w, Exec(w, o, steps).0) && PlainUserSecrets(Exec(w, o, steps).0.store)
    decreases |steps|
  {
    hide Guarded, ExecStep, PlainUserSecrets;
    if steps != [] {
      var (w1, ok) := ExecStep(w, o, steps[0]);
      StepFreezes(w, o, steps[0], spec, have);
      if ok {
        ExecFreezes(w1, o, steps[1..], spec, have + Adds(steps[0]));
        FreezesTransitive(w, w1, Exec(w, o, steps).0);
      }
    }
  }

  ghost function KeyPairIs(pair: (Option<Object>, Option<Object>)): Store -> bool {
    store => KeyPair(store) == pair && PlainUserSecrets(store)
  }

  lemma PairIsKept(step: Step, spec: AstarteSpec, have: set<Key>, pair: (Option<Object>, Option<Object>))
    requires Guarded(step, spec, have) && (step.MakeKeyPair? ==> pair.0.Some?)
    ensures Keeps(step, KeyPairIs(pair))
  {
    var inv := KeyPairIs(pair);
    forall store: Store, action | inv(store) ensures inv(StoreAfter(action, store)) {
      OthersKeepOut(action, store, HousekeepingPublicKey);
      OthersKeepOut(action, store, HousekeepingPrivateKey);
    }
    forall store: Store, change | inv(store) && MayChange(step, store, change) ensures inv(Apply(change, store)) {
    }
  }

  lemma StepFreezes(w: World, o: Oracle, step: Step, spec: AstarteSpec, have: set<Key>)
    requires Guarded(step, spec, have) && PlainUserSecrets(w.store)
    ensures Freezes(w, ExecStep(w, o, step).0) && PlainUserSecrets(ExecStep(w, o, step).0.store)
  {
    var after := ExecStep(w, o, step).0;
    if step.MakeKeyPair? && HousekeepingPublicKey !in w.store {
      hide Freezes;
      PublishingFreezes(w, o);
      PlainIsKept(w, o);
    } else {
      var inv := KeyPairIs(KeyPair(w.store));
      PairIsKept(step, spec, have, KeyPair(w.store));
      assert !(step.Generate? && step.key.UserSecret?);
      hide ExecStep, Guarded, Keeps;
      StepKeeps(w, o, step, inv);
    }
  }

  ghost function Plain(): Store -> bool {
    store => PlainUserSecrets(store)
  }

  lemma PlainIsKeptByKeys()
    ensures Keeps(MakeKeyPair, Plain())
  {
  }

  lemma PlainIsKept(w: World, o: Oracle)
    requires PlainUserSecrets(w.store)
    ensures PlainUserSecrets(ExecStep(w, o, MakeKeyPair).0.store)
  {
    PlainIsKeptByKeys();
    hide ExecMakeKeyPair, Keeps, PlainUserSecrets;
    KeyPairKeeps(w, o, Plain());
  }

  lemma CallFreezes(w: World, after: World, act: Act)
    requires after.log == w.log + [Entry(after.store, after.resource, act)]
    requires SameKeys(w.store, after.store)
    ensures Freezes(w, after)
  {
  }

  lemma ReadFreezes(w: World, o: Oracle)
    ensures Freezes(w, Read(w, o).0)
    ensures HousekeepingPublicKey in Read(w, o).0.store <==> HousekeepingPublicKey in w.store
  {
    var action := o(w.calls).action;
    OthersKeepOut(action, w.store, HousekeepingPublicKey);
    OthersKeepOut(action, w.store, HousekeepingPrivateKey);
    CallFreezes(w, Read(w, o).0, Looked);
  }

  lemma WriteFreezes(w: World, o: Oracle, change: Change)
    requires HousekeepingPublicKey !in w.store
    ensures Freezes(w, Write(w, o, change).0)
    ensures !(change.PutObject? && change.key == HousekeepingPublicKey) ==> HousekeepingPublicKey !in Write(w, o, change).0.store
  {
    OthersKeepOut(o(w.calls).action, w.store, HousekeepingPublicKey);
    CallFreezes(w, Write(w, o, change).0, if o(w.calls).outcome == Lost then Looked else Wrote(change));
  }

  /** The public key is written by the very last call. */
  lemma PublishingFreezes(w: World, o: Oracle)
    requires HousekeepingPublicKey !in w.store
    ensures Freezes(w, ExecMakeKeyPair(w, o).0)
  {
    hide Freezes, Read, Write, StoreKeyPair;
    var (w1, ok1) := Read(w, o);
    ReadFreezes(w, o);
    if ok1 {
      var (w2, ok2) := Read(w1, o);
      ReadFreezes(w1, o);
      FreezesTransitive(w, w1, w2);
      if ok2 {
        if HousekeepingPrivateKey in w2.store {
          var (w3, ok3) := Write(w2, o, DropObject(HousekeepingPrivateKey));
          WriteFreezes(w2, o, DropObject(HousekeepingPrivateKey));
          FreezesTransitive(w, w2, w3);
          if ok3 {
            StoringFreezes(w3, o);
            FreezesTransitive(w, w3, StoreKeyPair(w3, o).0);
          }
        } else {
          StoringFreezes(w2, o);
          FreezesTransitive(w, w2, StoreKeyPair(w2, o).0);
        }
      }
    }
  }

  lemma StoringFreezes(w: World, o: Oracle)
    requires HousekeepingPublicKey !in w.store
    ensures Freezes(w, StoreKeyPair(w, o).0)
  {
    hide Read, Write;
    var start := w.(nextToken := w.nextToken + 1);
    var private := PutObject(HousekeepingPrivateKey, Material(w.nextToken));
    var (w1, ok) := Write(start, o, private);
    WriteFreezes(start, o, private);
    assert Freezes(w, w1);
    if ok {
      hide Freezes;
      var public := PutObject(HousekeepingPublicKey, PublicHalf(w.nextToken));
      WriteFreezes(w1, o, public);
      FreezesTransitive(w, w1, Write(w1, o, public).0);
    }
  }
}
