/**
 The life of an Astarte resource under the operator: the finalizer protocol.
 */
module Lifecycle {
  import opened Specs
  import opened Cluster
  import opened Plans
  import opened Controller

  // --- Relations kept by every call ---

  /** A relation between worlds that holds across every call about objects. */
  ghost predicate Closed(o: Oracle, rel: (World, World) -> bool) {
    && (forall w :: rel(w, w))
    && (forall a, b, c :: rel(a, b) && rel(b, c) ==> rel(a, c))
    && (forall w :: rel(w, Read(w, o).0))
    && (forall w, change :: rel(w, Write(w, o, change).0))
    && (forall w: World, token: nat :: rel(w, w.(nextToken := token)))
  }

  lemma Chain(o: Oracle, rel: (World, World) -> bool, a: World, b: World, c: World)
    requires Closed(o, rel) && rel(a, b) && rel(b, c)
    ensures rel(a, c)
  {
  }

  lemma CallsRelate(o: Oracle, rel: (World, World) -> bool, w: World)
    requires Closed(o, rel)
    ensures rel(w, w) && rel(w, Read(w, o).0)
    ensures forall change :: rel(w, Write(w, o, change).0)
    ensures forall key :: rel(w, WriteFresh(w, o, key).0)
  {
    var start := w.(nextToken := w.nextToken + 1);
    assert rel(w, start);
    forall key ensures rel(w, WriteFresh(w, o, key).0) {
      assert rel(start, Write(start, o, PutObject(key, Material(w.nextToken))).0);
    }
  }

  lemma StoringRelates(o: Oracle, rel: (World, World) -> bool, w: World)
    requires Closed(o, rel)
    ensures rel(w, StoreKeyPair(w, o).0)
  {
    hide Closed, Read, Write, WriteFresh;
    var w1 := WriteFresh(w, o, HousekeepingPrivateKey).0;
    CallsRelate(o, rel, w);
    CallsRelate(o, rel, w1);
    Chain(o, rel, w, w1, Write(w1, o, PutObject(HousekeepingPublicKey, PublicHalf(w.nextToken))).0);
  }

  lemma MakingKeysRelates(o: Oracle, rel: (World, World) -> bool, w: World)
    requires Closed(o, rel)
    ensures rel(w, ExecMakeKeyPair(w, o).0)
  {
    hide Closed, Read, Write, StoreKeyPair;
    var w1 := Read(w, o).0;
    var w2 := Read(w1, o).0;
    var w3 := Write(w2, o, DropObject(HousekeepingPrivateKey)).0;
    CallsRelate(o, rel, w);
    CallsRelate(o, rel, w1);
    CallsRelate(o, rel, w2);
    StoringRelates(o, rel, w2);
    StoringRelates(o, rel, w3);
    Chain(o, rel, w, w1, w2);
    Chain(o, rel, w, w2, StoreKeyPair(w2, o).0);
    Chain(o, rel, w, w2, w3);
    Chain(o, rel, w, w3, StoreKeyPair(w3, o).0);
  }

  lemma StepRelates(o: Oracle, rel: (World, World) -> bool, w: World, step: Step)
    requires Closed(o, rel)
    ensures rel(w, ExecStep(w, o, step).0)
  {
    hide Closed, Read, Write, WriteFresh, ExecMakeKeyPair;
    var w1 := Read(w, o).0;
    CallsRelate(o, rel, w);
    CallsRelate(o, rel, w1);
    MakingKeysRelates(o, rel, w);
    if rel(w1, ExecStep(w, o, step).0) {
      Chain(o, rel, w, w1, ExecStep(w, o, step).0);
    }
  }

  lemma {:induction false} ExecRelates(o: Oracle, rel: (World, World) -> bool, w: World, steps: seq<Step>)
    requires Closed(o, rel)
    ensures rel(w, Exec(w, o, steps).0)
    decreases |steps|
  {
    hide Closed, ExecStep;
    CallsRelate(o, rel, w);
    if steps != [] {
      var (w1, ok) := ExecStep(w, o, steps[0]);
      StepRelates(o, rel, w, steps[0]);
      if ok {
        ExecRelates(o, rel, w1, steps[1..]);
        Chain(o, rel, w, w1, Exec(w1, o, steps[1..]).0);
      }
    }
  }

  /** The kinds of objects that a finalization deletes. */
  predicate Deletable(key: Key) {
    key == CFSSLProxyCA || key.PriorityClass? || key.VolumeClaim?
  }

  /** A relation that holds across every call of a finalization. */
  ghost predicate ClosedWhenFinalizing(o: Oracle, rel: (World, World) -> bool) {
    && (forall w :: rel(w, w))
    && (forall a, b, c :: rel(a, b) && rel(b, c) ==> rel(a, c))
    && (forall w :: rel(w, Read(w, o).0))
    && (forall w, key | Deletable(key) :: rel(w, Write(w, o, DropObject(key)).0))
    && (forall w :: rel(w, Logged(w, Finalized)))
  }

  lemma FinalizingChain(o: Oracle, rel: (World, World) -> bool, a: World, b: World, c: World)
    requires ClosedWhenFinalizing(o, rel) && rel(a, b) && rel(b, c)
    ensures rel(a, c)
  {
  }

  lemma FinalizingCalls(o: Oracle, rel: (World, World) -> bool, w: World)
    requires ClosedWhenFinalizing(o, rel)
    ensures rel(w, w) && rel(w, Read(w, o).0) && rel(w, Logged(w, Finalized))
    ensures forall key | Deletable(key) :: rel(w, Write(w, o, DropObject(key)).0)
  {
  }

  lemma {:induction false} DeletingPrioritiesRelates(o: Oracle, rel: (World, World) -> bool, w: World, listed: Store, priorities: seq<Priority>)
    requires ClosedWhenFinalizing(o, rel)
    ensures rel(w, ExecDeletePriorities(w, o, listed, priorities).0)
    decreases |priorities|
  {
    hide ClosedWhenFinalizing, Write;
    FinalizingCalls(o, rel, w);
    if priorities != [] {
      if PriorityClass(priorities[0]) !in listed {
        DeletingPrioritiesRelates(o, rel, w, listed, priorities[1..]);
      } else {
        var (w1, ok) := Write(w, o, DropObject(PriorityClass(priorities[0])));
        if ok {
          DeletingPrioritiesRelates(o, rel, w1, listed, priorities[1..]);
          FinalizingChain(o, rel, w, w1, ExecDeletePriorities(w1, o, listed, priorities[1..]).0);
        }
      }
    }
  }

  lemma {:induction false} ErasingRelates(o: Oracle, rel: (World, World) -> bool, w: World, name: string, claims: seq<string>)
    requires ClosedWhenFinalizing(o, rel)
    ensures rel(w, ExecEraseClaims(w, o, name, claims))
    decreases |claims|
  {
    hide ClosedWhenFinalizing, Write, Erasable;
    FinalizingCalls(o, rel, w);
    if claims != [] {
      var w1 := if Erasable(name, claims[0]) then Write(w, o, DropObject(VolumeClaim(claims[0]))).0 else w;
      ErasingRelates(o, rel, w1, name, claims[1..]);
      FinalizingChain(o, rel, w, w1, ExecEraseClaims(w1, o, name, claims[1..]));
    }
  }

  lemma FinalizingRelates(o: Oracle, rel: (World, World) -> bool, w: World, name: string)
    requires ClosedWhenFinalizing(o, rel)
    ensures rel(w, ExecFinalize(w, o, name).0)
  {
    hide ClosedWhenFinalizing, Read, Write, ExecDeletePriorities, ExecEraseClaims;
    var (w1, ok1) := Read(w, o);
    var w2 := if ok1 && CFSSLProxyCA in w1.store then Write(w1, o, DropObject(CFSSLProxyCA)).0 else w1;
    var w3 := Read(w2, o).0;
    var w4 := ExecEraseClaims(w3, o, name, Claims(w3.store));
    var w5 := Read(w4, o).0;
    var w6 := ExecDeletePriorities(w5, o, w5.store, PRIORITIES).0;
    FinalizingCalls(o, rel, w);
    FinalizingCalls(o, rel, w1);
    FinalizingCalls(o, rel, w2);
    FinalizingCalls(o, rel, w4);
    FinalizingCalls(o, rel, w6);
    ErasingRelates(o, rel, w3, name, Claims(w3.store));
    DeletingPrioritiesRelates(o, rel, w5, w5.store, PRIORITIES);
    FinalizingChain(o, rel, w, w1, w2);
    FinalizingChain(o, rel, w, w2, w3);
    FinalizingChain(o, rel, w, w3, w4);
    FinalizingChain(o, rel, w, w4, w5);
    FinalizingChain(o, rel, w, w5, w6);
    FinalizingChain(o, rel, w, w6, Logged(w6, Finalized));
  }

  /** A relation that holds across every call that only reads. */
  ghost predicate ClosedWhenReading(o: Oracle, rel: (World, World) -> bool) {
    && (forall w :: rel(w, w))
    && (forall a, b, c :: rel(a, b) && rel(b, c) ==> rel(a, c))
    && (forall w :: rel(w, Read(w, o).0))
  }

  lemma LookingRelates(o: Oracle, rel: (World, World) -> bool, w: World, spec: AstarteSpec)
    requires ClosedWhenReading(o, rel)
    ensures rel(w, ExecLook(w, o, spec))
  {
    hide Read;
    var w1 := Read(w, o).0;
    var w2 := if spec.deployVerneMQ.GetOr(true) then Read(w1, o).0 else w1;
    assert rel(w, w1) && rel(w1, w2);
    assert rel(w, w2);
    assert rel(w2, ExecLook(w, o, spec));
  }

  /** A relation that holds across every call of the operator. */
  ghost predicate ClosedThroughout(o: Oracle, rel: (World, World) -> bool) {
    && Closed(o, rel)
    && (forall w :: rel(w, Logged(w, Finalized)))
    && (forall w :: rel(w, ExecUpdateStatus(w, o).0))
    && (forall w, version :: rel(w, ExecRestoreVersion(w, o, version).0))
    && (forall w, copy :: rel(w, ExecUpdateFinalizers(w, o, copy).0))
  }

  lemma ThroughoutCalls(o: Oracle, rel: (World, World) -> bool, w: World)
    requires ClosedThroughout(o, rel)
    ensures Closed(o, rel) && ClosedWhenFinalizing(o, rel) && ClosedWhenReading(o, rel)
    ensures rel(w, w) && rel(w, Read(w, o).0) && rel(w, ExecUpdateStatus(w, o).0)
    ensures forall version :: rel(w, ExecRestoreVersion(w, o, version).0)
    ensures forall copy :: rel(w, ExecUpdateFinalizers(w, o, copy).0)
  {
    hide Read, Write, Logged, ExecUpdateStatus, ExecRestoreVersion, ExecUpdateFinalizers;
  }

  lemma HandlingFinalizationRelates(o: Oracle, rel: (World, World) -> bool, w: World, r: Resource)
    requires ClosedThroughout(o, rel)
    ensures rel(w, ExecHandleFinalization(w, o, r).0)
  {
    hide ClosedThroughout, Closed, ClosedWhenFinalizing, ClosedWhenReading, ExecFinalize, ExecUpdateFinalizers;
    ThroughoutCalls(o, rel, w);
    var w1 := ExecFinalize(w, o, r.name).0;
    FinalizingRelates(o, rel, w, r.name);
    ThroughoutCalls(o, rel, w1);
    Chain(o, rel, w, w1, ExecUpdateFinalizers(w1, o, r.(finalizers := Without(r.finalizers, ASTARTE_FINALIZER))).0);
  }

  lemma CoherencyRelates(o: Oracle, rel: (World, World) -> bool, w: World, r: Resource)
    requires ClosedThroughout(o, rel)
    ensures rel(w, ExecEnsureStatusCoherency(w, o, r).0)
  {
    hide ClosedThroughout, Closed, ClosedWhenFinalizing, ClosedWhenReading, Read, ExecRestoreVersion, TagOf;
    ThroughoutCalls(o, rel, w);
    var (w1, ok1) := Read(w, o);
    var key := Running(Of(Housekeeping));
    if r.status.astarteVersion == "" && ok1 && key in w1.store && w1.store[key].Deployment? {
      var tag := TagOf(w1.store[key].rendered.HousekeepingImage());
      if tag.Some? {
        var w2 := ExecRestoreVersion(w1, o, tag.value).0;
        ThroughoutCalls(o, rel, w1);
        ThroughoutCalls(o, rel, w2);
        Chain(o, rel, w, w1, w2);
        Chain(o, rel, w, w2, Read(w2, o).0);
      }
    }
  }

  lemma ResourcesRelate(o: Oracle, rel: (World, World) -> bool, w: World, r: Resource)
    requires ClosedThroughout(o, rel)
    ensures rel(w, ExecResources(w, o, r).0)
  {
    hide ClosedThroughout, Closed, ClosedWhenFinalizing, ClosedWhenReading, Exec, Plan, ExecUpdateStatus;
    ThroughoutCalls(o, rel, w);
    var w1 := Exec(w, o, Plan(r.spec)).0;
    ExecRelates(o, rel, w, Plan(r.spec));
    ThroughoutCalls(o, rel, w1);
    Chain(o, rel, w, w1, ExecUpdateStatus(w1, o).0);
  }

  lemma ProceedingRelates(o: Oracle, rel: (World, World) -> bool, w: World, r: Resource)
    requires ClosedThroughout(o, rel)
    ensures rel(w, ExecProceed(w, o, r).0)
  {
    hide ClosedThroughout, Closed, ClosedWhenFinalizing, ClosedWhenReading, ExecResources, ExecLook, Seen, SeesGreen, Gated;
    var w1 := ExecLook(w, o, r.spec);
    ThroughoutCalls(o, rel, w);
    LookingRelates(o, rel, w, r.spec);
    ResourcesRelate(o, rel, w, r);
    ResourcesRelate(o, rel, w1, r);
    Chain(o, rel, w, w1, ExecResources(w1, o, r).0);
  }

  /** What every single call of the operator keeps, a whole top-level reconcile keeps. */
  lemma ReconcileRelates(o: Oracle, rel: (World, World) -> bool, w: World, supported: string -> bool)
    requires ClosedThroughout(o, rel)
    ensures rel(w, ExecReconcile(w, o, supported).0)
  {
    hide ClosedThroughout, Closed, ClosedWhenFinalizing, ClosedWhenReading, Read, ExecUpdateStatus, ExecHandleFinalization,
         ExecEnsureStatusCoherency, ExecUpdateFinalizers, ExecProceed;
    ThroughoutCalls(o, rel, w);
    var (w1, ok) := Read(w, o);
    if ok && w1.resource.Some? {
      var r := w1.resource.value;
      ThroughoutCalls(o, rel, w1);
      Chain(o, rel, w, w1, ExecUpdateStatus(w1, o).0);
      HandlingFinalizationRelates(o, rel, w1, r);
      Chain(o, rel, w, w1, ExecHandleFinalization(w1, o, r).0);
      var w2 := ExecEnsureStatusCoherency(w1, o, r).0;
      CoherencyRelates(o, rel, w1, r);
      Chain(o, rel, w, w1, w2);
      var w3 := ExecEnsureFinalizer(w2, o, r).0;
      ThroughoutCalls(o, rel, w2);
      Chain(o, rel, w, w2, w3);
      ProceedingRelates(o, rel, w3, r);
      Chain(o, rel, w, w3, ExecProceed(w3, o, r).0);
    }
  }

  // --- The protocol ---

  ghost predicate Carries(resource: Option<Resource>) {
    resource.Some? && ASTARTE_FINALIZER in resource.value.finalizers
  }

  /** The operator's finalizer is there at most once. */
  ghost predicate Single(resource: Option<Resource>) {
    resource.Some? ==> multiset(resource.value.finalizers)[ASTARTE_FINALIZER] <= 1
  }

  /** The finalizers of others, in their order; those of a resource that is gone are gone. */
  ghost function Others(resource: Option<Resource>): seq<string> {
    if resource.None? then [] else Without(resource.value.finalizers, ASTARTE_FINALIZER)
  }

  /** A state follows the one before as it should: objects are written only under the finalizer, which goes only
      right after finalization succeeded and never comes twice; other finalizers stay. */
  ghost predicate Follows(entry: Entry, earlier: Option<Entry>) {
    && Single(entry.resource)
    && (entry.act.Wrote? ==> Carries(entry.resource))
    && (entry.act.WroteFinalizers? ==> Others(entry.resource) == Without(entry.act.replaced, ASTARTE_FINALIZER))
    && (earlier.Some? && Carries(earlier.value.resource) && !Carries(entry.resource) ==> earlier.value.act == Finalized)
  }

  ghost function Last(log: seq<Entry>): Option<Entry> {
    if log == [] then None else Some(log[|log| - 1])
  }

  ghost predicate Orderly(log: seq<Entry>) {
    forall i :: 0 <= i < |log| ==> Follows(log[i], Last(log[..i]))
  }

  /** The log is orderly and up to date, and revisions lie in the past. */
  ghost predicate Good(w: World) {
    && Orderly(w.log)
    && (w.log != [] ==> w.log[|w.log| - 1].resource == w.resource)
    && Single(w.resource)
    && (w.resource.Some? ==> w.resource.value.revision < w.clock)
  }

  /** This copy of the resource is either up to date or recognizably stale. */
  ghost predicate Knows(w: World, r: Resource) {
    && r.revision < w.clock
    && (w.resource.Some? && w.resource.value.revision == r.revision ==> w.resource == Some(r))
  }

  lemma {:induction false} WithoutOurs(list: seq<string>, s: string)
    ensures s !in Without(list, s)
    ensures forall t :: t != s ==> (t in Without(list, s) <==> t in list)
    ensures s !in list ==> Without(list, s) == list
  {
    if list != [] {
      WithoutOurs(list[1..], s);
      assert list == [list[0]] + list[1..];
    }
  }

  lemma {:induction false} WithoutKeepsCount(list: seq<string>, s: string, t: string)
    requires s != t
    ensures multiset(Without(list, s))[t] == multiset(list)[t]
  {
    if list != [] {
      WithoutKeepsCount(list[1..], s, t);
      assert list == [list[0]] + list[1..];
    }
  }

  lemma {:induction false} WithoutAppend(list: seq<string>, s: string)
    ensures Without(list + [s], s) == Without(list, s)
  {
    if list == [] {
      assert [s][1..] == [];
    } else {
      WithoutAppend(list[1..], s);
      assert (list + [s])[1..] == list[1..] + [s];
    }
  }

  lemma {:induction false} WithoutTwice(list: seq<string>, s: string)
    ensures Without(Without(list, s), s) == Without(list, s)
  {
    WithoutOurs(list, s);
    WithoutOurs(Without(list, s), s);
  }

  /** Others neither remove nor repeat the operator's finalizer. */
  lemma OthersRespectTheFinalizer(action: Action, resource: Option<Resource>, clock: nat)
    requires Single(resource)
    ensures Single(ResourceAfter(action, resource, clock))
    ensures Carries(resource) ==> Carries(ResourceAfter(action, resource, clock))
  {
    if resource.Some? && action.RemoveFinalizer? && action.finalizer != ASTARTE_FINALIZER {
      WithoutOurs(resource.value.finalizers, action.finalizer);
      WithoutKeepsCount(resource.value.finalizers, action.finalizer, ASTARTE_FINALIZER);
    }
  }

  lemma ArriveKeeps(w: World, o: Oracle, r: Resource)
    requires Good(w)
    ensures var here := Arrive(w, o);
            && here.log == w.log
            && Single(here.resource)
            && (here.resource.Some? ==> here.resource.value.revision < here.clock)
            && (Carries(w.resource) ==> Carries(here.resource))
            && (Knows(w, r) ==> Knows(here, r))
  {
    OthersRespectTheFinalizer(o(w.calls).action, w.resource, w.clock);
  }

  // --- Every call keeps the protocol ---

  /** Between these worlds the log stayed orderly, the copy stayed known, and the finalizer stayed. */
  ghost predicate Preserves(a: World, b: World, r: Resource) {
    Good(a) ==>
      && Good(b)
      && (Knows(a, r) ==> Knows(b, r))
      && (Carries(a.resource) ==> Carries(b.resource))
  }

  lemma LogGrows(log: seq<Entry>, entry: Entry)
    requires Orderly(log) && Follows(entry, Last(log))
    ensures Orderly(log + [entry])
  {
    hide Follows;
    var more := log + [entry];
    forall i | 0 <= i < |more| ensures Follows(more[i], Last(more[..i])) {
      if i < |log| {
        assert more[..i] == log[..i] && more[i] == log[i];
      } else {
        assert more[..i] == log;
      }
    }
  }

  lemma ReadKeeps(w: World, o: Oracle, r: Resource)
    ensures Preserves(w, Read(w, o).0, r)
    ensures Good(w) && Read(w, o).0.resource.Some? ==> Knows(Read(w, o).0, Read(w, o).0.resource.value)
  {
    if Good(w) {
      hide Knows, Single, Carries, Orderly;
      ArriveKeeps(w, o, r);
      var here := Arrive(w, o);
      KnowsItself(here);
      LoggedIsGood(w, here, Looked);
      KnowsLogged(here, Looked, r);
      if here.resource.Some? { KnowsLogged(here, Looked, here.resource.value); }
    }
  }

  lemma KnowsItself(w: World)
    ensures w.resource.Some? && w.resource.value.revision < w.clock ==> Knows(w, w.resource.value)
  {
  }

  lemma KnowsLogged(w: World, act: Act, r: Resource)
    ensures Knows(Logged(w, act), r) <==> Knows(w, r)
  {
  }

  /** A call's entry fits when nothing is lost and objects are written only under the finalizer. */
  lemma LoggedIsGood(w: World, there: World, act: Act)
    requires Good(w) && there.log == w.log
    requires Single(there.resource) && (there.resource.Some? ==> there.resource.value.revision < there.clock)
    requires act.Wrote? ==> Carries(there.resource)
    requires act.WroteFinalizers? ==> Others(there.resource) == Without(act.replaced, ASTARTE_FINALIZER)
    requires Carries(w.resource) && !Carries(there.resource) ==> w.log != [] && w.log[|w.log| - 1].act == Finalized
    ensures Good(Logged(there, act))
  {
    hide Single, Carries, Others;
    LogGrows(w.log, Entry(there.store, there.resource, act));
  }

  /** Objects are written under the finalizer. */
  lemma WriteKeeps(w: World, o: Oracle, change: Change, r: Resource)
    requires Carries(w.resource)
    ensures Preserves(w, Write(w, o, change).0, r)
  {
    hide Good, Knows, Single, Carries, Arrive, Apply;
    if Good(w) {
      ArriveKeeps(w, o, r);
      var here := Arrive(w, o);
      var there := here.(store := Apply(change, here.store));
      LoggedIsGood(w, here, Looked);
      LoggedIsGood(w, there, Wrote(change));
      KnowsLogged(here, Looked, r);
      KnowsStore(here, there, Wrote(change), r);
    }
  }

  lemma KnowsStore(here: World, there: World, act: Act, r: Resource)
    requires there.resource == here.resource && there.clock == here.clock
    ensures Knows(Logged(there, act), r) <==> Knows(here, r)
  {
  }

  ghost function UnderFinalizer(r: Resource): (World, World) -> bool {
    (a: World, b: World) => Good(a) && Carries(a.resource) ==> Good(b) && Carries(b.resource) && (Knows(a, r) ==> Knows(b, r))
  }

  lemma CallsKeep(o: Oracle, r: Resource)
    ensures Closed(o, UnderFinalizer(r))
  {
    var rel := UnderFinalizer(r);
    forall w ensures rel(w, Read(w, o).0) {
      ReadKeeps(w, o, r);
    }
    forall w, change ensures rel(w, Write(w, o, change).0) {
      if Carries(w.resource) { WriteKeeps(w, o, change, r); }
    }
  }

  lemma UpdateStatusKeeps(w: World, o: Oracle, r: Resource)
    ensures Preserves(w, ExecUpdateStatus(w, o).0, r)
  {
    if Good(w) {
      ArriveKeeps(w, o, r);
      var here := Arrive(w, o);
      LoggedIsGood(w, here, Looked);
      if here.resource.Some? {
        var status := CurrentStatus(here.resource.value, o(w.calls).view);
        StatusPutKeeps(w, o, r, status);
      }
    }
  }

  lemma RestoreVersionKeeps(w: World, o: Oracle, version: string, r: Resource)
    ensures Preserves(w, ExecRestoreVersion(w, o, version).0, r)
  {
    if Good(w) {
      ArriveKeeps(w, o, r);
      var here := Arrive(w, o);
      LoggedIsGood(w, here, Looked);
      if here.resource.Some? {
        StatusPutKeeps(w, o, r, here.resource.value.status.(astarteVersion := version));
      }
    }
  }

  lemma StatusPutKeeps(w: World, o: Oracle, r: Resource, status: Status)
    requires Good(w) && Arrive(w, o).resource.Some?
    ensures var here := Arrive(w, o);
            var found := here.resource.value;
            Preserves(w, PutResource(w, o, Some(found.(status := status, revision := here.clock)), WroteStatus(found.status)).0, r)
  {
    hide Good, Knows, Single, Carries, Arrive;
    ArriveKeeps(w, o, r);
    var here := Arrive(w, o);
    var found := here.resource.value;
    var there := here.(resource := Some(found.(status := status, revision := here.clock)), clock := here.clock + 1);
    SameFinalizers(here, there);
    LoggedIsGood(w, here, Looked);
    LoggedIsGood(w, there, WroteStatus(found.status));
    KnowsLogged(here, Looked, r);
    Outdated(here, there, WroteStatus(found.status), r);
  }

  lemma SameFinalizers(here: World, there: World)
    requires here.resource.Some? && there.resource.Some? && there.resource.value.finalizers == here.resource.value.finalizers
    ensures Single(there.resource) <==> Single(here.resource)
    ensures Carries(there.resource) <==> Carries(here.resource)
  {
  }

  lemma Outdated(here: World, there: World, act: Act, r: Resource)
    requires there.resource.Some? && there.resource.value.revision == here.clock < there.clock
    ensures Knows(here, r) ==> Knows(Logged(there, act), r)
  {
  }

  // --- The finalizer ---

  lemma FinalizersPutKeeps(w: World, o: Oracle, r: Resource, finalizers: seq<string>)
    requires Good(w) && Knows(w, r)
    requires multiset(finalizers)[ASTARTE_FINALIZER] <= 1
    requires Without(finalizers, ASTARTE_FINALIZER) == Without(r.finalizers, ASTARTE_FINALIZER)
    requires ASTARTE_FINALIZER in finalizers || (w.log != [] && w.log[|w.log| - 1].act == Finalized)
    ensures var (after, ok) := ExecUpdateFinalizers(w, o, r.(finalizers := finalizers));
            Good(after) && (ok && ASTARTE_FINALIZER in finalizers ==> Carries(after.resource))
  {
    hide Good, Without, Single, Carries, Others, Present, Arrive;
    var here := Arrive(w, o);
    ArriveKeeps(w, o, r);
    LoggedIsGood(w, here, Looked);
    if here.resource.Some? && here.resource.value.revision == r.revision {
      var written := Present(r.(finalizers := finalizers, revision := here.clock));
      PuttingFits(r, finalizers, here.clock);
      LoggedIsGood(w, here.(resource := written, clock := here.clock + 1), WroteFinalizers(r.finalizers));
    }
  }

  lemma PuttingFits(r: Resource, finalizers: seq<string>, revision: nat)
    requires multiset(finalizers)[ASTARTE_FINALIZER] <= 1
    requires Without(finalizers, ASTARTE_FINALIZER) == Without(r.finalizers, ASTARTE_FINALIZER)
    ensures var written := Present(r.(finalizers := finalizers, revision := revision));
            && Single(written) && Others(written) == Without(r.finalizers, ASTARTE_FINALIZER)
            && (ASTARTE_FINALIZER in finalizers ==> Carries(written))
            && (written.Some? ==> written.value.revision == revision)
  {
  }

  lemma AddingKeeps(w: World, o: Oracle, r: Resource)
    requires Good(w) && Knows(w, r) && ASTARTE_FINALIZER !in r.finalizers
    ensures var (after, ok) := ExecUpdateFinalizers(w, o, r.(finalizers := r.finalizers + [ASTARTE_FINALIZER]));
            Good(after) && (ok ==> Carries(after.resource))
  {
    hide Good, Knows, Carries, ExecUpdateFinalizers;
    WithoutAppend(r.finalizers, ASTARTE_FINALIZER);
    FinalizersPutKeeps(w, o, r, r.finalizers + [ASTARTE_FINALIZER]);
  }

  lemma RemovingKeeps(w: World, o: Oracle, r: Resource)
    requires Good(w) && Knows(w, r) && w.log != [] && w.log[|w.log| - 1].act == Finalized
    ensures Good(ExecUpdateFinalizers(w, o, r.(finalizers := Without(r.finalizers, ASTARTE_FINALIZER))).0)
  {
    hide Good, Knows, ExecUpdateFinalizers;
    WithoutOurs(r.finalizers, ASTARTE_FINALIZER);
    WithoutTwice(r.finalizers, ASTARTE_FINALIZER);
    FinalizersPutKeeps(w, o, r, Without(r.finalizers, ASTARTE_FINALIZER));
  }

  lemma FinalizingCallsKeep(o: Oracle, r: Resource)
    ensures ClosedWhenFinalizing(o, UnderFinalizer(r))
  {
    CallsKeep(o, r);
    var rel := UnderFinalizer(r);
    forall w ensures rel(w, Logged(w, Finalized)) {
      if Good(w) {
        LoggedIsGood(w, w, Finalized);
      }
    }
  }

  lemma FinalizingKeeps(w: World, o: Oracle, r: Resource)
    requires Good(w) && Carries(w.resource) && Knows(w, r)
    ensures var (after, ok) := ExecFinalize(w, o, r.name);
            && Good(after) && Knows(after, r)
            && (ok ==> after.log != [] && after.log[|after.log| - 1].act == Finalized)
  {
    FinalizationIsMarked(w, o, r.name);
    hide Good, Carries, Knows, ExecFinalize;
    FinalizingCallsKeep(o, r);
    FinalizingRelates(o, UnderFinalizer(r), w, r.name);
  }

  lemma FinalizationIsMarked(w: World, o: Oracle, name: string)
    ensures var (after, ok) := ExecFinalize(w, o, name); ok ==> after.log != [] && after.log[|after.log| - 1].act == Finalized
  {
    hide Read, Write, ExecDeletePriorities, ExecEraseClaims;
  }

  lemma HandlingFinalizationKeeps(w: World, o: Oracle, r: Resource)
    requires Good(w) && Knows(w, r) && w.resource == Some(r)
    ensures Good(ExecHandleFinalization(w, o, r).0)
  {
    if ASTARTE_FINALIZER in r.finalizers {
      hide Good, Knows, ExecFinalize, ExecUpdateFinalizers;
      FinalizingKeeps(w, o, r);
      var (w1, ok) := ExecFinalize(w, o, r.name);
      if ok {
        RemovingKeeps(w1, o, r);
      }
    }
  }

  // --- Whole reconciles ---

  lemma CoherencyKeeps(w: World, o: Oracle, r: Resource)
    requires Good(w) && Knows(w, r)
    ensures var after := ExecEnsureStatusCoherency(w, o, r).0;
            Good(after) && Knows(after, r) && (Carries(w.resource) ==> Carries(after.resource))
  {
    if r.status.astarteVersion == "" {
      hide Good, Knows, Carries, Read, ExecRestoreVersion, TagOf;
      var (w1, ok1) := Read(w, o);
      ReadKeeps(w, o, r);
      var key := Running(Of(Housekeeping));
      if ok1 && key in w1.store && w1.store[key].Deployment? {
        var tag := TagOf(w1.store[key].rendered.HousekeepingImage());
        if tag.Some? {
          var (w2, ok2) := ExecRestoreVersion(w1, o, tag.value);
          RestoreVersionKeeps(w1, o, tag.value, r);
          ReadKeeps(w2, o, r);
        }
      }
    }
  }

  lemma ResourcesKeep(w: World, o: Oracle, r: Resource)
    requires Good(w) && Carries(w.resource)
    ensures Good(ExecResources(w, o, r).0)
  {
    hide Good, Carries, Knows, Exec, Plan, ExecUpdateStatus, Closed;
    CallsKeep(o, r);
    ExecRelates(o, UnderFinalizer(r), w, Plan(r.spec));
    var (w1, ok) := Exec(w, o, Plan(r.spec));
    UpdateStatusKeeps(w1, o, r);
  }

  lemma ProceedingKeeps(w: World, o: Oracle, r: Resource)
    requires Good(w) && Carries(w.resource)
    ensures Good(ExecProceed(w, o, r).0)
  {
    hide Good, Carries, Knows, Read, ExecResources, Gated, SeesGreen, Seen, ExecLook;
    ReadingKeeps(o, r);
    LookingRelates(o, UnderFinalizer(r), w, r.spec);
    ResourcesKeep(w, o, r);
    ResourcesKeep(ExecLook(w, o, r.spec), o, r);
  }

  lemma ReadingKeeps(o: Oracle, r: Resource)
    ensures ClosedWhenReading(o, UnderFinalizer(r))
  {
    CallsKeep(o, r);
  }

  lemma HandlingKeeps(w: World, o: Oracle, supported: string -> bool, r: Resource)
    requires Good(w) && Knows(w, r) && w.resource == Some(r)
    ensures Good(ExecHandle(w, o, supported, r).0)
  {
    hide Good, Knows, ExecUpdateStatus, ExecHandleFinalization, ExecEnsureStatusCoherency, ExecUpdateFinalizers, ExecProceed;
    UpdateStatusKeeps(w, o, r);
    HandlingFinalizationKeeps(w, o, r);
    CoherencyKeeps(w, o, r);
    var (w1, ok1) := ExecEnsureStatusCoherency(w, o, r);
    if ASTARTE_FINALIZER in r.finalizers {
      if ok1 && !r.spec.manualMaintenanceMode && !r.deleting {
        ProceedingKeeps(w1, o, r);
      }
    } else {
      AddingKeeps(w1, o, r);
      var (w2, ok2) := ExecEnsureFinalizer(w1, o, r);
      if ok2 {
        ProceedingKeeps(w2, o, r);
      }
    }
  }

  /** Reconcile after reconcile. */
  function Serve(w: World, o: Oracle, supported: string -> bool, count: nat): World
    decreases count
  {
    if count == 0 then w else Serve(ExecReconcile(w, o, supported).0, o, supported, count - 1)
  }

  /** In every run of reconciles, with whatever faults and whatever others do: objects are written
      only while the resource carries the operator's finalizer; a resource that carries it loses it,
      or disappears, only right after a finalization without error; it is never there twice; and
      every write of the finalizers leaves those of others as they were, in order. */
  lemma {:induction false} ProtocolHolds(w: World, o: Oracle, supported: string -> bool, count: nat)
    requires Good(w)
    ensures Good(Serve(w, o, supported, count))
    decreases count
  {
    hide Good, ExecReconcile;
    if count > 0 {
      ReconcileKeeps(w, o, supported);
      ProtocolHolds(ExecReconcile(w, o, supported).0, o, supported, count - 1);
    }
  }

  lemma ReconcileKeeps(w: World, o: Oracle, supported: string -> bool)
    requires Good(w)
    ensures Good(ExecReconcile(w, o, supported).0)
  {
    hide Good, Knows, Carries, ExecHandle, Read;
    var (w1, ok) := Read(w, o);
    if w1.resource.Some? {
      ReadKeeps(w, o, w1.resource.value);
      HandlingKeeps(w1, o, supported, w1.resource.value);
    } else {
      var any: Resource := *;
      ReadKeeps(w, o, any);
    }
  }

  /** An empty cluster without an Astarte resource is a good start. */
  lemma NothingIsGood(w: World)
    requires w.log == [] && w.resource.None?
    ensures Good(w)
  {
  }

  // --- Deletion ---

  /** Nothing is created or updated between these worlds. */
  ghost predicate OnlyDeletes(a: World, b: World) {
    && a.log <= b.log
    && forall i | |a.log| <= i < |b.log| :: b.log[i].act.Wrote? ==> b.log[i].act.change.DropObject?
  }

  ghost function Deletes(): (World, World) -> bool {
    (a: World, b: World) => OnlyDeletes(a, b)
  }

  lemma FinalizingCallsDelete(o: Oracle)
    ensures ClosedWhenFinalizing(o, Deletes())
  {
    forall a, b, c | OnlyDeletes(a, b) && OnlyDeletes(b, c) ensures OnlyDeletes(a, c) {
      DeletesChain(a, b, c);
    }
  }

  /** A reconcile that finds its resource marked for deletion creates and updates no object. */
  lemma DeletionCreatesNothing(w: World, o: Oracle, supported: string -> bool)
    requires Read(w, o).0.resource.Some? && Read(w, o).0.resource.value.deleting
    ensures OnlyDeletes(w, ExecReconcile(w, o, supported).0)
  {
    var w1 := Read(w, o).0;
    var r := w1.resource.value;
    assert OnlyDeletes(w, w1);
    var (w2, ok) := ExecFinalize(w1, o, r.name);
    FinalizingCallsDelete(o);
    FinalizingRelates(o, Deletes(), w1, r.name);
    hide Read, ExecFinalize;
    assert OnlyDeletes(w1, w2);
    var copy := r.(finalizers := Without(r.finalizers, ASTARTE_FINALIZER));
    ResourceCallsDelete(w1, o, copy);
    ResourceCallsDelete(w2, o, copy);
    hide ExecUpdateFinalizers, ExecUpdateStatus, OnlyDeletes;
    DeletesChain(w, w1, ExecUpdateStatus(w1, o).0);
    DeletesChain(w, w1, w2);
    DeletesChain(w, w2, ExecUpdateFinalizers(w2, o, copy).0);
  }

  lemma ResourceCallsDelete(w: World, o: Oracle, copy: Resource)
    ensures OnlyDeletes(w, ExecUpdateStatus(w, o).0) && OnlyDeletes(w, ExecUpdateFinalizers(w, o, copy).0)
  {
  }

  lemma DeletesChain(a: World, b: World, c: World)
    requires OnlyDeletes(a, b) && OnlyDeletes(b, c)
    ensures OnlyDeletes(a, c)
  {
    forall i | |a.log| <= i < |c.log| ensures c.log[i].act.Wrote? ==> c.log[i].act.change.DropObject? {
      if i < |b.log| { assert c.log[i] == b.log[i]; }
    }
  }
}
