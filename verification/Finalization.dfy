/** What a finalization deletes: at most certain objects, and without faults exactly these. */
module Finalization {
  import opened Specs
  import opened Cluster
  import opened Plans
  import opened Discipline
  import opened Convergence
  import opened Controller
  import opened Lifecycle
  import opened Listings

  /** The operator's objects that a finalization of this instance has to leave alone. */
  ghost function Spared(store: Store, name: string): Store {
    map key | key in store && !key.UserSecret? && !Erased(key, name) :: store[key]
  }

  lemma ReadSpares(w: World, o: Oracle, name: string)
    ensures Spared(Read(w, o).0.store, name) == Spared(w.store, name)
  {
    OthersKeepOwn(o(w.calls).action, w.store);
    SparedOfOwn(w.store, name);
    SparedOfOwn(Read(w, o).0.store, name);
  }

  lemma OthersKeepOwn(action: Action, store: Store)
    ensures Own(StoreAfter(action, store)) == Own(store)
  {
    forall key: Key | !key.UserSecret?
      ensures key in StoreAfter(action, store) <==> key in store
      ensures key in store ==> StoreAfter(action, store)[key] == store[key]
    {
      OthersKeepOut(action, store, key);
    }
  }

  lemma SparedOfOwn(store: Store, name: string)
    ensures Spared(store, name) == Spared(Own(store), name)
  {
  }

  lemma DropSpares(w: World, o: Oracle, name: string, key: Key)
    requires Erased(key, name)
    ensures Spared(Write(w, o, DropObject(key)).0.store, name) == Spared(w.store, name)
  {
    var here := StoreAfter(o(w.calls).action, w.store);
    OthersKeepOwn(o(w.calls).action, w.store);
    SparedOfOwn(w.store, name);
    SparedOfOwn(here, name);
    assert Spared(here - {key}, name) == Spared(here, name);
  }

  lemma {:induction false} ErasingSpares(w: World, o: Oracle, name: string, claims: seq<string>)
    ensures Spared(ExecEraseClaims(w, o, name, claims).store, name) == Spared(w.store, name)
    decreases |claims|
  {
    hide Write, Erasable, Spared;
    if claims != [] {
      if Erasable(name, claims[0]) {
        DropSpares(w, o, name, VolumeClaim(claims[0]));
        ErasingSpares(Write(w, o, DropObject(VolumeClaim(claims[0]))).0, o, name, claims[1..]);
      } else {
        ErasingSpares(w, o, name, claims[1..]);
      }
    }
  }

  lemma {:induction false} DeletingSpares(w: World, o: Oracle, name: string, listed: Store, priorities: seq<Priority>)
    ensures Spared(ExecDeletePriorities(w, o, listed, priorities).0.store, name) == Spared(w.store, name)
    decreases |priorities|
  {
    hide Write, Spared;
    if priorities != [] {
      if PriorityClass(priorities[0]) !in listed {
        DeletingSpares(w, o, name, listed, priorities[1..]);
      } else {
        DropSpares(w, o, name, PriorityClass(priorities[0]));
        DeletingSpares(Write(w, o, DropObject(PriorityClass(priorities[0]))).0, o, name, listed, priorities[1..]);
      }
    }
  }

  /** Whatever fails, a finalization deletes nothing but CFSSL's published certificate, the instance's
      volume claims, and priority classes. */
  lemma FinalizationSparesTheRest(w: World, o: Oracle, name: string)
    ensures Spared(ExecFinalize(w, o, name).0.store, name) == Spared(w.store, name)
  {
    hide Read, Write, Spared, ExecEraseClaims, ExecDeletePriorities;
    var (w1, ok1) := Read(w, o);
    var w2 := if ok1 && CFSSLProxyCA in w1.store then Write(w1, o, DropObject(CFSSLProxyCA)).0 else w1;
    var w3 := Read(w2, o).0;
    var w4 := ExecEraseClaims(w3, o, name, Claims(w3.store));
    var w5 := Read(w4, o).0;
    ReadSpares(w, o, name);
    DropSpares(w1, o, name, CFSSLProxyCA);
    ReadSpares(w2, o, name);
    ErasingSpares(w3, o, name, Claims(w3.store));
    ReadSpares(w4, o, name);
    DeletingSpares(w5, o, name, w5.store, PRIORITIES);
  }

  // --- Without faults ---

  lemma FaultlessCalls(w: World, o: Oracle, key: Key)
    requires Faultless(o) && !key.UserSecret?
    ensures Read(w, o).1 && Own(Read(w, o).0.store) == Own(w.store)
    ensures Write(w, o, DropObject(key)).1 && Own(Write(w, o, DropObject(key)).0.store) == Own(w.store) - {key}
  {
    assert o(w.calls).outcome == Ok;
    OthersKeepOwn(o(w.calls).action, w.store);
    var here := StoreAfter(o(w.calls).action, w.store);
    assert Own(here - {key}) == Own(here) - {key};
  }

  ghost function ErasableOf(name: string, claims: seq<string>): set<Key> {
    set claim | claim in claims && Erasable(name, claim) :: VolumeClaim(claim)
  }

  lemma {:induction false} ErasingIsExact(w: World, o: Oracle, name: string, claims: seq<string>)
    requires Faultless(o)
    ensures Own(ExecEraseClaims(w, o, name, claims).store) == Own(w.store) - ErasableOf(name, claims)
    decreases |claims|
  {
    hide Write, Erasable, Own, Faultless;
    if claims == [] {
      assert ErasableOf(name, claims) == {};
    } else {
      assert claims == [claims[0]] + claims[1..];
      var key := VolumeClaim(claims[0]);
      if Erasable(name, claims[0]) {
        FaultlessCalls(w, o, key);
        ErasingIsExact(Write(w, o, DropObject(key)).0, o, name, claims[1..]);
        assert ErasableOf(name, claims) == {key} + ErasableOf(name, claims[1..]);
      } else {
        ErasingIsExact(w, o, name, claims[1..]);
        assert ErasableOf(name, claims) == ErasableOf(name, claims[1..]);
      }
    }
  }

  ghost function ClassesOf(listed: Store, priorities: seq<Priority>): set<Key> {
    set priority | priority in priorities && PriorityClass(priority) in listed :: PriorityClass(priority)
  }

  lemma {:induction false} DeletingIsExact(w: World, o: Oracle, listed: Store, priorities: seq<Priority>)
    requires Faultless(o)
    ensures var (after, ok) := ExecDeletePriorities(w, o, listed, priorities);
            ok && Own(after.store) == Own(w.store) - ClassesOf(listed, priorities)
    decreases |priorities|
  {
    hide Write, Own, Faultless;
    if priorities == [] {
      assert ClassesOf(listed, priorities) == {};
    } else {
      assert priorities == [priorities[0]] + priorities[1..];
      var key := PriorityClass(priorities[0]);
      if key !in listed {
        DeletingIsExact(w, o, listed, priorities[1..]);
        assert ClassesOf(listed, priorities) == ClassesOf(listed, priorities[1..]);
      } else {
        FaultlessCalls(w, o, key);
        DeletingIsExact(Write(w, o, DropObject(key)).0, o, listed, priorities[1..]);
        assert ClassesOf(listed, priorities) == {key} + ClassesOf(listed, priorities[1..]);
      }
    }
  }

  lemma AllClasses(store: Store, priority: Priority)
    requires PriorityClass(priority) in store
    ensures PriorityClass(priority) in ClassesOf(store, PRIORITIES)
  {
    assert PRIORITIES[match priority case High => 0 case Low => 1 case Mid => 2] == priority;
  }

  /** Without faults a finalization succeeds and deletes exactly these. */
  lemma FinalizationErasesExactly(w: World, o: Oracle, name: string)
    requires Faultless(o)
    ensures var (after, ok) := ExecFinalize(w, o, name); ok && Own(after.store) == Spared(w.store, name)
  {
    hide Read, Write, Own, Faultless, ExecEraseClaims, ExecDeletePriorities, Erasable, Claims;
    var (w1, ok1) := Read(w, o);
    var w2 := if ok1 && CFSSLProxyCA in w1.store then Write(w1, o, DropObject(CFSSLProxyCA)).0 else w1;
    var w3 := Read(w2, o).0;
    var claims := Claims(w3.store);
    var w4 := ExecEraseClaims(w3, o, name, claims);
    var w5 := Read(w4, o).0;
    FaultlessCalls(w, o, CFSSLProxyCA);
    FaultlessCalls(w1, o, CFSSLProxyCA);
    FaultlessCalls(w2, o, CFSSLProxyCA);
    ErasingIsExact(w3, o, name, claims);
    FaultlessCalls(w4, o, CFSSLProxyCA);
    DeletingIsExact(w5, o, w5.store, PRIORITIES);
    AllTogether(w.store, w1.store, w3.store, w5.store, name, ExecFinalize(w, o, name).0.store, CFSSLProxyCA in w1.store);
  }

  lemma AllTogether(s: Store, s1: Store, s3: Store, s5: Store, name: string, after: Store, found: bool)
    requires Own(s1) == Own(s) && (found <==> CFSSLProxyCA in s1)
    requires Own(s3) == if found then Own(s1) - {CFSSLProxyCA} else Own(s1)
    requires Own(s5) == Own(s3) - ErasableOf(name, Claims(s3))
    requires Own(after) == Own(s5) - ClassesOf(s5, PRIORITIES)
    ensures Own(after) == Spared(s, name)
  {
    hide Erasable;
    assert forall key: Key, t: Store :: !key.UserSecret? ==> (key in Own(t) <==> key in t);
    forall key: Key
      ensures key in Own(after) <==> key in Spared(s, name)
    {
      if key.VolumeClaim? {
        assert key in s3 ==> key.name in Claims(s3);
      }
      if key.PriorityClass? && key in s5 {
        AllClasses(s5, key.priority);
      }
    }
  }

  /** Without faults, of the operator's objects exactly these go. */
  lemma GoneExactlyWhen(w: World, o: Oracle, name: string, key: Key)
    requires Faultless(o) && key in w.store && !key.UserSecret?
    ensures var after := ExecFinalize(w, o, name).0.store;
            && (key in after ==> after[key] == w.store[key])
            && (key !in after <==>
                  || key == CFSSLProxyCA
                  || key.PriorityClass?
                  || (key.VolumeClaim? && (
                        || name + "-vernemq-data" <= key.name
                        || name + "-rabbitmq-data" <= key.name
                        || name + "-cfssl-data" <= key.name
                        || name + "-cassandra-data" <= key.name)))
  {
    hide ExecFinalize;
    FinalizationErasesExactly(w, o, name);
    var after := ExecFinalize(w, o, name).0.store;
    assert key in after <==> key in Own(after);
    assert key in after ==> Own(after)[key] == after[key];
    if key.VolumeClaim? {
      FourPrefixes(name, key.name);
    }
  }

  lemma FourPrefixes(name: string, claim: string)
    ensures Erasable(name, claim) <==>
            || name + "-vernemq-data" <= claim
            || name + "-rabbitmq-data" <= claim
            || name + "-cfssl-data" <= claim
            || name + "-cassandra-data" <= claim
  {
    var prefixes := ErasePrefixes(name);
    assert prefixes[0] == name + "-vernemq-data" && prefixes[1] == name + "-rabbitmq-data";
    assert prefixes[2] == name + "-cfssl-data" && prefixes[3] == name + "-cassandra-data";
  }

  // --- Letting go ---

  /** A deletion that is reported as handled has let go of the resource, whatever failed and whoever acted. */
  lemma FinishedDeletionReleases(w: World, o: Oracle, supported: string -> bool)
    requires var found := Read(w, o).0.resource;
             found.Some? && found.value.deleting && !found.value.spec.manualMaintenanceMode
    requires Read(w, o).1 && ExecReconcile(w, o, supported).1 == Finished
    ensures var after := ExecReconcile(w, o, supported).0.resource;
            after.None? || ASTARTE_FINALIZER !in after.value.finalizers
  {
    hide Read, ExecFinalize;
    var r := Read(w, o).0.resource.value;
    WithoutOurs(r.finalizers, ASTARTE_FINALIZER);
  }

  /** From this call on nobody else touches the resource. */
  ghost predicate LeftAlone(o: Oracle, first: nat) {
    forall call: nat | first <= call :: o(call).action.Quiet? || o(call).action.PutUserSecret? || o(call).action.DropUserSecret?
  }

  ghost function Untouched(first: nat): (World, World) -> bool {
    (a: World, b: World) => a.calls <= b.calls && (first <= a.calls ==> b.resource == a.resource)
  }

  lemma FinalizingTouchesNothing(w: World, o: Oracle, name: string, first: nat)
    requires LeftAlone(o, first)
    ensures Untouched(first)(w, ExecFinalize(w, o, name).0)
  {
    hide ExecFinalize;
    FinalizingRelates(o, Untouched(first), w, name);
  }

  /** Without faults a deletion is done in one reconcile; the resource is gone if nobody else holds on to it. */
  lemma DeletionCompletes(w: World, o: Oracle, supported: string -> bool)
    requires Faultless(o) && LeftAlone(o, w.calls + 1)
    requires var found := Read(w, o).0.resource;
             && found.Some? && found.value.deleting && ASTARTE_FINALIZER in found.value.finalizers
             && !found.value.spec.manualMaintenanceMode && supported(found.value.spec.version)
    ensures var r := Read(w, o).0.resource.value;
            var (after, result) := ExecReconcile(w, o, supported);
            && result == Finished
            && Own(after.store) == Spared(w.store, r.name)
            && (after.resource.None? <==> forall f <- r.finalizers :: f == ASTARTE_FINALIZER)
            && (after.resource.Some? ==>
                  after.resource.value == r.(finalizers := Without(r.finalizers, ASTARTE_FINALIZER), revision := after.resource.value.revision))
  {
    var w1 := Read(w, o).0;
    var r := w1.resource.value;
    FaultlessCalls(w, o, CFSSLProxyCA);
    SparedOfOwn(w.store, r.name);
    SparedOfOwn(w1.store, r.name);
    FinalizationErasesExactly(w1, o, r.name);
    FinalizingTouchesNothing(w1, o, r.name, w.calls + 1);
    var w2 := ExecFinalize(w1, o, r.name).0;
    assert w2.calls >= w.calls + 1 && w2.resource == Some(r);
    hide ExecFinalize, Own, Spared;
    ReleaseGoesThrough(w2, o, r);
    OthersOnly(r.finalizers, ASTARTE_FINALIZER);
  }

  lemma ReleaseGoesThrough(w: World, o: Oracle, r: Resource)
    requires Faultless(o) && LeftAlone(o, w.calls) && w.resource == Some(r)
    ensures var rest := Without(r.finalizers, ASTARTE_FINALIZER);
            var (after, ok) := ExecUpdateFinalizers(w, o, r.(finalizers := rest));
            ok && Own(after.store) == Own(w.store) && after.resource == Present(r.(finalizers := rest, revision := w.clock + 1))
  {
    assert o(w.calls).outcome == Ok;
    OthersKeepOwn(o(w.calls).action, w.store);
  }

  lemma OthersOnly(list: seq<string>, s: string)
    ensures Without(list, s) == [] <==> forall f <- list :: f == s
  {
    hide Without;
    WithoutOurs(list, s);
    var rest := Without(list, s);
    assert rest != [] ==> rest[0] in rest;
  }
}
