/** A reconcile depends on nothing but what happens at its own calls. */
module Locality {
  import opened Specs
  import opened Cluster
  import opened Plans
  import opened Controller
  import opened Lifecycle

  /** Two oracles that say the same of all calls before this one. */
  ghost predicate Agree(o: Oracle, p: Oracle, stop: nat) {
    forall call: nat | call < stop :: o(call) == p(call)
  }

  /** Time does not run backwards, and if the one run is over by then, the other is the same. */
  ghost predicate Same<T>(w: World, run: (World, T), other: (World, T), stop: nat) {
    w.calls <= run.0.calls && (run.0.calls <= stop ==> other == run)
  }

  /** As the oracle says up to a call; from then on nobody else acts. */
  function Hushed(o: Oracle, stop: nat): Oracle {
    (call: nat) => if call < stop then o(call) else o(call).(action := Quiet)
  }

  // --- Calls about objects ---

  lemma CallsAreLocal(w: World, o: Oracle, p: Oracle, stop: nat)
    requires Agree(o, p, stop)
    ensures Same(w, Read(w, o), Read(w, p), stop)
    ensures forall change :: Same(w, Write(w, o, change), Write(w, p, change), stop)
    ensures forall key :: Same(w, WriteFresh(w, o, key), WriteFresh(w, p, key), stop)
  {
  }

  lemma StoringIsLocal(w: World, o: Oracle, p: Oracle, stop: nat)
    requires Agree(o, p, stop)
    ensures Same(w, StoreKeyPair(w, o), StoreKeyPair(w, p), stop)
  {
    hide Agree, Write, WriteFresh;
    CallsAreLocal(w, o, p, stop);
    CallsAreLocal(WriteFresh(w, o, HousekeepingPrivateKey).0, o, p, stop);
  }

  lemma MakingKeysIsLocal(w: World, o: Oracle, p: Oracle, stop: nat)
    requires Agree(o, p, stop)
    ensures Same(w, ExecMakeKeyPair(w, o), ExecMakeKeyPair(w, p), stop)
  {
    hide Agree, Read, Write, StoreKeyPair;
    var w1 := Read(w, o).0;
    var w2 := Read(w1, o).0;
    CallsAreLocal(w, o, p, stop);
    CallsAreLocal(w1, o, p, stop);
    CallsAreLocal(w2, o, p, stop);
    StoringIsLocal(w2, o, p, stop);
    StoringIsLocal(Write(w2, o, DropObject(HousekeepingPrivateKey)).0, o, p, stop);
  }

  lemma StepIsLocal(w: World, o: Oracle, p: Oracle, step: Step, stop: nat)
    requires Agree(o, p, stop)
    ensures Same(w, ExecStep(w, o, step), ExecStep(w, p, step), stop)
  {
    hide Agree, Read, Write, WriteFresh, ExecMakeKeyPair;
    CallsAreLocal(w, o, p, stop);
    CallsAreLocal(Read(w, o).0, o, p, stop);
    MakingKeysIsLocal(w, o, p, stop);
  }

  lemma {:induction false} ExecIsLocal(w: World, o: Oracle, p: Oracle, steps: seq<Step>, stop: nat)
    requires Agree(o, p, stop)
    ensures Same(w, Exec(w, o, steps), Exec(w, p, steps), stop)
    decreases |steps|
  {
    hide Agree, ExecStep;
    if steps != [] {
      StepIsLocal(w, o, p, steps[0], stop);
      ExecIsLocal(ExecStep(w, o, steps[0]).0, o, p, steps[1..], stop);
    }
  }

  // --- Calls about the resource ---

  lemma ResourceCallsAreLocal(w: World, o: Oracle, p: Oracle, stop: nat)
    requires Agree(o, p, stop)
    ensures Same(w, ExecUpdateStatus(w, o), ExecUpdateStatus(w, p), stop)
    ensures forall version :: Same(w, ExecRestoreVersion(w, o, version), ExecRestoreVersion(w, p, version), stop)
    ensures forall copy :: Same(w, ExecUpdateFinalizers(w, o, copy), ExecUpdateFinalizers(w, p, copy), stop)
  {
  }

  lemma {:induction false} ErasingIsLocal(w: World, o: Oracle, p: Oracle, name: string, claims: seq<string>, stop: nat)
    requires Agree(o, p, stop)
    ensures var after := ExecEraseClaims(w, o, name, claims);
            w.calls <= after.calls && (after.calls <= stop ==> ExecEraseClaims(w, p, name, claims) == after)
    decreases |claims|
  {
    hide Agree, Write, Erasable;
    if claims != [] {
      CallsAreLocal(w, o, p, stop);
      ErasingIsLocal(if Erasable(name, claims[0]) then Write(w, o, DropObject(VolumeClaim(claims[0]))).0 else w, o, p, name, claims[1..], stop);
    }
  }

  lemma {:induction false} DeletingIsLocal(w: World, o: Oracle, p: Oracle, listed: Store, priorities: seq<Priority>, stop: nat)
    requires Agree(o, p, stop)
    ensures Same(w, ExecDeletePriorities(w, o, listed, priorities), ExecDeletePriorities(w, p, listed, priorities), stop)
    decreases |priorities|
  {
    hide Agree, Write;
    if priorities != [] {
      CallsAreLocal(w, o, p, stop);
      DeletingIsLocal(if PriorityClass(priorities[0]) in listed then Write(w, o, DropObject(PriorityClass(priorities[0]))).0 else w, o, p, listed, priorities[1..], stop);
    }
  }

  lemma FinalizingIsLocal(w: World, o: Oracle, p: Oracle, name: string, stop: nat)
    requires Agree(o, p, stop)
    ensures Same(w, ExecFinalize(w, o, name), ExecFinalize(w, p, name), stop)
  {
    hide Agree, Read, Write, ExecEraseClaims, ExecDeletePriorities, Claims;
    var (w1, ok1) := Read(w, o);
    var w2 := if ok1 && CFSSLProxyCA in w1.store then Write(w1, o, DropObject(CFSSLProxyCA)).0 else w1;
    var w3 := Read(w2, o).0;
    var w4 := ExecEraseClaims(w3, o, name, Claims(w3.store));
    var w5 := Read(w4, o).0;
    CallsAreLocal(w, o, p, stop);
    CallsAreLocal(w1, o, p, stop);
    CallsAreLocal(w2, o, p, stop);
    ErasingIsLocal(w3, o, p, name, Claims(w3.store), stop);
    CallsAreLocal(w4, o, p, stop);
    DeletingIsLocal(w5, o, p, w5.store, PRIORITIES, stop);
  }

  lemma HandlingFinalizationIsLocal(w: World, o: Oracle, p: Oracle, r: Resource, stop: nat)
    requires Agree(o, p, stop)
    ensures Same(w, ExecHandleFinalization(w, o, r), ExecHandleFinalization(w, p, r), stop)
  {
    hide Agree, ExecFinalize, ExecUpdateFinalizers;
    FinalizingIsLocal(w, o, p, r.name, stop);
    ResourceCallsAreLocal(ExecFinalize(w, o, r.name).0, o, p, stop);
  }

  // --- A reconcile ---

  lemma CoherencyIsLocal(w: World, o: Oracle, p: Oracle, r: Resource, stop: nat)
    requires Agree(o, p, stop)
    ensures Same(w, ExecEnsureStatusCoherency(w, o, r), ExecEnsureStatusCoherency(w, p, r), stop)
  {
    hide Agree, Read, ExecRestoreVersion, TagOf;
    CallsAreLocal(w, o, p, stop);
    if r.status.astarteVersion == "" {
      var (w1, ok1) := Read(w, o);
      ResourceCallsAreLocal(w1, o, p, stop);
      var key := Running(Of(Housekeeping));
      if ok1 && key in w1.store && w1.store[key].Deployment? {
        var tag := TagOf(w1.store[key].rendered.HousekeepingImage());
        if tag.Some? {
          CallsAreLocal(ExecRestoreVersion(w1, o, tag.value).0, o, p, stop);
        }
      }
    }
  }

  lemma EnsuringIsLocal(w: World, o: Oracle, p: Oracle, r: Resource, stop: nat)
    requires Agree(o, p, stop)
    ensures Same(w, ExecEnsureFinalizer(w, o, r), ExecEnsureFinalizer(w, p, r), stop)
  {
    hide Agree, ExecUpdateFinalizers;
    ResourceCallsAreLocal(w, o, p, stop);
  }

  lemma LookingIsLocal(w: World, o: Oracle, p: Oracle, spec: AstarteSpec, stop: nat)
    requires Agree(o, p, stop)
    ensures var after := ExecLook(w, o, spec);
            && w.calls <= after.calls
            && (after.calls <= stop ==> ExecLook(w, p, spec) == after && Seen(p, w.calls, spec) == Seen(o, w.calls, spec))
  {
    var w1 := Read(w, o).0;
    var w2 := if spec.deployVerneMQ.GetOr(true) then Read(w1, o).0 else w1;
    CallsAreLocal(w, o, p, stop);
    CallsAreLocal(w1, o, p, stop);
    CallsAreLocal(w2, o, p, stop);
    LooksAreCalls(w, o, spec);
    hide Read;
  }

  lemma LooksAreCalls(w: World, o: Oracle, spec: AstarteSpec)
    ensures var vernemq, cfssl := spec.deployVerneMQ.GetOr(true), spec.deployCFSSL.GetOr(true);
            ExecLook(w, o, spec).calls == w.calls + 1 + (if vernemq then 1 else 0) + if cfssl then 1 else 0
  {
    hide StoreAfter, ResourceAfter;
  }

  lemma ResourcesAreLocal(w: World, o: Oracle, p: Oracle, r: Resource, stop: nat)
    requires Agree(o, p, stop)
    ensures Same(w, ExecResources(w, o, r), ExecResources(w, p, r), stop)
  {
    hide Agree, Exec, Plan, ExecUpdateStatus;
    ExecIsLocal(w, o, p, Plan(r.spec), stop);
    ResourceCallsAreLocal(Exec(w, o, Plan(r.spec)).0, o, p, stop);
  }

  lemma ProceedingIsLocal(w: World, o: Oracle, p: Oracle, r: Resource, stop: nat)
    requires Agree(o, p, stop)
    ensures Same(w, ExecProceed(w, o, r), ExecProceed(w, p, r), stop)
  {
    hide Agree, ExecResources, ExecLook, Seen, SeesGreen, Gated;
    LookingIsLocal(w, o, p, r.spec, stop);
    ResourcesAreLocal(w, o, p, r, stop);
    ResourcesAreLocal(ExecLook(w, o, r.spec), o, p, r, stop);
  }

  lemma HandlingIsLocal(w: World, o: Oracle, p: Oracle, supported: string -> bool, r: Resource, stop: nat)
    requires Agree(o, p, stop)
    ensures Same(w, ExecHandle(w, o, supported, r), ExecHandle(w, p, supported, r), stop)
  {
    hide Agree, ExecUpdateStatus, ExecHandleFinalization, ExecEnsureStatusCoherency, ExecEnsureFinalizer, ExecProceed;
    ResourceCallsAreLocal(w, o, p, stop);
    HandlingFinalizationIsLocal(w, o, p, r, stop);
    var w1 := ExecEnsureStatusCoherency(w, o, r).0;
    CoherencyIsLocal(w, o, p, r, stop);
    EnsuringIsLocal(w1, o, p, r, stop);
    ProceedingIsLocal(ExecEnsureFinalizer(w1, o, r).0, o, p, r, stop);
  }

  /** If two oracles agree on the calls of a reconcile, it is the same under both. */
  lemma ReconcileIsLocal(w: World, o: Oracle, p: Oracle, supported: string -> bool, stop: nat)
    requires Agree(o, p, stop)
    ensures Same(w, ExecReconcile(w, o, supported), ExecReconcile(w, p, supported), stop)
  {
    hide Agree, Read, ExecHandle;
    CallsAreLocal(w, o, p, stop);
    var w1 := Read(w, o).0;
    if w1.resource.Some? {
      HandlingIsLocal(w1, o, p, supported, w1.resource.value, stop);
    }
  }

  lemma ReconcileTakesTime(w: World, o: Oracle, supported: string -> bool)
    ensures ExecReconcile(w, o, supported).0.calls >= Read(w, o).0.calls == w.calls + 1
  {
    hide ExecHandle;
    var w1 := Read(w, o).0;
    if w1.resource.Some? {
      HandlingIsLocal(w1, o, o, supported, w1.resource.value, 0);
    }
  }

  lemma {:induction false} ServingIsLocal(w: World, o: Oracle, p: Oracle, supported: string -> bool, count: nat, stop: nat)
    requires Agree(o, p, stop)
    ensures var after := Serve(w, o, supported, count);
            w.calls <= after.calls && (after.calls <= stop ==> Serve(w, p, supported, count) == after)
    decreases count
  {
    hide Agree, ExecReconcile;
    if count > 0 {
      ReconcileIsLocal(w, o, p, supported, stop);
      ServingIsLocal(ExecReconcile(w, o, supported).0, o, p, supported, count - 1, stop);
    }
  }
}
