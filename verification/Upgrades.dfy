/**
 The gate in front of upgrades: which reconciles of a run may replace the version in the status,
 exactly where the gate is passed by, and that it never blocks the retry of an upgrade it let through.
 */
module Upgrades {
  import opened Specs
  import opened Cluster
  import opened Plans
  import opened Discipline
  import opened Invariants
  import opened Convergence
  import opened Controller
  import opened Lifecycle
  import opened Locality
  import Health

  /** A version worth guarding. */
  predicate Release(version: string) {
    version != "" && version != SNAPSHOT_VERSION
  }

  /** An actual release gives way to another version. */
  ghost predicate Replaces(over: Status, now: Option<Resource>) {
    Release(over.astarteVersion) && now.Some? && now.value.status.astarteVersion != over.astarteVersion
  }

  /** No write of the status between these worlds replaces a version. */
  ghost predicate NoReplacement(a: World, b: World) {
    && a.log <= b.log
    && forall i | |a.log| <= i < |b.log| :: b.log[i].act.WroteStatus? ==> !Replaces(b.log[i].act.over, b.log[i].resource)
  }

  lemma NoReplacementTransitive(a: World, b: World, c: World)
    requires NoReplacement(a, b) && NoReplacement(b, c)
    ensures NoReplacement(a, c)
  {
    forall i | |a.log| <= i < |c.log|
      ensures c.log[i].act.WroteStatus? ==> !Replaces(c.log[i].act.over, c.log[i].resource)
    {
      if i < |b.log| { assert c.log[i] == b.log[i]; }
    }
  }

  /** The version in the tag of the running Housekeeping, if there is one. */
  function RunningVersion(store: Store): Option<string> {
    var key := Running(Of(Housekeeping));
    if key in store && store[key].Deployment? then TagOf(store[key].rendered.HousekeepingImage()) else None
  }

  /** The version that the status has when a reconcile from this start writes it at its end without
      having asked the gate: in maintenance mode nothing is asked; an empty status is restored from
      Housekeeping, but only in the cluster and not in the copy that the gate looks at; and what is
      not to be upgraded needs no gate. */
  function Ungated(r: Resource, store: Store, supported: string -> bool): Option<string> {
    if r.spec.manualMaintenanceMode then Some(r.status.astarteVersion)
    else if !supported(r.spec.version) || r.deleting || Gated(r) then None
    else if r.status.astarteVersion != "" then Some(r.status.astarteVersion)
    else if ASTARTE_FINALIZER in r.finalizers then RunningVersion(store)
    else None
  }

  /** The starts from which a reconcile replaces a version without asking the gate. */
  predicate Bypasses(r: Resource, store: Store, supported: string -> bool) {
    var version := Ungated(r, store, supported);
    version.Some? && Release(version.value) && version.value != r.spec.version
  }

  /** The starts from which it does so if another version is requested at the right moment. */
  predicate Exposed(r: Resource, store: Store, supported: string -> bool) {
    var version := Ungated(r, store, supported);
    version.Some? && Release(version.value)
  }

  /** At these calls nobody asks for another version. */
  ghost predicate VersionStays(o: Oracle, from: nat, to: nat, version: string) {
    forall call | from <= call < to && o(call).action.EditSpec? :: o(call).action.spec.version == version
  }

  /** From this call on nobody asks for another version than the requested one, if there is one. */
  ghost predicate Insists(o: Oracle, start: nat, requested: Option<string>) {
    forall call | call >= start && o(call).action.EditSpec? && requested.Some? :: o(call).action.spec.version == requested.value
  }

  ghost predicate Meets(version: string, requested: Option<string>) {
    requested.Some? ==> version == requested.value
  }

  /** The status holds this version, and the spec meets the request; or the status is still empty. */
  ghost predicate Holds(resource: Option<Resource>, held: string, requested: Option<string>) {
    resource.Some? ==>
      || resource.value.status.astarteVersion == ""
      || (resource.value.status.astarteVersion == held && Meets(resource.value.spec.version, requested))
  }

  /** Writing the requested version over this one replaces nothing. */
  ghost predicate Harmless(held: string, requested: Option<string>) {
    !Release(held) || requested == Some(held)
  }

  lemma OthersKeepVersions(action: Action, resource: Option<Resource>, clock: nat, held: string, requested: Option<string>)
    requires Holds(resource, held, requested) && (action.EditSpec? ==> Meets(action.spec.version, requested))
    ensures Holds(ResourceAfter(action, resource, clock), held, requested)
  {
  }

  /** Calls about objects leave the status alone. */
  ghost function StatusAlone(start: nat, held: string, requested: Option<string>): (World, World) -> bool {
    (a: World, b: World) => a.calls >= start && Holds(a.resource, held, requested) ==>
      b.calls >= start && Holds(b.resource, held, requested) && NoReplacement(a, b)
  }

  lemma CallsLeaveStatusAlone(o: Oracle, start: nat, held: string, requested: Option<string>)
    requires Insists(o, start, requested)
    ensures Closed(o, StatusAlone(start, held, requested))
  {
    var rel := StatusAlone(start, held, requested);
    forall w ensures rel(w, Read(w, o).0) {
      if w.calls >= start && Holds(w.resource, held, requested) {
        OthersKeepVersions(o(w.calls).action, w.resource, w.clock, held, requested);
      }
    }
    forall w, change ensures rel(w, Write(w, o, change).0) {
      if w.calls >= start && Holds(w.resource, held, requested) {
        OthersKeepVersions(o(w.calls).action, w.resource, w.clock, held, requested);
      }
    }
    forall a, b, c | rel(a, b) && rel(b, c) ensures rel(a, c) {
      if a.calls >= start && Holds(a.resource, held, requested) {
        NoReplacementTransitive(a, b, c);
      }
    }
  }

  /** Writing the current status replaces nothing when the held version needs no gate. */
  lemma FinalStatusReplacesNothing(w: World, o: Oracle, start: nat, held: string, requested: Option<string>)
    requires Insists(o, start, requested) && w.calls >= start && Holds(w.resource, held, requested)
    requires Harmless(held, requested)
    ensures NoReplacement(w, ExecUpdateStatus(w, o).0)
  {
    OthersKeepVersions(o(w.calls).action, w.resource, w.clock, held, requested);
  }

  lemma ResourcesReplaceNothing(w: World, o: Oracle, start: nat, held: string, requested: Option<string>, r: Resource)
    requires Insists(o, start, requested) && w.calls >= start && Holds(w.resource, held, requested) && Harmless(held, requested)
    ensures NoReplacement(w, ExecResources(w, o, r).0)
  {
    hide Exec, Plan, Holds, NoReplacement, Insists, ExecUpdateStatus, Closed, Harmless;
    CallsLeaveStatusAlone(o, start, held, requested);
    ExecRelates(o, StatusAlone(start, held, requested), w, Plan(r.spec));
    var (w1, ok) := Exec(w, o, Plan(r.spec));
    if ok {
      FinalStatusReplacesNothing(w1, o, start, held, requested);
      NoReplacementTransitive(w, w1, ExecUpdateStatus(w1, o).0);
    }
  }

  lemma ReadAlone(w: World, o: Oracle, start: nat, held: string, requested: Option<string>)
    requires Insists(o, start, requested) && w.calls >= start && Holds(w.resource, held, requested)
    ensures var after := Read(w, o).0;
            Holds(after.resource, held, requested) && after.calls >= start && NoReplacement(w, after)
  {
    OthersKeepVersions(o(w.calls).action, w.resource, w.clock, held, requested);
  }

  lemma LookingAlone(w: World, o: Oracle, start: nat, held: string, requested: Option<string>, spec: AstarteSpec)
    requires Insists(o, start, requested) && w.calls >= start && Holds(w.resource, held, requested)
    ensures NoReplacement(w, ExecLook(w, o, spec))
  {
    hide Holds, NoReplacement, Insists, ExecLook, Read, Write;
    CallsLeaveStatusAlone(o, start, held, requested);
    LookingRelates(o, StatusAlone(start, held, requested), w, spec);
  }

  /** Unless it sees green, a reconcile that proceeds replaces nothing. */
  lemma ProceedingIsGated(w: World, o: Oracle, start: nat, held: string, requested: Option<string>, r: Resource)
    requires Insists(o, start, requested) && w.calls >= start && Holds(w.resource, held, requested)
    requires Gated(r) ==> !SeesGreen(r, Seen(o, w.calls, r.spec))
    requires !Gated(r) ==> Harmless(held, requested)
    ensures NoReplacement(w, ExecProceed(w, o, r).0)
  {
    hide Holds, NoReplacement, Insists, ExecResources, Gated, SeesGreen, Seen, ExecLook, Harmless;
    LookingAlone(w, o, start, held, requested, r.spec);
    if !Gated(r) {
      ResourcesReplaceNothing(w, o, start, held, requested, r);
    }
  }

  lemma AddingAlone(w: World, o: Oracle, start: nat, held: string, requested: Option<string>, copy: Resource)
    requires Insists(o, start, requested) && w.calls >= start && Holds(w.resource, held, requested)
    ensures var after := ExecUpdateFinalizers(w, o, copy).0;
            Holds(after.resource, held, requested) && after.calls == w.calls + 1 && NoReplacement(w, after)
  {
    OthersKeepVersions(o(w.calls).action, w.resource, w.clock, held, requested);
  }

  // --- The empty status ---

  /** Whatever the resource is now, it is newer than the copy. */
  ghost predicate Newer(w: World, r: Resource) {
    r.revision < w.clock && (w.resource.Some? ==> w.resource.value.revision > r.revision)
  }

  /** The resource is held by the finalizer, with these versions. */
  ghost predicate Held(resource: Option<Resource>, held: string, requested: Option<string>) {
    Carries(resource) && resource.value.status.astarteVersion == held && Meets(resource.value.spec.version, requested)
  }

  lemma OthersKeepHeld(action: Action, resource: Option<Resource>, clock: nat, held: string, requested: Option<string>)
    requires Held(resource, held, requested) && (action.EditSpec? ==> Meets(action.spec.version, requested))
    ensures Held(ResourceAfter(action, resource, clock), held, requested)
  {
    if action.RemoveFinalizer? {
      WithoutOurs(resource.value.finalizers, action.finalizer);
    }
  }

  lemma RestoringAlone(w: World, o: Oracle, start: nat, version: string, requested: Option<string>, r: Resource)
    requires Insists(o, start, requested) && w.calls >= start && Holds(w.resource, "", requested)
    requires r.revision < w.clock
    ensures var (after, ok) := ExecRestoreVersion(w, o, version);
            && NoReplacement(w, after) && after.calls == w.calls + 1
            && (ok ==> Newer(after, r))
            && (ok && Held(w.resource, "", requested) ==> Held(after.resource, version, requested))
  {
    OthersKeepVersions(o(w.calls).action, w.resource, w.clock, "", requested);
    if Held(w.resource, "", requested) {
      OthersKeepHeld(o(w.calls).action, w.resource, w.clock, "", requested);
    }
  }

  lemma ReadingAgain(w: World, o: Oracle, start: nat, held: string, requested: Option<string>, r: Resource)
    requires Insists(o, start, requested) && w.calls >= start && Newer(w, r)
    ensures var after := Read(w, o).0;
            && NoReplacement(w, after) && after.calls == w.calls + 1 && Newer(after, r)
            && (Held(w.resource, held, requested) ==> Held(after.resource, held, requested))
  {
    if Held(w.resource, held, requested) {
      OthersKeepHeld(o(w.calls).action, w.resource, w.clock, held, requested);
    }
  }

  /** A copy from before the restoration cannot be written back. */
  lemma StaleCopyFails(w: World, o: Oracle, r: Resource)
    requires Newer(w, r)
    ensures NoReplacement(w, ExecEnsureFinalizer(w, o, r).0)
    ensures ASTARTE_FINALIZER !in r.finalizers ==> !ExecEnsureFinalizer(w, o, r).1
  {
  }

  /** What the restoration of an empty status leaves behind. */
  ghost predicate Restored(w: World, r: Resource, store: Store, requested: Option<string>) {
    || Holds(w.resource, "", requested)
    || (ASTARTE_FINALIZER !in r.finalizers && Newer(w, r))
    || (ASTARTE_FINALIZER in r.finalizers && RunningVersion(store).Some? && Held(w.resource, RunningVersion(store).value, requested))
  }

  lemma CoherencyAlone(w: World, o: Oracle, start: nat, requested: Option<string>, r: Resource)
    requires Insists(o, start, requested) && w.calls >= start && Meets(r.spec.version, requested)
    requires r.status.astarteVersion == "" && w.resource == Some(r) && r.revision < w.clock
    ensures var (after, ok) := ExecEnsureStatusCoherency(w, o, r);
            && NoReplacement(w, after) && after.calls >= start
            && (ok ==> Restored(after, r, w.store, requested))
  {
    var (w1, ok1) := Read(w, o);
    assert Holds(w.resource, "", requested);
    assert ASTARTE_FINALIZER in r.finalizers ==> Held(w.resource, "", requested);
    ReadAlone(w, o, start, "", requested);
    if ASTARTE_FINALIZER in r.finalizers {
      OthersKeepHeld(o(w.calls).action, w.resource, w.clock, "", requested);
    }
    SameRunningVersion(w, o);
    assert r.revision < w1.clock;
    hide Read, Holds, NoReplacement, Insists, ExecRestoreVersion, Newer, TagOf, Carries;
    var tag := RunningVersion(w1.store);
    if ok1 && tag.Some? {
      var (w2, ok2) := ExecRestoreVersion(w1, o, tag.value);
      RestoringAlone(w1, o, start, tag.value, requested, r);
      NoReplacementTransitive(w, w1, w2);
      if ok2 {
        ReadingAgain(w2, o, start, tag.value, requested, r);
        NoReplacementTransitive(w, w2, Read(w2, o).0);
      }
    }
  }

  lemma SameRunningVersion(w: World, o: Oracle)
    ensures RunningVersion(Read(w, o).0.store) == RunningVersion(w.store)
  {
    OthersKeepOut(o(w.calls).action, w.store, Running(Of(Housekeeping)));
  }

  lemma HeldHolds(resource: Option<Resource>, held: string, requested: Option<string>)
    requires Held(resource, held, requested)
    ensures Holds(resource, held, requested)
  {
  }

  lemma EmptyStatusIsGated(w: World, o: Oracle, start: nat, requested: Option<string>, supported: string -> bool, r: Resource)
    requires Insists(o, start, requested) && w.calls >= start && Meets(r.spec.version, requested)
    requires r.status.astarteVersion == "" && w.resource == Some(r) && r.revision < w.clock
    requires !r.spec.manualMaintenanceMode && !r.deleting && supported(r.spec.version)
    requires Ungated(r, w.store, supported).Some? ==> Harmless(Ungated(r, w.store, supported).value, requested)
    ensures NoReplacement(w, ExecHandle(w, o, supported, r).0)
  {
    hide Holds, Held, NoReplacement, Insists, ExecEnsureStatusCoherency, Newer, ExecEnsureFinalizer, ExecProceed, RunningVersion;
    var (w1, ok1) := ExecEnsureStatusCoherency(w, o, r);
    CoherencyAlone(w, o, start, requested, r);
    if ok1 {
      if Holds(w1.resource, "", requested) {
        EnsuringThenProceeding(w1, o, start, "", requested, r);
        NoReplacementTransitive(w, w1, Onward(w1, o, r));
      } else if ASTARTE_FINALIZER !in r.finalizers {
        StaleCopyFails(w1, o, r);
        NoReplacementTransitive(w, w1, Onward(w1, o, r));
      } else {
        var version := RunningVersion(w.store).value;
        HeldHolds(w1.resource, version, requested);
        EnsuringThenProceeding(w1, o, start, version, requested, r);
        NoReplacementTransitive(w, w1, Onward(w1, o, r));
      }
    }
  }

  /** From the finalizer on. */
  ghost function Onward(w: World, o: Oracle, r: Resource): World {
    var (w1, ok) := ExecEnsureFinalizer(w, o, r);
    if ok then ExecProceed(w1, o, r).0 else w1
  }

  lemma EnsuringThenProceeding(w: World, o: Oracle, start: nat, held: string, requested: Option<string>, r: Resource)
    requires Insists(o, start, requested) && w.calls >= start && Holds(w.resource, held, requested)
    requires Gated(r) ==> !SeesGreen(r, Seen(o, w.calls + if ASTARTE_FINALIZER in r.finalizers then 0 else 1, r.spec))
    requires !Gated(r) ==> Harmless(held, requested)
    ensures NoReplacement(w, Onward(w, o, r))
  {
    hide Holds, NoReplacement, Insists, ExecUpdateFinalizers, ExecProceed, Gated, SeesGreen, Seen, Harmless;
    if ASTARTE_FINALIZER in r.finalizers {
      ProceedingIsGated(w, o, start, held, requested, r);
    } else {
      var copy := r.(finalizers := r.finalizers + [ASTARTE_FINALIZER]);
      AddingAlone(w, o, start, held, requested, copy);
      var (w1, ok) := ExecUpdateFinalizers(w, o, copy);
      if ok {
        ProceedingIsGated(w1, o, start, held, requested, r);
        NoReplacementTransitive(w, w1, ExecProceed(w1, o, r).0);
      }
    }
  }

  // --- The gate ---

  /** The gate is consulted and lets the upgrade through: health is green as the status reports it,
      or as computed by the calls after those for the resource and, if it is added, the finalizer. */
  ghost predicate GateOpens(w: World, o: Oracle, r: Resource) {
    && Gated(r) && !r.spec.manualMaintenanceMode
    && SeesGreen(r, Seen(o, w.calls + if ASTARTE_FINALIZER in r.finalizers then 1 else 2, r.spec))
  }

  lemma ReconcileIsGuarded(w: World, o: Oracle, supported: string -> bool, requested: Option<string>)
    requires Good(w) && Read(w, o).0.resource.Some? && Insists(o, w.calls + 1, requested)
    requires var r := Read(w, o).0.resource.value;
             && Meets(r.spec.version, requested) && !GateOpens(w, o, r)
             && var version := Ungated(r, Read(w, o).0.store, supported);
                version.Some? ==> Harmless(version.value, requested)
    ensures NoReplacement(w, ExecReconcile(w, o, supported).0)
  {
    hide Good, Read, NoReplacement, Insists, Ungated, Gated, SeesGreen, Seen, ExecHandle, Harmless;
    var (w1, ok) := Read(w, o);
    var r := w1.resource.value;
    FirstRead(w, o);
    if ok {
      HandlingIsGuarded(w1, o, w1.calls, requested, supported, r);
      NoReplacementTransitive(w, w1, ExecHandle(w1, o, supported, r).0);
    }
  }

  lemma FirstRead(w: World, o: Oracle)
    requires Good(w)
    ensures var after := Read(w, o).0;
            && NoReplacement(w, after) && after.calls == w.calls + 1
            && (after.resource.Some? ==> after.resource.value.revision < after.clock)
  {
    var any: Resource := *;
    Lifecycle.ReadKeeps(w, o, any);
  }

  lemma HandlingIsGuarded(w: World, o: Oracle, start: nat, requested: Option<string>, supported: string -> bool, r: Resource)
    requires Insists(o, start, requested) && w.calls == start && w.resource == Some(r) && r.revision < w.clock
    requires Meets(r.spec.version, requested)
    requires Ungated(r, w.store, supported).Some? ==> Harmless(Ungated(r, w.store, supported).value, requested)
    requires Gated(r) && !r.spec.manualMaintenanceMode ==>
               !SeesGreen(r, Seen(o, w.calls + if ASTARTE_FINALIZER in r.finalizers then 0 else 1, r.spec))
    ensures NoReplacement(w, ExecHandle(w, o, supported, r).0)
  {
    assert Holds(w.resource, r.status.astarteVersion, requested);
    hide Holds, NoReplacement, Insists, ExecUpdateStatus, ExecEnsureFinalizer, ExecProceed, ExecHandleFinalization, SeesGreen, Seen, Harmless;
    if r.spec.manualMaintenanceMode {
      FinalStatusReplacesNothing(w, o, start, r.status.astarteVersion, requested);
    } else if !supported(r.spec.version) {
      NothingReplacesNothing(w);
    } else if r.deleting {
      FinalizationReplacesNothing(w, o, r);
    } else if r.status.astarteVersion == "" {
      EmptyStatusIsGated(w, o, start, requested, supported, r);
    } else {
      EnsuringThenProceeding(w, o, start, r.status.astarteVersion, requested, r);
    }
  }

  lemma NothingReplacesNothing(w: World)
    ensures NoReplacement(w, w)
  {
  }

  lemma FinalizationReplacesNothing(w: World, o: Oracle, r: Resource)
    ensures NoReplacement(w, ExecHandleFinalization(w, o, r).0)
  {
    hide ExecFinalize, ExecUpdateFinalizers, NoReplacement;
    NothingReplacesNothing(w);
    if ASTARTE_FINALIZER in r.finalizers {
      var (w1, ok) := ExecFinalize(w, o, r.name);
      FinalizingReplacesNothing(w, o, r.name);
      var copy := r.(finalizers := Without(r.finalizers, ASTARTE_FINALIZER));
      if ok {
        FinalizersReplaceNothing(w1, o, copy);
        NoReplacementTransitive(w, w1, ExecUpdateFinalizers(w1, o, copy).0);
      }
    }
  }

  lemma FinalizersReplaceNothing(w: World, o: Oracle, copy: Resource)
    ensures NoReplacement(w, ExecUpdateFinalizers(w, o, copy).0)
  {
  }

  ghost function Unreplaced(): (World, World) -> bool {
    (a: World, b: World) => NoReplacement(a, b)
  }

  lemma FinalizingReplacesNothing(w: World, o: Oracle, name: string)
    ensures NoReplacement(w, ExecFinalize(w, o, name).0)
  {
    hide ExecFinalize;
    forall a, b, c | NoReplacement(a, b) && NoReplacement(b, c) ensures NoReplacement(a, c) {
      NoReplacementTransitive(a, b, c);
    }
    FinalizingRelates(o, Unreplaced(), w, name);
  }

  // --- Runs ---

  /** A reconcile that has no business replacing a version: while it runs nobody asks for another
      version, it does not start from where the gate is bypassed, and the gate does not open. */
  ghost predicate Innocent(w: World, o: Oracle, supported: string -> bool) {
    var w1 := Read(w, o).0;
    w1.resource.Some? ==>
      var r := w1.resource.value;
      && VersionStays(o, w1.calls, ExecReconcile(w, o, supported).0.calls, r.spec.version)
      && !Bypasses(r, w1.store, supported)
      && !GateOpens(w, o, r)
  }

  lemma VersionsAreGuarded(w: World, o: Oracle, supported: string -> bool)
    requires Good(w) && Innocent(w, o, supported)
    ensures NoReplacement(w, ExecReconcile(w, o, supported).0)
  {
    hide Good, NoReplacement, SeesGreen, ExecHandle, Gated, Ungated;
    var after := ExecReconcile(w, o, supported).0;
    var w1 := Read(w, o).0;
    FirstRead(w, o);
    if w1.resource.Some? {
      var r := w1.resource.value;
      var hushed := Hushed(o, after.calls);
      assert Agree(o, hushed, after.calls);
      ReconcileIsLocal(w, o, hushed, supported, after.calls);
      CallsAreLocal(w, o, hushed, after.calls);
      ReconcileTakesTime(w, o, supported);
      assert Read(w, hushed) == Read(w, o);
      assert Insists(hushed, w.calls + 1, Some(r.spec.version));
      assert GateOpens(w, hushed, r) == GateOpens(w, o, r);
      ReconcileIsGuarded(w, hushed, supported, Some(r.spec.version));
    }
  }

  lemma {:induction false} ServeNext(w: World, o: Oracle, supported: string -> bool, count: nat)
    ensures Serve(w, o, supported, count + 1) == ExecReconcile(Serve(w, o, supported, count), o, supported).0
    decreases count
  {
    hide ExecReconcile;
    if count == 0 {
      assert Serve(ExecReconcile(w, o, supported).0, o, supported, 0) == ExecReconcile(w, o, supported).0;
    } else {
      ServeNext(ExecReconcile(w, o, supported).0, o, supported, count - 1);
    }
  }

  /** In every run, with whatever faults and whatever others do, every replacement of a version is
      made by a reconcile whose gate has opened, or that started from where the gate is bypassed,
      or during which another version was requested. */
  lemma {:induction false} RunsAreGuarded(w: World, o: Oracle, supported: string -> bool, count: nat)
    requires Good(w)
    ensures forall k: nat | k < count && Innocent(Serve(w, o, supported, k), o, supported) ::
              NoReplacement(Serve(w, o, supported, k), Serve(w, o, supported, k + 1))
    ensures (forall k: nat | k < count :: Innocent(Serve(w, o, supported, k), o, supported)) ==>
              NoReplacement(w, Serve(w, o, supported, count))
    decreases count
  {
    hide Good, Innocent, NoReplacement, ExecReconcile;
    if count == 0 {
      NothingReplacesNothing(w);
    } else {
      var last := Serve(w, o, supported, count - 1);
      RunsAreGuarded(w, o, supported, count - 1);
      ProtocolHolds(w, o, supported, count - 1);
      ServeNext(w, o, supported, count - 1);
      if Innocent(last, o, supported) {
        VersionsAreGuarded(last, o, supported);
        if NoReplacement(w, last) {
          NoReplacementTransitive(w, last, Serve(w, o, supported, count));
        }
      }
    }
  }

  // --- Where the gate is passed by ---

  /** A reconcile that finds the resource as it was replaces a version although no gate has opened. */
  ghost predicate Escapes(w: World, o: Oracle, supported: string -> bool) {
    var found := Read(w, o).0.resource;
    && found.Some? && found == w.resource
    && !GateOpens(w, o, found.value)
    && !NoReplacement(w, ExecReconcile(w, o, supported).0)
  }

  /** And nobody has changed their mind while it ran. */
  ghost predicate Slips(w: World, o: Oracle, supported: string -> bool) {
    && Escapes(w, o, supported)
    && VersionStays(o, w.calls + 1, ExecReconcile(w, o, supported).0.calls, w.resource.value.spec.version)
  }

  /** Nothing fails, the CA secret is there, and the cluster is in the worst of health. */
  function Gloomy(name: string): Oracle {
    (call: nat) => Tick(PutUserSecret(name), Ok, Health.View(None, None, None))
  }

  /** The same, but at one call somebody edits the resource. */
  function GloomyUntil(name: string, edit: nat, spec: AstarteSpec): Oracle {
    (call: nat) => Tick(if call == edit then EditSpec(spec) else PutUserSecret(name), Ok, Health.View(None, None, None))
  }

  lemma GloomyRead(w: World, name: string)
    ensures var (after, ok) := Read(w, Gloomy(name));
            && ok && after.resource == w.resource && w.log <= after.log && after.calls > w.calls
            && (Sound(w.store) ==> Sound(after.store))
  {
    if Sound(w.store) {
      OthersKeepSound(PutUserSecret(name), w.store, {});
    }
  }

  ghost function SameResource(): (World, World) -> bool {
    (a: World, b: World) => b.resource == a.resource && a.log <= b.log && a.calls <= b.calls
  }

  lemma GloomyExec(w: World, spec: AstarteSpec)
    requires Sound(w.store)
    ensures var (after, ok) := Exec(w, Gloomy(spec.caSecret), Plan(spec));
            ok && after.resource == w.resource && w.log <= after.log && w.calls <= after.calls
  {
    hide Exec, Plan, Sound, Closed;
    var o := Gloomy(spec.caSecret);
    GloomyCalls(spec.caSecret);
    ExecRelates(o, SameResource(), w, Plan(spec));
    SoundIsPlain(w.store);
    FaultlessReconcileSucceeds(w, o, spec);
  }

  lemma GloomyWrite(w: World, name: string, change: Change)
    ensures var after := Write(w, Gloomy(name), change).0;
            after.resource == w.resource && w.log <= after.log && w.calls <= after.calls
  {
    hide StoreAfter, Apply;
  }

  lemma GloomyCalls(name: string)
    ensures Closed(Gloomy(name), SameResource())
  {
    hide Read, Write;
    var rel := SameResource();
    forall w ensures rel(w, Read(w, Gloomy(name)).0) {
      GloomyRead(w, name);
    }
    forall w, change ensures rel(w, Write(w, Gloomy(name), change).0) {
      GloomyWrite(w, name, change);
    }
  }

  lemma SoundIsPlain(store: Store)
    requires Sound(store)
    ensures PlainUserSecrets(store) && GapFree(store)
  {
  }

  lemma GloomyRestore(w: World, name: string, version: string)
    requires w.resource.Some? && Sound(w.store)
    ensures var (after, ok) := ExecRestoreVersion(w, Gloomy(name), version);
            && ok && w.log <= after.log && Sound(after.store) && after.calls > w.calls
            && after.resource.Some? && after.resource.value.status.astarteVersion == version
            && after.resource.value.spec == w.resource.value.spec
  {
    OthersKeepSound(PutUserSecret(name), w.store, {});
  }

  lemma GloomyAdd(w: World, name: string, r: Resource)
    requires w.resource == Some(r) && !r.deleting && Sound(w.store)
    ensures var (after, ok) := ExecEnsureFinalizer(w, Gloomy(name), r);
            && ok && w.log <= after.log && Sound(after.store) && after.calls >= w.calls
            && after.resource.Some? && after.resource.value.status == r.status && after.resource.value.spec == r.spec
  {
    OthersKeepSound(PutUserSecret(name), w.store, {});
  }

  /** The state in which a reconcile writes the status at its end, if it gets there. */
  ghost function BeforeStatus(w: World, o: Oracle, supported: string -> bool): Option<World> {
    var (w1, ok) := Read(w, o);
    if ok && w1.resource.Some? && w1.resource.value.spec.manualMaintenanceMode then Some(w1)
    else
      match Started(w, o, supported)
      case None => None
      case Some((v, r)) =>
        var (v1, ok1) := Exec(v, o, Plan(r.spec));
        if ok1 then Some(v1) else None
  }

  /** Everything up to there has gone well, with this version in the status. */
  ghost predicate Ready(start: World, w: World, version: string, spec: AstarteSpec) {
    && start.log <= w.log && w.resource.Some? && start.calls < w.calls
    && w.resource.value.status.astarteVersion == version && w.resource.value.spec == spec
  }

  /** In the worst of health an ungated reconcile gets there. */
  lemma UngatedGetsReady(w: World, supported: string -> bool, r: Resource)
    requires Sound(w.store) && w.resource == Some(r) && Ungated(r, w.store, supported).Some?
    ensures var there := BeforeStatus(w, Gloomy(r.spec.caSecret), supported);
            there.Some? && Ready(w, there.value, Ungated(r, w.store, supported).value, r.spec)
  {
    hide Read, Sound, Exec, Plan;
    var name := r.spec.caSecret;
    var o := Gloomy(name);
    GloomyRead(w, name);
    if !r.spec.manualMaintenanceMode {
      UngatedStarts(w, supported, r);
      var v := Started(w, o, supported).value.0;
      GloomyExec(v, r.spec);
    }
  }

  lemma UngatedStarts(w: World, supported: string -> bool, r: Resource)
    requires Sound(w.store) && w.resource == Some(r) && Ungated(r, w.store, supported).Some? && !r.spec.manualMaintenanceMode
    ensures var started := Started(w, Gloomy(r.spec.caSecret), supported);
            && started.Some? && started.value.1 == r && Sound(started.value.0.store)
            && Ready(w, started.value.0, Ungated(r, w.store, supported).value, r.spec)
  {
    hide Read, Sound, ExecRestoreVersion, ExecUpdateFinalizers, TagOf;
    var name := r.spec.caSecret;
    var o := Gloomy(name);
    var w1 := Read(w, o).0;
    GloomyRead(w, name);
    if r.status.astarteVersion == "" {
      var w2 := Read(w1, o).0;
      GloomyRead(w1, name);
      SameRunningVersion(w, o);
      SameRunningVersion(w1, o);
      var version := RunningVersion(w2.store).value;
      GloomyRestore(w2, name, version);
      GloomyRead(ExecRestoreVersion(w2, o, version).0, name);
    } else {
      GloomyAdd(w1, name, r);
    }
  }

  /** Up to there the reconcile is the same under every oracle that agrees, and then writes the status. */
  lemma EndsWithStatus(w: World, o: Oracle, p: Oracle, supported: string -> bool)
    requires BeforeStatus(w, o, supported).Some? && Agree(o, p, BeforeStatus(w, o, supported).value.calls)
    ensures Read(w, p) == Read(w, o)
    ensures ExecReconcile(w, p, supported).0 == ExecUpdateStatus(BeforeStatus(w, o, supported).value, p).0
  {
    hide Agree, Read, Exec, Plan, ExecUpdateStatus, ExecEnsureStatusCoherency, ExecEnsureFinalizer, ExecLook, Seen, SeesGreen, Gated;
    var stop := BeforeStatus(w, o, supported).value.calls;
    var w1 := Read(w, o).0;
    CallsAreLocal(w, o, p, stop);
    if Started(w, o, supported).Some? {
      var (v, r) := Started(w, o, supported).value;
      ExecIsLocal(v, o, p, Plan(r.spec), stop);
      CoherencyIsLocal(w1, o, p, r, stop);
      var w2 := ExecEnsureStatusCoherency(w1, o, r).0;
      EnsuringIsLocal(w2, o, p, r, stop);
      LookingIsLocal(ExecEnsureFinalizer(w2, o, r).0, o, p, r.spec, stop);
    }
  }

  /** Writing the final status over a version that differs is a replacement. */
  lemma FinalStatusReplaces(start: World, w: World, o: Oracle, version: string, spec: AstarteSpec)
    requires Ready(start, w, version, spec) && Release(version) && o(w.calls).outcome == Ok
    requires match o(w.calls).action
             case EditSpec(edited) => edited.version != version
             case PutUserSecret(_) => spec.version != version
             case _ => false
    ensures !NoReplacement(start, ExecUpdateStatus(w, o).0)
  {
    var after := ExecUpdateStatus(w, o).0;
    assert after.log[|w.log|].act.WroteStatus?;
  }

  lemma UngatedHasNoGate(r: Resource, store: Store, supported: string -> bool)
    requires Ungated(r, store, supported).Some?
    ensures Gated(r) ==> r.spec.manualMaintenanceMode
  {
  }

  /** From every bypassing start a reconcile replaces the version even in the worst of health. */
  lemma BypassSlips(w: World, supported: string -> bool)
    requires Sound(w.store) && w.resource.Some? && Bypasses(w.resource.value, w.store, supported)
    ensures Slips(w, Gloomy(w.resource.value.spec.caSecret), supported)
  {
    hide Read, Sound, NoReplacement, ExecReconcile, SeesGreen, Ungated, BeforeStatus, Ready, Gated;
    var r := w.resource.value;
    var o := Gloomy(r.spec.caSecret);
    GloomyRead(w, r.spec.caSecret);
    UngatedGetsReady(w, supported, r);
    EndsWithStatus(w, o, o, supported);
    UngatedHasNoGate(r, w.store, supported);
    FinalStatusReplaces(w, BeforeStatus(w, o, supported).value, o, Ungated(r, w.store, supported).value, r.spec);
  }

  /** From every exposed start it does so, too, if somebody asks for any other version just before the
      final write of the status, and at no other time: that version is recorded then, although the
      resources have been rendered for the one before. */
  lemma EditEscapes(w: World, supported: string -> bool, edited: AstarteSpec) returns (edit: nat)
    requires Sound(w.store) && w.resource.Some? && Exposed(w.resource.value, w.store, supported)
    requires edited.version != Ungated(w.resource.value, w.store, supported).value
    ensures edit > w.calls && Escapes(w, GloomyUntil(w.resource.value.spec.caSecret, edit, edited), supported)
  {
    hide Read, Sound, NoReplacement, ExecReconcile, SeesGreen, Ungated, BeforeStatus, Ready, Gated;
    var r := w.resource.value;
    var o := Gloomy(r.spec.caSecret);
    GloomyRead(w, r.spec.caSecret);
    UngatedGetsReady(w, supported, r);
    var there := BeforeStatus(w, o, supported).value;
    edit := there.calls;
    var p := GloomyUntil(r.spec.caSecret, edit, edited);
    assert Agree(o, p, edit);
    EndsWithStatus(w, o, p, supported);
    UngatedHasNoGate(r, w.store, supported);
    FinalStatusReplaces(w, there, p, Ungated(r, w.store, supported).value, r.spec);
    ReadyIsLater(w, there, Ungated(r, w.store, supported).value, r.spec);
  }

  lemma ReadyIsLater(start: World, w: World, version: string, spec: AstarteSpec)
    requires Ready(start, w, version, spec)
    ensures start.calls < w.calls
  {
  }

  /** While nobody changes the requested version, the gate can be passed by from exactly these starts. */
  lemma GateIsBypassedExactlyWhen(w: World, supported: string -> bool)
    requires Good(w) && Sound(w.store) && w.resource.Some?
    ensures (exists o :: Slips(w, o, supported)) <==> Bypasses(w.resource.value, w.store, supported)
  {
    hide Good, Sound, Bypasses, NoReplacement, VersionStays, GateOpens, ExecReconcile;
    if o :| Slips(w, o, supported) {
      SameRunningVersion(w, o);
      SameStart(w.resource.value, w.store, Read(w, o).0.store, supported);
      if !Bypasses(w.resource.value, w.store, supported) {
        VersionsAreGuarded(w, o, supported);
        assert false;
      }
    }
    if Bypasses(w.resource.value, w.store, supported) {
      BypassSlips(w, supported);
    }
  }

  /** If the requested version may change meanwhile, from exactly these. */
  lemma GateCanBePassedExactlyWhen(w: World, supported: string -> bool)
    requires Good(w) && Sound(w.store) && w.resource.Some?
    ensures (exists o :: Escapes(w, o, supported)) <==> Exposed(w.resource.value, w.store, supported)
  {
    hide Good, Sound, Ungated, NoReplacement, GateOpens, ExecReconcile;
    var r := w.resource.value;
    if o :| Escapes(w, o, supported) {
      SameRunningVersion(w, o);
      SameStart(r, w.store, Read(w, o).0.store, supported);
      if !Exposed(r, w.store, supported) {
        ReconcileIsGuarded(w, o, supported, None);
        assert false;
      }
    }
    if Exposed(r, w.store, supported) {
      var version := Ungated(r, w.store, supported).value;
      var edit := EditEscapes(w, supported, r.spec.(version := version + "'"));
      assert Escapes(w, GloomyUntil(r.spec.caSecret, edit, r.spec.(version := version + "'")), supported);
    }
  }

  lemma SameStart(r: Resource, a: Store, b: Store, supported: string -> bool)
    requires RunningVersion(a) == RunningVersion(b)
    ensures Ungated(r, a, supported) == Ungated(r, b, supported)
    ensures Bypasses(r, a, supported) <==> Bypasses(r, b, supported)
  {
  }

  // --- Retries ---

  /** At these calls the upgrade stays requested, and the resource is neither replaced nor put into
      maintenance. */
  ghost predicate StaysRequested(o: Oracle, from: nat, to: nat, version: string) {
    forall call | from <= call < to :: Persists(o(call).action, version)
  }

  ghost predicate Persists(action: Action, version: string) {
    && !action.CreateResource?
    && (action.EditSpec? ==> action.spec.version == version && !action.spec.manualMaintenanceMode)
  }

  /** It does so from this call on. */
  ghost predicate PersistsFrom(o: Oracle, start: nat, version: string) {
    forall call | call >= start :: Persists(o(call).action, version)
  }

  /** The status is still that of the healthy cluster, or already that of the upgraded one. */
  ghost predicate OnTheWay(resource: Option<Resource>, healthy: Status, version: string) {
    resource.Some? ==>
      && resource.value.spec.version == version && !resource.value.spec.manualMaintenanceMode
      && (resource.value.status == healthy || resource.value.status.astarteVersion == version)
  }

  ghost function StaysOnTheWay(start: nat, healthy: Status, version: string): (World, World) -> bool {
    (a: World, b: World) => a.calls >= start && OnTheWay(a.resource, healthy, version) ==>
      b.calls >= start && OnTheWay(b.resource, healthy, version)
  }

  lemma OthersStayOnTheWay(o: Oracle, call: nat, start: nat, resource: Option<Resource>, clock: nat, healthy: Status, version: string)
    requires PersistsFrom(o, start, version) && call >= start && OnTheWay(resource, healthy, version)
    ensures OnTheWay(ResourceAfter(o(call).action, resource, clock), healthy, version)
  {
    assert Persists(o(call).action, version);
  }

  lemma CallsStayOnTheWay(o: Oracle, start: nat, healthy: Status, version: string)
    requires PersistsFrom(o, start, version)
    ensures Closed(o, StaysOnTheWay(start, healthy, version))
  {
    hide PersistsFrom, OnTheWay;
    var rel := StaysOnTheWay(start, healthy, version);
    forall w ensures rel(w, Read(w, o).0) {
      if w.calls >= start && OnTheWay(w.resource, healthy, version) {
        CallsOnTheWay(w, o, start, healthy, version);
      }
    }
    forall w, change ensures rel(w, Write(w, o, change).0) {
      if w.calls >= start && OnTheWay(w.resource, healthy, version) {
        CallsOnTheWay(w, o, start, healthy, version);
      }
    }
  }

  lemma ResourceCallsStayOnTheWay(w: World, o: Oracle, copy: Resource, start: nat, healthy: Status, version: string)
    requires PersistsFrom(o, start, version) && w.calls >= start && OnTheWay(w.resource, healthy, version)
    ensures var after := ExecUpdateStatus(w, o).0; OnTheWay(after.resource, healthy, version) && after.calls >= start
    ensures var after := ExecUpdateFinalizers(w, o, copy).0; OnTheWay(after.resource, healthy, version) && after.calls >= start
  {
    OthersStayOnTheWay(o, w.calls, start, w.resource, w.clock, healthy, version);
  }

  lemma CallsOnTheWay(w: World, o: Oracle, start: nat, healthy: Status, version: string)
    requires PersistsFrom(o, start, version) && w.calls >= start && OnTheWay(w.resource, healthy, version)
    ensures var after := Read(w, o).0; OnTheWay(after.resource, healthy, version) && after.calls >= start
    ensures forall change :: var after := Write(w, o, change).0; OnTheWay(after.resource, healthy, version) && after.calls >= start
  {
    OthersStayOnTheWay(o, w.calls, start, w.resource, w.clock, healthy, version);
  }

  lemma FinalizingStaysOnTheWay(w: World, o: Oracle, name: string, start: nat, healthy: Status, version: string)
    requires PersistsFrom(o, start, version) && w.calls >= start && OnTheWay(w.resource, healthy, version)
    ensures var after := ExecFinalize(w, o, name).0; OnTheWay(after.resource, healthy, version) && after.calls >= start
  {
    hide ExecFinalize, PersistsFrom, OnTheWay;
    CallsStayOnTheWay(o, start, healthy, version);
    FinalizingRelates(o, StaysOnTheWay(start, healthy, version), w, name);
  }

  lemma ProceedingStaysOnTheWay(w: World, o: Oracle, r: Resource, start: nat, healthy: Status, version: string)
    requires PersistsFrom(o, start, version) && w.calls >= start && OnTheWay(w.resource, healthy, version)
    ensures var after := ExecProceed(w, o, r).0; OnTheWay(after.resource, healthy, version) && after.calls >= start
  {
    hide OnTheWay, PersistsFrom, ExecResources, Read, Write, ExecLook, Seen, SeesGreen, Gated;
    CallsStayOnTheWay(o, start, healthy, version);
    LookingRelates(o, StaysOnTheWay(start, healthy, version), w, r.spec);
    ResourcesStayOnTheWay(w, o, r, start, healthy, version);
    ResourcesStayOnTheWay(ExecLook(w, o, r.spec), o, r, start, healthy, version);
  }

  lemma ResourcesStayOnTheWay(w: World, o: Oracle, r: Resource, start: nat, healthy: Status, version: string)
    requires PersistsFrom(o, start, version) && w.calls >= start && OnTheWay(w.resource, healthy, version)
    ensures var after := ExecResources(w, o, r).0; OnTheWay(after.resource, healthy, version) && after.calls >= start
  {
    hide Exec, Plan, OnTheWay, PersistsFrom, ExecUpdateStatus, Closed;
    CallsStayOnTheWay(o, start, healthy, version);
    ExecRelates(o, StaysOnTheWay(start, healthy, version), w, Plan(r.spec));
    ResourceCallsStayOnTheWay(Exec(w, o, Plan(r.spec)).0, o, r, start, healthy, version);
  }

  /** The gate sees green. */
  lemma ProceedingIsNotRefused(w: World, o: Oracle, r: Resource, healthy: Status, version: string)
    requires healthy.health == Health.Green && version != "" && OnTheWay(Some(r), healthy, version)
    ensures ExecProceed(w, o, r).1 != Refused
  {
    hide Exec, Plan, ExecUpdateStatus, ExecLook, Seen;
  }

  lemma AttemptIsNotRefused(w: World, o: Oracle, supported: string -> bool, start: nat, healthy: Status, version: string)
    requires healthy.health == Health.Green && healthy.astarteVersion != "" && version != ""
    requires PersistsFrom(o, start, version) && w.calls >= start && OnTheWay(w.resource, healthy, version)
    ensures var (after, result) := ExecReconcile(w, o, supported);
            OnTheWay(after.resource, healthy, version) && after.calls >= start && result != Refused
  {
    hide Read, OnTheWay, PersistsFrom, ExecHandle;
    CallsOnTheWay(w, o, start, healthy, version);
    var w1 := Read(w, o).0;
    if w1.resource.Some? {
      HandlingIsNotRefused(w1, o, supported, w1.resource.value, start, healthy, version);
    }
  }

  lemma HandlingIsNotRefused(w: World, o: Oracle, supported: string -> bool, r: Resource, start: nat, healthy: Status, version: string)
    requires healthy.health == Health.Green && healthy.astarteVersion != "" && version != ""
    requires PersistsFrom(o, start, version) && w.calls >= start && w.resource == Some(r) && OnTheWay(w.resource, healthy, version)
    ensures var (after, result) := ExecHandle(w, o, supported, r);
            OnTheWay(after.resource, healthy, version) && after.calls >= start && result != Refused
  {
    assert r.status.astarteVersion != "" && !r.spec.manualMaintenanceMode;
    hide OnTheWay, PersistsFrom, ExecUpdateStatus, ExecHandleFinalization, ExecEnsureFinalizer, ExecProceed, ExecEnsureStatusCoherency;
    if r.deleting {
      FinalizationStaysOnTheWay(w, o, r, start, healthy, version);
    } else {
      NothingToRestore(w, o, r);
      EnsuringStaysOnTheWay(w, o, r, start, healthy, version);
      var w2 := ExecEnsureFinalizer(w, o, r).0;
      ProceedingStaysOnTheWay(w2, o, r, start, healthy, version);
      ProceedingIsNotRefused(w2, o, r, healthy, version);
    }
  }

  lemma FinalizationStaysOnTheWay(w: World, o: Oracle, r: Resource, start: nat, healthy: Status, version: string)
    requires PersistsFrom(o, start, version) && w.calls >= start && OnTheWay(w.resource, healthy, version)
    ensures var after := ExecHandleFinalization(w, o, r).0; OnTheWay(after.resource, healthy, version) && after.calls >= start
  {
    hide OnTheWay, PersistsFrom, ExecFinalize, ExecUpdateFinalizers, Without;
    FinalizingStaysOnTheWay(w, o, r.name, start, healthy, version);
    ResourceCallsStayOnTheWay(ExecFinalize(w, o, r.name).0, o, r.(finalizers := Without(r.finalizers, ASTARTE_FINALIZER)), start, healthy, version);
  }

  lemma EnsuringStaysOnTheWay(w: World, o: Oracle, r: Resource, start: nat, healthy: Status, version: string)
    requires PersistsFrom(o, start, version) && w.calls >= start && OnTheWay(w.resource, healthy, version)
    ensures var after := ExecEnsureFinalizer(w, o, r).0; OnTheWay(after.resource, healthy, version) && after.calls >= start
  {
    hide OnTheWay, PersistsFrom, ExecUpdateFinalizers;
    ResourceCallsStayOnTheWay(w, o, r.(finalizers := r.finalizers + [ASTARTE_FINALIZER]), start, healthy, version);
  }

  lemma NothingToRestore(w: World, o: Oracle, r: Resource)
    requires r.status.astarteVersion != ""
    ensures ExecEnsureStatusCoherency(w, o, r) == (w, true)
  {
  }

  lemma {:induction false} AttemptsStayOnTheWay(w: World, o: Oracle, supported: string -> bool, attempts: nat, start: nat, healthy: Status, version: string)
    requires healthy.health == Health.Green && healthy.astarteVersion != "" && version != ""
    requires PersistsFrom(o, start, version) && w.calls >= start && OnTheWay(w.resource, healthy, version)
    ensures var after := Serve(w, o, supported, attempts); OnTheWay(after.resource, healthy, version) && after.calls >= start
    decreases attempts
  {
    hide ExecReconcile, OnTheWay, PersistsFrom;
    if attempts > 0 {
      AttemptIsNotRefused(w, o, supported, start, healthy, version);
      AttemptsStayOnTheWay(ExecReconcile(w, o, supported).0, o, supported, attempts - 1, start, healthy, version);
    }
  }

  /** Once an upgrade has been requested while health was reported green, no number of attempts,
      failed or not, makes the gate refuse the next one, as long as it stays requested until then. */
  lemma RetriesAreNeverRefused(w: World, o: Oracle, supported: string -> bool, attempts: nat, healthy: Status, version: string)
    requires healthy.health == Health.Green && healthy.astarteVersion != "" && version != ""
    requires OnTheWay(w.resource, healthy, version)
    requires StaysRequested(o, w.calls, ExecReconcile(Serve(w, o, supported, attempts), o, supported).0.calls, version)
    ensures ExecReconcile(Serve(w, o, supported, attempts), o, supported).1 != Refused
  {
    hide ExecReconcile, OnTheWay;
    var last := Serve(w, o, supported, attempts);
    var stop := ExecReconcile(last, o, supported).0.calls;
    var hushed := Hushed(o, stop);
    assert Agree(o, hushed, stop);
    ReconcileIsLocal(last, o, hushed, supported, stop);
    ServingIsLocal(w, o, hushed, supported, attempts, stop);
    assert PersistsFrom(hushed, w.calls, version);
    AttemptsStayOnTheWay(w, hushed, supported, attempts, w.calls, healthy, version);
    AttemptIsNotRefused(last, hushed, supported, w.calls, healthy, version);
  }
}
