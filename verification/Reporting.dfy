/**
 What the status reports: green only after a look at a cluster in which everything is ready, and after
 a loss the version of the Housekeeping that runs.
 */
module Reporting {
  import opened Specs
  import opened Cluster
  import opened Plans
  import opened Controller
  import opened Lifecycle
  import opened Upgrades
  import Health
  import Text

  // --- The status at the end ---

  /** The status that a reconcile writes when it finishes is green if and only if its last call, of that
      very call's view, could list the Deployments and saw everything ready; yellow for one problem; and
      its version is the requested one. */
  lemma FinalStatusIsHonest(w: World, o: Oracle, supported: string -> bool)
    requires var (after, result) := ExecReconcile(w, o, supported);
             result == Finished && after.log != [] && after.log[|after.log| - 1].act.WroteStatus?
    ensures var after := ExecReconcile(w, o, supported).0;
            && after.resource.Some? && after.calls > 0
            && var r, view := after.resource.value, o(after.calls - 1).view;
               && r.status.astarteVersion == r.spec.version
               && (r.status.health == Health.Green <==>
                     && view.deployments.Some?
                     && (forall status <- view.deployments.value :: status.readyReplicas == 0 ==> status.replicas.GetOr(0) <= 0)
                     && (r.spec.deployVerneMQ.GetOr(true) ==> view.verneMQReady.Some? && view.verneMQReady.value != 0)
                     && (r.spec.deployCFSSL.GetOr(true) ==> view.cfsslReady.Some? && view.cfsslReady.value != 0))
               && (r.status.health == Health.Yellow <==> Health.Problems(view, r.spec) == 1)
  {
    hide ExecReconcile, ExecUpdateStatus;
    var after := ExecReconcile(w, o, supported).0;
    var v := LastIsStatus(w, o, supported);
    StatusIsHonest(v, o);
  }

  /** Such a reconcile ends with the call that writes the status. */
  lemma LastIsStatus(w: World, o: Oracle, supported: string -> bool) returns (v: World)
    requires var (after, result) := ExecReconcile(w, o, supported);
             result == Finished && after.log != [] && after.log[|after.log| - 1].act.WroteStatus?
    ensures ExecUpdateStatus(v, o) == (ExecReconcile(w, o, supported).0, true)
  {
    hide Exec, Plan, ExecUpdateStatus, ExecFinalize, ExecEnsureStatusCoherency, ExecEnsureFinalizer, ExecLook, Seen, SeesGreen, Gated;
    var w1 := Read(w, o).0;
    var r := w1.resource.value;
    if r.spec.manualMaintenanceMode {
      v := w1;
    } else {
      var w3 := ExecEnsureFinalizer(ExecEnsureStatusCoherency(w1, o, r).0, o, r).0;
      var w4 := if Gated(r) then ExecLook(w3, o, r.spec) else w3;
      v := Exec(w4, o, Plan(r.spec)).0;
    }
  }

  lemma StatusIsHonest(w: World, o: Oracle)
    requires ExecUpdateStatus(w, o).1
    ensures var after := ExecUpdateStatus(w, o).0;
            && after.resource.Some? && after.calls == w.calls + 1
            && var r, view := after.resource.value, o(w.calls).view;
               && r.status.astarteVersion == r.spec.version
               && (r.status.health == Health.Green <==> Health.EverythingReady(view, r.spec))
               && (r.status.health == Health.Yellow <==> Health.Problems(view, r.spec) == 1)
  {
    hide Health.EverythingReady, Health.Problems;
    var here := Arrive(w, o);
    if here.resource.Some? {
      Health.GreenExactlyWhen(o(w.calls).view, here.resource.value.spec);
      ColourOf(o(w.calls).view, here.resource.value.spec);
    }
  }

  lemma ColourOf(view: Health.View, spec: AstarteSpec)
    ensures Health.HealthOf(view, spec) == Health.Yellow <==> Health.Problems(view, spec) == 1
  {
  }

  // --- What the gate sees ---

  /** The calls from this one on, made to compute the health, succeed as far as they matter and see
      everything ready: the list, and each of VerneMQ and CFSSL that is meant to run. */
  ghost predicate Sighted(o: Oracle, call: nat, spec: AstarteSpec) {
    && o(call).outcome == Ok && o(call).view.deployments.Some?
    && (forall status <- o(call).view.deployments.value :: status.readyReplicas == 0 ==> status.replicas.GetOr(0) <= 0)
    && (spec.deployVerneMQ.GetOr(true) ==>
          o(call + 1).outcome == Ok && o(call + 1).view.verneMQReady.Some? && o(call + 1).view.verneMQReady.value != 0)
    && (spec.deployCFSSL.GetOr(true) ==>
          var last := o(call + if spec.deployVerneMQ.GetOr(true) then 2 else 1);
          last.outcome == Ok && last.view.cfsslReady.Some? && last.view.cfsslReady.value != 0)
  }

  lemma SeenGreenExactlyWhen(o: Oracle, call: nat, spec: AstarteSpec)
    ensures Health.HealthOf(Seen(o, call, spec), spec) == Health.Green <==> Sighted(o, call, spec)
  {
    hide Health.HealthOf;
    Health.GreenExactlyWhen(Seen(o, call, spec), spec);
  }

  // --- Green over runs ---

  /** The number of calls that a log tells of: only the mark of a finalization is not one. */
  ghost function CallsIn(log: seq<Entry>): nat {
    if log == [] then 0
    else CallsIn(log[..|log| - 1]) + if log[|log| - 1].act.Finalized? then 0 else 1
  }

  /** A status write that saw everything ready and reported green for the resource with this uid. */
  ghost predicate Saw(entry: Entry, view: Health.View, uid: nat) {
    && entry.act.WroteStatus? && entry.resource.Some?
    && entry.resource.value.uid == uid && entry.resource.value.status.health == Health.Green
    && Health.EverythingReady(view, entry.resource.value.spec)
  }

  /** The log, which begins with call number `first`, tells of such a write. */
  ghost predicate Witnessed(log: seq<Entry>, o: Oracle, first: nat, uid: nat) {
    exists j: nat :: j < |log| && Saw(log[j], o(first + CallsIn(log[..j])).view, uid)
  }

  /** If the status is green, it has been seen green. */
  ghost predicate Backed(resource: Option<Resource>, log: seq<Entry>, o: Oracle, first: nat) {
    resource.Some? && resource.value.status.health == Health.Green ==> Witnessed(log, o, first, resource.value.uid)
  }

  /** So it is now and was at every state so far. */
  ghost predicate Honest(w: World, o: Oracle, first: nat) {
    && w.calls == first + CallsIn(w.log)
    && Backed(w.resource, w.log, o, first)
    && forall i :: 0 <= i < |w.log| ==> Backed(w.log[i].resource, w.log[..i + 1], o, first)
  }

  ghost function StaysHonest(o: Oracle, first: nat): (World, World) -> bool {
    (a: World, b: World) => Honest(a, o, first) ==> Honest(b, o, first)
  }

  lemma WitnessLasts(log: seq<Entry>, more: seq<Entry>, o: Oracle, first: nat, uid: nat)
    requires Witnessed(log, o, first, uid) && log <= more
    ensures Witnessed(more, o, first, uid)
  {
    hide Saw, CallsIn;
    var j: nat :| j < |log| && Saw(log[j], o(first + CallsIn(log[..j])).view, uid);
    assert more[j] == log[j] && more[..j] == log[..j];
  }

  /** What others do reports nothing green that was not. */
  lemma OthersStayBacked(action: Action, resource: Option<Resource>, clock: nat, log: seq<Entry>, o: Oracle, first: nat)
    requires Backed(resource, log, o, first)
    ensures Backed(ResourceAfter(action, resource, clock), log, o, first)
  {
    hide Witnessed;
  }

  /** One more entry, for a state in which green is backed. */
  lemma LoggedStaysHonest(w: World, there: World, o: Oracle, first: nat, act: Act)
    requires Honest(w, o, first) && there.log == w.log && there.calls == w.calls + if act.Finalized? then 0 else 1
    requires Backed(there.resource, Logged(there, act).log, o, first)
    ensures Honest(Logged(there, act), o, first)
  {
    hide Witnessed;
    var after := Logged(there, act);
    assert after.log[..|w.log|] == w.log;
    forall i | 0 <= i < |after.log| ensures Backed(after.log[i].resource, after.log[..i + 1], o, first) {
      if i < |w.log| {
        assert after.log[i] == w.log[i] && after.log[..i + 1] == w.log[..i + 1];
      } else {
        assert after.log[..i + 1] == after.log;
      }
    }
  }

  /** A state with the health from before the call, or from what others made of it. */
  lemma SameStatusIsBacked(w: World, here: World, resource: Option<Resource>, log: seq<Entry>, o: Oracle, first: nat)
    requires Backed(here.resource, w.log, o, first) && w.log <= log
    requires resource.Some? ==>
               && here.resource.Some? && resource.value.uid == here.resource.value.uid
               && resource.value.status.health == here.resource.value.status.health
    ensures Backed(resource, log, o, first)
  {
    hide Witnessed;
    if resource.Some? && resource.value.status.health == Health.Green {
      WitnessLasts(w.log, log, o, first, resource.value.uid);
    }
  }

  /** Any call that leaves the health in the status alone. */
  lemma CallStaysHonest(w: World, o: Oracle, first: nat, there: World, act: Act)
    requires Honest(w, o, first) && there.log == w.log && there.calls == w.calls + 1 && !act.Finalized?
    requires there.resource.Some? ==>
               var here := ResourceAfter(o(w.calls).action, w.resource, w.clock);
               && here.Some? && there.resource.value.uid == here.value.uid
               && there.resource.value.status.health == here.value.status.health
    ensures Honest(Logged(there, act), o, first)
  {
    hide Backed, Witnessed, ResourceAfter, CallsIn;
    OthersStayBacked(o(w.calls).action, w.resource, w.clock, w.log, o, first);
    SameStatusIsBacked(w, Arrive(w, o), there.resource, Logged(there, act).log, o, first);
    LoggedStaysHonest(w, there, o, first, act);
  }

  lemma ReadingStaysHonest(w: World, o: Oracle, first: nat, change: Change)
    requires Honest(w, o, first)
    ensures Honest(Read(w, o).0, o, first) && Honest(Write(w, o, change).0, o, first)
  {
    hide Honest, Backed, Witnessed, CallsIn, StoreAfter, ResourceAfter, Apply;
    var here := Arrive(w, o);
    var there := here.(store := Apply(change, here.store));
    CallStaysHonest(w, o, first, here, Looked);
    CallStaysHonest(w, o, first, there, Wrote(change));
  }

  lemma StatusStaysHonest(w: World, o: Oracle, first: nat)
    requires Honest(w, o, first)
    ensures Honest(ExecUpdateStatus(w, o).0, o, first)
  {
    hide Honest, Backed, Witnessed, CallsIn, StoreAfter, ResourceAfter, CurrentStatus, Logged, Arrive;
    SameCall(w, o);
    CallStaysHonest(w, o, first, Arrive(w, o), Looked);
    if Arrive(w, o).resource.Some? {
      WritingStaysHonest(w, o, first, Arrive(w, o).resource.value);
    }
  }

  lemma SameCall(w: World, o: Oracle)
    ensures var here := Arrive(w, o);
            here.log == w.log && here.calls == w.calls + 1 && here.resource == ResourceAfter(o(w.calls).action, w.resource, w.clock)
  {
  }

  lemma WritingStaysHonest(w: World, o: Oracle, first: nat, r: Resource)
    requires Honest(w, o, first)
    ensures var here := Arrive(w, o);
            var written := r.(status := CurrentStatus(r, o(w.calls).view), revision := here.clock);
            Honest(Logged(here.(resource := Some(written), clock := here.clock + 1), WroteStatus(r.status)), o, first)
  {
    CallNow(w, o, first);
    hide Honest, Backed, CallsIn, Logged, CurrentStatus, StoreAfter, ResourceAfter;
    var here := Arrive(w, o);
    var written := r.(status := CurrentStatus(r, o(w.calls).view), revision := here.clock);
    var there := here.(resource := Some(written), clock := here.clock + 1);
    WrittenIsBacked(w, o, first, there, r);
    LoggedStaysHonest(w, there, o, first, WroteStatus(r.status));
  }

  lemma CallNow(w: World, o: Oracle, first: nat)
    requires Honest(w, o, first)
    ensures w.calls == first + CallsIn(w.log)
  {
  }

  lemma WrittenIsBacked(w: World, o: Oracle, first: nat, there: World, r: Resource)
    requires there.log == w.log && w.calls == first + CallsIn(w.log) && there.resource.Some?
    requires there.resource.value.status == CurrentStatus(r, o(w.calls).view) && there.resource.value.spec == r.spec
    ensures Backed(there.resource, Logged(there, WroteStatus(r.status)).log, o, first)
  {
    var after, uid := Logged(there, WroteStatus(r.status)), there.resource.value.uid;
    Health.GreenExactlyWhen(o(w.calls).view, r.spec);
    hide Health.EverythingReady, Health.HealthOf, CallsIn;
    if there.resource.value.status.health == Health.Green {
      assert after.log[..|w.log|] == w.log;
      assert Saw(after.log[|w.log|], o(first + CallsIn(after.log[..|w.log|])).view, uid);
    }
  }

  lemma RestoringStaysHonest(w: World, o: Oracle, first: nat, version: string)
    requires Honest(w, o, first)
    ensures Honest(ExecRestoreVersion(w, o, version).0, o, first)
  {
    hide Honest, Backed, Witnessed, CallsIn, StoreAfter, ResourceAfter;
    var here := Arrive(w, o);
    CallStaysHonest(w, o, first, here, Looked);
    if here.resource.Some? {
      var r := here.resource.value;
      var there := here.(resource := Some(r.(status := r.status.(astarteVersion := version), revision := here.clock)), clock := here.clock + 1);
      CallStaysHonest(w, o, first, there, WroteStatus(r.status));
    }
  }

  lemma FinalizersStayHonest(w: World, o: Oracle, first: nat, copy: Resource)
    requires Honest(w, o, first)
    ensures Honest(ExecUpdateFinalizers(w, o, copy).0, o, first)
  {
    hide Honest, Backed, Witnessed, CallsIn, StoreAfter, ResourceAfter;
    var here := Arrive(w, o);
    CallStaysHonest(w, o, first, here, Looked);
    if here.resource.Some? {
      var r := here.resource.value;
      var there := here.(resource := Present(r.(finalizers := copy.finalizers, revision := here.clock)), clock := here.clock + 1);
      CallStaysHonest(w, o, first, there, WroteFinalizers(r.finalizers));
    }
  }

  lemma EveryCallStaysHonest(o: Oracle, first: nat)
    ensures ClosedThroughout(o, StaysHonest(o, first))
  {
    hide Honest, Read, Write, ExecUpdateStatus, ExecRestoreVersion, ExecUpdateFinalizers;
    var rel := StaysHonest(o, first);
    forall w ensures rel(w, Read(w, o).0) && rel(w, ExecUpdateStatus(w, o).0) && rel(w, Logged(w, Finalized)) {
      if Honest(w, o, first) {
        ReadingStaysHonest(w, o, first, DropDUPs);
        StatusStaysHonest(w, o, first);
        MarkStaysHonest(w, o, first);
      }
    }
    forall w, change ensures rel(w, Write(w, o, change).0) {
      if Honest(w, o, first) { ReadingStaysHonest(w, o, first, change); }
    }
    forall w, version ensures rel(w, ExecRestoreVersion(w, o, version).0) {
      if Honest(w, o, first) { RestoringStaysHonest(w, o, first, version); }
    }
    forall w, copy ensures rel(w, ExecUpdateFinalizers(w, o, copy).0) {
      if Honest(w, o, first) { FinalizersStayHonest(w, o, first, copy); }
    }
    forall w: World, token: nat ensures rel(w, w.(nextToken := token)) {
      TokensStayHonest(w, o, first, token);
    }
  }

  lemma MarkStaysHonest(w: World, o: Oracle, first: nat)
    requires Honest(w, o, first)
    ensures Honest(Logged(w, Finalized), o, first)
  {
    hide Witnessed;
    SameStatusIsBacked(w, w, w.resource, Logged(w, Finalized).log, o, first);
    LoggedStaysHonest(w, w, o, first, Finalized);
  }

  lemma TokensStayHonest(w: World, o: Oracle, first: nat, token: nat)
    ensures Honest(w, o, first) ==> Honest(w.(nextToken := token), o, first)
  {
  }

  /** In every run from a cluster without the resource, at every state: if the status is green, an earlier
      call saw the Deployments listed and everything ready that was meant to run, and wrote that status. */
  lemma {:induction false} GreenHasBeenSeen(w: World, o: Oracle, supported: string -> bool, count: nat, first: nat)
    requires Honest(w, o, first)
    ensures Honest(Serve(w, o, supported, count), o, first)
    decreases count
  {
    hide Honest, ExecReconcile, ClosedThroughout;
    if count > 0 {
      EveryCallStaysHonest(o, first);
      ReconcileRelates(o, StaysHonest(o, first), w, supported);
      GreenHasBeenSeen(ExecReconcile(w, o, supported).0, o, supported, count - 1, first);
    }
  }

  lemma NothingIsHonest(w: World, o: Oracle)
    requires w.log == [] && w.resource.None?
    ensures Honest(w, o, w.calls)
  {
  }

  /** In every run from a cluster without the resource: a reconcile that replaces a released version, though
      it did not start from where the gate is bypassed and nobody asked for yet another version while it
      ran, does so only after such a sight, reported by then or taken for the gate. */
  lemma UpgradesFollowASight(w: World, o: Oracle, supported: string -> bool, count: nat)
    requires w.log == [] && w.resource.None?
    requires var v := Serve(w, o, supported, count);
             var found := Read(v, o).0;
             && !NoReplacement(v, ExecReconcile(v, o, supported).0)
             && (found.resource.Some? ==>
                   && VersionStays(o, found.calls, ExecReconcile(v, o, supported).0.calls, found.resource.value.spec.version)
                   && !Bypasses(found.resource.value, found.store, supported))
    ensures var v := Serve(w, o, supported, count);
            var found := Read(v, o).0;
            && found.resource.Some?
            && var r := found.resource.value;
               || Witnessed(found.log, o, w.calls, r.uid)
               || Sighted(o, v.calls + if ASTARTE_FINALIZER in r.finalizers then 1 else 2, r.spec)
  {
    hide Good, Honest, ExecReconcile, Serve, Read, Witnessed, VersionStays, Bypasses, Seen, Gated, NoReplacement, Sighted;
    var v := Serve(w, o, supported, count);
    var found := Read(v, o).0;
    NothingIsGood(w);
    ProtocolHolds(w, o, supported, count);
    NothingIsHonest(w, o);
    GreenHasBeenSeen(w, o, supported, count, w.calls);
    ReadingStaysHonest(v, o, w.calls, DropDUPs);
    if Innocent(v, o, supported) {
      VersionsAreGuarded(v, o, supported);
      assert false;
    }
    var r := found.resource.value;
    HonestNow(found, o, w.calls);
    SeenGreenExactlyWhen(o, v.calls + if ASTARTE_FINALIZER in r.finalizers then 1 else 2, r.spec);
  }

  lemma HonestNow(w: World, o: Oracle, first: nat)
    requires Honest(w, o, first)
    ensures w.resource.Some? && w.resource.value.status.health == Health.Green ==> Witnessed(w.log, o, first, w.resource.value.uid)
  {
  }

  // --- What the gate refuses ---

  /** A reconcile refuses exactly the upgrade of a release to another, supported version, of a resource
      neither in maintenance nor marked for deletion that it could read and hold by the finalizer, when
      neither green was reported nor everything was seen ready. */
  lemma RefusedExactlyWhen(w: World, o: Oracle, supported: string -> bool)
    ensures ExecReconcile(w, o, supported).1 == Refused <==>
            var (found, ok) := Read(w, o);
            && ok && found.resource.Some?
            && var r := found.resource.value;
               && !r.spec.manualMaintenanceMode && !r.deleting && supported(r.spec.version)
               && r.status.astarteVersion !in ["", "snapshot", r.spec.version]
               && ExecEnsureFinalizer(found, o, r).1
               && r.status.health != Health.Green
               && !Sighted(o, w.calls + if ASTARTE_FINALIZER in r.finalizers then 1 else 2, r.spec)
  {
    hide Exec, Plan, ExecUpdateStatus, ExecHandleFinalization, ExecLook, Seen, Sighted, Health.HealthOf;
    var (found, ok) := Read(w, o);
    if found.resource.Some? {
      var r := found.resource.value;
      EnsuringCalls(found, o, r);
      SeenGreenExactlyWhen(o, w.calls + if ASTARTE_FINALIZER in r.finalizers then 1 else 2, r.spec);
    }
  }

  lemma EnsuringCalls(w: World, o: Oracle, r: Resource)
    ensures ExecEnsureFinalizer(w, o, r).0.calls == w.calls + if ASTARTE_FINALIZER in r.finalizers then 0 else 1
  {
  }

  // --- A lost status ---

  /** An image with this tag and no other colon. */
  ghost predicate Tagged(image: string, tag: string) {
    exists name :: ':' !in name && ':' !in tag && image == name + ":" + tag
  }

  lemma TagExactlyWhen(image: string, tag: string)
    ensures TagOf(image) == Some(tag) <==> Tagged(image, tag)
  {
    hide Text.Split;
    var tokens := Text.Split(image, ':');
    if TagOf(image) == Some(tag) {
      Text.SplitIsUnique(image, ':', tokens);
      assert tokens == [tokens[0], tokens[1]];
      assert tokens[0] in tokens && tokens[1] in tokens;
      assert tokens[1..] == [tag];
      assert image == tokens[0] + ":" + tag;
    }
    if name :| ':' !in name && ':' !in tag && image == name + ":" + tag {
      assert [name, tag][1..] == [tag];
      Text.SplitIsUnique(image, ':', [name, tag]);
    }
  }

  /** The Housekeeping image of a specification. */
  ghost function ImageOf(spec: AstarteSpec): string {
    if spec.housekeepingImage != "" then spec.housekeepingImage
    else spec.distributionChannel + "/astarte_housekeeping:" + if spec.housekeepingVersion != "" then spec.housekeepingVersion else spec.version
  }

  /** When the status is empty and Housekeeping runs, restoring the status either fails or leaves the tag
      of the image of that Housekeeping as the version. */
  lemma LostStatusIsRestored(w: World, o: Oracle, r: Resource)
    requires r.status.astarteVersion == "" && Running(Of(Housekeeping)) in w.store && w.store[Running(Of(Housekeeping))].Deployment?
    ensures var (after, ok) := ExecEnsureStatusCoherency(w, o, r);
            ok ==> after.resource.Some? && Tagged(ImageOf(w.store[Running(Of(Housekeeping))].rendered), after.resource.value.status.astarteVersion)
  {
    hide Read, ExecRestoreVersion, TagOf, Tagged;
    var key := Running(Of(Housekeeping));
    var (w1, ok1) := Read(w, o);
    HousekeepingStays(w, o);
    var image := w.store[key].rendered.HousekeepingImage();
    if ok1 && TagOf(image).Some? {
      var version := TagOf(image).value;
      TagExactlyWhen(image, version);
      RestoredStays(w1, o, version);
    }
  }

  lemma HousekeepingStays(w: World, o: Oracle)
    requires Running(Of(Housekeeping)) in w.store
    ensures var after := Read(w, o).0;
            Running(Of(Housekeeping)) in after.store && after.store[Running(Of(Housekeeping))] == w.store[Running(Of(Housekeeping))]
  {
    Discipline.OthersKeepOut(o(w.calls).action, w.store, Running(Of(Housekeeping)));
  }

  lemma RestoredStays(w: World, o: Oracle, version: string)
    ensures var (w1, ok1) := ExecRestoreVersion(w, o, version);
            var w2 := Read(w1, o).0;
            ok1 && w2.resource.Some? ==> w2.resource.value.status.astarteVersion == version
  {
  }

  /** In particular that is the version it was rendered for, if neither an image nor a version of its own
      has been chosen. */
  lemma RenderedVersionIsRestored(w: World, o: Oracle, r: Resource, spec: AstarteSpec)
    requires r.status.astarteVersion == "" && Running(Of(Housekeeping)) in w.store
    requires w.store[Running(Of(Housekeeping))].Deployment? && w.store[Running(Of(Housekeeping))].rendered == spec
    requires spec.housekeepingImage == "" && spec.housekeepingVersion == ""
    ensures var (after, ok) := ExecEnsureStatusCoherency(w, o, r);
            ok ==> ':' !in spec.distributionChannel && after.resource.Some? && after.resource.value.status.astarteVersion == spec.version
  {
    hide ExecEnsureStatusCoherency;
    var (after, ok) := ExecEnsureStatusCoherency(w, o, r);
    LostStatusIsRestored(w, o, r);
    if ok {
      SameTag(spec.distributionChannel + "/astarte_housekeeping", spec.version, after.resource.value.status.astarteVersion);
    }
  }

  /** An image put together from a name and a version has that version as its tag, or none. */
  lemma SameTag(name: string, version: string, tag: string)
    requires Tagged(name + ":" + version, tag)
    ensures tag == version && ':' !in name
  {
    var image := name + ":" + version;
    var other :| ':' !in other && ':' !in tag && image == other + ":" + tag;
    assert image[|name|] == ':';
    assert forall i :: 0 <= i < |image| && image[i] == ':' ==> i == |other| by {
      assert forall i :: 0 <= i < |other| ==> image[i] == other[i] && other[i] in other;
      assert forall i :: |other| < i < |image| ==> image[i] == tag[i - |other| - 1] && tag[i - |other| - 1] in tag;
    }
    assert name == image[..|name|] == other;
    assert version == image[|name| + 1..] == tag;
  }
}
