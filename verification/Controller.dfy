/**
 The reconciliation of an Astarte resource: maintenance mode, deletion, the state of the status,
 the finalizer, the gate in front of upgrades, the resources, and the status at the end.
 */
module Controller {
  import opened Specs
  import opened Cluster
  import opened Plans
  import opened Reconciler
  import opened Listings
  import Health
  import Text

  const SNAPSHOT_VERSION := "snapshot"

  datatype Result = Finished | Failed | Refused

  function Verdict(ok: bool): Result {
    if ok then Finished else Failed
  }

  // --- Calls about the resource ---

  /** What a call made of the resource, depending on how it ended. */
  function PutResource(w: World, o: Oracle, resource: Option<Resource>, act: Act): (World, bool) {
    var here := Arrive(w, o);
    var there := here.(resource := resource, clock := here.clock + 1);
    match o(w.calls).outcome
    case Ok => (Logged(there, act), true)
    case Lost => (Logged(here, Looked), false)
    case Landed => (Logged(there, act), false)
  }

  /** The status at the end of a reconcile, from the resource as it is then. */
  function CurrentStatus(r: Resource, view: Health.View): Status {
    Status(r.spec.version, Health.HealthOf(view, r.spec))
  }

  /** Reads the resource and writes a new status for it. */
  function ExecUpdateStatus(w: World, o: Oracle): (World, bool) {
    var here := Arrive(w, o);
    match here.resource
    case None => (Logged(here, Looked), false)
    case Some(r) => PutResource(w, o, Some(r.(status := CurrentStatus(r, o(w.calls).view), revision := here.clock)), WroteStatus(r.status))
  }

  /** Reads the resource and writes just the version into its status. */
  function ExecRestoreVersion(w: World, o: Oracle, version: string): (World, bool) {
    var here := Arrive(w, o);
    match here.resource
    case None => (Logged(here, Looked), false)
    case Some(r) => PutResource(w, o, Some(r.(status := r.status.(astarteVersion := version), revision := here.clock)), WroteStatus(r.status))
  }

  /** Writes the finalizers of a copy of the resource; refused when the copy is out of date. */
  function ExecUpdateFinalizers(w: World, o: Oracle, copy: Resource): (World, bool) {
    var here := Arrive(w, o);
    if here.resource.None? || here.resource.value.revision != copy.revision then (Logged(here, Looked), false)
    else PutResource(w, o, Present(here.resource.value.(finalizers := copy.finalizers, revision := here.clock)), WroteFinalizers(here.resource.value.finalizers))
  }

  // --- Finalization ---

  const PRIORITIES: seq<Priority> := [High, Low, Mid]

  function ExecDeletePriorities(w: World, o: Oracle, listed: Store, priorities: seq<Priority>): (World, bool)
    decreases |priorities|
  {
    if priorities == [] then (w, true)
    else if PriorityClass(priorities[0]) !in listed then ExecDeletePriorities(w, o, listed, priorities[1..])
    else
      var (w1, ok) := Write(w, o, DropObject(PriorityClass(priorities[0])));
      if ok then ExecDeletePriorities(w1, o, listed, priorities[1..]) else (w1, false)
  }

  /** What a finalization deletes: CFSSL's published certificate, the instance's volume claims and the
      priority classes. */
  predicate Erased(key: Key, name: string) {
    key == CFSSLProxyCA || key.PriorityClass? || (key.VolumeClaim? && Erasable(name, key.name))
  }

  function ErasePrefixes(name: string): seq<string> {
    [name + "-vernemq-data", name + "-rabbitmq-data", name + "-cfssl-data", name + "-cassandra-data"]
  }

  predicate Erasable(name: string, claim: string) {
    exists i :: 0 <= i < 4 && ErasePrefixes(name)[i] <= claim
  }

  function Claims(store: Store): seq<string> {
    Listed(set key | key in store && key.VolumeClaim? :: key.name)
  }

  /** It does not matter if deleting a claim fails. */
  function ExecEraseClaims(w: World, o: Oracle, name: string, claims: seq<string>): World
    decreases |claims|
  {
    if claims == [] then w
    else if Erasable(name, claims[0]) then ExecEraseClaims(Write(w, o, DropObject(VolumeClaim(claims[0]))).0, o, name, claims[1..])
    else ExecEraseClaims(w, o, name, claims[1..])
  }

  /** The certificate goes first, and it does not matter if that fails; then the volume claims; the
      priority classes come last. */
  function ExecFinalize(w: World, o: Oracle, name: string): (World, bool) {
    var (w1, ok1) := Read(w, o);
    var w2 := if ok1 && CFSSLProxyCA in w1.store then Write(w1, o, DropObject(CFSSLProxyCA)).0 else w1;
    var (w3, ok3) := Read(w2, o);
    if !ok3 then (w3, false)
    else
      var w4 := ExecEraseClaims(w3, o, name, Claims(w3.store));
      var (w5, ok5) := Read(w4, o);
      if !ok5 then (w5, false)
      else
        var (w6, ok6) := ExecDeletePriorities(w5, o, w5.store, PRIORITIES);
        if ok6 then (Logged(w6, Finalized), true) else (w6, false)
  }

  function ExecHandleFinalization(w: World, o: Oracle, r: Resource): (World, bool) {
    if ASTARTE_FINALIZER !in r.finalizers then (w, true)
    else
      var (w1, ok) := ExecFinalize(w, o, r.name);
      if ok then ExecUpdateFinalizers(w1, o, r.(finalizers := Without(r.finalizers, ASTARTE_FINALIZER))) else (w1, false)
  }

  // --- A reconcile ---

  /** The version in the tag of an image, if it has exactly one tag. */
  function TagOf(image: string): Option<string> {
    var tokens := Text.Split(image, ':');
    if |tokens| == 2 then Some(tokens[1]) else None
  }

  /** An empty status is restored from the running Housekeeping, in the cluster but not in the
      copy that the reconcile goes on with. */
  function ExecEnsureStatusCoherency(w: World, o: Oracle, r: Resource): (World, bool) {
    if r.status.astarteVersion != "" then (w, true)
    else
      var (w1, ok1) := Read(w, o);
      var key := Running(Of(Housekeeping));
      if !ok1 then (w1, false)
      else if key !in w1.store || !w1.store[key].Deployment? then (w1, true)
      else
        match TagOf(w1.store[key].rendered.HousekeepingImage())
        case None => (w1, false)
        case Some(version) =>
          var (w2, ok2) := ExecRestoreVersion(w1, o, version);
          if !ok2 then (w2, false)
          else
            var (w3, ok3) := Read(w2, o);
            (w3, ok3 && w3.resource.Some?)
  }

  /** The copy that the reconcile goes on with: its health is reset, its version stays empty. */
  function CopyAfterCoherency(w: World, o: Oracle, r: Resource): Resource {
    var (w1, ok1) := Read(w, o);
    var key := Running(Of(Housekeeping));
    if r.status.astarteVersion == "" && ok1 && key in w1.store && w1.store[key].Deployment? then
      r.(status := r.status.(health := Health.Red))
    else
      r
  }

  function ExecEnsureFinalizer(w: World, o: Oracle, r: Resource): (World, bool) {
    if ASTARTE_FINALIZER in r.finalizers then (w, true)
    else ExecUpdateFinalizers(w, o, r.(finalizers := r.finalizers + [ASTARTE_FINALIZER]))
  }

  predicate Gated(r: Resource) {
    r.status.astarteVersion != "" && r.status.astarteVersion != SNAPSHOT_VERSION && r.status.astarteVersion != r.spec.version
  }

  /** The calls that computing the health takes: a list, and a read each for VerneMQ and CFSSL if they
      should run. */
  function ExecLook(w: World, o: Oracle, spec: AstarteSpec): World {
    var w1 := Read(w, o).0;
    var w2 := if spec.deployVerneMQ.GetOr(true) then Read(w1, o).0 else w1;
    if spec.deployCFSSL.GetOr(true) then Read(w2, o).0 else w2
  }

  /** What these calls see, the first one having this number; a failed call sees nothing. */
  function Seen(o: Oracle, call: nat, spec: AstarteSpec): Health.View {
    var vernemq := call + 1;
    var cfssl := if spec.deployVerneMQ.GetOr(true) then call + 2 else call + 1;
    Health.View(
      if o(call).outcome == Ok then o(call).view.deployments else None,
      if spec.deployVerneMQ.GetOr(true) && o(vernemq).outcome == Ok then o(vernemq).view.verneMQReady else None,
      if spec.deployCFSSL.GetOr(true) && o(cfssl).outcome == Ok then o(cfssl).view.cfsslReady else None)
  }

  predicate SeesGreen(r: Resource, view: Health.View) {
    r.status.health == Health.Green || Health.HealthOf(view, r.spec) == Health.Green
  }

  function ExecProceed(w: World, o: Oracle, r: Resource): (World, Result) {
    if !Gated(r) then ExecResources(w, o, r)
    else
      var w1 := ExecLook(w, o, r.spec);
      if SeesGreen(r, Seen(o, w.calls, r.spec)) then ExecResources(w1, o, r) else (w1, Refused)
  }

  function ExecResources(w: World, o: Oracle, r: Resource): (World, Result) {
    var (w1, ok) := Exec(w, o, Plan(r.spec));
    if !ok then (w1, Failed)
    else
      var (w2, ok2) := ExecUpdateStatus(w1, o);
      (w2, Verdict(ok2))
  }

  /** What a reconcile does with the resource it found. */
  function ExecHandle(w: World, o: Oracle, supported: string -> bool, r: Resource): (World, Result) {
    if r.spec.manualMaintenanceMode then
      var (w1, ok) := ExecUpdateStatus(w, o);
      (w1, Verdict(ok))
    else if !supported(r.spec.version) then (w, Failed)
    else if r.deleting then
      var (w1, ok) := ExecHandleFinalization(w, o, r);
      (w1, Verdict(ok))
    else
      var (w1, ok1) := ExecEnsureStatusCoherency(w, o, r);
      if !ok1 then (w1, Failed)
      else
        var (w2, ok2) := ExecEnsureFinalizer(w1, o, r);
        if ok2 then ExecProceed(w2, o, r) else (w2, Failed)
  }

  function ExecReconcile(w: World, o: Oracle, supported: string -> bool): (World, Result) {
    var (w1, ok) := Read(w, o);
    if !ok then (w1, Failed)
    else match w1.resource
      case None => (w1, Finished)
      case Some(r) => ExecHandle(w1, o, supported, r)
  }

  /** Where, and for which resource, a top-level reconcile starts to reconcile resources, if it does. */
  function Started(w: World, o: Oracle, supported: string -> bool): Option<(World, Resource)> {
    var (w1, ok) := Read(w, o);
    if !ok || w1.resource.None? then None
    else
      var r := w1.resource.value;
      if r.spec.manualMaintenanceMode || !supported(r.spec.version) || r.deleting then None
      else
        var (w2, ok2) := ExecEnsureStatusCoherency(w1, o, r);
        if !ok2 then None
        else
          var (w3, ok3) := ExecEnsureFinalizer(w2, o, r);
          if !ok3 then None
          else if !Gated(r) then Some((w3, r))
          else if SeesGreen(r, Seen(o, w3.calls, r.spec)) then Some((ExecLook(w3, o, r.spec), r))
          else None
  }

  // --- The code ---

  /** Reads the resource; `NotFound` and other errors differ. */
  method GetInstance(c: Client) returns (instance: Option<Resource>, err: bool)
    modifies c
    ensures Read(old(c.State()), c.oracle) == (c.State(), !err)
    ensures !err ==> instance == c.resource
  {
    var outcome := c.Begin();
    c.log := c.log + [Entry(c.store, c.resource, Looked)];
    err := outcome != Ok;
    instance := c.resource;
  }

  /** The compare-and-swap of `RetryOnConflict`, as one call: a new status from the current resource. */
  method UpdateStatus(c: Client) returns (err: bool)
    modifies c
    ensures ExecUpdateStatus(old(c.State()), c.oracle) == (c.State(), !err)
  {
    var view := c.oracle(c.calls).view;
    var outcome := c.Begin();
    if c.resource.None? {
      c.log := c.log + [Entry(c.store, c.resource, Looked)];
      return true;
    }
    var instance := c.resource.value;
    var health := Health.ComputeClusterHealth(view, instance.spec);
    if outcome != Lost {
      c.resource := Some(instance.(status := Status(instance.spec.version, health), revision := c.clock));
      c.clock := c.clock + 1;
    }
    c.log := c.log + [Entry(c.store, c.resource, if outcome == Lost then Looked else WroteStatus(instance.status))];
    err := outcome != Ok;
  }

  method RestoreVersion(c: Client, version: string) returns (err: bool)
    modifies c
    ensures ExecRestoreVersion(old(c.State()), c.oracle, version) == (c.State(), !err)
  {
    var outcome := c.Begin();
    if c.resource.None? {
      c.log := c.log + [Entry(c.store, c.resource, Looked)];
      return true;
    }
    var instance := c.resource.value;
    if outcome != Lost {
      c.resource := Some(instance.(status := instance.status.(astarteVersion := version), revision := c.clock));
      c.clock := c.clock + 1;
    }
    c.log := c.log + [Entry(c.store, c.resource, if outcome == Lost then Looked else WroteStatus(instance.status))];
    err := outcome != Ok;
  }

  method UpdateFinalizers(c: Client, instance: Resource) returns (err: bool)
    modifies c
    ensures ExecUpdateFinalizers(old(c.State()), c.oracle, instance) == (c.State(), !err)
  {
    var outcome := c.Begin();
    if c.resource.None? || c.resource.value.revision != instance.revision {
      c.log := c.log + [Entry(c.store, c.resource, Looked)];
      return true;
    }
    var over := c.resource.value.finalizers;
    if outcome != Lost {
      c.resource := Present(c.resource.value.(finalizers := instance.finalizers, revision := c.clock));
      c.clock := c.clock + 1;
    }
    c.log := c.log + [Entry(c.store, c.resource, if outcome == Lost then Looked else WroteFinalizers(over))];
    err := outcome != Ok;
  }

  /** Removes all occurrences of a string from a list. */
  method Remove(list: seq<string>, s: string) returns (rest: seq<string>)
    ensures rest == Without(list, s)
    ensures s !in rest
  {
    rest := [];
    for i := |list| downto 0
      invariant rest == Without(list[i..], s)
      invariant s !in rest
    {
      assert list[i..][1..] == list[i + 1..];
      if list[i] != s {
        rest := [list[i]] + rest;
      }
    }
    assert list[0..] == list;
  }

  /** Lists objects. */
  method List(c: Client) returns (listed: Store, err: bool)
    modifies c
    ensures Read(old(c.State()), c.oracle) == (c.State(), !err) && listed == c.store
  {
    var outcome := c.Begin();
    c.log := c.log + [Entry(c.store, c.resource, Looked)];
    err := outcome != Ok;
    listed := c.store;
  }

  method FinalizePriorityClasses(c: Client) returns (err: bool)
    modifies c
    ensures var (listed, ok) := Read(old(c.State()), c.oracle);
            (if ok then ExecDeletePriorities(listed, c.oracle, listed.store, PRIORITIES) else (listed, false)) == (c.State(), !err)
  {
    var classes;
    classes, err := List(c);
    if err {
      return;
    }
    ghost var listed := c.State();
    var i := 0;
    while i < |PRIORITIES|
      invariant 0 <= i <= |PRIORITIES| && !err
      invariant ExecDeletePriorities(listed, c.oracle, classes, PRIORITIES) == ExecDeletePriorities(c.State(), c.oracle, classes, PRIORITIES[i..])
    {
      assert PRIORITIES[i..][1..] == PRIORITIES[i + 1..];
      if PriorityClass(PRIORITIES[i]) in classes {
        err := c.Delete(PriorityClass(PRIORITIES[i]));
        if err {
          return;
        }
      }
      i := i + 1;
    }
  }

  /** Deletes the listed claims that begin with one of the prefixes, whether or not that works. */
  method EraseClaims(c: Client, name: string, claims: seq<string>)
    modifies c
    ensures c.State() == ExecEraseClaims(old(c.State()), c.oracle, name, claims)
  {
    var i := 0;
    while i < |claims|
      invariant 0 <= i <= |claims|
      invariant ExecEraseClaims(old(c.State()), c.oracle, name, claims) == ExecEraseClaims(c.State(), c.oracle, name, claims[i..])
    {
      assert claims[i..][1..] == claims[i + 1..];
      var prefixes := ErasePrefixes(name);
      var j := 0;
      while j < 4
        invariant 0 <= j <= 4
        invariant forall k :: 0 <= k < j ==> !(prefixes[k] <= claims[i])
      {
        if prefixes[j] <= claims[i] {
          break;
        }
        j := j + 1;
      }
      if j < 4 {
        var failed := c.Delete(VolumeClaim(claims[i]));
      }
      i := i + 1;
    }
  }

  method FinalizeAstarte(c: Client, name: string) returns (err: bool)
    modifies c
    ensures ExecFinalize(old(c.State()), c.oracle, name) == (c.State(), !err)
  {
    hide ExecDeletePriorities, ExecEraseClaims;
    var theSecret;
    theSecret, err := c.Get(CFSSLProxyCA);
    if !err && theSecret.Some? {
      var _ := c.Delete(CFSSLProxyCA);
    }
    var volumes;
    volumes, err := List(c);
    if err {
      return;
    }
    EraseClaims(c, name, Claims(volumes));
    err := FinalizePriorityClasses(c);
    if err {
      return;
    }
    c.log := c.log + [Entry(c.store, c.resource, Finalized)];
  }

  method HandleFinalization(c: Client, instance: Resource) returns (err: bool)
    modifies c
    ensures ExecHandleFinalization(old(c.State()), c.oracle, instance) == (c.State(), !err)
  {
    err := false;
    if ASTARTE_FINALIZER in instance.finalizers {
      err := FinalizeAstarte(c, instance.name);
      if err {
        return;
      }
      var rest := Remove(instance.finalizers, ASTARTE_FINALIZER);
      err := UpdateFinalizers(c, instance.(finalizers := rest));
    }
  }

  /** `copy` is what becomes of the caller's instance. */
  method EnsureStatusCoherency(c: Client, instance: Resource) returns (copy: Resource, err: bool)
    modifies c
    ensures ExecEnsureStatusCoherency(old(c.State()), c.oracle, instance) == (c.State(), !err)
    ensures copy == CopyAfterCoherency(old(c.State()), c.oracle, instance)
  {
    copy := instance;
    if instance.status.astarteVersion != "" {
      err := false;
      return;
    }
    var hkDeployment;
    hkDeployment, err := c.Get(Running(Of(Housekeeping)));
    if err || hkDeployment.None? || !hkDeployment.value.Deployment? {
      return;
    }
    copy := copy.(status := copy.status.(health := Health.Red));
    var tag := TagOf(hkDeployment.value.rendered.HousekeepingImage());
    if tag.None? {
      err := true;
      return;
    }
    err := RestoreVersion(c, tag.value);
    if err {
      return;
    }
    var again;
    again, err := GetInstance(c);
    err := err || again.None?;
  }

  /** Each of the three questions is one call. */
  method ComputeClusterHealth(c: Client, spec: AstarteSpec) returns (health: Health.ClusterHealth)
    modifies c
    ensures c.State() == ExecLook(old(c.State()), c.oracle, spec)
    ensures health == Health.HealthOf(Seen(c.oracle, old(c.calls), spec), spec)
  {
    var view := Health.View(None, None, None);
    var call := c.calls;
    var answer, err := List(c);
    if !err {
      view := view.(deployments := c.oracle(call).view.deployments);
    }
    if spec.deployVerneMQ.GetOr(true) {
      call := c.calls;
      answer, err := List(c);
      if !err {
        view := view.(verneMQReady := c.oracle(call).view.verneMQReady);
      }
    }
    if spec.deployCFSSL.GetOr(true) {
      call := c.calls;
      answer, err := List(c);
      if !err {
        view := view.(cfsslReady := c.oracle(call).view.cfsslReady);
      }
    }
    health := Health.ComputeClusterHealth(view, spec);
  }

  method CheckAndPerformUpgrade(c: Client, instance: Resource) returns (err: bool)
    modifies c
    ensures c.State() == ExecLook(old(c.State()), c.oracle, instance.spec)
    ensures !err <==> SeesGreen(instance, Seen(c.oracle, old(c.calls), instance.spec))
  {
    var computedClusterHealth := ComputeClusterHealth(c, instance.spec);
    err := computedClusterHealth != Health.Green && instance.status.health != Health.Green;
  }

  /** The reset of the copy has no influence on what follows, as its version is still empty. */
  lemma CopyBehavesAlike(w: World, v: World, o: Oracle, r: Resource)
    ensures var copy := CopyAfterCoherency(w, o, r);
            && ExecEnsureFinalizer(v, o, copy) == ExecEnsureFinalizer(v, o, r)
            && ExecProceed(v, o, copy) == ExecProceed(v, o, r)
            && copy.spec == r.spec && copy.finalizers == r.finalizers && copy.revision == r.revision
            && copy.status.astarteVersion == r.status.astarteVersion
  {
    hide Exec, Plan, Read, ExecUpdateStatus;
  }

  method Reconcile(c: Client, supported: string -> bool) returns (result: Result)
    modifies c
    ensures ExecReconcile(old(c.State()), c.oracle, supported) == (c.State(), result)
  {
    hide Exec, Plan, ExecUpdateStatus, ExecHandleFinalization, ExecEnsureStatusCoherency, ExecUpdateFinalizers, Read, CopyAfterCoherency, ExecLook, Seen, SeesGreen;
    var answer, err := GetInstance(c);
    if err {
      return Failed;
    }
    if answer.None? {
      return Finished;
    }
    var instance := answer.value;
    if instance.spec.manualMaintenanceMode {
      err := UpdateStatus(c);
      return Verdict(!err);
    }
    if !supported(instance.spec.version) {
      return Failed;
    }
    if instance.deleting {
      err := HandleFinalization(c, instance);
      return Verdict(!err);
    }
    ghost var found := instance;
    ghost var before := c.State();
    instance, err := EnsureStatusCoherency(c, instance);
    if err {
      return Failed;
    }
    CopyBehavesAlike(before, c.State(), c.oracle, found);
    if ASTARTE_FINALIZER !in instance.finalizers {
      err := UpdateFinalizers(c, instance.(finalizers := instance.finalizers + [ASTARTE_FINALIZER]));
      if err {
        return Failed;
      }
    }
    CopyBehavesAlike(before, c.State(), c.oracle, found);
    if instance.status.astarteVersion != "" && instance.status.astarteVersion != SNAPSHOT_VERSION
       && instance.status.astarteVersion != instance.spec.version {
      err := CheckAndPerformUpgrade(c, instance);
      if err {
        return Refused;
      }
    }
    err := ReconcileAstarteResources(c, instance.spec);
    if err {
      return Failed;
    }
    err := UpdateStatus(c);
    result := Verdict(!err);
  }
}
