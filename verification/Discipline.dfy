/**
 Reasoning about every state of a run. A property of stores that the changes of a step keep holds
 after every call of the step, however the calls end; and the plan of a reconcile is disciplined:
 each step only relies on what earlier steps have put in place and never undoes their work.
 */
module Discipline {
  import opened Specs
  import opened Queues
  import opened Cluster
  import opened Plans

  // --- From changes to runs ---

  /** The changes a step can make to a store. */
  ghost predicate MayChange(step: Step, store: Store, change: Change) {
    match step
    case Put(key, contents) => change == PutObject(key, contents)
    case Generate(key) => key !in store && change.PutObject? && change.key == key && change.contents.Material?
    case MakeKeyPair =>
      && HousekeepingPublicKey !in store
      && (|| change == DropObject(HousekeepingPrivateKey)
          || (change.PutObject? && change.key == HousekeepingPrivateKey && change.contents.Material?)
          || (&& HousekeepingPrivateKey in store && store[HousekeepingPrivateKey].Material?
              && change == PutObject(HousekeepingPublicKey, PublicHalf(store[HousekeepingPrivateKey].token))))
    case Fetch(key) => false
    case Certify(source, target) =>
      && (source in store || source.UserSecret?)
      && change == PutObject(target, CertificateOf(if source.UserSecret? then Auxiliary else store[source]))
    case Retire(workload, _) => change == DropObject(Running(workload))
    case Shrink(limit) => |DUPs(store)| > limit && change == DropDUPs
    case RestartUnless(_) => false
  }

  /** The step and everybody else keep the property. */
  ghost predicate Keeps(step: Step, inv: Store -> bool) {
    && (forall store, action :: inv(store) ==> inv(StoreAfter(action, store)))
    && (forall store, change :: inv(store) && MayChange(step, store, change) ==> inv(Apply(change, store)))
  }

  /** Every state logged between two worlds, and the last one, has the property. */
  ghost predicate Throughout(before: World, after: World, inv: Store -> bool) {
    && before.log <= after.log
    && inv(after.store)
    && forall i | |before.log| <= i < |after.log| :: inv(after.log[i].store)
  }

  lemma ThroughoutTransitive(a: World, b: World, c: World, inv: Store -> bool)
    requires Throughout(a, b, inv) && Throughout(b, c, inv)
    ensures Throughout(a, c, inv)
  {
    forall i | |a.log| <= i < |c.log|
      ensures inv(c.log[i].store)
    {
      if i < |b.log| {
        assert c.log[i] == b.log[i];
      }
    }
  }

  lemma ReadKeeps(w: World, o: Oracle, step: Step, inv: Store -> bool)
    requires inv(w.store) && Keeps(step, inv)
    ensures Throughout(w, Read(w, o).0, inv)
  {
    assert inv(StoreAfter(o(w.calls).action, w.store));
  }

  lemma WriteKeeps(w: World, o: Oracle, step: Step, change: Change, inv: Store -> bool)
    requires inv(w.store) && Keeps(step, inv)
    requires MayChange(step, StoreAfter(o(w.calls).action, w.store), change)
    ensures Throughout(w, Write(w, o, change).0, inv)
  {
    var here := StoreAfter(o(w.calls).action, w.store);
    assert inv(here);
    assert inv(Apply(change, here));
  }

  /** Others neither give nor take what the operator generates. */
  lemma OthersKeepOut(action: Action, store: Store, key: Key)
    requires !key.UserSecret?
    ensures key in StoreAfter(action, store) <==> key in store
    ensures key in store ==> StoreAfter(action, store)[key] == store[key]
  {
  }

  lemma OthersStartNothing(action: Action, store: Store)
    ensures DUPs(StoreAfter(action, store)) == DUPs(store)
  {
    forall key | IsDUP(key) {
      OthersKeepOut(action, store, key);
    }
  }

  /** A user's own secrets all look alike to the operator. */
  ghost predicate PlainUserSecrets(store: Store) {
    forall name :: UserSecret(name) in store ==> store[UserSecret(name)] == Auxiliary
  }

  lemma StepKeeps(w: World, o: Oracle, step: Step, inv: Store -> bool)
    requires inv(w.store) && Keeps(step, inv) && !(step.Generate? && step.key.UserSecret?)
    requires forall store :: inv(store) ==> PlainUserSecrets(store)
    ensures Throughout(w, ExecStep(w, o, step).0, inv)
  {
    if step.Put? {
      WriteKeeps(w, o, step, PutObject(step.key, step.contents), inv);
    } else if step.MakeKeyPair? {
      KeyPairKeeps(w, o, inv);
    } else {
      var w1 := Read(w, o).0;
      var action := o(w1.calls).action;
      ReadKeeps(w, o, step, inv);
      if step.Generate? && step.key !in w1.store {
        OthersKeepOut(action, w1.store, step.key);
        WriteKeeps(w1.(nextToken := w1.nextToken + 1), o, step, PutObject(step.key, Material(w1.nextToken)), inv);
        ThroughoutTransitive(w, w1, WriteFresh(w1, o, step.key).0, inv);
      } else if step.Certify? && step.source in w1.store {
        var change := PutObject(step.target, CertificateOf(w1.store[step.source]));
        if !step.source.UserSecret? { OthersKeepOut(action, w1.store, step.source); }
        WriteKeeps(w1, o, step, change, inv);
        ThroughoutTransitive(w, w1, Write(w1, o, change).0, inv);
      } else if step.Retire? && Running(step.workload) in w1.store {
        WriteKeeps(w1, o, step, DropObject(Running(step.workload)), inv);
        ThroughoutTransitive(w, w1, Write(w1, o, DropObject(Running(step.workload))).0, inv);
      } else if step.Shrink? && |DUPs(w1.store)| > step.limit {
        OthersStartNothing(action, w1.store);
        WriteKeeps(w1, o, step, DropDUPs, inv);
        ThroughoutTransitive(w, w1, Write(w1, o, DropDUPs).0, inv);
      } else if step.RestartUnless? {
        ReadKeeps(w1, o, step, inv);
        ThroughoutTransitive(w, w1, Read(w1, o).0, inv);
      }
    }
  }

  lemma KeyPairKeeps(w: World, o: Oracle, inv: Store -> bool)
    requires inv(w.store) && Keeps(MakeKeyPair, inv)
    ensures Throughout(w, ExecMakeKeyPair(w, o).0, inv)
  {
    var w1 := Read(w, o).0;
    ReadKeeps(w, o, MakeKeyPair, inv);
    if Read(w, o).1 && HousekeepingPublicKey !in w1.store {
      var w2 := Read(w1, o).0;
      ReadKeeps(w1, o, MakeKeyPair, inv);
      ThroughoutTransitive(w, w1, w2, inv);
      OthersKeepOut(o(w1.calls).action, w1.store, HousekeepingPublicKey);
      if Read(w1, o).1 {
        if HousekeepingPrivateKey in w2.store {
          var (w3, ok) := Write(w2, o, DropObject(HousekeepingPrivateKey));
          OthersKeepOut(o(w2.calls).action, w2.store, HousekeepingPublicKey);
          WriteKeeps(w2, o, MakeKeyPair, DropObject(HousekeepingPrivateKey), inv);
          ThroughoutTransitive(w, w2, w3, inv);
          if ok {
            StoringKeeps(w3, o, inv);
            ThroughoutTransitive(w, w3, StoreKeyPair(w3, o).0, inv);
          }
        } else {
          StoringKeeps(w2, o, inv);
          ThroughoutTransitive(w, w2, StoreKeyPair(w2, o).0, inv);
        }
      }
    }
  }

  lemma StoringKeeps(w: World, o: Oracle, inv: Store -> bool)
    requires inv(w.store) && Keeps(MakeKeyPair, inv) && HousekeepingPublicKey !in w.store
    ensures Throughout(w, StoreKeyPair(w, o).0, inv)
  {
    hide Keeps;
    var start := w.(nextToken := w.nextToken + 1);
    var private := PutObject(HousekeepingPrivateKey, Material(w.nextToken));
    var (w1, ok) := Write(start, o, private);
    OthersKeepOut(o(start.calls).action, start.store, HousekeepingPublicKey);
    WriteKeeps(start, o, MakeKeyPair, private, inv);
    if ok {
      PublishingKeeps(w1, o, w.nextToken, inv);
      ThroughoutTransitive(w, w1, StoreKeyPair(w, o).0, inv);
    }
  }

  lemma PublishingKeeps(w: World, o: Oracle, token: nat, inv: Store -> bool)
    requires inv(w.store) && Keeps(MakeKeyPair, inv) && HousekeepingPublicKey !in w.store
    requires HousekeepingPrivateKey in w.store && w.store[HousekeepingPrivateKey] == Material(token)
    ensures Throughout(w, Write(w, o, PutObject(HousekeepingPublicKey, PublicHalf(token))).0, inv)
  {
    OthersKeepOut(o(w.calls).action, w.store, HousekeepingPublicKey);
    OthersKeepOut(o(w.calls).action, w.store, HousekeepingPrivateKey);
    WriteKeeps(w, o, MakeKeyPair, PutObject(HousekeepingPublicKey, PublicHalf(token)), inv);
  }

  // --- What a successful step leaves behind ---

  ghost predicate Established(step: Step, store: Store) {
    match step
    case Put(key, contents) => key in store && store[key] == contents
    case Generate(key) => key in store
    case MakeKeyPair => HousekeepingPublicKey in store
    case Fetch(key) => key in store
    case Certify(source, target) =>
      && (source in store || source.UserSecret?)
      && target in store
      && store[target] == CertificateOf(if source.UserSecret? then Auxiliary else store[source])
    case Retire(workload, _) => Running(workload) !in store
    case Shrink(limit) => |DUPs(store)| <= limit || DUPs(store) == {}
    case RestartUnless(_) => true
  }

  /** No call reports an error. */
  ghost predicate Faultless(o: Oracle) {
    forall call :: o(call).outcome == Ok
  }

  lemma StepEstablishes(w: World, o: Oracle, step: Step)
    requires ExecStep(w, o, step).1 && PlainUserSecrets(w.store)
    requires (step.Generate? || step.Fetch?) ==> !step.key.UserSecret?
    requires step.Certify? ==> step.source != step.target
    requires step.Retire? ==> Faultless(o)
    ensures Established(step, ExecStep(w, o, step).0.store)
  {
    var w1 := Read(w, o).0;
    var action := o(w1.calls).action;
    if step.Certify? && !step.source.UserSecret? {
      OthersKeepOut(action, w1.store, step.source);
    }
    if step.Shrink? {
      OthersStartNothing(action, w1.store);
      OthersStartNothing(o(w.calls).action, w.store);
    }
  }

  // --- Discipline of a plan ---

  /** What a reconcile of this specification means to run. */
  ghost predicate Wanted(spec: AstarteSpec, workload: Workload) {
    match workload
    case CFSSL => spec.deployCFSSL.GetOr(true)
    case Of(component) => component != DataUpdaterPlant && spec.Deploys(component)
    case DUP(index) => spec.Deploys(DataUpdaterPlant) && index < spec.Replicas()
    case ForeignDUP(_) => false
    case VerneMQ => spec.deployVerneMQ.GetOr(true)
  }

  /** The generated Secrets and ConfigMaps that the pods of a workload refer to. */
  ghost function References(spec: AstarteSpec, workload: Workload): set<Key> {
    match workload
    case Of(AppEngineAPI) => {SecretKeyBase, ErlangConfig, ClusteringCookie}
    case Of(Pairing) => {SecretKeyBase, ErlangConfig, ClusteringCookie}
    case Of(RealmManagement) => {SecretKeyBase, ErlangConfig, ClusteringCookie}
    case DUP(_) => {SecretKeyBase, ErlangConfig, ClusteringCookie}
    case Of(Housekeeping) => {SecretKeyBase, ErlangConfig, Cookie(Of(Housekeeping)), HousekeepingPublicKey}
    case Of(FlowComponent) => {SecretKeyBase, ErlangConfig, Cookie(Of(FlowComponent))}
    case Of(TriggerEngine) => {SecretKeyBase, ErlangConfig, Cookie(Of(TriggerEngine))}
    case Of(Dashboard) => {DashboardConfig}
    case VerneMQ => {ClusteringCookie}
    case CFSSL => if spec.caSecret != "" then {CFSSLConfig} else {CFSSLConfig, DevicesCA}
    case Of(DataUpdaterPlant) => {}
    case ForeignDUP(_) => {}
  }

  /** The Deployment or StatefulSet that this specification makes of a workload. */
  ghost function Rendering(spec: AstarteSpec, workload: Workload): Object {
    Deployment(
      spec,
      References(spec, workload),
      if workload.DUP? then Some(Shard(workload.index, spec.Replicas(), Share(spec.Queues(), workload.index, spec.Replicas()))) else None,
      if workload.CFSSL? then spec.cfsslConfig else map[])
  }

  ghost predicate Plain(key: Key) {
    !key.UserSecret? && key != HousekeepingPublicKey && key != HousekeepingPrivateKey
  }

  /** What neither a step of a reconcile nor a finalization ever deletes. */
  ghost predicate Lasting(key: Key) {
    !key.UserSecret? && !key.Running? && key != HousekeepingPrivateKey && key != CFSSLProxyCA && !key.PriorityClass? && !key.VolumeClaim?
  }

  /** A step relies only on what it finds among `have`, and touches none of it. */
  ghost predicate Guarded(step: Step, spec: AstarteSpec, have: set<Key>) {
    match step
    case Put(key, contents) =>
      && key !in have && Plain(key) && key != DevicesCA
      && (key.Running? ==> WellFormed(key.workload, contents, spec, have))
    case Generate(key) => key !in have && Plain(key) && !key.Running?
    case MakeKeyPair => HousekeepingPublicKey !in have && HousekeepingPrivateKey !in have
    case Fetch(key) => key in have
    case Certify(source, target) =>
      && target !in have && Plain(target) && !target.Running? && target != DevicesCA && source != target && source == CASecret(spec)
      && (source in have || source.UserSecret?)
    case Retire(workload, _) => !Wanted(spec, workload) && !workload.DUP? && !workload.ForeignDUP? && Running(workload) !in have
    case Shrink(limit) =>
      && (forall key <- have :: !IsDUP(key))
      && (forall index: nat :: Wanted(spec, DUP(index)) <==> index < limit)
      && limit == if spec.Deploys(DataUpdaterPlant) then spec.Replicas() else -1
    case RestartUnless(_) => true
  }

  ghost predicate WellFormed(workload: Workload, contents: Object, spec: AstarteSpec, have: set<Key>) {
    && Wanted(spec, workload)
    && contents == Rendering(spec, workload)
    && contents.refs <= have
    && (forall ref <- contents.refs :: Lasting(ref))
    && (workload.DUP? ==> contents == DUPDeployment(spec, workload.index, spec.Replicas()))
    && (workload.DUP? && workload.index > 0 ==> Running(DUP(workload.index - 1)) in have)
  }

  /** What is sure to be there once a step has succeeded. */
  ghost function Adds(step: Step): set<Key> {
    match step
    case Put(key, _) => {key}
    case Generate(key) => {key}
    case MakeKeyPair => {HousekeepingPublicKey}
    case Certify(_, target) => {target}
    case _ => {}
  }

  ghost function AddsAll(steps: seq<Step>): set<Key> {
    if steps == [] then {} else Adds(steps[0]) + AddsAll(steps[1..])
  }

  ghost predicate GuardedAll(steps: seq<Step>, spec: AstarteSpec, have: set<Key>) {
    steps == [] || (Guarded(steps[0], spec, have) && GuardedAll(steps[1..], spec, have + Adds(steps[0])))
  }

  lemma {:induction false} GuardedAppend(a: seq<Step>, b: seq<Step>, spec: AstarteSpec, have: set<Key>)
    ensures GuardedAll(a + b, spec, have) <==> GuardedAll(a, spec, have) && GuardedAll(b, spec, have + AddsAll(a))
    ensures AddsAll(a + b) == AddsAll(a) + AddsAll(b)
  {
    if a == [] {
      assert a + b == b && have + {} == have;
    } else {
      assert (a + b)[1..] == a[1..] + b;
      GuardedAppend(a[1..], b, spec, have + Adds(a[0]));
      assert have + Adds(a[0]) + AddsAll(a[1..]) == have + AddsAll(a);
    }
  }

  lemma Guarded1(a: Step, spec: AstarteSpec, have: set<Key>)
    ensures GuardedAll([a], spec, have) <==> Guarded(a, spec, have)
    ensures AddsAll([a]) == Adds(a)
  {
  }

  lemma Guarded2(a: Step, b: Step, spec: AstarteSpec, have: set<Key>)
    ensures GuardedAll([a, b], spec, have) <==> Guarded(a, spec, have) && Guarded(b, spec, have + Adds(a))
    ensures AddsAll([a, b]) == Adds(a) + Adds(b)
  {
    assert [a, b][1..] == [b];
    Guarded1(b, spec, have + Adds(a));
  }

  lemma Guarded3(a: Step, b: Step, c: Step, spec: AstarteSpec, have: set<Key>)
    ensures GuardedAll([a, b, c], spec, have) <==>
            Guarded(a, spec, have) && Guarded(b, spec, have + Adds(a)) && Guarded(c, spec, have + Adds(a) + Adds(b))
    ensures AddsAll([a, b, c]) == Adds(a) + Adds(b) + Adds(c)
  {
    assert [a, b, c][1..] == [b, c];
    Guarded2(b, c, spec, have + Adds(a));
  }

  /** The keys that belong to one workload. */
  ghost predicate Owns(workload: Workload, key: Key) {
    (key.Cookie? || key.Service? || key.ServiceAccount? || key.Role? || key.RoleBinding? || key.Running?) && key.workload == workload
  }

  ghost predicate Unused(workload: Workload, have: set<Key>) {
    && Cookie(workload) !in have && Service(workload) !in have && Running(workload) !in have
    && ServiceAccount(workload) !in have && Role(workload) !in have && RoleBinding(workload) !in have
  }

  const SHARED: set<Key> := {HousekeepingPublicKey, SecretKeyBase, ErlangConfig, ClusteringCookie}

  lemma BaseIsGuarded(spec: AstarteSpec)
    ensures GuardedAll(BaseSteps(), spec, {})
    ensures AddsAll(BaseSteps()) == SHARED
  {
    hide GuardedAll, AddsAll, Guarded, Adds;
    var a, b := [MakeKeyPair, Generate(SecretKeyBase)], [Put(ErlangConfig, Auxiliary), Generate(ClusteringCookie)];
    assert BaseSteps() == a + b;
    BaseStepsAreGuarded(spec);
    GuardedAppend(a, b, spec, {});
  }

  lemma BaseStepsAreGuarded(spec: AstarteSpec)
    ensures GuardedAll([MakeKeyPair, Generate(SecretKeyBase)], spec, {})
    ensures AddsAll([MakeKeyPair, Generate(SecretKeyBase)]) == {HousekeepingPublicKey, SecretKeyBase}
    ensures GuardedAll([Put(ErlangConfig, Auxiliary), Generate(ClusteringCookie)], spec, {} + {HousekeepingPublicKey, SecretKeyBase})
    ensures AddsAll([Put(ErlangConfig, Auxiliary), Generate(ClusteringCookie)]) == {ErlangConfig, ClusteringCookie}
  {
    Guarded2(MakeKeyPair, Generate(SecretKeyBase), spec, {});
    Guarded2(Put(ErlangConfig, Auxiliary), Generate(ClusteringCookie), spec, {} + {HousekeepingPublicKey, SecretKeyBase});
    hide GuardedAll, AddsAll;
  }

  lemma PrioritiesAreGuarded(spec: AstarteSpec, have: set<Key>)
    requires forall p :: PriorityClass(p) !in have
    ensures GuardedAll(PrioritySteps(spec), spec, have)
    ensures forall key <- AddsAll(PrioritySteps(spec)) :: key.PriorityClass?
  {
    if spec.podPriorities {
      Guarded3(Put(PriorityClass(High), Auxiliary), Put(PriorityClass(Mid), Auxiliary), Put(PriorityClass(Low), Auxiliary), spec, have);
    }
  }

  lemma NothingIsGuarded(spec: AstarteSpec, have: set<Key>)
    ensures GuardedAll([], spec, have) && AddsAll([]) == {}
  {
  }

  lemma RetireIsGuarded(spec: AstarteSpec, workload: Workload, strict: bool, have: set<Key>)
    requires !Wanted(spec, workload) && !workload.DUP? && !workload.ForeignDUP? && Running(workload) !in have
    ensures GuardedAll([Retire(workload, strict)], spec, have) && AddsAll([Retire(workload, strict)]) == {}
  {
    Guarded1(Retire(workload, strict), spec, have);
  }

  lemma RBACIsGuarded(spec: AstarteSpec, workload: Workload, have: set<Key>)
    requires ServiceAccount(workload) !in have && Role(workload) !in have && RoleBinding(workload) !in have
    ensures GuardedAll(RBACSteps(workload), spec, have)
    ensures AddsAll(RBACSteps(workload)) == {ServiceAccount(workload), Role(workload), RoleBinding(workload)}
  {
    Guarded3(Put(ServiceAccount(workload), Auxiliary), Put(Role(workload), Auxiliary), Put(RoleBinding(workload), Auxiliary), spec, have);
    hide GuardedAll, AddsAll;
  }

  lemma CookieAndServiceAreGuarded(spec: AstarteSpec, workload: Workload, have: set<Key>)
    requires Cookie(workload) !in have && Service(workload) !in have
    ensures var steps := [Generate(Cookie(workload)), Put(Service(workload), Auxiliary)];
            GuardedAll(steps, spec, have) && AddsAll(steps) == {Cookie(workload), Service(workload)}
  {
    Guarded2(Generate(Cookie(workload)), Put(Service(workload), Auxiliary), spec, have);
    hide GuardedAll, AddsAll;
  }

  lemma StartIsGuarded(spec: AstarteSpec, workload: Workload, contents: Object, have: set<Key>)
    requires Running(workload) !in have && WellFormed(workload, contents, spec, have)
    ensures GuardedAll([Put(Running(workload), contents)], spec, have)
    ensures AddsAll([Put(Running(workload), contents)]) == {Running(workload)}
  {
    Guarded1(Put(Running(workload), contents), spec, have);
  }

  // --- CFSSL ---

  lemma CFSSLIsGuarded(spec: AstarteSpec, have: set<Key>)
    requires Unused(CFSSL, have) && CFSSLConfig !in have && DevicesCA !in have && CFSSLProxyCA !in have
    ensures GuardedAll(CFSSLSteps(spec), spec, have)
    ensures forall key <- AddsAll(CFSSLSteps(spec)) :: Owns(CFSSL, key) || key in {CFSSLConfig, DevicesCA, CFSSLProxyCA}
  {
    hide GuardedAll, Guarded, AddsAll, Adds;
    if !spec.deployCFSSL.GetOr(true) {
      RetireIsGuarded(spec, CFSSL, true, have);
    } else {
      SidecarsAreGuarded(spec, have);
      CFSSLRestIsGuarded(spec, have + AddsAll(SidecarSteps(spec)));
      GuardedAppend(SidecarSteps(spec), CFSSLRest(spec), spec, have);
    }
  }

  ghost function CFSSLRest(spec: AstarteSpec): seq<Step> {
    [Fetch(CFSSLConfig)] + (CASteps(spec) + [Certify(CASecret(spec), CFSSLProxyCA), Put(Running(CFSSL), CFSSLDeployment(spec))])
  }

  lemma SidecarsAreGuarded(spec: AstarteSpec, have: set<Key>)
    requires Service(CFSSL) !in have && CFSSLConfig !in have
    ensures GuardedAll(SidecarSteps(spec), spec, have) && AddsAll(SidecarSteps(spec)) == {Service(CFSSL), CFSSLConfig}
  {
    Guarded2(Put(Service(CFSSL), Auxiliary), Put(CFSSLConfig, Config(spec.cfsslConfig)), spec, have);
    hide GuardedAll, AddsAll;
  }

  lemma CFSSLRestIsGuarded(spec: AstarteSpec, have: set<Key>)
    requires spec.deployCFSSL.GetOr(true)
    requires CFSSLConfig in have && DevicesCA !in have && CFSSLProxyCA !in have && Running(CFSSL) !in have
    ensures GuardedAll(CFSSLRest(spec), spec, have)
    ensures forall key <- AddsAll(CFSSLRest(spec)) :: key in {Running(CFSSL), DevicesCA, CFSSLProxyCA}
  {
    hide GuardedAll, AddsAll, Guarded, Adds;
    var fetch, ca, last := [Fetch(CFSSLConfig)], CASteps(spec), CFSSLStart(spec);
    FetchIsGuarded(spec, have);
    CAIsGuarded(spec, have);
    CFSSLStartIsGuarded(spec, have + AddsAll(ca));
    assert have + AddsAll(fetch) == have;
    GuardedAppend(fetch, ca + last, spec, have);
    GuardedAppend(ca, last, spec, have);
  }

  ghost function CFSSLStart(spec: AstarteSpec): seq<Step> {
    [Certify(CASecret(spec), CFSSLProxyCA), Put(Running(CFSSL), CFSSLDeployment(spec))]
  }

  lemma FetchIsGuarded(spec: AstarteSpec, have: set<Key>)
    requires CFSSLConfig in have
    ensures GuardedAll([Fetch(CFSSLConfig)], spec, have) && AddsAll([Fetch(CFSSLConfig)]) == {}
  {
    Guarded1(Fetch(CFSSLConfig), spec, have);
  }

  lemma CAIsGuarded(spec: AstarteSpec, have: set<Key>)
    requires DevicesCA !in have
    ensures GuardedAll(CASteps(spec), spec, have)
    ensures AddsAll(CASteps(spec)) == if spec.caSecret != "" then {} else {DevicesCA}
  {
    Guarded1(Generate(DevicesCA), spec, have);
  }

  lemma CFSSLStartIsGuarded(spec: AstarteSpec, have: set<Key>)
    requires spec.deployCFSSL.GetOr(true)
    requires CFSSLConfig in have && (spec.caSecret == "" ==> DevicesCA in have)
    requires CFSSLProxyCA !in have && Running(CFSSL) !in have
    ensures GuardedAll(CFSSLStart(spec), spec, have) && AddsAll(CFSSLStart(spec)) == {CFSSLProxyCA, Running(CFSSL)}
  {
    Guarded2(Certify(CASecret(spec), CFSSLProxyCA), Put(Running(CFSSL), CFSSLDeployment(spec)), spec, have);
    hide GuardedAll, AddsAll;
  }

  // --- Components ---

  lemma APIIsGuarded(spec: AstarteSpec, component: Component, have: set<Key>)
    requires component != DataUpdaterPlant && component != Dashboard && SHARED <= have && Unused(Of(component), have)
    ensures GuardedAll(APISteps(spec, component), spec, have)
    ensures forall key <- AddsAll(APISteps(spec, component)) :: Owns(Of(component), key)
  {
    hide GuardedAll, Guarded, AddsAll, Adds;
    var workload := Of(component);
    if !spec.Deploys(component) {
      RetireIsGuarded(spec, workload, false, have);
    } else {
      var first := [Generate(Cookie(workload)), Put(Service(workload), Auxiliary)];
      CookieAndServiceAreGuarded(spec, workload, have);
      APIRestIsGuarded(spec, component, have + AddsAll(first));
      GuardedAppend(first, AccountSteps(component) + [Put(Running(workload), ComponentDeployment(spec, component))], spec, have);
    }
  }

  lemma ComponentIsWellFormed(spec: AstarteSpec, component: Component, have: set<Key>)
    requires component != Dashboard && spec.Deploys(component) && (component == DataUpdaterPlant ==> spec.Replicas() == 1)
    requires SHARED + {Cookie(WorkloadOf(component))} <= have
    ensures WellFormed(WorkloadOf(component), ComponentDeployment(spec, component), spec, have)
  {
  }

  lemma APIRestIsGuarded(spec: AstarteSpec, component: Component, have: set<Key>)
    requires component != DataUpdaterPlant && component != Dashboard && spec.Deploys(component)
    requires SHARED + {Cookie(Of(component))} <= have && Running(Of(component)) !in have
    requires ServiceAccount(Of(component)) !in have && Role(Of(component)) !in have && RoleBinding(Of(component)) !in have
    ensures var steps := AccountSteps(component) + [Put(Running(Of(component)), ComponentDeployment(spec, component))];
            GuardedAll(steps, spec, have) && forall key <- AddsAll(steps) :: Owns(Of(component), key)
  {
    hide Guarded, Adds, WellFormed, ComponentDeployment;
    var workload, accounts := Of(component), AccountSteps(component);
    RBACIsGuarded(spec, workload, have);
    var contents := ComponentDeployment(spec, component);
    ComponentIsWellFormed(spec, component, have + AddsAll(accounts));
    StartIsGuarded(spec, workload, contents, have + AddsAll(accounts));
    hide GuardedAll;
    GuardedAppend(accounts, [Put(Running(workload), contents)], spec, have);
  }

  lemma BackendIsGuarded(spec: AstarteSpec, component: Component, have: set<Key>)
    requires component != Dashboard && SHARED <= have && Unused(WorkloadOf(component), have)
    requires component == DataUpdaterPlant ==> spec.Deploys(component) && spec.Replicas() == 1
    ensures GuardedAll(BackendSteps(spec, component), spec, have)
    ensures forall key <- AddsAll(BackendSteps(spec, component)) :: Owns(WorkloadOf(component), key)
  {
    hide GuardedAll, Guarded, AddsAll, Adds;
    var workload := WorkloadOf(component);
    if !spec.Deploys(component) {
      RetireIsGuarded(spec, workload, true, have);
    } else {
      RBACIsGuarded(spec, workload, have);
      BackendRestIsGuarded(spec, component, have + AddsAll(RBACSteps(workload)));
      GuardedAppend(RBACSteps(workload), BackendRest(spec, component), spec, have);
    }
  }

  ghost function BackendRest(spec: AstarteSpec, component: Component): seq<Step> {
    var workload := WorkloadOf(component);
    [Generate(Cookie(workload)), Put(Service(workload), Auxiliary), Put(Running(workload), ComponentDeployment(spec, component))]
  }

  lemma BackendRestIsGuarded(spec: AstarteSpec, component: Component, have: set<Key>)
    requires SHARED <= have && Cookie(WorkloadOf(component)) !in have && Service(WorkloadOf(component)) !in have && Running(WorkloadOf(component)) !in have
    requires component != Dashboard && spec.Deploys(component) && (component == DataUpdaterPlant ==> spec.Replicas() == 1)
    ensures var workload := WorkloadOf(component);
            && GuardedAll(BackendRest(spec, component), spec, have)
            && AddsAll(BackendRest(spec, component)) == {Cookie(workload), Service(workload), Running(workload)}
  {
    hide GuardedAll, Guarded, AddsAll, Adds, WellFormed, ComponentDeployment;
    var workload, contents := WorkloadOf(component), ComponentDeployment(spec, component);
    var first, last := [Generate(Cookie(workload)), Put(Service(workload), Auxiliary)], [Put(Running(workload), contents)];
    assert BackendRest(spec, component) == first + last;
    CookieAndServiceAreGuarded(spec, workload, have);
    ComponentIsWellFormed(spec, component, have + AddsAll(first));
    StartIsGuarded(spec, workload, contents, have + AddsAll(first));
    GuardedAppend(first, last, spec, have);
  }

  lemma {:induction false} IndexedIsGuarded(spec: AstarteSpec, count: int, have: set<Key>)
    requires spec.Deploys(DataUpdaterPlant) && count <= spec.Replicas()
    requires SHARED <= have && forall i: nat :: Cookie(DUP(i)) !in have && Running(DUP(i)) !in have
    ensures GuardedAll(IndexedSteps(spec, count), spec, have)
    ensures forall key <- AddsAll(IndexedSteps(spec, count)) ::
              (key.Cookie? || key.Running?) && key.workload.DUP? && key.workload.index < count
    ensures forall i: nat :: i < count ==> Running(DUP(i)) in AddsAll(IndexedSteps(spec, count))
  {
    hide GuardedAll, Guarded, AddsAll, Adds;
    if count <= 0 {
      NothingIsGuarded(spec, have);
    } else {
      IndexedIsGuarded(spec, count - 1, have);
      IndexedStepIsGuarded(spec, count - 1, have + AddsAll(IndexedSteps(spec, count - 1)));
      GuardedAppend(IndexedSteps(spec, count - 1), IndexedStep(spec, count - 1), spec, have);
    }
  }

  lemma IndexedStepIsGuarded(spec: AstarteSpec, index: nat, have: set<Key>)
    requires spec.Deploys(DataUpdaterPlant) && index < spec.Replicas() && SHARED <= have
    requires Cookie(DUP(index)) !in have && Running(DUP(index)) !in have
    requires index > 0 ==> Running(DUP(index - 1)) in have
    ensures GuardedAll(IndexedStep(spec, index), spec, have)
    ensures AddsAll(IndexedStep(spec, index)) == {Cookie(DUP(index)), Running(DUP(index))}
  {
    Guarded2(Generate(Cookie(DUP(index))), Put(Running(DUP(index)), DUPDeployment(spec, index, spec.Replicas())), spec, have);
    hide GuardedAll, AddsAll;
  }

  lemma ShrinkIsGuarded(spec: AstarteSpec, have: set<Key>)
    requires forall key <- have :: !IsDUP(key)
    ensures var steps := [Shrink(if spec.Deploys(DataUpdaterPlant) then spec.Replicas() else -1)];
            GuardedAll(steps, spec, have) && AddsAll(steps) == {}
  {
    Guarded1(Shrink(if spec.Deploys(DataUpdaterPlant) then spec.Replicas() else -1), spec, have);
  }

  lemma DUPIsGuarded(spec: AstarteSpec, have: set<Key>)
    requires SHARED <= have && forall i: nat :: Unused(DUP(i), have)
    requires forall key <- have :: !IsDUP(key)
    ensures GuardedAll(DUPSteps(spec), spec, have)
    ensures forall key <- AddsAll(DUPSteps(spec)) :: (exists i: nat :: Owns(DUP(i), key))
  {
    hide GuardedAll, Guarded, AddsAll, Adds;
    ShrinkIsGuarded(spec, have);
    if spec.Deploys(DataUpdaterPlant) {
      var first := [Shrink(spec.Replicas())];
      assert have + AddsAll(first) == have;
      if spec.Replicas() == 1 {
        BackendIsGuarded(spec, DataUpdaterPlant, have);
        GuardedAppend(first, BackendSteps(spec, DataUpdaterPlant), spec, have);
      } else {
        assert DUPSteps(spec) == first + DUPRest(spec);
        DUPRestIsGuarded(spec, have);
        GuardedAppend(first, DUPRest(spec), spec, have);
      }
    }
  }

  ghost function DUPRest(spec: AstarteSpec): seq<Step> {
    [Put(Service(DUP(0)), Auxiliary)] + IndexedSteps(spec, spec.Replicas())
  }

  lemma ServiceIsGuarded(spec: AstarteSpec, have: set<Key>)
    requires Unused(DUP(0), have)
    ensures GuardedAll([Put(Service(DUP(0)), Auxiliary)], spec, have)
    ensures AddsAll([Put(Service(DUP(0)), Auxiliary)]) == {Service(DUP(0))}
  {
    Guarded1(Put(Service(DUP(0)), Auxiliary), spec, have);
  }

  lemma DUPRestIsGuarded(spec: AstarteSpec, have: set<Key>)
    requires SHARED <= have && forall i: nat :: Unused(DUP(i), have)
    requires spec.Deploys(DataUpdaterPlant)
    ensures GuardedAll(DUPRest(spec), spec, have)
    ensures forall key <- AddsAll(DUPRest(spec)) :: (exists i: nat :: Owns(DUP(i), key))
  {
    var service := [Put(Service(DUP(0)), Auxiliary)];
    ServiceIsGuarded(spec, have);
    assert forall i: nat :: Unused(DUP(i), have) ==> Cookie(DUP(i)) !in have && Running(DUP(i)) !in have;
    hide GuardedAll, Guarded, AddsAll, Adds, Unused;
    IndexedIsGuarded(spec, spec.Replicas(), have + AddsAll(service));
    GuardedAppend(service, IndexedSteps(spec, spec.Replicas()), spec, have);
    forall key | key in AddsAll(DUPRest(spec)) ensures exists i: nat :: Owns(DUP(i), key) {
      if key in AddsAll(service) { assert Owns(DUP(0), key); } else { assert Owns(DUP(key.workload.index), key); }
    }
  }

  // --- The whole plan ---

  /** The workload an object belongs to, if any. */
  ghost function Home(key: Key): Option<Workload> {
    if key.Cookie? || key.Service? || key.ServiceAccount? || key.Role? || key.RoleBinding? || key.Running? then Some(key.workload)
    else if key == CFSSLConfig || key == DevicesCA || key == CFSSLProxyCA then Some(CFSSL)
    else if key == DashboardConfig then Some(Of(Dashboard))
    else None
  }

  /** Next to the shared objects, nothing there belongs to these workloads. */
  ghost predicate RoomFor(have: set<Key>, own: iset<Workload>) {
    SHARED <= have && forall key <- have :: Home(key).Some? ==> Home(key).value !in own
  }

  ghost predicate AllAtHome(keys: set<Key>, own: iset<Workload>) {
    forall key <- keys :: Home(key).Some? && Home(key).value in own
  }

  /** The steps look after these workloads and are disciplined wherever nothing of them is there yet. */
  ghost predicate Fits(steps: seq<Step>, spec: AstarteSpec, own: iset<Workload>) {
    && AllAtHome(AddsAll(steps), own)
    && forall have: set<Key> :: RoomFor(have, own) ==> GuardedAll(steps, spec, have)
  }

  lemma FitsAppend(a: seq<Step>, b: seq<Step>, spec: AstarteSpec, f: iset<Workload>, g: iset<Workload>)
    requires Fits(a, spec, f) && Fits(b, spec, g) && f !! g
    ensures Fits(a + b, spec, f + g)
  {
    hide GuardedAll, AddsAll, Home;
    GuardedAppend(a, b, spec, {});
    forall have: set<Key> | RoomFor(have, f + g)
      ensures GuardedAll(a + b, spec, have)
    {
      assert RoomFor(have, f);
      assert RoomFor(have + AddsAll(a), g);
      GuardedAppend(a, b, spec, have);
    }
  }

  lemma RoomIsUnused(have: set<Key>, own: iset<Workload>, workload: Workload)
    requires RoomFor(have, own) && workload in own
    ensures SHARED <= have && Unused(workload, have)
    ensures workload == CFSSL ==> CFSSLConfig !in have && DevicesCA !in have && CFSSLProxyCA !in have
    ensures workload == Of(Dashboard) ==> DashboardConfig !in have
  {
    forall key | Home(key) == Some(workload) ensures key !in have {}
  }

  lemma APIFits(spec: AstarteSpec, component: Component)
    requires component != DataUpdaterPlant && component != Dashboard
    ensures Fits(APISteps(spec, component), spec, iset{Of(component)})
  {
    hide GuardedAll, AddsAll, APISteps;
    forall have: set<Key> | RoomFor(have, iset{Of(component)})
      ensures GuardedAll(APISteps(spec, component), spec, have)
    {
      RoomIsUnused(have, iset{Of(component)}, Of(component));
      APIIsGuarded(spec, component, have);
    }
    APIIsGuarded(spec, component, SHARED);
  }

  lemma TriggerEngineFits(spec: AstarteSpec)
    ensures Fits(BackendSteps(spec, TriggerEngine), spec, iset{Of(TriggerEngine)})
  {
    hide GuardedAll, AddsAll, BackendSteps;
    forall have: set<Key> | RoomFor(have, iset{Of(TriggerEngine)})
      ensures GuardedAll(BackendSteps(spec, TriggerEngine), spec, have)
    {
      RoomIsUnused(have, iset{Of(TriggerEngine)}, Of(TriggerEngine));
      BackendIsGuarded(spec, TriggerEngine, have);
    }
    BackendIsGuarded(spec, TriggerEngine, SHARED);
  }

  ghost const DUP_WORKLOADS: iset<Workload> := iset w: Workload | w.DUP? || w.ForeignDUP?

  lemma DUPFits(spec: AstarteSpec)
    ensures Fits(DUPSteps(spec), spec, DUP_WORKLOADS)
  {
    hide GuardedAll, AddsAll, DUPSteps;
    forall have: set<Key> | RoomFor(have, DUP_WORKLOADS)
      ensures GuardedAll(DUPSteps(spec), spec, have)
    {
      forall i: nat ensures Unused(DUP(i), have) {
        RoomIsUnused(have, DUP_WORKLOADS, DUP(i));
      }
      DUPIsGuarded(spec, have);
    }
    DUPIsGuarded(spec, SHARED);
  }

  lemma VerneMQIsGuarded(spec: AstarteSpec, have: set<Key>)
    requires SHARED <= have && Unused(VerneMQ, have)
    ensures GuardedAll(VerneMQSteps(spec), spec, have)
    ensures forall key <- AddsAll(VerneMQSteps(spec)) :: Owns(VerneMQ, key)
  {
    hide GuardedAll, AddsAll, Guarded, Adds, RBACSteps, ListenerSteps;
    if !spec.deployVerneMQ.GetOr(true) {
      RetireIsGuarded(spec, VerneMQ, true, have);
    } else {
      var service, listener := [Put(Service(VerneMQ), Auxiliary)], ListenerSteps(spec);
      var start := [Put(Running(VerneMQ), Deployment(spec, {ClusteringCookie}, None, map[]))];
      var have1 := have + AddsAll(RBACSteps(VerneMQ));
      RBACIsGuarded(spec, VerneMQ, have);
      VerneMQPartsAreGuarded(spec, have1);
      GuardedAppend(listener, start, spec, have1 + AddsAll(service));
      GuardedAppend(service, listener + start, spec, have1);
      GuardedAppend(RBACSteps(VerneMQ), service + (listener + start), spec, have);
    }
  }

  lemma VerneMQPartsAreGuarded(spec: AstarteSpec, have: set<Key>)
    requires SHARED <= have && Service(VerneMQ) !in have && Running(VerneMQ) !in have && spec.deployVerneMQ.GetOr(true)
    ensures var service := [Put(Service(VerneMQ), Auxiliary)];
            var start := [Put(Running(VerneMQ), Deployment(spec, {ClusteringCookie}, None, map[]))];
            && GuardedAll(service, spec, have) && AddsAll(service) == {Service(VerneMQ)}
            && GuardedAll(ListenerSteps(spec), spec, have + AddsAll(service)) && AddsAll(ListenerSteps(spec)) == {}
            && GuardedAll(start, spec, have + AddsAll(service) + AddsAll(ListenerSteps(spec))) && AddsAll(start) == {Running(VerneMQ)}
  {
    var contents := Deployment(spec, {ClusteringCookie}, None, map[]);
    var have1 := have + {Service(VerneMQ)};
    Guarded1(Put(Service(VerneMQ), Auxiliary), spec, have);
    if spec.listenerSecret.Some? {
      Guarded1(RestartUnless(spec.listenerSecret.value), spec, have1);
    } else {
      NothingIsGuarded(spec, have1);
    }
    StartIsGuarded(spec, VerneMQ, contents, have1);
    assert have1 + {} == have1;
    hide GuardedAll, AddsAll;
  }

  lemma DashboardIsGuarded(spec: AstarteSpec, have: set<Key>)
    requires Unused(Of(Dashboard), have) && DashboardConfig !in have
    ensures GuardedAll(DashboardSteps(spec), spec, have)
    ensures forall key <- AddsAll(DashboardSteps(spec)) :: Owns(Of(Dashboard), key) || key == DashboardConfig
  {
    hide GuardedAll, AddsAll, Guarded, Adds;
    if !spec.Deploys(Dashboard) {
      RetireIsGuarded(spec, Of(Dashboard), true, have);
    } else {
      DashboardStartIsGuarded(spec, have);
    }
  }

  lemma DashboardStartIsGuarded(spec: AstarteSpec, have: set<Key>)
    requires spec.Deploys(Dashboard) && DashboardConfig !in have && Service(Of(Dashboard)) !in have && Running(Of(Dashboard)) !in have
    ensures GuardedAll(DashboardSteps(spec), spec, have)
    ensures AddsAll(DashboardSteps(spec)) == {DashboardConfig, Service(Of(Dashboard)), Running(Of(Dashboard))}
  {
    Guarded3(Put(DashboardConfig, Config(spec.dashboardConfig)), Put(Service(Of(Dashboard)), Auxiliary),
             Put(Running(Of(Dashboard)), Deployment(spec, {DashboardConfig}, None, map[])), spec, have);
    hide GuardedAll, AddsAll;
  }

  lemma RestFits(spec: AstarteSpec)
    ensures Fits(CFSSLSteps(spec), spec, iset{CFSSL})
    ensures Fits(VerneMQSteps(spec), spec, iset{VerneMQ})
    ensures Fits(DashboardSteps(spec), spec, iset{Of(Dashboard)})
  {
    hide GuardedAll, AddsAll, CFSSLSteps, VerneMQSteps, DashboardSteps;
    forall have: set<Key> | RoomFor(have, iset{CFSSL})
      ensures GuardedAll(CFSSLSteps(spec), spec, have)
    {
      RoomIsUnused(have, iset{CFSSL}, CFSSL);
      CFSSLIsGuarded(spec, have);
    }
    forall have: set<Key> | RoomFor(have, iset{VerneMQ})
      ensures GuardedAll(VerneMQSteps(spec), spec, have)
    {
      RoomIsUnused(have, iset{VerneMQ}, VerneMQ);
      VerneMQIsGuarded(spec, have);
    }
    forall have: set<Key> | RoomFor(have, iset{Of(Dashboard)})
      ensures GuardedAll(DashboardSteps(spec), spec, have)
    {
      RoomIsUnused(have, iset{Of(Dashboard)}, Of(Dashboard));
      DashboardIsGuarded(spec, have);
    }
    CFSSLIsGuarded(spec, SHARED);
    VerneMQIsGuarded(spec, SHARED);
    DashboardIsGuarded(spec, SHARED);
  }

  ghost const SERVICE_WORKLOADS: iset<Workload> :=
    iset w: Workload | w.DUP? || w.ForeignDUP? || (w.Of? && w.component != Dashboard)

  lemma MicroservicesFit(spec: AstarteSpec)
    ensures Fits(MicroserviceSteps(spec), spec, SERVICE_WORKLOADS)
  {
    hide Fits, APISteps, BackendSteps, DUPSteps;
    var f1, f2, f3, f4 := iset{Of(Housekeeping)}, iset{Of(RealmManagement)}, iset{Of(Pairing)}, iset{Of(FlowComponent)};
    var f5, f6, f7 := iset{Of(TriggerEngine)}, DUP_WORKLOADS, iset{Of(AppEngineAPI)};
    APIFits(spec, Housekeeping);
    APIFits(spec, RealmManagement);
    APIFits(spec, Pairing);
    APIFits(spec, FlowComponent);
    TriggerEngineFits(spec);
    DUPFits(spec);
    APIFits(spec, AppEngineAPI);
    var s6 := DUPSteps(spec) + APISteps(spec, AppEngineAPI);
    var s5 := BackendSteps(spec, TriggerEngine) + s6;
    var s4 := APISteps(spec, FlowComponent) + s5;
    var s3 := APISteps(spec, Pairing) + s4;
    var s2 := APISteps(spec, RealmManagement) + s3;
    FitsAppend(DUPSteps(spec), APISteps(spec, AppEngineAPI), spec, f6, f7);
    FitsAppend(BackendSteps(spec, TriggerEngine), s6, spec, f5, f6 + f7);
    FitsAppend(APISteps(spec, FlowComponent), s5, spec, f4, f5 + (f6 + f7));
    FitsAppend(APISteps(spec, Pairing), s4, spec, f3, f4 + (f5 + (f6 + f7)));
    FitsAppend(APISteps(spec, RealmManagement), s3, spec, f2, f3 + (f4 + (f5 + (f6 + f7))));
    FitsAppend(APISteps(spec, Housekeeping), s2, spec, f1, f2 + (f3 + (f4 + (f5 + (f6 + f7)))));
    FitsWider(MicroserviceSteps(spec), spec, f1 + (f2 + (f3 + (f4 + (f5 + (f6 + f7))))), SERVICE_WORKLOADS);
  }

  lemma FitsWider(steps: seq<Step>, spec: AstarteSpec, own: iset<Workload>, more: iset<Workload>)
    requires Fits(steps, spec, own) && own <= more
    ensures Fits(steps, spec, more)
  {
    hide GuardedAll, AddsAll, Home;
    forall have: set<Key> | RoomFor(have, more)
      ensures GuardedAll(steps, spec, have)
    {
      assert RoomFor(have, own);
    }
  }

  lemma PlanIsGuarded(spec: AstarteSpec)
    ensures GuardedAll(Plan(spec), spec, {})
  {
    var base, priorities := BaseSteps(), PrioritySteps(spec);
    var services := MicroserviceSteps(spec);
    var s3 := VerneMQSteps(spec) + DashboardSteps(spec);
    var s2 := services + s3;
    var s1 := CFSSLSteps(spec) + s2;
    var own3 := iset{VerneMQ} + iset{Of(Dashboard)};
    hide Fits, GuardedAll, Guarded, AddsAll, Adds, BaseSteps, PrioritySteps, MicroserviceSteps, VerneMQSteps, DashboardSteps, CFSSLSteps;
    RestFits(spec);
    MicroservicesFit(spec);
    FitsAppend(VerneMQSteps(spec), DashboardSteps(spec), spec, iset{VerneMQ}, iset{Of(Dashboard)});
    FitsAppend(services, s3, spec, SERVICE_WORKLOADS, own3);
    FitsAppend(CFSSLSteps(spec), s2, spec, iset{CFSSL}, SERVICE_WORKLOADS + own3);
    StartIsGuardedBy(base, priorities, s1, spec, iset{CFSSL} + (SERVICE_WORKLOADS + own3));
  }

  /** The shared objects come first, then the priority classes; they belong to no workload. */
  lemma StartIsGuardedBy(base: seq<Step>, priorities: seq<Step>, rest: seq<Step>, spec: AstarteSpec, own: iset<Workload>)
    requires base == BaseSteps() && priorities == PrioritySteps(spec) && Fits(rest, spec, own)
    ensures GuardedAll(base + (priorities + rest), spec, {})
  {
    hide GuardedAll, AddsAll, BaseSteps, PrioritySteps;
    BaseIsGuarded(spec);
    PrioritiesAreGuarded(spec, SHARED);
    assert {} + AddsAll(base) == SHARED;
    assert RoomFor(SHARED + AddsAll(priorities), own);
    GuardedAppend(priorities, rest, spec, SHARED);
    GuardedAppend(base, priorities + rest, spec, {});
  }
}
