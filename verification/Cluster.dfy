/**
 The Kubernetes cluster as the operator meets it: named objects, one Astarte resource, and a
 client whose every call can fail. A failing call may still take effect, and between any two
 calls somebody else may act.
 */
module Cluster {
  import opened Specs
  import opened Queues
  import Health

  // --- Objects ---

  /** What runs: one Deployment or StatefulSet each. The Data Updater Plant ones are numbered;
      `ForeignDUP` is anybody else's Deployment that carries their component label. */
  datatype Workload =
    | CFSSL
    | Of(component: Component)
    | DUP(index: nat)
    | ForeignDUP(name: string)
    | VerneMQ

  datatype Priority = High | Low | Mid

  /** Kind and name of an object. */
  datatype Key =
    | HousekeepingPublicKey
    | HousekeepingPrivateKey
    | SecretKeyBase
    | ClusteringCookie
    | Cookie(workload: Workload)
    | DevicesCA
    | CFSSLProxyCA
    | UserSecret(name: string)
    | ErlangConfig
    | CFSSLConfig
    | DashboardConfig
    | Service(workload: Workload)
    | ServiceAccount(workload: Workload)
    | Role(workload: Workload)
    | RoleBinding(workload: Workload)
    | PriorityClass(priority: Priority)
    | VolumeClaim(name: string)
    | Running(workload: Workload)

  /** The queues of one Data Updater Plant Deployment and the numbers they were computed from. */
  datatype Shard = Shard(index: nat, replicas: int, range: Range)

  /** Contents of an object. Every generated secret is a token never used before. */
  datatype Object =
    | Material(token: nat)
    | PublicHalf(token: nat)
    | CertificateOf(secret: Object)
    | Config(data: map<string, string>)
    | Auxiliary
    | Deployment(rendered: AstarteSpec, refs: set<Key>, shard: Option<Shard>, config: map<string, string>)

  type Store = map<Key, Object>

  predicate IsDUP(key: Key) {
    key.Running? && (key.workload.DUP? || key.workload.ForeignDUP?)
  }

  /** All Deployments with the Data Updater Plant label. */
  function DUPs(store: Store): set<Key> {
    set key | key in store && IsDUP(key)
  }

  // --- The Astarte resource ---

  const ASTARTE_FINALIZER := "astarte.astarte-platform.org/finalizer"

  datatype Status = Status(astarteVersion: string, health: Health.ClusterHealth)

  /** `revision` changes with every write and makes stale updates fail. */
  datatype Resource = Resource(
    name: string,
    uid: nat,
    revision: nat,
    spec: AstarteSpec,
    finalizers: seq<string>,
    deleting: bool,
    status: Status)

  /** A resource marked for deletion is gone once it has no finalizers. */
  function Present(resource: Resource): Option<Resource> {
    if resource.deleting && resource.finalizers == [] then None else Some(resource)
  }

  function Without(list: seq<string>, s: string): seq<string> {
    if list == [] then []
    else (if list[0] == s then [] else [list[0]]) + Without(list[1..], s)
  }

  // --- Everybody else ---

  /** What others may do between two calls. Nobody but the operator handles its finalizer. */
  datatype Action =
    | Quiet
    | PutUserSecret(name: string)
    | DropUserSecret(name: string)
    | CreateResource(name: string, spec: AstarteSpec, finalizers: seq<string>)
    | EditSpec(spec: AstarteSpec)
    | RequestDeletion
    | AddFinalizer(finalizer: string)
    | RemoveFinalizer(finalizer: string)

  datatype Outcome = Ok | Lost | Landed

  /** One call: what happens just before it, how it ends, and what health the cluster shows then.
      `Lost` and `Landed` both report an error, without and with the effect of the call. */
  datatype Tick = Tick(action: Action, outcome: Outcome, view: Health.View)

  type Oracle = nat -> Tick

  // --- States and history ---

  datatype Change = PutObject(key: Key, contents: Object) | DropObject(key: Key) | DropDUPs

  /** A write of the resource tells what it replaced. */
  datatype Act =
    | Looked
    | Wrote(change: Change)
    | WroteStatus(over: Status)
    | WroteFinalizers(replaced: seq<string>)
    | Finalized

  /** The state after a call. */
  datatype Entry = Entry(store: Store, resource: Option<Resource>, act: Act)

  datatype World = World(
    store: Store,
    resource: Option<Resource>,
    clock: nat,
    nextToken: nat,
    calls: nat,
    log: seq<Entry>)

  function Apply(change: Change, store: Store): Store {
    match change
    case PutObject(key, contents) => store[key := contents]
    case DropObject(key) => store - {key}
    case DropDUPs => store - DUPs(store)
  }

  function StoreAfter(action: Action, store: Store): Store {
    match action
    case PutUserSecret(name) => store[UserSecret(name) := Auxiliary]
    case DropUserSecret(name) => store - {UserSecret(name)}
    case _ => store
  }

  function ResourceAfter(action: Action, resource: Option<Resource>, clock: nat): Option<Resource> {
    match (action, resource)
    case (CreateResource(name, spec, finalizers), None) =>
      if ASTARTE_FINALIZER in finalizers then None
      else Some(Resource(name, clock, clock, spec, finalizers, false, Status("", Health.Unknown)))
    case (EditSpec(spec), Some(r)) => Some(r.(spec := spec, revision := clock))
    case (RequestDeletion, Some(r)) => if r.deleting then Some(r) else Present(r.(deleting := true, revision := clock))
    case (AddFinalizer(f), Some(r)) =>
      if f == ASTARTE_FINALIZER || r.deleting then Some(r) else Some(r.(finalizers := r.finalizers + [f], revision := clock))
    case (RemoveFinalizer(f), Some(r)) =>
      if f == ASTARTE_FINALIZER || f !in r.finalizers then Some(r)
      else Present(r.(finalizers := Without(r.finalizers, f), revision := clock))
    case _ => resource
  }

  /** The next call is about to be served: somebody else may have acted. */
  function Arrive(w: World, o: Oracle): World {
    var action := o(w.calls).action;
    w.(store := StoreAfter(action, w.store),
       resource := ResourceAfter(action, w.resource, w.clock),
       clock := w.clock + 1,
       calls := w.calls + 1)
  }

  function Logged(w: World, act: Act): World {
    w.(log := w.log + [Entry(w.store, w.resource, act)])
  }

  /** A call that only reads. */
  function Read(w: World, o: Oracle): (World, bool) {
    (Logged(Arrive(w, o), Looked), o(w.calls).outcome == Ok)
  }

  /** A call that writes objects. */
  function Write(w: World, o: Oracle, change: Change): (World, bool) {
    var here := Arrive(w, o);
    var there := here.(store := Apply(change, here.store));
    match o(w.calls).outcome
    case Ok => (Logged(there, Wrote(change)), true)
    case Lost => (Logged(here, Looked), false)
    case Landed => (Logged(there, Wrote(change)), false)
  }

  // --- The client ---

  class Client {
    const oracle: Oracle
    var store: Store
    var resource: Option<Resource>
    var clock: nat
    var nextToken: nat
    var calls: nat
    ghost var log: seq<Entry>

    constructor (oracle: Oracle, store: Store, resource: Option<Resource>, clock: nat)
      ensures this.oracle == oracle
      ensures State() == World(store, resource, clock, 0, 0, [])
    {
      this.oracle := oracle;
      this.store, this.resource, this.clock := store, resource, clock;
      this.nextToken, this.calls, this.log := 0, 0, [];
    }

    ghost function State(): World
      reads this
    {
      World(store, resource, clock, nextToken, calls, log)
    }

    /** Lets the others act and starts a call. */
    method Begin() returns (outcome: Outcome)
      modifies this
      ensures State() == Arrive(old(State()), oracle)
      ensures outcome == oracle(old(calls)).outcome
    {
      var action := oracle(calls).action;
      outcome := oracle(calls).outcome;
      store := StoreAfter(action, store);
      resource := ResourceAfter(action, resource, clock);
      clock := clock + 1;
      calls := calls + 1;
    }

    /** Reads one object; there is no answer when the call fails. */
    method Get(key: Key) returns (found: Option<Object>, err: bool)
      modifies this
      ensures State() == Read(old(State()), oracle).0 && !err == Read(old(State()), oracle).1
      ensures found == if err || key !in store then None else Some(store[key])
    {
      var outcome := Begin();
      log := log + [Entry(store, resource, Looked)];
      err := outcome != Ok;
      found := if err || key !in store then None else Some(store[key]);
    }

    /** Lists the Deployments that carry the Data Updater Plant label. */
    method ListDUPs() returns (found: set<Key>, err: bool)
      modifies this
      ensures State() == Read(old(State()), oracle).0 && !err == Read(old(State()), oracle).1
      ensures !err ==> found == DUPs(store)
    {
      var outcome := Begin();
      log := log + [Entry(store, resource, Looked)];
      err := outcome != Ok;
      found := DUPs(store);
    }

    /** Creates an object or brings it to the wanted contents. */
    method CreateOrUpdate(key: Key, contents: Object) returns (err: bool)
      modifies this
      ensures State() == Write(old(State()), oracle, PutObject(key, contents)).0
      ensures !err == Write(old(State()), oracle, PutObject(key, contents)).1
    {
      var outcome := Begin();
      if outcome != Lost {
        store := store[key := contents];
      }
      log := log + [Entry(store, resource, if outcome == Lost then Looked else Wrote(PutObject(key, contents)))];
      err := outcome != Ok;
    }

    method Delete(key: Key) returns (err: bool)
      modifies this
      ensures State() == Write(old(State()), oracle, DropObject(key)).0
      ensures !err == Write(old(State()), oracle, DropObject(key)).1
    {
      var outcome := Begin();
      if outcome != Lost {
        store := store - {key};
      }
      log := log + [Entry(store, resource, if outcome == Lost then Looked else Wrote(DropObject(key)))];
      err := outcome != Ok;
    }

    /** Deletes, in one request, all Deployments that carry the Data Updater Plant label. */
    method DeleteAllDUPs() returns (err: bool)
      modifies this
      ensures State() == Write(old(State()), oracle, DropDUPs).0
      ensures !err == Write(old(State()), oracle, DropDUPs).1
    {
      var outcome := Begin();
      if outcome != Lost {
        store := store - DUPs(store);
      }
      log := log + [Entry(store, resource, if outcome == Lost then Looked else Wrote(DropDUPs))];
      err := outcome != Ok;
    }

    /** Deletes pods, which their controller replaces; the store does not show them. */
    method DeletePods() returns (err: bool)
      modifies this
      ensures State() == Read(old(State()), oracle).0 && !err == Read(old(State()), oracle).1
    {
      var outcome := Begin();
      log := log + [Entry(store, resource, Looked)];
      err := outcome != Ok;
    }

    /** A random value nobody has seen before. */
    method Random() returns (token: nat)
      modifies this
      ensures token == old(nextToken)
      ensures State() == old(State()).(nextToken := token + 1)
    {
      token := nextToken;
      nextToken := nextToken + 1;
    }
  }
}
