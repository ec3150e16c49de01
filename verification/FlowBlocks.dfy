/**
 The Deployments and worker Secrets of a Flow: every reconcile creates what the Flow names and
 deletes what it finds under the Flow's labels but not among those names. Labels of Secrets are
 only set when they are created.
 */
module FlowBlocks {
  import opened Specs
  import opened FlowNames

  datatype Worker = Worker(id: string, config: string)
  datatype Block = Block(id: string, config: string, workers: seq<Worker>)
  datatype Flow = Flow(name: string, blocks: seq<Block>)

  /** The labels that tell flow, block, and for worker Secrets the worker. */
  datatype Labels = Labels(flow: string, block: string, worker: Option<string>)
  datatype Secret = Secret(labels: Labels, data: string)
  datatype Deployment = Deployment(flow: string, block: string, containers: seq<string>)

  type Deployments = map<string, Deployment>
  type Secrets = map<string, Secret>

  // --- What a reconcile that succeeds does ---

  /** Creates a Secret or updates its data; the labels of one that exists stay as they are. */
  function PutSecret(secrets: Secrets, name: string, labels: Labels, data: string): Secrets {
    secrets[name := Secret(if name in secrets then secrets[name].labels else labels, data)]
  }

  function PutWorkers(secrets: Secrets, astarte: string, flow: string, block: string, workers: seq<Worker>): Secrets {
    if workers == [] then secrets
    else
      var last := |workers| - 1;
      PutSecret(PutWorkers(secrets, astarte, flow, block, workers[..last]),
                WorkerName(astarte, flow, block, workers[last].id), Labels(flow, block, Some(workers[last].id)), workers[last].config)
  }

  function WorkerNames(astarte: string, flow: string, block: string, workers: seq<Worker>): set<string> {
    set w | w in workers :: WorkerName(astarte, flow, block, w.id)
  }

  /** The worker Secrets under a block's labels. */
  function WorkerSecrets(secrets: Secrets, flow: string, block: string): set<string> {
    set name | name in secrets && secrets[name].labels.flow == flow && secrets[name].labels.block == block && secrets[name].labels.worker.Some?
  }

  function WithBlockSecret(secrets: Secrets, astarte: string, flow: string, block: Block): Secrets {
    PutSecret(secrets, BlockName(astarte, flow, block.id), Labels(flow, block.id, None), block.config)
  }

  /** What a block finds under its labels and does not name. */
  function Leftover(secrets: Secrets, astarte: string, flow: string, block: Block): set<string> {
    WorkerSecrets(WithBlockSecret(secrets, astarte, flow, block), flow, block.id) - WorkerNames(astarte, flow, block.id, block.workers)
  }

  function AfterBlock(secrets: Secrets, astarte: string, flow: string, block: Block): Secrets {
    PutWorkers(WithBlockSecret(secrets, astarte, flow, block), astarte, flow, block.id, block.workers)
    - Leftover(secrets, astarte, flow, block)
  }

  function AfterBlocks(secrets: Secrets, astarte: string, flow: string, blocks: seq<Block>): Secrets {
    if blocks == [] then secrets
    else AfterBlock(AfterBlocks(secrets, astarte, flow, blocks[..|blocks| - 1]), astarte, flow, blocks[|blocks| - 1])
  }

  function DeploymentOf(flow: string, block: Block): Deployment {
    Deployment(flow, block.id, seq(|block.workers|, i requires 0 <= i < |block.workers| => block.workers[i].id))
  }

  function PutDeployments(deployments: Deployments, astarte: string, flow: string, blocks: seq<Block>): Deployments {
    if blocks == [] then deployments
    else
      var last := blocks[|blocks| - 1];
      PutDeployments(deployments, astarte, flow, blocks[..|blocks| - 1])[BlockName(astarte, flow, last.id) := DeploymentOf(flow, last)]
  }

  function FlowDeployments(deployments: Deployments, flow: string): set<string> {
    set name | name in deployments && deployments[name].flow == flow
  }

  function BlockNames(astarte: string, flow: string, blocks: seq<Block>): set<string> {
    set b | b in blocks :: BlockName(astarte, flow, b.id)
  }

  // --- All states of a reconcile ---

  /** The Secrets at any time while a block is being ensured. */
  ghost predicate PartOfBlock(before: Secrets, now: Secrets, astarte: string, flow: string, block: Block) {
    now == before || exists done: nat, gone: set<string> :: PartWith(before, now, astarte, flow, block, done, gone)
  }

  ghost predicate PartWith(before: Secrets, now: Secrets, astarte: string, flow: string, block: Block, done: nat, gone: set<string>) {
    && done <= |block.workers|
    && gone <= Leftover(before, astarte, flow, block)
    && now == PutWorkers(WithBlockSecret(before, astarte, flow, block), astarte, flow, block.id, block.workers[..done]) - gone
  }

  ghost function InBlock(before: Secrets, astarte: string, flow: string, block: Block): Secrets -> bool {
    now => PartOfBlock(before, now, astarte, flow, block)
  }

  /** All that a reconcile deletes among the worker Secrets. */
  function AllLeftover(secrets: Secrets, astarte: string, flow: string, blocks: seq<Block>): set<string> {
    if blocks == [] then {}
    else
      var before := blocks[..|blocks| - 1];
      AllLeftover(secrets, astarte, flow, before) +
      Leftover(AfterBlocks(secrets, astarte, flow, before), astarte, flow, blocks[|blocks| - 1])
  }

  /** The Secrets at any time of a reconcile. */
  ghost predicate PartOfBlocks(before: Secrets, now: Secrets, astarte: string, flow: string, blocks: seq<Block>) {
    || now == AfterBlocks(before, astarte, flow, blocks)
    || exists i :: 0 <= i < |blocks| && PartOfBlock(AfterBlocks(before, astarte, flow, blocks[..i]), now, astarte, flow, blocks[i])
  }

  ghost function InBlocks(before: Secrets, astarte: string, flow: string, blocks: seq<Block>): Secrets -> bool {
    now => PartOfBlocks(before, now, astarte, flow, blocks)
  }

  /** Some of the workers have been put. */
  ghost function InWorkers(before: Secrets, astarte: string, flow: string, block: Block): Secrets -> bool {
    now => exists done: nat :: done <= |block.workers| && now == PutWorkers(before, astarte, flow, block.id, block.workers[..done])
  }

  /** Some of these have been deleted. */
  ghost function Without(before: Secrets, names: set<string>): Secrets -> bool {
    now => exists some: set<string> :: some <= names && now == before - some
  }

  // --- The client ---

  datatype Outcome = Ok | Lost | Landed

  /** Every call leaves the Secrets that there are then in the log. */
  class Client {
    const outcomes: nat -> Outcome
    var deployments: Deployments
    var secrets: Secrets
    var calls: nat
    ghost var log: seq<Secrets>
    ghost var deletedDeployments: set<string>
    ghost var deletedSecrets: set<string>

    constructor (outcomes: nat -> Outcome, deployments: Deployments, secrets: Secrets)
      ensures this.outcomes == outcomes && this.deployments == deployments && this.secrets == secrets
      ensures log == [] && deletedDeployments == {} && deletedSecrets == {}
    {
      this.outcomes, this.deployments, this.secrets, this.calls := outcomes, deployments, secrets, 0;
      this.log, this.deletedDeployments, this.deletedSecrets := [], {}, {};
    }

    method Begin() returns (outcome: Outcome)
      modifies this`calls
    {
      outcome := outcomes(calls);
      calls := calls + 1;
    }

    /** Any call that only reads. */
    method Read() returns (err: bool)
      modifies this`calls, this`log
      ensures log == old(log) + [secrets]
    {
      var outcome := Begin();
      log := log + [secrets];
      err := outcome != Ok;
    }

    method ReconcileSecret(name: string, labels: Labels, data: string) returns (err: bool)
      modifies this`calls, this`secrets, this`log
      ensures secrets == old(secrets) || secrets == PutSecret(old(secrets), name, labels, data)
      ensures !err ==> secrets == PutSecret(old(secrets), name, labels, data)
      ensures log == old(log) + [secrets]
    {
      var outcome := Begin();
      if outcome != Lost {
        secrets := PutSecret(secrets, name, labels, data);
      }
      log := log + [secrets];
      err := outcome != Ok;
    }

    method ReconcileDeployment(name: string, deployment: Deployment) returns (err: bool)
      modifies this`calls, this`deployments, this`log
      ensures deployments == old(deployments) || deployments == old(deployments)[name := deployment]
      ensures !err ==> deployments == old(deployments)[name := deployment]
      ensures log == old(log) + [secrets]
    {
      var outcome := Begin();
      if outcome != Lost {
        deployments := deployments[name := deployment];
      }
      log := log + [secrets];
      err := outcome != Ok;
    }

    method DeleteSecret(name: string) returns (err: bool)
      modifies this`calls, this`secrets, this`deletedSecrets, this`log
      ensures deletedSecrets == old(deletedSecrets) + {name}
      ensures secrets == old(secrets) || secrets == old(secrets) - {name}
      ensures !err ==> secrets == old(secrets) - {name}
      ensures log == old(log) + [secrets]
    {
      var outcome := Begin();
      deletedSecrets := deletedSecrets + {name};
      if outcome != Lost {
        secrets := secrets - {name};
      }
      log := log + [secrets];
      err := outcome != Ok;
    }

    method DeleteDeployment(name: string) returns (err: bool)
      modifies this`calls, this`deployments, this`deletedDeployments, this`log
      ensures deletedDeployments == old(deletedDeployments) + {name}
      ensures deployments == old(deployments) || deployments == old(deployments) - {name}
      ensures !err ==> deployments == old(deployments) - {name}
      ensures log == old(log) + [secrets]
    {
      var outcome := Begin();
      deletedDeployments := deletedDeployments + {name};
      if outcome != Lost {
        deployments := deployments - {name};
      }
      log := log + [secrets];
      err := outcome != Ok;
    }
  }

  /** All states that have come into the log since are of this kind. */
  ghost predicate Grown(before: seq<Secrets>, after: seq<Secrets>, inv: Secrets -> bool) {
    before <= after && forall i | |before| <= i < |after| :: inv(after[i])
  }

  lemma GrownMore(a: seq<Secrets>, b: seq<Secrets>, c: seq<Secrets>, inv: Secrets -> bool)
    requires Grown(a, b, inv) && Grown(b, c, inv)
    ensures Grown(a, c, inv)
  {
    forall i | |a| <= i < |c| ensures inv(c[i]) {
      if i < |b| { assert c[i] == b[i]; }
    }
  }

  // --- The code ---

  /** The Secrets of the workers; what is left of the existing ones is not named any more. */
  method GetFlowWorkerContainers(c: Client, astarte: string, flow: string, block: Block, existing: set<string>)
    returns (leftover: set<string>, containers: seq<string>, err: bool)
    modifies c`calls, c`secrets, c`log
    ensures !err ==> c.secrets == PutWorkers(old(c.secrets), astarte, flow, block.id, block.workers)
    ensures !err ==> leftover == existing - WorkerNames(astarte, flow, block.id, block.workers)
    ensures !err ==> containers == DeploymentOf(flow, block).containers
    ensures InWorkers(old(c.secrets), astarte, flow, block)(c.secrets)
    ensures Grown(old(c.log), c.log, InWorkers(old(c.secrets), astarte, flow, block))
  {
    hide WorkerName, BlockName, PutWorkers, PutSecret, WorkerNames, InWorkers;
    leftover, containers, err := existing, [], false;
    var i := 0;
    NoWorkers(c.secrets, astarte, flow, block);
    while i < |block.workers|
      invariant 0 <= i <= |block.workers|
      invariant c.secrets == PutWorkers(old(c.secrets), astarte, flow, block.id, block.workers[..i])
      invariant leftover == existing - WorkerNames(astarte, flow, block.id, block.workers[..i])
      invariant containers == seq(i, j requires 0 <= j < i => block.workers[j].id)
      invariant InWorkers(old(c.secrets), astarte, flow, block)(c.secrets)
      invariant Grown(old(c.log), c.log, InWorkers(old(c.secrets), astarte, flow, block))
    {
      var w := block.workers[i];
      var workerName := WorkerName(astarte, flow, block.id, w.id);
      NextWorker(old(c.secrets), astarte, flow, block, i);
      err := c.ReconcileSecret(workerName, Labels(flow, block.id, Some(w.id)), w.config);
      if err {
        return;
      }
      leftover := leftover - {workerName};
      containers := containers + [w.id];
      i := i + 1;
    }
    assert block.workers[..i] == block.workers;
  }

  lemma NoWorkers(secrets: Secrets, astarte: string, flow: string, block: Block)
    ensures PutWorkers(secrets, astarte, flow, block.id, block.workers[..0]) == secrets
    ensures WorkerNames(astarte, flow, block.id, block.workers[..0]) == {}
    ensures InWorkers(secrets, astarte, flow, block)(secrets)
  {
    assert block.workers[..0] == [];
  }

  lemma NextWorker(secrets: Secrets, astarte: string, flow: string, block: Block, i: nat)
    requires i < |block.workers|
    ensures var w := block.workers[i];
            var before, more, name := block.workers[..i], block.workers[..i + 1], WorkerName(astarte, flow, block.id, w.id);
            && PutWorkers(secrets, astarte, flow, block.id, more) ==
               PutSecret(PutWorkers(secrets, astarte, flow, block.id, before), name, Labels(flow, block.id, Some(w.id)), w.config)
            && WorkerNames(astarte, flow, block.id, more) == WorkerNames(astarte, flow, block.id, before) + {name}
            && InWorkers(secrets, astarte, flow, block)(PutWorkers(secrets, astarte, flow, block.id, more))
  {
    hide PutSecret, WorkerName;
    assert block.workers[..i + 1][..i] == block.workers[..i] && block.workers[..i + 1] == block.workers[..i] + [block.workers[i]];
  }

  /** Deletes Secrets in whatever order the map yields them. */
  method DeleteSecrets(c: Client, names: set<string>) returns (err: bool)
    modifies c`calls, c`secrets, c`deletedSecrets, c`log
    ensures !err ==> c.secrets == old(c.secrets) - names && c.deletedSecrets == old(c.deletedSecrets) + names
    ensures Without(old(c.secrets), names)(c.secrets)
    ensures Grown(old(c.log), c.log, Without(old(c.secrets), names))
    ensures old(c.deletedSecrets) <= c.deletedSecrets <= old(c.deletedSecrets) + names
  {
    hide Without;
    var rest := names;
    err := false;
    NoneGone(c.secrets, names);
    while rest != {}
      invariant rest <= names
      invariant c.secrets == old(c.secrets) - (names - rest)
      invariant c.deletedSecrets == old(c.deletedSecrets) + (names - rest)
      invariant Grown(old(c.log), c.log, Without(old(c.secrets), names))
      invariant Without(old(c.secrets), names)(c.secrets)
      decreases |rest|
    {
      var name :| name in rest;
      err := c.DeleteSecret(name);
      OneLess(old(c.secrets), names, rest, name);
      if err {
        return;
      }
      rest := rest - {name};
    }
  }

  lemma NoneGone(before: Secrets, names: set<string>)
    ensures Without(before, names)(before) && before - (names - names) == before
  {
    assert before - {} == before;
  }

  lemma OneLess(before: Secrets, names: set<string>, rest: set<string>, name: string)
    requires name in rest && rest <= names
    ensures before - (names - rest) - {name} == before - (names - (rest - {name}))
    ensures Without(before, names)(before - (names - rest)) && Without(before, names)(before - (names - (rest - {name})))
  {
    assert names - rest <= names && names - (rest - {name}) <= names;
  }

  /** One block: its Secret, those of its workers, its Deployment, and then the leftovers. */
  method EnsureBlock(c: Client, astarte: string, flow: string, block: Block) returns (err: bool)
    modifies c`calls, c`secrets, c`deployments, c`deletedSecrets, c`log
    ensures !err ==> c.secrets == AfterBlock(old(c.secrets), astarte, flow, block)
    ensures !err ==> c.deployments == old(c.deployments)[BlockName(astarte, flow, block.id) := DeploymentOf(flow, block)]
    ensures !err ==> c.deletedSecrets == old(c.deletedSecrets) + Leftover(old(c.secrets), astarte, flow, block)
    ensures PartOfBlock(old(c.secrets), c.secrets, astarte, flow, block)
    ensures Grown(old(c.log), c.log, InBlock(old(c.secrets), astarte, flow, block))
    ensures c.deployments == old(c.deployments) || c.deployments == old(c.deployments)[BlockName(astarte, flow, block.id) := DeploymentOf(flow, block)]
    ensures old(c.deletedSecrets) <= c.deletedSecrets <= old(c.deletedSecrets) + Leftover(old(c.secrets), astarte, flow, block)
  {
    hide PutWorkers, WorkerSecrets, WorkerNames, PartOfBlock;
    ghost var before := c.secrets;
    ghost var first := WithBlockSecret(before, astarte, flow, block);
    NothingYet(before, astarte, flow, block);
    err := c.ReconcileSecret(BlockName(astarte, flow, block.id), Labels(flow, block.id, None), block.config);
    if err {
      return;
    }
    err := c.Read(); // the credentials for RabbitMQ
    if err {
      return;
    }
    err := c.Read(); // the list of the worker Secrets
    if err {
      return;
    }
    var existing := WorkerSecrets(c.secrets, flow, block.id);
    ghost var log := c.log;
    var leftover, containers;
    leftover, containers, err := GetFlowWorkerContainers(c, astarte, flow, block, existing);
    WorkersArePart(before, astarte, flow, block);
    GrownMore(old(c.log), log, c.log, InBlock(before, astarte, flow, block));
    if err {
      return;
    }
    ghost var whole := c.secrets;
    err := c.ReconcileDeployment(BlockName(astarte, flow, block.id), Deployment(flow, block.id, containers));
    if err {
      return;
    }
    log := c.log;
    err := DeleteSecrets(c, leftover);
    LessIsPart(before, astarte, flow, block);
    GrownMore(old(c.log), log, c.log, InBlock(before, astarte, flow, block));
  }

  lemma NothingYet(before: Secrets, astarte: string, flow: string, block: Block)
    ensures PartOfBlock(before, before, astarte, flow, block)
    ensures PartOfBlock(before, WithBlockSecret(before, astarte, flow, block), astarte, flow, block)
  {
    var first := WithBlockSecret(before, astarte, flow, block);
    assert block.workers[..0] == [] && first - {} == first;
    assert PartWith(before, first, astarte, flow, block, 0, {});
  }

  lemma WorkersArePart(before: Secrets, astarte: string, flow: string, block: Block)
    ensures forall now | InWorkers(WithBlockSecret(before, astarte, flow, block), astarte, flow, block)(now) ::
              PartOfBlock(before, now, astarte, flow, block)
  {
    hide PutWorkers, WithBlockSecret, Leftover;
    var first := WithBlockSecret(before, astarte, flow, block);
    forall now | InWorkers(first, astarte, flow, block)(now) ensures PartOfBlock(before, now, astarte, flow, block) {
      var done: nat :| done <= |block.workers| && now == PutWorkers(first, astarte, flow, block.id, block.workers[..done]);
      assert now - {} == now;
      assert PartWith(before, now, astarte, flow, block, done, {});
    }
  }

  lemma LessIsPart(before: Secrets, astarte: string, flow: string, block: Block)
    ensures var whole := PutWorkers(WithBlockSecret(before, astarte, flow, block), astarte, flow, block.id, block.workers);
            forall now | Without(whole, Leftover(before, astarte, flow, block))(now) :: PartOfBlock(before, now, astarte, flow, block)
  {
    hide PutWorkers, WithBlockSecret, Leftover;
    assert block.workers[..|block.workers|] == block.workers;
    var whole, leftover := PutWorkers(WithBlockSecret(before, astarte, flow, block), astarte, flow, block.id, block.workers), Leftover(before, astarte, flow, block);
    forall now | Without(whole, leftover)(now) ensures PartOfBlock(before, now, astarte, flow, block) {
      var some: set<string> :| some <= leftover && now == whole - some;
      assert PartWith(before, now, astarte, flow, block, |block.workers|, some);
    }
  }

  method Reconcile(c: Client, found: Option<Flow>, astarteFound: Option<string>) returns (err: bool)
    modifies c
    ensures found.None? ==> c.secrets == old(c.secrets) && c.deployments == old(c.deployments)
    ensures found.Some? && astarteFound.Some? ==>
              var astarte, flow, blocks := astarteFound.value, found.value.name, found.value.blocks;
              var unnamed := FlowDeployments(old(c.deployments), flow) - BlockNames(astarte, flow, blocks);
              && (!err ==> c.secrets == AfterBlocks(old(c.secrets), astarte, flow, blocks))
              && (!err ==> c.deployments == PutDeployments(old(c.deployments), astarte, flow, blocks) - unnamed)
              && (!err ==> c.deletedSecrets == old(c.deletedSecrets) + AllLeftover(old(c.secrets), astarte, flow, blocks))
              && (!err ==> Rendered(c.deployments, astarte, flow, blocks))
              && (!err ==> FilledUnlessMixed(old(c.secrets), c.secrets, astarte, flow, blocks))
              && PartOfBlocks(old(c.secrets), c.secrets, astarte, flow, blocks)
              && Grown(old(c.log), c.log, InBlocks(old(c.secrets), astarte, flow, blocks))
              && c.deletedSecrets <= old(c.deletedSecrets) + AllLeftover(old(c.secrets), astarte, flow, blocks)
              && c.deletedDeployments <= old(c.deletedDeployments) + unnamed
    ensures found.Some? && astarteFound.None? ==> err && c.secrets == old(c.secrets) && c.deployments == old(c.deployments)
  {
    hide AfterBlocks, AllLeftover, PutDeployments, BlockNames, PartOfBlocks, FlowDeployments, Rendered, FilledUnlessMixed;
    err := c.Read(); // the Flow
    if found.None? {
      return;
    }
    var flow, blocks := found.value.name, found.value.blocks;
    NothingDone(c.secrets, astarteFound.GetOr(""), flow, blocks);
    if err {
      return;
    }
    err := c.Read(); // its Astarte
    if err || astarteFound.None? {
      err := true;
      return;
    }
    var astarte := astarteFound.value;
    err := c.Read(); // the list of the Deployments
    if err {
      return;
    }
    var existingBlocks := FlowDeployments(c.deployments, flow);
    ghost var log := c.log;
    existingBlocks, err := EnsureBlocks(c, astarte, flow, blocks, existingBlocks);
    GrownMore(old(c.log), log, c.log, InBlocks(old(c.secrets), astarte, flow, blocks));
    if err {
      return;
    }
    log := c.log;
    err := DeleteDeployments(c, existingBlocks);
    GrownMore(old(c.log), log, c.log, InBlocks(old(c.secrets), astarte, flow, blocks));
    if err {
      return;
    }
    err := c.Read(); // the status
    SuccessRenders(old(c.deployments), astarte, flow, blocks);
    AllFilledUnlessMixed(old(c.secrets), astarte, flow, blocks);
  }

  lemma {:induction false} NothingDone(secrets: Secrets, astarte: string, flow: string, blocks: seq<Block>)
    ensures PartOfBlocks(secrets, secrets, astarte, flow, blocks)
  {
    if blocks != [] {
      assert PartOfBlock(AfterBlocks(secrets, astarte, flow, blocks[..0]), secrets, astarte, flow, blocks[0]);
    }
  }

  /** The loop over the blocks. */
  method EnsureBlocks(c: Client, astarte: string, flow: string, blocks: seq<Block>, existing: set<string>)
    returns (leftover: set<string>, err: bool)
    modifies c`calls, c`secrets, c`deployments, c`deletedSecrets, c`log
    ensures PartOfBlocks(old(c.secrets), c.secrets, astarte, flow, blocks)
    ensures Grown(old(c.log), c.log, InBlocks(old(c.secrets), astarte, flow, blocks))
    ensures !err ==> c.secrets == AfterBlocks(old(c.secrets), astarte, flow, blocks)
    ensures !err ==> c.deployments == PutDeployments(old(c.deployments), astarte, flow, blocks)
    ensures !err ==> leftover == existing - BlockNames(astarte, flow, blocks)
    ensures !err ==> c.deletedSecrets == old(c.deletedSecrets) + AllLeftover(old(c.secrets), astarte, flow, blocks)
    ensures c.deletedSecrets <= old(c.deletedSecrets) + AllLeftover(old(c.secrets), astarte, flow, blocks)
  {
    hide AfterBlocks, AfterBlock, AllLeftover, Leftover, PutDeployments, DeploymentOf, BlockNames, PartOfBlock;
    leftover, err := existing, false;
    var i := 0;
    NoBlocks(c.secrets, c.deployments, astarte, flow, blocks);
    while i < |blocks|
      invariant 0 <= i <= |blocks|
      invariant c.secrets == AfterBlocks(old(c.secrets), astarte, flow, blocks[..i])
      invariant c.deployments == PutDeployments(old(c.deployments), astarte, flow, blocks[..i])
      invariant leftover == existing - BlockNames(astarte, flow, blocks[..i])
      invariant c.deletedSecrets == old(c.deletedSecrets) + AllLeftover(old(c.secrets), astarte, flow, blocks[..i])
      invariant Grown(old(c.log), c.log, InBlocks(old(c.secrets), astarte, flow, blocks))
    {
      NextBlock(old(c.secrets), old(c.deployments), astarte, flow, blocks, i);
      LeftoverGrows(old(c.secrets), astarte, flow, blocks, i + 1);
      ghost var log := c.log;
      err := EnsureBlock(c, astarte, flow, blocks[i]);
      assert Grown(log, c.log, InBlocks(old(c.secrets), astarte, flow, blocks));
      GrownMore(old(c.log), log, c.log, InBlocks(old(c.secrets), astarte, flow, blocks));
      if err {
        return;
      }
      leftover := leftover - {BlockName(astarte, flow, blocks[i].id)};
      i := i + 1;
    }
    assert blocks[..i] == blocks;
  }

  lemma NoBlocks(secrets: Secrets, deployments: Deployments, astarte: string, flow: string, blocks: seq<Block>)
    ensures AfterBlocks(secrets, astarte, flow, blocks[..0]) == secrets
    ensures PutDeployments(deployments, astarte, flow, blocks[..0]) == deployments
    ensures BlockNames(astarte, flow, blocks[..0]) == {} && AllLeftover(secrets, astarte, flow, blocks[..0]) == {}
  {
  }

  lemma NextBlock(secrets: Secrets, deployments: Deployments, astarte: string, flow: string, blocks: seq<Block>, i: nat)
    requires i < |blocks|
    ensures var before, more, name := blocks[..i], blocks[..i + 1], BlockName(astarte, flow, blocks[i].id);
            && AfterBlocks(secrets, astarte, flow, more) == AfterBlock(AfterBlocks(secrets, astarte, flow, before), astarte, flow, blocks[i])
            && PutDeployments(deployments, astarte, flow, more) == PutDeployments(deployments, astarte, flow, before)[name := DeploymentOf(flow, blocks[i])]
            && BlockNames(astarte, flow, more) == BlockNames(astarte, flow, before) + {name}
            && AllLeftover(secrets, astarte, flow, more) ==
               AllLeftover(secrets, astarte, flow, before) + Leftover(AfterBlocks(secrets, astarte, flow, before), astarte, flow, blocks[i])
  {
    hide AfterBlock, Leftover, DeploymentOf;
    assert blocks[..i + 1][..i] == blocks[..i] && blocks[..i + 1] == blocks[..i] + [blocks[i]];
  }

  lemma {:induction false} LeftoverGrows(secrets: Secrets, astarte: string, flow: string, blocks: seq<Block>, count: nat)
    requires count <= |blocks|
    ensures AllLeftover(secrets, astarte, flow, blocks[..count]) <= AllLeftover(secrets, astarte, flow, blocks)
    decreases |blocks| - count
  {
    if count == |blocks| {
      assert blocks[..count] == blocks;
    } else {
      LeftoverGrows(secrets, astarte, flow, blocks, count + 1);
      assert blocks[..count + 1][..count] == blocks[..count];
    }
  }

  method DeleteDeployments(c: Client, names: set<string>) returns (err: bool)
    modifies c`calls, c`deployments, c`deletedDeployments, c`log
    ensures !err ==> c.deployments == old(c.deployments) - names
    ensures c.deletedDeployments <= old(c.deletedDeployments) + names
    ensures old(c.log) <= c.log && forall i | |old(c.log)| <= i < |c.log| :: c.log[i] == c.secrets
  {
    var rest := names;
    err := false;
    while rest != {}
      invariant rest <= names
      invariant c.deployments == old(c.deployments) - (names - rest)
      invariant c.deletedDeployments <= old(c.deletedDeployments) + names
      invariant old(c.log) <= c.log && forall i | |old(c.log)| <= i < |c.log| :: c.log[i] == c.secrets
      decreases |rest|
    {
      var name :| name in rest;
      ghost var before := c.deployments;
      err := c.DeleteDeployment(name);
      assert before - {name} == old(c.deployments) - (names - (rest - {name}));
      if err {
        return;
      }
      rest := rest - {name};
    }
  }

  // --- Exactly what is named ---

  /** All IDs of these blocks are among those. */
  ghost predicate UsesIds(blocks: seq<Block>, ids: iset<string>) {
    forall block <- blocks :: block.id in ids
  }

  /** Blocks that share an ID share their workers. */
  ghost predicate SameWorkers(astarte: string, flow: string, blocks: seq<Block>) {
    forall a, b | a in blocks && b in blocks && a.id == b.id ::
      WorkerNames(astarte, flow, a.id, a.workers) == WorkerNames(astarte, flow, b.id, b.workers)
  }

  /** What has the name of an object of this flow, with one of these IDs, has its labels. */
  ghost predicate Owned(secrets: Secrets, astarte: string, flow: string, ids: iset<string>) {
    && (forall block, worker | block in ids && WorkerName(astarte, flow, block, worker) in secrets ::
          secrets[WorkerName(astarte, flow, block, worker)].labels == Labels(flow, block, Some(worker)))
    && (forall block | block in ids && BlockName(astarte, flow, block) in secrets ::
          secrets[BlockName(astarte, flow, block)].labels == Labels(flow, block, None))
  }

  /** The other way round: what has this flow's labels has the name that goes with them. */
  ghost predicate Labelled(secrets: Secrets, astarte: string, flow: string, ids: iset<string>) {
    forall name <- secrets :: secrets[name].labels.flow == flow ==>
      && secrets[name].labels.block in ids
      && (secrets[name].labels.worker.Some? ==> name == WorkerName(astarte, flow, secrets[name].labels.block, secrets[name].labels.worker.value))
      && (secrets[name].labels.worker.None? ==> name == BlockName(astarte, flow, secrets[name].labels.block))
  }

  /** Names still tell the labels, and if labels told the names, they still do. */
  ghost predicate Coherent(before: Secrets, now: Secrets, astarte: string, flow: string, ids: iset<string>) {
    Owned(now, astarte, flow, ids) && (Labelled(before, astarte, flow, ids) ==> Labelled(now, astarte, flow, ids))
  }

  lemma PutWorkerIsCoherent(secrets: Secrets, astarte: string, flow: string, ids: iset<string>, block: string, worker: string, data: string)
    requires Owned(secrets, astarte, flow, ids) && Separate(ids) && block in ids
    ensures Coherent(secrets, PutSecret(secrets, WorkerName(astarte, flow, block, worker), Labels(flow, block, Some(worker)), data), astarte, flow, ids)
  {
    hide WorkerName, BlockName, Extends;
    forall other, otherWorker | other in ids
      ensures WorkerName(astarte, flow, block, worker) == WorkerName(astarte, flow, other, otherWorker) ==> block == other && worker == otherWorker
    {
      NamesAreInjective(astarte, flow, block, worker, other, otherWorker);
    }
    forall other | other in ids
      ensures BlockName(astarte, flow, other) != WorkerName(astarte, flow, block, worker)
    {
      NamesAreInjective(astarte, flow, other, "", block, worker);
    }
  }

  lemma PutBlockIsCoherent(secrets: Secrets, astarte: string, flow: string, ids: iset<string>, block: Block)
    requires Owned(secrets, astarte, flow, ids) && Separate(ids) && block.id in ids
    ensures Coherent(secrets, WithBlockSecret(secrets, astarte, flow, block), astarte, flow, ids)
    ensures forall b :: WorkerSecrets(WithBlockSecret(secrets, astarte, flow, block), flow, b) == WorkerSecrets(secrets, flow, b)
  {
    hide WorkerName, BlockName, Extends;
    forall other | other in ids
      ensures BlockName(astarte, flow, block.id) == BlockName(astarte, flow, other) ==> block.id == other
    {
      NamesAreInjective(astarte, flow, block.id, "", other, "");
    }
    forall other, otherWorker | other in ids
      ensures BlockName(astarte, flow, block.id) != WorkerName(astarte, flow, other, otherWorker)
    {
      NamesAreInjective(astarte, flow, block.id, "", other, otherWorker);
    }
  }

  lemma {:induction false} PutWorkersIsCoherent(secrets: Secrets, astarte: string, flow: string, ids: iset<string>, block: string, workers: seq<Worker>)
    requires Owned(secrets, astarte, flow, ids) && Separate(ids) && block in ids
    ensures var after := PutWorkers(secrets, astarte, flow, block, workers);
            && Coherent(secrets, after, astarte, flow, ids)
            && (forall b :: WorkerSecrets(after, flow, b) == WorkerSecrets(secrets, flow, b) + if b == block then WorkerNames(astarte, flow, block, workers) else {})
            && secrets.Keys <= after.Keys
    decreases |workers|
  {
    hide Owned, Labelled, WorkerName, Separate;
    if workers == [] {
    } else {
      var last := |workers| - 1;
      var before := PutWorkers(secrets, astarte, flow, block, workers[..last]);
      PutWorkersIsCoherent(secrets, astarte, flow, ids, block, workers[..last]);
      PutWorkerIsCoherent(before, astarte, flow, ids, block, workers[last].id, workers[last].config);
      PutWorkerShows(before, astarte, flow, ids, block, workers[last]);
      assert workers == workers[..last] + [workers[last]];
      assert WorkerNames(astarte, flow, block, workers) ==
             WorkerNames(astarte, flow, block, workers[..last]) + {WorkerName(astarte, flow, block, workers[last].id)};
    }
  }

  lemma PutWorkerShows(secrets: Secrets, astarte: string, flow: string, ids: iset<string>, block: string, worker: Worker)
    requires Owned(secrets, astarte, flow, ids) && block in ids
    ensures var name := WorkerName(astarte, flow, block, worker.id);
            var after := PutSecret(secrets, name, Labels(flow, block, Some(worker.id)), worker.config);
            forall b :: WorkerSecrets(after, flow, b) == WorkerSecrets(secrets, flow, b) + if b == block then {name} else {}
  {
    hide WorkerName, BlockName;
  }

  lemma LessIsCoherent(secrets: Secrets, gone: set<string>, astarte: string, flow: string, ids: iset<string>)
    requires Owned(secrets, astarte, flow, ids)
    ensures Coherent(secrets, secrets - gone, astarte, flow, ids)
    ensures forall b :: WorkerSecrets(secrets - gone, flow, b) == WorkerSecrets(secrets, flow, b) - gone
  {
    hide WorkerName, BlockName;
  }

  /** At every time while a block is ensured, whatever fails. */
  lemma PartOfBlockIsCoherent(before: Secrets, now: Secrets, astarte: string, flow: string, ids: iset<string>, block: Block)
    requires Owned(before, astarte, flow, ids) && Separate(ids) && block.id in ids && PartOfBlock(before, now, astarte, flow, block)
    ensures Coherent(before, now, astarte, flow, ids)
  {
    hide Owned, Labelled, Separate, WorkerSecrets, Leftover, PutWorkers, WithBlockSecret;
    if now != before {
      var first := WithBlockSecret(before, astarte, flow, block);
      var done: nat, gone: set<string> :| PartWith(before, now, astarte, flow, block, done, gone);
      PutBlockIsCoherent(before, astarte, flow, ids, block);
      PutWorkersIsCoherent(first, astarte, flow, ids, block.id, block.workers[..done]);
      LessIsCoherent(PutWorkers(first, astarte, flow, block.id, block.workers[..done]), gone, astarte, flow, ids);
    }
  }

  /** A block that has been ensured leaves exactly the Secrets of its workers, and those of other blocks alone. */
  lemma AfterBlockIsExact(secrets: Secrets, astarte: string, flow: string, ids: iset<string>, block: Block)
    requires Owned(secrets, astarte, flow, ids) && Separate(ids) && block.id in ids
    ensures var after := AfterBlock(secrets, astarte, flow, block);
            && Coherent(secrets, after, astarte, flow, ids)
            && WorkerSecrets(after, flow, block.id) == WorkerNames(astarte, flow, block.id, block.workers)
            && (forall b | b != block.id :: WorkerSecrets(after, flow, b) == WorkerSecrets(secrets, flow, b))
            && Leftover(secrets, astarte, flow, block) == WorkerSecrets(secrets, flow, block.id) - WorkerNames(astarte, flow, block.id, block.workers)
  {
    hide Owned, Labelled, Separate, WorkerNames, PutWorkers, WithBlockSecret;
    var first, gone := WithBlockSecret(secrets, astarte, flow, block), Leftover(secrets, astarte, flow, block);
    PutBlockIsCoherent(secrets, astarte, flow, ids, block);
    PutWorkersIsCoherent(first, astarte, flow, ids, block.id, block.workers);
    LessIsCoherent(PutWorkers(first, astarte, flow, block.id, block.workers), gone, astarte, flow, ids);
    assert forall b, name :: name in gone && b != block.id ==> name !in WorkerSecrets(secrets, flow, b) by {
      assert forall name <- gone :: name in WorkerSecrets(secrets, flow, block.id);
    }
    hide WorkerSecrets;
  }

  /** No later block has the same ID. */
  ghost predicate LastOfItsId(blocks: seq<Block>, i: nat)
    requires i < |blocks|
  {
    forall j :: i < j < |blocks| ==> blocks[j].id != blocks[i].id
  }

  /** The worker Secrets under an ID are those of the last block that has it. */
  ghost predicate Exact(secrets: Secrets, astarte: string, flow: string, blocks: seq<Block>) {
    forall i: nat :: i < |blocks| && LastOfItsId(blocks, i) ==>
      WorkerSecrets(secrets, flow, blocks[i].id) == WorkerNames(astarte, flow, blocks[i].id, blocks[i].workers)
  }

  lemma {:induction false} AfterBlocksIsExact(secrets: Secrets, astarte: string, flow: string, ids: iset<string>, blocks: seq<Block>)
    requires Owned(secrets, astarte, flow, ids) && Separate(ids) && UsesIds(blocks, ids)
    ensures var after := AfterBlocks(secrets, astarte, flow, blocks);
            Coherent(secrets, after, astarte, flow, ids) && Exact(after, astarte, flow, blocks)
    decreases |blocks|
  {
    hide Owned, Labelled, Separate, WorkerNames, WorkerSecrets, AfterBlock, Leftover;
    if blocks != [] {
      hide Exact;
      var last := |blocks| - 1;
      var before := AfterBlocks(secrets, astarte, flow, blocks[..last]);
      AfterBlocksIsExact(secrets, astarte, flow, ids, blocks[..last]);
      AfterBlockIsExact(before, astarte, flow, ids, blocks[last]);
      ExactGrows(before, AfterBlock(before, astarte, flow, blocks[last]), astarte, flow, blocks);
    }
  }

  lemma ExactGrows(before: Secrets, after: Secrets, astarte: string, flow: string, blocks: seq<Block>)
    requires blocks != [] && Exact(before, astarte, flow, blocks[..|blocks| - 1])
    requires var block := blocks[|blocks| - 1];
             && WorkerSecrets(after, flow, block.id) == WorkerNames(astarte, flow, block.id, block.workers)
             && forall b | b != block.id :: WorkerSecrets(after, flow, b) == WorkerSecrets(before, flow, b)
    ensures Exact(after, astarte, flow, blocks)
  {
    hide WorkerNames, WorkerSecrets;
    var last := |blocks| - 1;
    forall i: nat | i < last && LastOfItsId(blocks, i)
      ensures LastOfItsId(blocks[..last], i) && blocks[i].id != blocks[last].id
    {
    }
  }

  /** Before any block of a list is ensured. */
  lemma BeforeBlockIsCoherent(secrets: Secrets, astarte: string, flow: string, ids: iset<string>, blocks: seq<Block>, i: nat)
    requires Owned(secrets, astarte, flow, ids) && Separate(ids) && UsesIds(blocks, ids) && i <= |blocks|
    ensures Coherent(secrets, AfterBlocks(secrets, astarte, flow, blocks[..i]), astarte, flow, ids)
  {
    AfterBlocksIsExact(secrets, astarte, flow, ids, blocks[..i]);
  }

  /** With IDs none of which extends another, names tell labels at every state of a reconcile, finished or
      not, and if labels told names before, they do then. */
  lemma EveryStateIsCoherent(before: Secrets, now: Secrets, astarte: string, flow: string, ids: iset<string>, blocks: seq<Block>)
    requires Owned(before, astarte, flow, ids) && Separate(ids) && UsesIds(blocks, ids) && PartOfBlocks(before, now, astarte, flow, blocks)
    ensures Coherent(before, now, astarte, flow, ids)
  {
    hide Owned, Labelled, Separate, PartOfBlock, AfterBlocks;
    if now == AfterBlocks(before, astarte, flow, blocks) {
      AfterBlocksIsExact(before, astarte, flow, ids, blocks);
    } else {
      var i :| 0 <= i < |blocks| && PartOfBlock(AfterBlocks(before, astarte, flow, blocks[..i]), now, astarte, flow, blocks[i]);
      BeforeBlockIsCoherent(before, astarte, flow, ids, blocks, i);
      PartOfBlockIsCoherent(AfterBlocks(before, astarte, flow, blocks[..i]), now, astarte, flow, ids, blocks[i]);
    }
  }

  lemma PutDeploymentShows(deployments: Deployments, name: string, flow: string, block: Block)
    ensures FlowDeployments(deployments[name := DeploymentOf(flow, block)], flow) == FlowDeployments(deployments, flow) + {name}
  {
  }

  lemma {:induction false} PutDeploymentsNames(deployments: Deployments, astarte: string, flow: string, blocks: seq<Block>)
    ensures FlowDeployments(PutDeployments(deployments, astarte, flow, blocks), flow) ==
            FlowDeployments(deployments, flow) + BlockNames(astarte, flow, blocks)
    decreases |blocks|
  {
    if blocks == [] {
    } else {
      var last := |blocks| - 1;
      PutDeploymentsNames(deployments, astarte, flow, blocks[..last]);
      assert blocks == blocks[..last] + [blocks[last]];
      assert BlockNames(astarte, flow, blocks) == BlockNames(astarte, flow, blocks[..last]) + {BlockName(astarte, flow, blocks[last].id)};
      PutDeploymentShows(PutDeployments(deployments, astarte, flow, blocks[..last]), BlockName(astarte, flow, blocks[last].id), flow, blocks[last]);
    }
  }

  /** A Flow reconcile that succeeds leaves exactly the Deployments named by its blocks and, for
      every block, exactly the Secrets named by its workers; of blocks with the same ID but other
      workers the last one counts. */
  lemma SuccessLeavesExactlyWhatIsNamed(deployments: Deployments, secrets: Secrets, astarte: string, flow: string, ids: iset<string>, blocks: seq<Block>)
    requires Owned(secrets, astarte, flow, ids) && Separate(ids) && UsesIds(blocks, ids)
    ensures var unnamed := FlowDeployments(deployments, flow) - BlockNames(astarte, flow, blocks);
            FlowDeployments(PutDeployments(deployments, astarte, flow, blocks) - unnamed, flow) == BlockNames(astarte, flow, blocks)
    ensures forall i: nat :: i < |blocks| && LastOfItsId(blocks, i) ==>
              WorkerSecrets(AfterBlocks(secrets, astarte, flow, blocks), flow, blocks[i].id) == WorkerNames(astarte, flow, blocks[i].id, blocks[i].workers)
    ensures SameWorkers(astarte, flow, blocks) ==> forall b <- blocks ::
              WorkerSecrets(AfterBlocks(secrets, astarte, flow, blocks), flow, b.id) == WorkerNames(astarte, flow, b.id, b.workers)
  {
    AfterBlocksIsExact(secrets, astarte, flow, ids, blocks);
    PutDeploymentsNames(deployments, astarte, flow, blocks);
    var unnamed := FlowDeployments(deployments, flow) - BlockNames(astarte, flow, blocks);
    var put := PutDeployments(deployments, astarte, flow, blocks);
    assert FlowDeployments(put - unnamed, flow) == FlowDeployments(put, flow) - unnamed;
    hide PutDeployments, BlockNames, FlowDeployments, Owned, Labelled, Separate, WorkerSecrets, WorkerNames, AfterBlocks;
    if SameWorkers(astarte, flow, blocks) {
      forall b | b in blocks
        ensures WorkerSecrets(AfterBlocks(secrets, astarte, flow, blocks), flow, b.id) == WorkerNames(astarte, flow, b.id, b.workers)
      {
        var i := LastWithId(blocks, b);
      }
    }
  }

  lemma {:induction false} LastWithId(blocks: seq<Block>, b: Block) returns (i: nat)
    requires b in blocks
    ensures i < |blocks| && blocks[i].id == b.id && LastOfItsId(blocks, i)
    decreases |blocks|
  {
    var last := |blocks| - 1;
    if blocks[last].id == b.id {
      i := last;
    } else {
      assert blocks == blocks[..last] + [blocks[last]];
      i := LastWithId(blocks[..last], b);
    }
  }

  // --- What the objects hold ---

  /** The block's Deployment carries the labels of the block and has one container for each worker, in order. */
  ghost predicate RenderedFor(deployments: Deployments, astarte: string, flow: string, block: Block) {
    var name := BlockName(astarte, flow, block.id);
    && name in deployments && deployments[name].flow == flow && deployments[name].block == block.id
    && |deployments[name].containers| == |block.workers|
    && forall j :: 0 <= j < |block.workers| ==> deployments[name].containers[j] == block.workers[j].id
  }

  ghost predicate Rendered(deployments: Deployments, astarte: string, flow: string, blocks: seq<Block>) {
    forall i: nat :: i < |blocks| && LastOfItsId(blocks, i) ==> RenderedFor(deployments, astarte, flow, blocks[i])
  }

  lemma {:induction false} PutDeploymentsRenders(deployments: Deployments, astarte: string, flow: string, blocks: seq<Block>, i: nat)
    requires i < |blocks| && LastOfItsId(blocks, i)
    ensures RenderedFor(PutDeployments(deployments, astarte, flow, blocks), astarte, flow, blocks[i])
    decreases |blocks|
  {
    var last := |blocks| - 1;
    if i < last {
      assert LastOfItsId(blocks[..last], i);
      PutDeploymentsRenders(deployments, astarte, flow, blocks[..last], i);
      if BlockName(astarte, flow, blocks[i].id) == BlockName(astarte, flow, blocks[last].id) {
        SamePrefix(Prefix(astarte, flow), blocks[i].id, blocks[last].id);
      }
    }
  }

  lemma SuccessRenders(deployments: Deployments, astarte: string, flow: string, blocks: seq<Block>)
    ensures var unnamed := FlowDeployments(deployments, flow) - BlockNames(astarte, flow, blocks);
            Rendered(PutDeployments(deployments, astarte, flow, blocks) - unnamed, astarte, flow, blocks)
  {
    hide PutDeployments, BlockName;
    forall i: nat | i < |blocks| && LastOfItsId(blocks, i)
      ensures RenderedFor(PutDeployments(deployments, astarte, flow, blocks), astarte, flow, blocks[i])
      ensures BlockName(astarte, flow, blocks[i].id) in BlockNames(astarte, flow, blocks)
    {
      PutDeploymentsRenders(deployments, astarte, flow, blocks, i);
      assert blocks[i] in blocks;
    }
  }

  /** No later worker has the same ID. */
  ghost predicate LastWorker(workers: seq<Worker>, j: nat)
    requires j < |workers|
  {
    forall k :: j < k < |workers| ==> workers[k].id != workers[j].id
  }

  ghost predicate Holds(secrets: Secrets, name: string, data: string) {
    name in secrets && secrets[name].data == data
  }

  /** The block's Secret holds its configuration, and those of its workers hold theirs. */
  ghost predicate FilledFor(secrets: Secrets, astarte: string, flow: string, block: Block) {
    && Holds(secrets, BlockName(astarte, flow, block.id), block.config)
    && forall j: nat | j < |block.workers| && LastWorker(block.workers, j) ::
         Holds(secrets, WorkerName(astarte, flow, block.id, block.workers[j].id), block.workers[j].config)
  }

  ghost predicate Filled(secrets: Secrets, astarte: string, flow: string, blocks: seq<Block>) {
    forall i: nat :: i < |blocks| && LastOfItsId(blocks, i) ==> FilledFor(secrets, astarte, flow, blocks[i])
  }

  lemma {:induction false} PutWorkersFills(secrets: Secrets, astarte: string, flow: string, block: string, workers: seq<Worker>, j: nat)
    requires j < |workers| && LastWorker(workers, j)
    ensures Holds(PutWorkers(secrets, astarte, flow, block, workers), WorkerName(astarte, flow, block, workers[j].id), workers[j].config)
    decreases |workers|
  {
    var last := |workers| - 1;
    if j < last {
      assert LastWorker(workers[..last], j);
      PutWorkersFills(secrets, astarte, flow, block, workers[..last], j);
      NamesAreInjective(astarte, flow, block, workers[j].id, block, workers[last].id);
    }
  }

  /** Putting workers leaves alone what is not named after one of them. */
  lemma {:induction false} PutWorkersLeaves(secrets: Secrets, astarte: string, flow: string, block: string, workers: seq<Worker>, name: string)
    requires name in secrets && name !in WorkerNames(astarte, flow, block, workers)
    ensures var after := PutWorkers(secrets, astarte, flow, block, workers); name in after && after[name] == secrets[name]
    decreases |workers|
  {
    hide WorkerName;
    if workers != [] {
      var last := |workers| - 1;
      assert workers == workers[..last] + [workers[last]];
      assert workers[last] in workers;
      PutWorkersLeaves(secrets, astarte, flow, block, workers[..last], name);
    }
  }

  lemma AfterBlockFills(secrets: Secrets, astarte: string, flow: string, ids: iset<string>, block: Block)
    requires Owned(secrets, astarte, flow, ids) && Separate(ids) && block.id in ids
    ensures FilledFor(AfterBlock(secrets, astarte, flow, block), astarte, flow, block)
  {
    hide Separate, Labelled, WorkerName, PutWorkers;
    var first, name := WithBlockSecret(secrets, astarte, flow, block), BlockName(astarte, flow, block.id);
    PutBlockIsCoherent(secrets, astarte, flow, ids, block);
    assert first[name].labels.worker.None?;
    forall w | w in block.workers ensures WorkerName(astarte, flow, block.id, w.id) != name {
      NamesAreInjective(astarte, flow, block.id, "", block.id, w.id);
    }
    PutWorkersLeaves(first, astarte, flow, block.id, block.workers, name);
    forall j: nat | j < |block.workers| && LastWorker(block.workers, j)
      ensures Holds(AfterBlock(secrets, astarte, flow, block), WorkerName(astarte, flow, block.id, block.workers[j].id), block.workers[j].config)
    {
      PutWorkersFills(first, astarte, flow, block.id, block.workers, j);
      assert block.workers[j] in block.workers;
      assert WorkerName(astarte, flow, block.id, block.workers[j].id) in WorkerNames(astarte, flow, block.id, block.workers);
    }
  }

  /** The name of a block or of one of its workers. */
  ghost predicate NameOf(name: string, astarte: string, flow: string, block: string) {
    name == BlockName(astarte, flow, block) || exists w :: name == WorkerName(astarte, flow, block, w)
  }

  lemma OtherBlockLeaves(secrets: Secrets, astarte: string, flow: string, ids: iset<string>, other: Block, block: string, name: string)
    requires Owned(secrets, astarte, flow, ids) && Separate(ids) && other.id in ids && block in ids && other.id != block
    requires NameOf(name, astarte, flow, block) && name in secrets
    ensures var after := AfterBlock(secrets, astarte, flow, other); name in after && after[name] == secrets[name]
  {
    hide WorkerName, BlockName, Extends, PutWorkers, Labelled;
    NamesAreInjective(astarte, flow, block, "", other.id, "");
    NamesAreInjective(astarte, flow, other.id, "", block, "");
    forall w ensures name != WorkerName(astarte, flow, other.id, w) {
      NotTheirs(name, astarte, flow, block, other.id, w);
    }
    NotTheirs(name, astarte, flow, block, other.id, "");
    var first := WithBlockSecret(secrets, astarte, flow, other);
    assert name in first && first[name] == secrets[name];
    assert secrets[name].labels.block == block;
    PutWorkersLeaves(first, astarte, flow, other.id, other.workers, name);
  }

  lemma NotTheirs(name: string, astarte: string, flow: string, block: string, other: string, w: string)
    requires NameOf(name, astarte, flow, block) && block != other && !Extends(block, other) && !Extends(other, block)
    ensures name != BlockName(astarte, flow, other) && name != WorkerName(astarte, flow, other, w)
  {
    hide WorkerName, BlockName, Extends;
    NamesAreInjective(astarte, flow, block, "", other, w);
    if v :| name == WorkerName(astarte, flow, block, v) {
      NamesAreInjective(astarte, flow, other, "", block, v);
      NamesAreInjective(astarte, flow, block, v, other, w);
    }
  }

  lemma StaysFilled(secrets: Secrets, astarte: string, flow: string, ids: iset<string>, other: Block, block: Block)
    requires Owned(secrets, astarte, flow, ids) && Separate(ids) && other.id in ids && block.id in ids && other.id != block.id
    requires FilledFor(secrets, astarte, flow, block)
    ensures FilledFor(AfterBlock(secrets, astarte, flow, other), astarte, flow, block)
  {
    hide WorkerName, BlockName, AfterBlock, Owned, Separate;
    OtherBlockLeaves(secrets, astarte, flow, ids, other, block.id, BlockName(astarte, flow, block.id));
    forall j: nat | j < |block.workers| && LastWorker(block.workers, j)
      ensures Holds(AfterBlock(secrets, astarte, flow, other), WorkerName(astarte, flow, block.id, block.workers[j].id), block.workers[j].config)
    {
      OtherBlockLeaves(secrets, astarte, flow, ids, other, block.id, WorkerName(astarte, flow, block.id, block.workers[j].id));
    }
  }

  /** A reconcile that succeeds leaves every Secret that the Flow names with the configuration named. */
  lemma {:induction false} SuccessFills(secrets: Secrets, astarte: string, flow: string, ids: iset<string>, blocks: seq<Block>)
    requires Owned(secrets, astarte, flow, ids) && Separate(ids) && UsesIds(blocks, ids)
    ensures Filled(AfterBlocks(secrets, astarte, flow, blocks), astarte, flow, blocks)
    decreases |blocks|
  {
    hide Owned, Labelled, Separate, AfterBlock, FilledFor;
    if blocks != [] {
      var last := |blocks| - 1;
      var before := AfterBlocks(secrets, astarte, flow, blocks[..last]);
      SuccessFills(secrets, astarte, flow, ids, blocks[..last]);
      AfterBlocksIsExact(secrets, astarte, flow, ids, blocks[..last]);
      AfterBlockFills(before, astarte, flow, ids, blocks[last]);
      forall i: nat | i < last && LastOfItsId(blocks, i)
        ensures FilledFor(AfterBlock(before, astarte, flow, blocks[last]), astarte, flow, blocks[i])
      {
        assert LastOfItsId(blocks[..last], i);
        StaysFilled(before, astarte, flow, ids, blocks[last], blocks[i]);
      }
    }
  }

  /** They hold it whenever names do not meet and told the labels before. */
  ghost predicate FilledUnlessMixed(before: Secrets, now: Secrets, astarte: string, flow: string, blocks: seq<Block>) {
    forall ids | Owned(before, astarte, flow, ids) && Separate(ids) && UsesIds(blocks, ids) :: Filled(now, astarte, flow, blocks)
  }

  lemma AllFilledUnlessMixed(secrets: Secrets, astarte: string, flow: string, blocks: seq<Block>)
    ensures FilledUnlessMixed(secrets, AfterBlocks(secrets, astarte, flow, blocks), astarte, flow, blocks)
  {
    hide Owned, Separate, UsesIds, Filled;
    forall ids | Owned(secrets, astarte, flow, ids) && Separate(ids) && UsesIds(blocks, ids)
      ensures Filled(AfterBlocks(secrets, astarte, flow, blocks), astarte, flow, blocks)
    {
      SuccessFills(secrets, astarte, flow, ids, blocks);
    }
  }

  // --- Nothing named is deleted ---

  /** The worker Secrets that the Flow names. */
  ghost predicate NamesWorker(astarte: string, flow: string, blocks: seq<Block>, name: string) {
    exists b :: b in blocks && name in WorkerNames(astarte, flow, b.id, b.workers)
  }

  lemma {:induction false} LeftoverComesFrom(secrets: Secrets, astarte: string, flow: string, blocks: seq<Block>, name: string) returns (i: nat)
    requires name in AllLeftover(secrets, astarte, flow, blocks)
    ensures i < |blocks| && name in Leftover(AfterBlocks(secrets, astarte, flow, blocks[..i]), astarte, flow, blocks[i])
    decreases |blocks|
  {
    var last := |blocks| - 1;
    if name in AllLeftover(secrets, astarte, flow, blocks[..last]) {
      i := LeftoverComesFrom(secrets, astarte, flow, blocks[..last], name);
      assert blocks[..last][..i] == blocks[..i];
    } else {
      i := last;
    }
  }

  lemma NamedIsNotLeftover(secrets: Secrets, astarte: string, flow: string, ids: iset<string>, blocks: seq<Block>, name: string, named: Block)
    requires Owned(secrets, astarte, flow, ids) && Separate(ids) && UsesIds(blocks, ids) && SameWorkers(astarte, flow, blocks)
    requires named in blocks && (name in WorkerNames(astarte, flow, named.id, named.workers) || name == BlockName(astarte, flow, named.id))
    ensures name !in AllLeftover(secrets, astarte, flow, blocks)
  {
    hide BlockName, AfterBlocks, AllLeftover, Labelled, Separate;
    if name in AllLeftover(secrets, astarte, flow, blocks) {
      var i := LeftoverComesFrom(secrets, astarte, flow, blocks, name);
      var before := AfterBlocks(secrets, astarte, flow, blocks[..i]);
      BeforeBlockIsCoherent(secrets, astarte, flow, ids, blocks, i);
      AfterBlockIsExact(before, astarte, flow, ids, blocks[i]);
      assert name in WorkerSecrets(before, flow, blocks[i].id);
      LabelsOfNamed(before, astarte, flow, ids, name, named);
    }
  }

  /** What is named has the labels of who names it. */
  lemma LabelsOfNamed(secrets: Secrets, astarte: string, flow: string, ids: iset<string>, name: string, named: Block)
    requires Owned(secrets, astarte, flow, ids) && name in secrets && named.id in ids
    ensures name in WorkerNames(astarte, flow, named.id, named.workers) ==>
              secrets[name].labels.flow == flow && secrets[name].labels.block == named.id
    ensures name == BlockName(astarte, flow, named.id) ==> secrets[name].labels.worker.None?
  {
    hide WorkerName, BlockName;
  }

  /** What is there is still there or has been deleted. */
  lemma {:induction false} StaysOrGoes(secrets: Secrets, astarte: string, flow: string, blocks: seq<Block>, name: string)
    requires name in secrets
    ensures name in AfterBlocks(secrets, astarte, flow, blocks) || name in AllLeftover(secrets, astarte, flow, blocks)
    decreases |blocks|
  {
    if blocks != [] {
      var last := |blocks| - 1;
      var before := AfterBlocks(secrets, astarte, flow, blocks[..last]);
      StaysOrGoes(secrets, astarte, flow, blocks[..last], name);
      PutWorkersKeeps(WithBlockSecret(before, astarte, flow, blocks[last]), astarte, flow, blocks[last].id, blocks[last].workers);
    }
  }

  lemma {:induction false} PutWorkersKeeps(secrets: Secrets, astarte: string, flow: string, block: string, workers: seq<Worker>)
    ensures secrets.Keys <= PutWorkers(secrets, astarte, flow, block, workers).Keys
    decreases |workers|
  {
    if workers != [] {
      PutWorkersKeeps(secrets, astarte, flow, block, workers[..|workers| - 1]);
    }
  }

  /** With all the Secrets there that the Flow names, its reconcile deletes none of them if and only
      if blocks with the same ID have the same workers; and then it never deletes a named one. */
  lemma NamedIsSafeExactlyWhen(secrets: Secrets, astarte: string, flow: string, ids: iset<string>, blocks: seq<Block>)
    requires Owned(secrets, astarte, flow, ids) && Separate(ids) && UsesIds(blocks, ids)
    ensures SameWorkers(astarte, flow, blocks) ==> forall name <- AllLeftover(secrets, astarte, flow, blocks) ::
              !NamesWorker(astarte, flow, blocks, name) && name !in BlockNames(astarte, flow, blocks)
    ensures (forall name :: NamesWorker(astarte, flow, blocks, name) ==> name in secrets) &&
            (forall name <- AllLeftover(secrets, astarte, flow, blocks) :: !NamesWorker(astarte, flow, blocks, name)) ==>
              SameWorkers(astarte, flow, blocks)
  {
    hide Owned, Separate, AllLeftover, WorkerNames;
    if SameWorkers(astarte, flow, blocks) {
      forall name | name in AllLeftover(secrets, astarte, flow, blocks)
        ensures !NamesWorker(astarte, flow, blocks, name) && name !in BlockNames(astarte, flow, blocks)
      {
        forall b | b in blocks ensures name !in WorkerNames(astarte, flow, b.id, b.workers) && name != BlockName(astarte, flow, b.id) {
          if name in WorkerNames(astarte, flow, b.id, b.workers) || name == BlockName(astarte, flow, b.id) {
            NamedIsNotLeftover(secrets, astarte, flow, ids, blocks, name, b);
          }
        }
      }
    }
    if (forall name :: NamesWorker(astarte, flow, blocks, name) ==> name in secrets) &&
       (forall name <- AllLeftover(secrets, astarte, flow, blocks) :: !NamesWorker(astarte, flow, blocks, name))
    {
      forall a, b | a in blocks && b in blocks && a.id == b.id
        ensures WorkerNames(astarte, flow, a.id, a.workers) <= WorkerNames(astarte, flow, b.id, b.workers)
      {
        forall name | name in WorkerNames(astarte, flow, a.id, a.workers) ensures name in WorkerNames(astarte, flow, b.id, b.workers) {
          assert NamesWorker(astarte, flow, blocks, name);
          if name !in WorkerNames(astarte, flow, b.id, b.workers) {
            OtherWorkersGo(secrets, astarte, flow, ids, blocks, a, b, name);
          }
        }
      }
    }
  }

  /** A worker's Secret that another block with the same ID does not name is deleted. */
  lemma OtherWorkersGo(secrets: Secrets, astarte: string, flow: string, ids: iset<string>, blocks: seq<Block>, a: Block, b: Block, name: string)
    requires Owned(secrets, astarte, flow, ids) && Separate(ids) && UsesIds(blocks, ids) && name in secrets
    requires a in blocks && b in blocks && a.id == b.id
    requires name in WorkerNames(astarte, flow, a.id, a.workers) && name !in WorkerNames(astarte, flow, b.id, b.workers)
    ensures name in AllLeftover(secrets, astarte, flow, blocks)
  {
    hide AfterBlocks, AllLeftover, BlockName, Owned, Labelled, Separate;
    var i: nat :| i < |blocks| && blocks[i] == b;
    var before := AfterBlocks(secrets, astarte, flow, blocks[..i]);
    BeforeBlockIsCoherent(secrets, astarte, flow, ids, blocks, i);
    StaysOrGoes(secrets, astarte, flow, blocks[..i], name);
    LeftoverGrows(secrets, astarte, flow, blocks, i);
    LeftoverOfNext(secrets, astarte, flow, blocks, i);
    if name in before {
      AfterBlockIsExact(before, astarte, flow, ids, b);
      WorkerOfNamed(before, astarte, flow, ids, name, a);
    }
  }

  lemma WorkerOfNamed(secrets: Secrets, astarte: string, flow: string, ids: iset<string>, name: string, named: Block)
    requires Owned(secrets, astarte, flow, ids) && name in secrets && named.id in ids
    requires name in WorkerNames(astarte, flow, named.id, named.workers)
    ensures name in WorkerSecrets(secrets, flow, named.id)
  {
    hide WorkerName, BlockName;
  }

  lemma LeftoverOfNext(secrets: Secrets, astarte: string, flow: string, blocks: seq<Block>, i: nat)
    requires i < |blocks|
    ensures Leftover(AfterBlocks(secrets, astarte, flow, blocks[..i]), astarte, flow, blocks[i]) <= AllLeftover(secrets, astarte, flow, blocks)
  {
    hide Leftover, AfterBlocks;
    assert blocks[..i + 1][..i] == blocks[..i];
    LeftoverGrows(secrets, astarte, flow, blocks, i + 1);
  }

  /** Two blocks with one ID: each finds the other's worker under its labels and deletes its Secret. */
  lemma SharedIdDeletesNamedSecret(astarte: string, flow: string)
    ensures var one, two := Block("b", "", [Worker("v", "")]), Block("b", "", [Worker("w", "")]);
            var name := WorkerName(astarte, flow, "b", "v");
            NamesWorker(astarte, flow, [one, two], name) && name in AllLeftover(map[], astarte, flow, [one, two])
  {
    var one, two := Block("b", "", [Worker("v", "")]), Block("b", "", [Worker("w", "")]);
    var blocks, name := [one, two], WorkerName(astarte, flow, "b", "v");
    var ids := iset{"b"};
    assert one in blocks && Worker("v", "") in one.workers;
    assert name in WorkerNames(astarte, flow, "b", one.workers);
    NamesAreInjective(astarte, flow, "b", "v", "b", "w");
    assert Owned(map[], astarte, flow, ids) && Separate(ids);
    hide WorkerName, BlockName, AllLeftover, AfterBlock;
    AfterBlockIsExact(map[], astarte, flow, ids, one);
    FirstOf(map[], astarte, flow, blocks);
    AfterBlockIsExact(AfterBlock(map[], astarte, flow, one), astarte, flow, ids, two);
    LeftoverOfNext(map[], astarte, flow, blocks, 1);
  }

  lemma FirstOf(secrets: Secrets, astarte: string, flow: string, blocks: seq<Block>)
    requires |blocks| >= 1
    ensures AfterBlocks(secrets, astarte, flow, blocks[..1]) == AfterBlock(secrets, astarte, flow, blocks[0])
  {
    hide AfterBlock;
    assert blocks[..1][..0] == [];
  }

  // --- Exactly which IDs are safe ---

  /** A worker's Secret found under another block's labels is deleted although it is named. */
  lemma FoundUnderOtherLabels(secrets: Secrets, astarte: string, flow: string, named: Block, other: Block, name: string)
    requires name in secrets && secrets[name].labels.flow == flow && secrets[name].labels.block == other.id && secrets[name].labels.worker.Some?
    requires name in WorkerNames(astarte, flow, named.id, named.workers) && name !in WorkerNames(astarte, flow, other.id, other.workers)
    ensures NamesWorker(astarte, flow, [named, other], name) && name in AllLeftover(secrets, astarte, flow, [named, other])
  {
    hide WorkerName, BlockName, AllLeftover, AfterBlock, AfterBlocks, WorkerNames;
    var blocks := [named, other];
    assert named in blocks;
    KeptIfNamed(secrets, astarte, flow, named, name);
    FirstOf(secrets, astarte, flow, blocks);
    LeftoverOfNext(secrets, astarte, flow, blocks, 1);
    var after := WithBlockSecret(AfterBlock(secrets, astarte, flow, named), astarte, flow, other);
    assert name in WorkerSecrets(after, flow, other.id);
  }

  lemma KeptIfNamed(secrets: Secrets, astarte: string, flow: string, block: Block, name: string)
    requires name in secrets && name in WorkerNames(astarte, flow, block.id, block.workers)
    ensures var after := AfterBlock(secrets, astarte, flow, block);
            name in after && after[name].labels == secrets[name].labels
  {
    hide WorkerName, BlockName, WorkerNames, WorkerSecrets;
    LabelsStay(WithBlockSecret(secrets, astarte, flow, block), astarte, flow, block.id, block.workers, name);
  }

  lemma {:induction false} LabelsStay(secrets: Secrets, astarte: string, flow: string, block: string, workers: seq<Worker>, name: string)
    requires name in secrets
    ensures var after := PutWorkers(secrets, astarte, flow, block, workers);
            name in after && after[name].labels == secrets[name].labels
    decreases |workers|
  {
    hide WorkerName;
    if workers != [] {
      LabelsStay(secrets, astarte, flow, block, workers[..|workers| - 1], name);
    }
  }

  /** Whenever one ID extends another: the Secret that block `a` once made for a worker is by name that of
      a worker of block `b`, but it is still found under `a` and deleted there. */
  lemma DashesDeleteNamedSecret(astarte: string, flow: string, a: string, b: string, worker: string)
    requires Extends(a, b)
    ensures var before := [Block(a, "", [Worker(b[|a| + 1..] + "-" + worker, "")])];
            var blocks := [Block(b, "", [Worker(worker, "")]), Block(a, "", [])];
            var name := WorkerName(astarte, flow, b, worker);
            && SameWorkers(astarte, flow, blocks) && NamesWorker(astarte, flow, blocks, name)
            && name in AllLeftover(AfterBlocks(map[], astarte, flow, before), astarte, flow, blocks)
  {
    var v, name := b[|a| + 1..] + "-" + worker, WorkerName(astarte, flow, b, worker);
    var made, named, other := Block(a, "", [Worker(v, "")]), Block(b, "", [Worker(worker, "")]), Block(a, "", []);
    ExtendedWorkerName(astarte, flow, a, b, worker);
    FirstWorker(astarte, flow, a, v);
    hide WorkerName, BlockName, AllLeftover, AfterBlock, AfterBlocks;
    assert named.workers[0] in named.workers;
    assert name in WorkerNames(astarte, flow, b, named.workers);
    FirstOf(map[], astarte, flow, [made]);
    assert [made][..1] == [made];
    FoundUnderOtherLabels(AfterBlock(map[], astarte, flow, made), astarte, flow, named, other, name);
  }

  lemma FirstWorker(astarte: string, flow: string, block: string, worker: string)
    ensures var after := AfterBlock(map[], astarte, flow, Block(block, "", [Worker(worker, "")]));
            var name := WorkerName(astarte, flow, block, worker);
            name in after && after[name].labels == Labels(flow, block, Some(worker))
  {
    var w, name := Worker(worker, ""), WorkerName(astarte, flow, block, worker);
    var first := WithBlockSecret(map[], astarte, flow, Block(block, "", [w]));
    assert |name| > |BlockName(astarte, flow, block)|;
    assert name !in first;
    hide WorkerName, BlockName, WithBlockSecret;
    assert [w][..0] == [];
    assert PutWorkers(first, astarte, flow, block, [w]) == PutSecret(first, name, Labels(flow, block, Some(worker)), "");
    assert [w][0] in [w];
    assert name in WorkerNames(astarte, flow, block, [w]);
  }

  /** Reconciles of one Flow after the other, each finished or stopped anywhere, from no Secrets. */
  ghost predicate Happened(states: seq<Secrets>, history: seq<seq<Block>>, astarte: string, flow: string) {
    && |states| == |history| + 1 && states[0] == map[]
    && forall i :: 0 <= i < |history| ==> PartOfBlocks(states[i], states[i + 1], astarte, flow, history[i])
  }

  /** With this history behind it, a reconcile deletes a worker's Secret that its Flow names, and not for
      blocks with the same ID. */
  ghost predicate Loses(states: seq<Secrets>, history: seq<seq<Block>>, astarte: string, flow: string, ids: iset<string>, blocks: seq<Block>, name: string) {
    && Happened(states, history, astarte, flow) && AllUseIds(history, ids) && UsesIds(blocks, ids)
    && SameWorkers(astarte, flow, blocks) && NamesWorker(astarte, flow, blocks, name)
    && name in AllLeftover(states[|history|], astarte, flow, blocks)
  }

  ghost predicate AllUseIds(history: seq<seq<Block>>, ids: iset<string>) {
    forall blocks <- history :: UsesIds(blocks, ids)
  }

  lemma {:induction false} HistoryIsOwned(states: seq<Secrets>, history: seq<seq<Block>>, astarte: string, flow: string, ids: iset<string>, i: nat)
    requires Happened(states, history, astarte, flow) && AllUseIds(history, ids) && Separate(ids) && i <= |history|
    ensures Owned(states[i], astarte, flow, ids)
    decreases i
  {
    hide Separate, PartOfBlocks;
    if i > 0 {
      HistoryIsOwned(states, history, astarte, flow, ids, i - 1);
      assert history[i - 1] in history;
      hide Owned;
      EveryStateIsCoherent(states[i - 1], states[i], astarte, flow, ids, history[i - 1]);
    }
  }

  /** With block IDs from this set, some history makes a reconcile lose a Secret that it names if and only
      if one of the IDs goes on like another one followed by a dash. */
  lemma IdsAreSafeExactlyWhen(astarte: string, flow: string, ids: iset<string>)
    ensures (exists states, history, blocks, name :: Loses(states, history, astarte, flow, ids, blocks, name)) <==> !Separate(ids)
  {
    hide Loses;
    if states, history, blocks, name :| Loses(states, history, astarte, flow, ids, blocks, name) {
      LosesNothing(states, history, astarte, flow, ids, blocks, name);
    }
    if !Separate(ids) {
      var a, b :| a in ids && b in ids && Extends(a, b);
      ExtendingIdsLose(astarte, flow, ids, a, b);
    }
  }

  lemma ExtendingIdsLose(astarte: string, flow: string, ids: iset<string>, a: string, b: string)
    requires a in ids && b in ids && Extends(a, b)
    ensures exists states, history, blocks, name :: Loses(states, history, astarte, flow, ids, blocks, name)
  {
    hide AfterBlocks, AllLeftover, PartOfBlocks, SameWorkers, NamesWorker, WorkerName;
    DashesDeleteNamedSecret(astarte, flow, a, b, "w");
    var before := [Block(a, "", [Worker(b[|a| + 1..] + "-" + "w", "")])];
    var blocks := [Block(b, "", [Worker("w", "")]), Block(a, "", [])];
    var states: seq<Secrets> := [map[], AfterBlocks(map[], astarte, flow, before)];
    WholeIsPartOfBlocks(map[], astarte, flow, before);
    assert Happened(states, [before], astarte, flow);
    assert Loses(states, [before], astarte, flow, ids, blocks, WorkerName(astarte, flow, b, "w"));
  }

  lemma WholeIsPartOfBlocks(secrets: Secrets, astarte: string, flow: string, blocks: seq<Block>)
    ensures PartOfBlocks(secrets, AfterBlocks(secrets, astarte, flow, blocks), astarte, flow, blocks)
  {
  }

  lemma LosesNothing(states: seq<Secrets>, history: seq<seq<Block>>, astarte: string, flow: string, ids: iset<string>, blocks: seq<Block>, name: string)
    requires Loses(states, history, astarte, flow, ids, blocks, name)
    ensures !Separate(ids)
  {
    hide Separate, Owned, AllLeftover, NamesWorker, BlockNames, SameWorkers;
    if Separate(ids) {
      HistoryIsOwned(states, history, astarte, flow, ids, |history|);
      NamedIsSafeExactlyWhen(states[|history|], astarte, flow, ids, blocks);
      assert false;
    }
  }

  // --- Several flows ---

  /** Putting an object of another flow leaves a flow's Secrets and their labels alone. */
  lemma PutOfOtherFlow(secrets: Secrets, astarte: string, flow: string, ids: iset<string>, name: string, labels: Labels, data: string)
    requires Owned(secrets, astarte, flow, ids) && labels.flow != flow && !NamedFor(name, astarte, flow)
    ensures var after := PutSecret(secrets, name, labels, data);
            Coherent(secrets, after, astarte, flow, ids) && forall b :: WorkerSecrets(after, flow, b) == WorkerSecrets(secrets, flow, b)
  {
    hide WorkerName, BlockName, NamedFor;
    forall block ensures BlockName(astarte, flow, block) != name {
      NamesBegin(astarte, flow, block, "");
    }
    forall block, worker ensures WorkerName(astarte, flow, block, worker) != name {
      NamesBegin(astarte, flow, block, worker);
    }
  }

  lemma {:induction false} PutWorkersOfOtherFlow(secrets: Secrets, astarte: string, flow: string, ids: iset<string>, other: string, block: string, workers: seq<Worker>)
    requires Owned(secrets, astarte, flow, ids) && !Clash(flow, other)
    ensures var after := PutWorkers(secrets, astarte, other, block, workers);
            Coherent(secrets, after, astarte, flow, ids) && forall b :: WorkerSecrets(after, flow, b) == WorkerSecrets(secrets, flow, b)
    decreases |workers|
  {
    hide Owned, Labelled, WorkerName, WorkerSecrets, NamedFor, Continues;
    if workers != [] {
      var last := workers[|workers| - 1];
      PutWorkersOfOtherFlow(secrets, astarte, flow, ids, other, block, workers[..|workers| - 1]);
      NamesBegin(astarte, other, block, last.id);
      NamesMeetExactlyWhenFlowsClash(astarte, flow, other);
      PutOfOtherFlow(PutWorkers(secrets, astarte, other, block, workers[..|workers| - 1]), astarte, flow, ids,
                     WorkerName(astarte, other, block, last.id), Labels(other, block, Some(last.id)), last.config);
    }
  }

  lemma OtherBlockKeeps(before: Secrets, now: Secrets, astarte: string, flow: string, ids: iset<string>, other: string, block: Block)
    requires Owned(before, astarte, flow, ids) && !Clash(flow, other) && PartOfBlock(before, now, astarte, other, block)
    ensures Coherent(before, now, astarte, flow, ids) && forall b :: WorkerSecrets(now, flow, b) == WorkerSecrets(before, flow, b)
  {
    hide Owned, Labelled, WorkerName, BlockName, NamedFor, Continues, PutWorkers;
    if now != before {
      var done: nat, gone: set<string> :| PartWith(before, now, astarte, other, block, done, gone);
      var first := WithBlockSecret(before, astarte, other, block);
      NamesBegin(astarte, other, block.id, "");
      NamesMeetExactlyWhenFlowsClash(astarte, flow, other);
      PutOfOtherFlow(before, astarte, flow, ids, BlockName(astarte, other, block.id), Labels(other, block.id, None), block.config);
      PutWorkersOfOtherFlow(first, astarte, flow, ids, other, block.id, block.workers[..done]);
      LessIsCoherent(PutWorkers(first, astarte, other, block.id, block.workers[..done]), gone, astarte, flow, ids);
      assert forall b :: WorkerSecrets(first, flow, b) !! gone;
    }
  }

  lemma {:induction false} OtherBlocksKeep(secrets: Secrets, astarte: string, flow: string, ids: iset<string>, other: string, blocks: seq<Block>)
    requires Owned(secrets, astarte, flow, ids) && !Clash(flow, other)
    ensures var after := AfterBlocks(secrets, astarte, other, blocks);
            Coherent(secrets, after, astarte, flow, ids) && forall b :: WorkerSecrets(after, flow, b) == WorkerSecrets(secrets, flow, b)
    decreases |blocks|
  {
    hide Owned, Labelled, WorkerSecrets, Clash, PartOfBlock, AfterBlock;
    if blocks != [] {
      var last := |blocks| - 1;
      var before := AfterBlocks(secrets, astarte, other, blocks[..last]);
      OtherBlocksKeep(secrets, astarte, flow, ids, other, blocks[..last]);
      WholeIsPart(before, astarte, other, blocks[last]);
      OtherBlockKeeps(before, AfterBlock(before, astarte, other, blocks[last]), astarte, flow, ids, other, blocks[last]);
    }
  }

  lemma WholeIsPart(secrets: Secrets, astarte: string, flow: string, block: Block)
    ensures PartOfBlock(secrets, AfterBlock(secrets, astarte, flow, block), astarte, flow, block)
  {
    hide PutWorkers, WithBlockSecret, Leftover;
    assert block.workers[..|block.workers|] == block.workers;
    assert PartWith(secrets, AfterBlock(secrets, astarte, flow, block), astarte, flow, block, |block.workers|, Leftover(secrets, astarte, flow, block));
  }

  /** At every state of a reconcile of another flow whose name does not clash, finished or not, a flow's
      names still tell its labels, and the other way round if they did, and its worker Secrets are the same. */
  lemma OtherFlowsKeepOut(before: Secrets, now: Secrets, astarte: string, flow: string, ids: iset<string>, other: string, blocks: seq<Block>)
    requires Owned(before, astarte, flow, ids) && !Clash(flow, other) && PartOfBlocks(before, now, astarte, other, blocks)
    ensures Coherent(before, now, astarte, flow, ids) && forall b :: WorkerSecrets(now, flow, b) == WorkerSecrets(before, flow, b)
  {
    hide Owned, Labelled, WorkerSecrets, Clash, PartOfBlock, AfterBlocks;
    OtherBlocksKeep(before, astarte, flow, ids, other, blocks);
    if now != AfterBlocks(before, astarte, other, blocks) {
      var i :| 0 <= i < |blocks| && PartOfBlock(AfterBlocks(before, astarte, other, blocks[..i]), now, astarte, other, blocks[i]);
      OtherBlocksKeep(before, astarte, flow, ids, other, blocks[..i]);
      OtherBlockKeeps(AfterBlocks(before, astarte, other, blocks[..i]), now, astarte, flow, ids, other, blocks[i]);
    }
  }

  /** A reconcile of one flow puts wrong labels behind names of another. */
  ghost predicate Disturbs(astarte: string, other: string, blocks: seq<Block>, flow: string, ids: iset<string>, before: Secrets) {
    Owned(before, astarte, flow, ids) && !Owned(AfterBlocks(before, astarte, other, blocks), astarte, flow, ids)
  }

  /** For two flows this can happen if and only if their names clash. */
  lemma FlowsDisturbExactlyWhenTheyClash(astarte: string, flow: string, other: string)
    requires flow != other
    ensures (exists blocks, ids, before :: Disturbs(astarte, other, blocks, flow, ids, before)) <==> Clash(flow, other)
  {
    if blocks, ids, before :| Disturbs(astarte, other, blocks, flow, ids, before) {
      if !Clash(flow, other) {
        OtherBlocksKeep(before, astarte, flow, ids, other, blocks);
        assert false;
      }
    }
    if Clash(flow, other) {
      ClashingFlowsMixLabels(astarte, flow, other);
    }
  }

  /** Whenever the names of two flows clash it goes wrong from no Secrets, with a single block. */
  lemma ClashingFlowsMixLabels(astarte: string, flow: string, other: string)
    requires flow != other && Clash(flow, other)
    ensures exists blocks, ids :: |blocks| == 1 && Separate(ids) && Disturbs(astarte, other, blocks, flow, ids, map[])
  {
    hide WorkerName, BlockName, Continues;
    if Continues(flow, other) {
      var block, worker := BlockOfContinuingFlow(astarte, flow, other, "c");
      var blocks := [Block("c", "", [])];
      OneBlock(astarte, other, blocks[0]);
      assert Disturbs(astarte, other, blocks, flow, iset{block}, map[]);
      assert Separate(iset{block});
    } else {
      var block, worker := BlockOfContinuingFlow(astarte, other, flow, "c");
      var blocks := [Block(block, "", [Worker(worker, "")])];
      FirstWorker(astarte, other, block, worker);
      OneBlock(astarte, other, blocks[0]);
      assert Disturbs(astarte, other, blocks, flow, iset{"c"}, map[]);
      assert Separate(iset{"c"});
    }
  }

  /** The first block ever: its Secret has its labels. */
  lemma OneBlock(astarte: string, flow: string, block: Block)
    ensures AfterBlocks(map[], astarte, flow, [block]) == AfterBlock(map[], astarte, flow, block)
    ensures block.workers == [] ==> AfterBlock(map[], astarte, flow, block) ==
                                    map[BlockName(astarte, flow, block.id) := Secret(Labels(flow, block.id, None), block.config)]
  {
    hide BlockName, WorkerName;
    FirstOf(map[], astarte, flow, [block]);
    assert [block][..1] == [block];
  }
}
