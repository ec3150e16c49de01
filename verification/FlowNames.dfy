/**
 The names of a Flow's objects, put together from IDs with dashes: exactly when two of them meet.
 */
module FlowNames {

  /** What the names of all objects of a flow begin with. */
  function Prefix(astarte: string, flow: string): string {
    astarte + "-flow-" + flow + "-block-"
  }

  function BlockName(astarte: string, flow: string, block: string): string {
    Prefix(astarte, flow) + block
  }

  function WorkerName(astarte: string, flow: string, block: string, worker: string): string {
    BlockName(astarte, flow, block) + "-" + worker
  }

  lemma SamePrefix(prefix: string, a: string, b: string)
    requires prefix + a == prefix + b
    ensures a == b
  {
    assert (prefix + a)[|prefix|..] == a && (prefix + b)[|prefix|..] == b;
  }

  lemma WorkerNameParts(astarte: string, flow: string, block: string, worker: string)
    ensures WorkerName(astarte, flow, block, worker) == Prefix(astarte, flow) + (block + "-" + worker)
  {
  }

  // --- IDs of one flow ---

  /** One ID goes on like the other followed by a dash. */
  predicate Extends(a: string, b: string) {
    a + "-" <= b
  }

  /** None of these IDs goes on like another one. */
  ghost predicate Separate(ids: iset<string>) {
    forall a, b | a in ids && b in ids :: !Extends(a, b)
  }

  /** IDs free of dashes are a case of this. */
  lemma DashFreeIsSeparate()
    ensures Separate(iset s: string | '-' !in s)
  {
    forall a: string, b: string | '-' !in b ensures !Extends(a, b) {
      assert (a + "-")[|a|] == '-';
    }
  }

  lemma SameUpToDash(a: string, v: string, b: string, w: string)
    requires a + "-" + v == b + "-" + w && |a| <= |b|
    ensures (a == b && v == w) || Extends(a, b)
  {
    var s := a + "-" + v;
    assert s[..|a|] == a && s[..|b|] == b;
    if |a| == |b| {
      assert s[|a| + 1..] == v && s[|b| + 1..] == w;
    } else {
      assert s[..|a| + 1] == a + "-" && s[..|a| + 1] == b[..|a| + 1];
    }
  }

  lemma Extension(a: string, b: string)
    requires Extends(a, b)
    ensures b == a + "-" + b[|a| + 1..]
  {
  }

  /** For some workers of two blocks the names are the same if and only if one ID extends the other. */
  lemma WorkerNamesMeetExactlyWhen(astarte: string, flow: string, a: string, b: string)
    requires a != b
    ensures (exists v, w :: WorkerName(astarte, flow, a, v) == WorkerName(astarte, flow, b, w)) <==> Extends(a, b) || Extends(b, a)
  {
    hide WorkerName;
    if v, w :| WorkerName(astarte, flow, a, v) == WorkerName(astarte, flow, b, w) {
      WorkerNamesThatMeet(astarte, flow, a, v, b, w);
    }
    if Extends(a, b) {
      ExtendedWorkerName(astarte, flow, a, b, "");
    } else if Extends(b, a) {
      ExtendedWorkerName(astarte, flow, b, a, "");
    }
  }

  lemma WorkerNamesThatMeet(astarte: string, flow: string, a: string, v: string, b: string, w: string)
    requires WorkerName(astarte, flow, a, v) == WorkerName(astarte, flow, b, w)
    ensures (a == b && v == w) || Extends(a, b) || Extends(b, a)
  {
    WorkerNameParts(astarte, flow, a, v);
    WorkerNameParts(astarte, flow, b, w);
    SamePrefix(Prefix(astarte, flow), a + "-" + v, b + "-" + w);
    if |a| <= |b| {
      SameUpToDash(a, v, b, w);
    } else {
      SameUpToDash(b, w, a, v);
    }
  }

  /** Every worker of the longer ID has the name of a worker of the shorter one. */
  lemma ExtendedWorkerName(astarte: string, flow: string, a: string, b: string, w: string)
    requires Extends(a, b)
    ensures WorkerName(astarte, flow, b, w) == WorkerName(astarte, flow, a, b[|a| + 1..] + "-" + w)
  {
    var v := b[|a| + 1..] + "-" + w;
    WorkerNameParts(astarte, flow, a, v);
    WorkerNameParts(astarte, flow, b, w);
    Extension(a, b);
    assert b + "-" + w == a + "-" + v;
  }

  /** A block has the name of some worker of another if and only if its ID extends the other's. */
  lemma BlockNameIsAWorkerNameExactlyWhen(astarte: string, flow: string, a: string, b: string)
    ensures (exists v :: WorkerName(astarte, flow, a, v) == BlockName(astarte, flow, b)) <==> Extends(a, b)
  {
    var prefix := Prefix(astarte, flow);
    if v :| WorkerName(astarte, flow, a, v) == BlockName(astarte, flow, b) {
      WorkerNameParts(astarte, flow, a, v);
      SamePrefix(prefix, a + "-" + v, b);
      assert b == (a + "-") + v;
    }
    if Extends(a, b) {
      Extension(a, b);
      WorkerNameParts(astarte, flow, a, b[|a| + 1..]);
    }
  }

  /** Unless one ID extends the other, names tell blocks and workers apart. */
  lemma NamesAreInjective(astarte: string, flow: string, block: string, worker: string, other: string, otherWorker: string)
    requires !Extends(block, other) && !Extends(other, block)
    ensures BlockName(astarte, flow, block) == BlockName(astarte, flow, other) ==> block == other
    ensures WorkerName(astarte, flow, block, worker) == WorkerName(astarte, flow, other, otherWorker) ==> block == other && worker == otherWorker
    ensures BlockName(astarte, flow, block) != WorkerName(astarte, flow, other, otherWorker)
  {
    hide WorkerName, Extends;
    if BlockName(astarte, flow, block) == BlockName(astarte, flow, other) {
      SamePrefix(Prefix(astarte, flow), block, other);
    }
    if WorkerName(astarte, flow, block, worker) == WorkerName(astarte, flow, other, otherWorker) {
      WorkerNamesThatMeet(astarte, flow, block, worker, other, otherWorker);
    }
    BlockNameIsAWorkerNameExactlyWhen(astarte, flow, other, block);
  }

  // --- Several flows ---

  predicate NamedFor(name: string, astarte: string, flow: string) {
    Prefix(astarte, flow) <= name
  }

  /** One flow's name continues the other's as if with one of its blocks. */
  predicate Continues(flow: string, other: string) {
    flow + "-block-" <= other + "-"
  }

  predicate Clash(flow: string, other: string) {
    flow == other || Continues(flow, other) || Continues(other, flow)
  }

  /** Some name begins like those of both flows if and only if the flows' names clash. */
  lemma NamesMeetExactlyWhenFlowsClash(astarte: string, flow: string, other: string)
    ensures (exists name :: NamedFor(name, astarte, flow) && NamedFor(name, astarte, other)) <==> Clash(flow, other)
  {
    if name :| NamedFor(name, astarte, flow) && NamedFor(name, astarte, other) {
      var start := astarte + "-flow-";
      var s := name[|start|..];
      StartsAfter(start, flow + "-block-", name);
      StartsAfter(start, other + "-block-", name);
      if |flow| <= |other| {
        ShorterContinues(flow, other, s);
      } else {
        ShorterContinues(other, flow, s);
      }
    }
    if flow == other {
      assert NamedFor(Prefix(astarte, flow), astarte, flow);
    } else if Continues(flow, other) {
      ContinuedPrefix(astarte, flow, other);
      assert NamedFor(Prefix(astarte, other), astarte, flow) && NamedFor(Prefix(astarte, other), astarte, other);
    } else if Continues(other, flow) {
      ContinuedPrefix(astarte, other, flow);
      assert NamedFor(Prefix(astarte, flow), astarte, flow) && NamedFor(Prefix(astarte, flow), astarte, other);
    }
  }

  lemma StartsAfter(start: string, more: string, name: string)
    requires start + more <= name
    ensures more <= name[|start|..]
  {
    assert name == start + more + name[|start + more|..];
  }

  lemma ShorterContinues(flow: string, other: string, s: string)
    requires flow + "-block-" <= s && other + "-block-" <= s && |flow| <= |other|
    ensures flow == other || Continues(flow, other)
  {
    var a, b := flow + "-block-", other + "-";
    assert b <= s by { assert other + "-block-" == b + "block-"; }
    assert s[|other|] == b[|other|] == '-';
    if |a| <= |b| {
      assert a == s[..|a|] && b == s[..|b|];
    } else {
      var k := |other| - |flow|;
      assert s[|flow| + k] == a[|flow| + k] == "-block-"[k];
      assert k == 0;
      assert flow == s[..|flow|] && other == s[..|other|];
    }
  }

  lemma ContinuedPrefix(astarte: string, flow: string, other: string)
    requires Continues(flow, other)
    ensures Prefix(astarte, flow) <= Prefix(astarte, other)
  {
    var start := astarte + "-flow-";
    assert Prefix(astarte, other) == start + (other + "-") + "block-";
    assert Prefix(astarte, flow) == start + (flow + "-block-");
    assert other + "-" == (flow + "-block-") + (other + "-")[|flow + "-block-"|..];
  }

  lemma NamesBegin(astarte: string, flow: string, block: string, worker: string)
    ensures NamedFor(BlockName(astarte, flow, block), astarte, flow)
    ensures NamedFor(WorkerName(astarte, flow, block, worker), astarte, flow)
  {
    WorkerNameParts(astarte, flow, block, worker);
  }

  /** When one flow's name continues another's, each of its blocks has the name of some worker there. */
  lemma BlockOfContinuingFlow(astarte: string, flow: string, other: string, b: string) returns (block: string, worker: string)
    requires Continues(flow, other)
    ensures WorkerName(astarte, flow, block, worker) == BlockName(astarte, other, b)
  {
    var start := flow + "-block-";
    var rest := (other + "-")[|start|..];
    assert other + "-" == start + rest;
    var s := rest + "block-" + b;
    assert BlockName(astarte, other, b) == Prefix(astarte, flow) + s by {
      assert BlockName(astarte, other, b) == astarte + "-flow-" + (other + "-") + "block-" + b;
    }
    if rest == "" {
      block, worker := "block", b;
      assert s == block + "-" + worker;
    } else {
      block, worker := rest[..|rest| - 1], "block-" + b;
      assert rest[|rest| - 1] == (other + "-")[|other|] == '-';
      assert rest == block + "-";
      assert s == block + "-" + worker;
    }
    WorkerNameParts(astarte, flow, block, worker);
  }
}
