/**
 The admission webhook for Astarte resources, next to the reconcile-time code that trusts it.
 The replication of the system keyspace is checked when a resource is created, frozen on
 updates, and parsed again, unchecked, when Housekeeping is configured.
 */
module Admission {
  import opened Specs
  import opened Text

  /** Replication settings of the system keyspace. */
  datatype Keyspace = Keyspace(strategy: string, factor: int, dataCenters: string)

  datatype Complaint = EvenFactor | WrongFormat | NotAnInteger | EvenReplication
  datatype FieldError = FieldError(complaint: Complaint, text: string)

  type Replication = map<string, int>

  // --- What the two parsers compute ---

  /** An entry of the form name:number with an odd number that fits an integer. */
  predicate GoodEntry(entry: string) {
    var parts := Split(entry, ':');
    |parts| == 2 && Atoi(parts[1]).Number? && Atoi(parts[1]).value % 2 != 0
  }

  /** What a well-formed keyspace is, stated without the error list. */
  predicate GoodKeyspace(keyspace: Keyspace) {
    if keyspace.strategy == "SimpleStrategy" then keyspace.factor % 2 != 0
    else forall entry <- Split(keyspace.dataCenters, ',') :: GoodEntry(entry)
  }

  /** The complaints about one entry, in the order they are made. */
  function EntryErrors(entry: string): seq<FieldError> {
    var parts := Split(entry, ':');
    if |parts| != 2 then
      [FieldError(WrongFormat, Join(parts, ':'))]
    else
      (if Atoi(parts[1]).Number? then [] else [FieldError(NotAnInteger, Join(parts, ':'))]) +
      (if Atoi(parts[1]).value % 2 == 0 then [FieldError(EvenReplication, Join(parts, ':'))] else [])
  }

  function AllEntryErrors(entries: seq<string>): seq<FieldError> {
    if entries == [] then [] else AllEntryErrors(entries[..|entries| - 1]) + EntryErrors(entries[|entries| - 1])
  }

  /** The validator's map: only entries that parsed are added, later ones win. */
  function CheckedMap(entries: seq<string>): Replication {
    if entries == [] then map[]
    else
      AddPair(CheckedMap(entries[..|entries| - 1]), entries[|entries| - 1])
  }

  function AddPair(pairs: Replication, entry: string): Replication {
    var parts := Split(entry, ':');
    if |parts| == 2 && Atoi(parts[1]).Number? then pairs[parts[0] := Atoi(parts[1]).value] else pairs
  }

  /** The reconciler's map: the second part of every entry is taken on trust. */
  function TrustedMap(entries: seq<string>): Option<Replication> {
    if entries == [] then Some(map[])
    else
      match TrustedMap(entries[..|entries| - 1])
      case None => None
      case Some(sofar) =>
        var parts := Split(entries[|entries| - 1], ':');
        if |parts| < 2 then None else Some(sofar[parts[0] := Atoi(parts[1]).value])
  }

  // --- The code ---

  method ValidateCreateAstarteSystemKeyspace(keyspace: Keyspace) returns (allErrs: seq<FieldError>, pairs: Replication)
    ensures allErrs == [] <==> GoodKeyspace(keyspace)
    ensures keyspace.strategy == "SimpleStrategy" ==>
              allErrs == if keyspace.factor % 2 == 0 then [FieldError(EvenFactor, "")] else []
    ensures keyspace.strategy != "SimpleStrategy" ==>
              && allErrs == AllEntryErrors(Split(keyspace.dataCenters, ','))
              && pairs == CheckedMap(Split(keyspace.dataCenters, ','))
  {
    allErrs, pairs := [], map[];
    if keyspace.strategy == "SimpleStrategy" {
      if keyspace.factor % 2 == 0 {
        allErrs := allErrs + [FieldError(EvenFactor, "")];
      }
      return;
    }
    var items := Split(keyspace.dataCenters, ',');
    for i := 0 to |items|
      invariant allErrs == AllEntryErrors(items[..i]) && pairs == CheckedMap(items[..i])
    {
      assert items[..i + 1][..i] == items[..i];
      var errs;
      errs, pairs := ValidateEntry(items[i], pairs);
      allErrs := allErrs + errs;
    }
    assert items[..|items|] == items;
    NoErrorsExactlyWhenGood(items);
  }

  /** One round of the validator's loop. */
  method ValidateEntry(dr: string, pairs: Replication) returns (errs: seq<FieldError>, pairs': Replication)
    ensures errs == EntryErrors(dr)
    ensures pairs' == AddPair(pairs, dr)
  {
    errs, pairs' := [], pairs;
    var dataCenterAndReplication := Split(dr, ':');
    if |dataCenterAndReplication| != 2 {
      errs := [FieldError(WrongFormat, Join(dataCenterAndReplication, ':'))];
    } else {
      var number := Atoi(dataCenterAndReplication[1]);
      if !number.Number? {
        errs := [FieldError(NotAnInteger, Join(dataCenterAndReplication, ':'))];
      } else {
        pairs' := pairs[dataCenterAndReplication[0] := number.value];
      }
      if number.value % 2 == 0 {
        errs := errs + [FieldError(EvenReplication, Join(dataCenterAndReplication, ':'))];
      }
    }
  }

  method AppendAstarteKeyspaceEnvVars(keyspace: Keyspace) returns (outOfRange: bool, theMap: Replication)
    ensures if keyspace.strategy == "SimpleStrategy" then !outOfRange && theMap == map[]
            else TrustedMap(Split(keyspace.dataCenters, ',')) == if outOfRange then None else Some(theMap)
  {
    hide Split, Atoi, TrustedMap;
    outOfRange, theMap := false, map[];
    if keyspace.strategy == "SimpleStrategy" {
      return;
    }
    var pairs := Split(keyspace.dataCenters, ',');
    NothingToTrust(pairs);
    for i := 0 to |pairs|
      invariant TrustedMap(pairs[..i]) == Some(theMap)
    {
      TrustedNext(pairs, i);
      var kv := Split(pairs[i], ':');
      if |kv| < 2 {
        NoMapOnceOutOfRange(pairs, i + 1);
        return true, map[];
      }
      theMap := theMap[kv[0] := Atoi(kv[1]).value];
    }
    assert pairs[..|pairs|] == pairs;
  }

  lemma NothingToTrust(entries: seq<string>)
    ensures TrustedMap(entries[..0]) == Some(map[])
  {
  }

  /** One round of the loop. */
  lemma TrustedNext(entries: seq<string>, i: nat)
    requires i < |entries|
    ensures var kv := Split(entries[i], ':');
            TrustedMap(entries[..i + 1]) ==
            match TrustedMap(entries[..i])
            case None => None
            case Some(before) => if |kv| < 2 then None else Some(before[kv[0] := Atoi(kv[1]).value])
  {
    hide Split, Atoi;
    assert entries[..i + 1][..i] == entries[..i];
  }

  lemma {:induction false} NoMapOnceOutOfRange(entries: seq<string>, i: nat)
    requires i <= |entries| && TrustedMap(entries[..i]).None?
    ensures TrustedMap(entries).None?
    decreases |entries|
  {
    if i == |entries| {
      assert entries[..i] == entries;
    } else {
      assert entries[..|entries| - 1][..i] == entries[..i];
      NoMapOnceOutOfRange(entries[..|entries| - 1], i);
    }
  }

  /** The unchecked parser indexes out of range exactly when some entry has no colon. */
  lemma {:induction false} OutOfRangeExactlyWhen(entries: seq<string>)
    ensures TrustedMap(entries).None? <==> exists entry <- entries :: ':' !in entry
  {
    if entries != [] {
      var init, last := entries[..|entries| - 1], entries[|entries| - 1];
      OutOfRangeExactlyWhen(init);
      assert entries == init + [last];
      OnePartExactlyWhen(last, ':');
      assert ':' !in last ==> last in entries;
    }
  }

  lemma {:induction false} OnePartExactlyWhen(s: string, separator: char)
    ensures |Split(s, separator)| == 1 <==> separator !in s
  {
    if s != "" {
      OnePartExactlyWhen(s[1..], separator);
    }
  }

  lemma EntryErrorsExactlyWhenBad(entry: string)
    ensures EntryErrors(entry) == [] <==> GoodEntry(entry)
    ensures forall e <- EntryErrors(entry) :: e.text == entry
  {
    JoinOfSplit(entry, ':');
  }

  lemma {:induction false} NoErrorsExactlyWhenGood(entries: seq<string>)
    ensures AllEntryErrors(entries) == [] <==> forall entry <- entries :: GoodEntry(entry)
  {
    if entries != [] {
      var init := entries[..|entries| - 1];
      NoErrorsExactlyWhenGood(init);
      EntryErrorsExactlyWhenBad(entries[|entries| - 1]);
      assert entries == init + [entries[|entries| - 1]];
    }
  }

  /** Every complaint quotes the offending entry as the user wrote it. */
  lemma {:induction false} ReportedTextIsTheEntry(entries: seq<string>)
    ensures forall e <- AllEntryErrors(entries) :: e.text in entries && !GoodEntry(e.text)
    ensures forall entry <- entries :: !GoodEntry(entry) ==> exists e <- AllEntryErrors(entries) :: e.text == entry
  {
    if entries != [] {
      var init, last := entries[..|entries| - 1], entries[|entries| - 1];
      ReportedTextIsTheEntry(init);
      EntryErrorsExactlyWhenBad(last);
      assert entries == init + [last];
      if !GoodEntry(last) {
        assert EntryErrors(last)[0] in AllEntryErrors(entries);
      }
    }
  }

  /** On what the validator accepts, the unchecked parser stays in range, builds the validator's
      map, and every value in it is odd. */
  lemma {:induction false} TrustIsJustified(entries: seq<string>)
    requires forall entry <- entries :: GoodEntry(entry)
    ensures TrustedMap(entries) == Some(CheckedMap(entries))
    ensures forall name <- CheckedMap(entries) :: CheckedMap(entries)[name] % 2 != 0
  {
    if entries != [] {
      TrustIsJustified(entries[..|entries| - 1]);
      assert GoodEntry(entries[|entries| - 1]);
    }
  }

  lemma PartsOf(name: string, number: string)
    requires ':' !in name && ':' !in number
    ensures Split(name + ":" + number, ':') == [name, number] && Join([name, number], ':') == name + ":" + number
  {
    hide Split, Join;
    JoinTwo(name, number, ':');
    assert forall part <- [name, number] :: ':' !in part;
    SplitIsUnique(name + ":" + number, ':', [name, number]);
  }

  /** The complaint about an entry with a number in digits: none when it is odd and fits. */
  lemma DigitsAreReported(name: string, number: string)
    requires ':' !in name && number != "" && AllDigits(number)
    ensures var entry := name + ":" + number;
            EntryErrors(entry) ==
            if Value(number) > MAX_INT then [FieldError(NotAnInteger, entry)]
            else if Value(number) % 2 == 0 then [FieldError(EvenReplication, entry)]
            else []
  {
    hide Split, Join, Atoi, Value;
    assert ':' !in number;
    PartsOf(name, number);
    AtoiOfDigits(number);
  }

  /** Something that is no number at all is reported twice, as its value is taken to be zero. */
  lemma NonsenseIsReportedTwice(name: string, number: string)
    requires ':' !in name && ':' !in number && (number == "" || (!AllDigits(number) && !Signed(number)))
    requires Value(number[..DigitsBefore(number)]) <= MAX_UINT
    ensures var entry := name + ":" + number;
            EntryErrors(entry) == [FieldError(NotAnInteger, entry), FieldError(EvenReplication, entry)]
  {
    hide Split, Join, Atoi, Value;
    PartsOf(name, number);
    AtoiOfOthers(number);
  }

  ghost predicate InTwoParts(entry: string) {
    exists name, number :: ':' !in name && ':' !in number && entry == name + ":" + number
  }

  lemma TwoPartsExactlyWhen(entry: string)
    ensures |Split(entry, ':')| == 2 <==> InTwoParts(entry)
  {
    hide Split, Join;
    var parts := Split(entry, ':');
    if |parts| == 2 {
      assert parts == [parts[0], parts[1]];
      SplitIsUnique(entry, ':', parts);
      assert parts[0] in parts && parts[1] in parts;
      JoinTwo(parts[0], parts[1], ':');
      assert entry == parts[0] + ":" + parts[1];
    }
    if InTwoParts(entry) {
      var name, number :| ':' !in name && ':' !in number && entry == name + ":" + number;
      PartsOf(name, number);
    }
  }

  /** An entry that is not a name and a number at all is reported once. */
  lemma WrongFormatExactlyWhen(entry: string)
    ensures EntryErrors(entry) == [FieldError(WrongFormat, entry)] <==> !InTwoParts(entry)
  {
    hide Split, Join, Atoi, InTwoParts;
    TwoPartsExactlyWhen(entry);
    JoinOfSplit(entry, ':');
    assert InTwoParts(entry) && EntryErrors(entry) != [] ==> EntryErrors(entry)[0].complaint != WrongFormat;
  }

  // --- Keyspaces as users mean them ---

  /** A data center and the number of its replicas. */
  datatype DataCenter = DataCenter(name: string, replication: nat)

  /** Names without separators, and numbers that fit an integer. */
  ghost predicate Plain(dataCenters: seq<DataCenter>) {
    forall d <- dataCenters :: ':' !in d.name && ',' !in d.name && d.replication <= MAX_INT
  }

  function Entry(d: DataCenter): string {
    d.name + ":" + Itoa(d.replication)
  }

  function Entries(dataCenters: seq<DataCenter>): (entries: seq<string>)
    ensures |entries| == |dataCenters| && forall i :: 0 <= i < |entries| ==> entries[i] == Entry(dataCenters[i])
  {
    seq(|dataCenters|, i requires 0 <= i < |dataCenters| => Entry(dataCenters[i]))
  }

  /** The keyspace that spreads over these data centers. */
  function Spread(dataCenters: seq<DataCenter>): Keyspace {
    Keyspace("NetworkTopologyStrategy", 0, Join(Entries(dataCenters), ','))
  }

  /** The replication that is meant; the last mention of a data center counts. */
  function Meant(dataCenters: seq<DataCenter>): Replication {
    if dataCenters == [] then map[]
    else Meant(dataCenters[..|dataCenters| - 1])[dataCenters[|dataCenters| - 1].name := dataCenters[|dataCenters| - 1].replication]
  }

  lemma EntryParts(d: DataCenter)
    requires ':' !in d.name && ',' !in d.name && d.replication <= MAX_INT
    ensures Split(Entry(d), ':') == [d.name, Itoa(d.replication)] && ',' !in Entry(d)
    ensures Atoi(Itoa(d.replication)) == Number(d.replication)
  {
    var digits, parts := Itoa(d.replication), [d.name, Itoa(d.replication)];
    assert AllDigits(digits);
    assert parts[1..] == [digits] && parts[1..][1..] == [];
    JoinTwo(d.name, digits, ':');
    SplitIsUnique(Entry(d), ':', parts);
    ValueOfItoa(d.replication);
    AtoiOfDigits(digits);
  }

  lemma JoinTwo(a: string, b: string, separator: char)
    ensures Join([a, b], separator) == a + [separator] + b
  {
    assert [a, b][1..] == [b];
  }

  lemma SpreadSplits(dataCenters: seq<DataCenter>)
    requires dataCenters != [] && Plain(dataCenters)
    ensures Split(Spread(dataCenters).dataCenters, ',') == Entries(dataCenters)
  {
    hide Split, Join, Entry;
    forall entry | entry in Entries(dataCenters) ensures ',' !in entry {
      var i :| 0 <= i < |dataCenters| && entry == Entry(dataCenters[i]);
      assert dataCenters[i] in dataCenters;
      EntryParts(dataCenters[i]);
    }
    SplitIsUnique(Spread(dataCenters).dataCenters, ',', Entries(dataCenters));
  }

  /** The data centers with an even number. */
  function Even(dataCenters: seq<DataCenter>): seq<DataCenter> {
    if dataCenters == [] then []
    else
      var last := dataCenters[|dataCenters| - 1];
      Even(dataCenters[..|dataCenters| - 1]) + if last.replication % 2 == 0 then [last] else []
  }

  lemma {:induction false} NoneIsEven(dataCenters: seq<DataCenter>)
    ensures Even(dataCenters) == [] <==> forall d <- dataCenters :: d.replication % 2 == 1
  {
    if dataCenters != [] {
      var init, last := dataCenters[..|dataCenters| - 1], dataCenters[|dataCenters| - 1];
      assert dataCenters == init + [last];
      NoneIsEven(init);
    }
  }

  /** The complaints about a keyspace that spreads over data centers: one for each even number, in order. */
  lemma {:induction false} EvenNumbersAreReported(dataCenters: seq<DataCenter>)
    requires Plain(dataCenters)
    ensures AllEntryErrors(Entries(dataCenters)) ==
            var even := Even(dataCenters); seq(|even|, i requires 0 <= i < |even| => FieldError(EvenReplication, Entry(even[i])))
  {
    hide EntryErrors, Entry;
    if dataCenters != [] {
      var init, last := dataCenters[..|dataCenters| - 1], dataCenters[|dataCenters| - 1];
      assert dataCenters == init + [last];
      EvenNumbersAreReported(init);
      EntryIsReported(last);
      assert Entries(dataCenters)[..|init|] == Entries(init);
    }
  }

  lemma EntryIsReported(d: DataCenter)
    requires Plain([d])
    ensures EntryErrors(Entry(d)) == if d.replication % 2 == 1 then [] else [FieldError(EvenReplication, Entry(d))]
  {
    hide Split, Join, Atoi, Entry;
    assert d in [d];
    EntryParts(d);
    JoinOfSplit(Entry(d), ':');
  }

  lemma {:induction false} TrustedIsMeant(dataCenters: seq<DataCenter>)
    requires Plain(dataCenters)
    ensures TrustedMap(Entries(dataCenters)) == Some(Meant(dataCenters))
  {
    hide Split, Atoi, Entry;
    if dataCenters != [] {
      var init, last := dataCenters[..|dataCenters| - 1], dataCenters[|dataCenters| - 1];
      assert dataCenters == init + [last];
      TrustedIsMeant(init);
      EntryParts(last);
      assert Entries(dataCenters)[..|init|] == Entries(init);
    }
  }

  /** A keyspace that spreads over data centers draws no complaint if and only if all its numbers are odd;
      and the unchecked parser makes of it what is meant. */
  lemma SpreadIsAdmittedExactlyWhenOdd(dataCenters: seq<DataCenter>)
    requires dataCenters != [] && Plain(dataCenters)
    ensures var entries := Split(Spread(dataCenters).dataCenters, ',');
            && (AllEntryErrors(entries) == [] <==> forall d <- dataCenters :: d.replication % 2 == 1)
            && (GoodKeyspace(Spread(dataCenters)) <==> forall d <- dataCenters :: d.replication % 2 == 1)
            && TrustedMap(entries) == Some(Meant(dataCenters))
  {
    hide Split, Join, GoodEntry, AllEntryErrors, TrustedMap;
    SpreadSplits(dataCenters);
    EvenNumbersAreReported(dataCenters);
    NoneIsEven(dataCenters);
    TrustedIsMeant(dataCenters);
    NoErrorsExactlyWhenGood(Entries(dataCenters));
  }

  /** A single one. */
  lemma OneDataCenter(name: string, n: nat)
    requires ':' !in name && ',' !in name && n <= MAX_INT
    ensures var entries := Split(name + ":" + Itoa(n), ',');
            (AllEntryErrors(entries) == [] <==> n % 2 == 1) && TrustedMap(entries) == Some(map[name := n])
  {
    hide Split, GoodKeyspace, AllEntryErrors, TrustedMap;
    var all := [DataCenter(name, n)];
    SpreadIsAdmittedExactlyWhenOdd(all);
    assert all[..0] == [] && all[0] in all;
    assert Meant(all) == map[name := n];
    assert Entries(all) == [name + ":" + Itoa(n)];
    assert Spread(all).dataCenters == name + ":" + Itoa(n) by {
      assert Entries(all)[1..] == [];
    }
  }

  // --- Runs of admitted requests ---

  /** An Astarte resource as stored; `uid` tells apart resources created under the same name. */
  datatype Astarte = Astarte(uid: nat, instanceID: string, keyspace: Keyspace)

  /** The cluster's Astarte resources by namespaced name, and the next uid. */
  datatype Cluster = Cluster(resources: map<(string, string), Astarte>, nextUid: nat)

  /** Requests to the API server; `othersPass` stands for the remaining checks of the webhook and
      `canList` for the webhook being able to list the cluster's resources. */
  datatype Request =
    | Create(name: (string, string), instanceID: string, keyspace: Keyspace, othersPass: bool, canList: bool)
    | Update(name: (string, string), instanceID: string, keyspace: Keyspace, othersPass: bool)
    | Delete(name: (string, string))

  predicate InstanceIDInUse(cluster: Cluster, instanceID: string) {
    exists name <- cluster.resources :: cluster.resources[name].instanceID == instanceID
  }

  /** The webhook's loop over all listed resources; no list means that it could not be had. */
  method ValidateCreateAstarteInstanceID(listed: Option<seq<string>>, instanceID: string) returns (err: bool)
    ensures !err <==> listed.Some? && instanceID !in listed.value
  {
    if listed.None? {
      return true;
    }
    for i := 0 to |listed.value|
      invariant instanceID !in listed.value[..i]
    {
      if instanceID == listed.value[i] {
        return true;
      }
    }
    err := false;
  }

  predicate Admits(cluster: Cluster, request: Request) {
    match request
    case Create(name, instanceID, keyspace, othersPass, canList) =>
      && canList && !InstanceIDInUse(cluster, instanceID)
      && GoodKeyspace(keyspace)
      && othersPass
      && name !in cluster.resources
    case Update(name, instanceID, keyspace, othersPass) =>
      && name in cluster.resources
      && cluster.resources[name].instanceID == instanceID
      && cluster.resources[name].keyspace == keyspace
      && othersPass
    case Delete(name) => name in cluster.resources
  }

  function Serve(cluster: Cluster, request: Request): Cluster {
    if !Admits(cluster, request) then cluster
    else
      match request
      case Create(name, instanceID, keyspace, _, _) =>
        Cluster(cluster.resources[name := Astarte(cluster.nextUid, instanceID, keyspace)], cluster.nextUid + 1)
      case Update(name, instanceID, keyspace, _) =>
        cluster.(resources := cluster.resources[name := Astarte(cluster.resources[name].uid, instanceID, keyspace)])
      case Delete(name) => cluster.(resources := cluster.resources - {name})
  }

  function ServeAll(cluster: Cluster, requests: seq<Request>): Cluster {
    if requests == [] then cluster
    else Serve(ServeAll(cluster, requests[..|requests| - 1]), requests[|requests| - 1])
  }

  const EMPTY := Cluster(map[], 0)

  ghost predicate Consistent(cluster: Cluster) {
    && (forall a <- cluster.resources, b <- cluster.resources ::
          a != b ==> cluster.resources[a].instanceID != cluster.resources[b].instanceID)
    && (forall a <- cluster.resources :: GoodKeyspace(cluster.resources[a].keyspace))
    && (forall a <- cluster.resources :: cluster.resources[a].uid < cluster.nextUid)
    && (forall a <- cluster.resources, b <- cluster.resources ::
          a != b ==> cluster.resources[a].uid != cluster.resources[b].uid)
  }

  lemma {:induction false} RunsAreConsistent(requests: seq<Request>)
    ensures Consistent(ServeAll(EMPTY, requests))
  {
    hide Consistent, Serve;
    if requests == [] {
      NothingIsConsistent();
    } else {
      RunsAreConsistent(requests[..|requests| - 1]);
      ServingIsConsistent(ServeAll(EMPTY, requests[..|requests| - 1]), requests[|requests| - 1]);
    }
  }

  lemma NothingIsConsistent()
    ensures Consistent(EMPTY)
  {
  }

  lemma ServingIsConsistent(cluster: Cluster, request: Request)
    requires Consistent(cluster)
    ensures Consistent(Serve(cluster, request))
  {
    hide GoodKeyspace;
  }

  /** In every run of admitted requests all instance IDs in the cluster are distinct, and every
      stored keyspace can be parsed at reconcile time without a check. */
  lemma AdmittedRunsAreSafe(requests: seq<Request>, a: (string, string), b: (string, string))
    requires a in ServeAll(EMPTY, requests).resources && b in ServeAll(EMPTY, requests).resources
    ensures var resources := ServeAll(EMPTY, requests).resources;
            && (a != b ==> resources[a].instanceID != resources[b].instanceID)
            && var keyspace := resources[a].keyspace;
               if keyspace.strategy == "SimpleStrategy" then keyspace.factor % 2 != 0
               else
                 var replication := TrustedMap(Split(keyspace.dataCenters, ','));
                 && replication == Some(CheckedMap(Split(keyspace.dataCenters, ',')))
                 && forall name <- replication.value :: replication.value[name] % 2 != 0
  {
    RunsAreConsistent(requests);
    var keyspace := ServeAll(EMPTY, requests).resources[a].keyspace;
    if keyspace.strategy != "SimpleStrategy" {
      TrustIsJustified(Split(keyspace.dataCenters, ','));
    }
  }

  /** A resource keeps its name, its instance ID and its keyspace for as long as it exists. */
  lemma {:induction false} AdmittedRunsFreezeIdentity(before: seq<Request>, after: seq<Request>, a: (string, string), b: (string, string))
    requires a in ServeAll(EMPTY, before).resources && b in ServeAll(EMPTY, before + after).resources
    requires ServeAll(EMPTY, before).resources[a].uid == ServeAll(EMPTY, before + after).resources[b].uid
    ensures a == b && ServeAll(EMPTY, before).resources[a] == ServeAll(EMPTY, before + after).resources[b]
    decreases |after|
  {
    RunsAreConsistent(before);
    if after == [] {
      assert before + after == before;
    } else {
      var init := after[..|after| - 1];
      assert (before + after)[..|before + after| - 1] == before + init;
      UidsGrow(before, init);
      if b in ServeAll(EMPTY, before + init).resources && ServeAll(EMPTY, before + init).resources[b].uid == ServeAll(EMPTY, before).resources[a].uid {
        AdmittedRunsFreezeIdentity(before, init, a, b);
      }
    }
  }

  lemma {:induction false} UidsGrow(before: seq<Request>, after: seq<Request>)
    ensures ServeAll(EMPTY, before).nextUid <= ServeAll(EMPTY, before + after).nextUid
    decreases |after|
  {
    if after == [] {
      assert before + after == before;
    } else {
      assert (before + after)[..|before + after| - 1] == before + after[..|after| - 1];
      UidsGrow(before, after[..|after| - 1]);
    }
  }
}
