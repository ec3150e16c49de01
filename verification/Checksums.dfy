/**
 The checksum that restarts CFSSL when its configuration changes: the keys of a ConfigMap are
 sorted and the values are concatenated in that order, because Go iterates over maps in an
 unspecified order. The hash function itself is applied to the resulting text.
 */
module Checksums {
  import opened Specs
  import Json

  /** Lexicographic order on strings. */
  predicate Below(a: string, b: string) {
    a == "" || (b != "" && (a[0] < b[0] || (a[0] == b[0] && Below(a[1..], b[1..]))))
  }

  /** The order of Go's strings: one begins the other, or the first characters that differ decide. */
  lemma {:induction false} BelowExactlyWhen(a: string, b: string)
    ensures Below(a, b) <==> a <= b || exists i :: 0 <= i < |a| && i < |b| && a[..i] == b[..i] && a[i] < b[i]
  {
    if a != "" && b != "" {
      if a[0] == b[0] {
        BelowExactlyWhen(a[1..], b[1..]);
        SameFirst(a, b);
      } else {
        assert forall i :: 0 < i <= |a| && i <= |b| ==> a[..i][0] == a[0] && b[..i][0] == b[0];
        assert a[..0] == b[..0];
      }
    }
  }

  lemma SameFirst(a: string, b: string)
    requires a != "" && b != "" && a[0] == b[0]
    ensures a <= b <==> a[1..] <= b[1..]
    ensures (exists i :: 0 <= i < |a| && i < |b| && a[..i] == b[..i] && a[i] < b[i]) <==>
            exists i :: 0 <= i < |a| - 1 && i < |b| - 1 && a[1..][..i] == b[1..][..i] && a[1..][i] < b[1..][i]
  {
    assert a == [a[0]] + a[1..] && b == [b[0]] + b[1..];
    if i :| 0 <= i < |a| && i < |b| && a[..i] == b[..i] && a[i] < b[i] {
      assert i > 0 && a[1..][..i - 1] == a[..i][1..] && b[1..][..i - 1] == b[..i][1..];
      assert a[1..][i - 1] < b[1..][i - 1];
    }
    if i :| 0 <= i < |a| - 1 && i < |b| - 1 && a[1..][..i] == b[1..][..i] && a[1..][i] < b[1..][i] {
      assert a[..i + 1] == [a[0]] + a[1..][..i] && b[..i + 1] == [b[0]] + b[1..][..i];
      assert a[i + 1] < b[i + 1];
    }
  }

  lemma {:induction false} BelowIsTransitive(a: string, b: string, c: string)
    requires Below(a, b) && Below(b, c)
    ensures Below(a, c)
  {
    if a != "" && a[0] == b[0] == c[0] {
      BelowIsTransitive(a[1..], b[1..], c[1..]);
    }
  }

  lemma {:induction false} BelowIsAntisymmetric(a: string, b: string)
    requires Below(a, b) && Below(b, a)
    ensures a == b
  {
    if a != "" {
      BelowIsAntisymmetric(a[1..], b[1..]);
      assert a == [a[0]] + a[1..] && b == [b[0]] + b[1..];
    }
  }

  lemma {:induction false} BelowIsTotal(a: string, b: string)
    ensures Below(a, b) || Below(b, a)
  {
    if a != "" && b != "" && a[0] == b[0] {
      BelowIsTotal(a[1..], b[1..]);
    }
  }

  ghost predicate Sorted(keys: seq<string>) {
    forall i, j :: 0 <= i < j < |keys| ==> Below(keys[i], keys[j])
  }

  /** An order in which an iteration over the map may deliver its keys. */
  ghost predicate IterationOrder(keys: seq<string>, data: map<string, string>) {
    && (forall i, j :: 0 <= i < j < |keys| ==> keys[i] != keys[j])
    && (forall k :: k in keys <==> k in data)
  }

  /** The values of a map, concatenated in the order of a list of its keys. */
  function Concatenated(keys: seq<string>, data: map<string, string>): string
    requires forall k <- keys :: k in data
  {
    if keys == [] then "" else Concatenated(keys[..|keys| - 1], data) + data[keys[|keys| - 1]]
  }

  /** The text that is hashed, for any sorted enumeration of the keys. */
  ghost predicate HashedText(text: string, data: map<string, string>) {
    exists keys :: IterationOrder(keys, data) && Sorted(keys) && text == Concatenated(keys, data)
  }

  /** The same strings, each as many times. */
  ghost predicate Permutation(a: seq<string>, b: seq<string>) {
    multiset(a) == multiset(b)
  }

  /** Sorts the keys in place, as an array. */
  method SortStrings(keys: array<string>)
    modifies keys
    ensures Sorted(keys[..]) && Permutation(keys[..], old(keys[..]))
  {
    hide Below;
    for n := 0 to keys.Length
      invariant Sorted(keys[..n])
      invariant Permutation(keys[..], old(keys[..]))
    {
      Insert(keys, n);
    }
    assert keys[..keys.Length] == keys[..];
  }

  /** Moves one key down to its place among the sorted ones before it. */
  method Insert(keys: array<string>, n: nat)
    requires n < keys.Length && Sorted(keys[..n])
    modifies keys
    ensures Sorted(keys[..n + 1]) && Permutation(keys[..], old(keys[..]))
  {
    hide Below, Sorted, Permutation;
    ghost var before := keys[..];
    var i := n;
    while i > 0 && !Below(keys[i - 1], keys[i])
      invariant 0 <= i <= n
      invariant forall k :: 0 <= k < i || n < k < keys.Length ==> keys[k] == before[k]
      invariant keys[i] == before[n]
      invariant forall k :: i <= k < n ==> keys[k + 1] == before[k]
      invariant i < n ==> Below(before[n], before[i])
    {
      BelowIsTotal(keys[i - 1], keys[i]);
      keys[i - 1], keys[i] := keys[i], keys[i - 1];
      i := i - 1;
    }
    Inserted(before, keys[..], n, i);
    assert keys[..n + 1] == keys[..][..n + 1] && before[..n] == old(keys[..n]);
  }

  lemma Inserted(before: seq<string>, after: seq<string>, n: nat, i: nat)
    requires i <= n < |before| == |after| && Sorted(before[..n])
    requires forall k :: 0 <= k < i || n < k < |before| ==> after[k] == before[k]
    requires after[i] == before[n]
    requires forall k :: i <= k < n ==> after[k + 1] == before[k]
    requires i < n ==> Below(before[n], before[i])
    requires i > 0 ==> Below(before[i - 1], before[n])
    ensures Sorted(after[..n + 1]) && Permutation(after, before)
  {
    hide Below, Sorted, Permutation;
    var others, x, rest := before[..n], before[n], before[n + 1..];
    assert after == others[..i] + [x] + others[i..] + rest && after[..n + 1] == others[..i] + [x] + others[i..] by {
      MovedDown(before, after, n, i);
    }
    InsertedIsSorted(others, x, i);
    SamePieces(others, x, i, rest);
    InPieces(before, n);
  }

  lemma MovedDown(before: seq<string>, after: seq<string>, n: nat, i: nat)
    requires i <= n < |before| == |after|
    requires forall k :: 0 <= k < i || n < k < |before| ==> after[k] == before[k]
    requires after[i] == before[n]
    requires forall k :: i <= k < n ==> after[k + 1] == before[k]
    ensures var others := before[..n];
            && after == others[..i] + [before[n]] + others[i..] + before[n + 1..]
            && after[..n + 1] == others[..i] + [before[n]] + others[i..]
  {
    var others := before[..n];
    assert after[..i] == others[..i];
    assert after[i + 1..n + 1] == others[i..];
    assert after[n + 1..] == before[n + 1..];
    assert after[..n + 1] == after[..i] + [after[i]] + after[i + 1..n + 1];
    assert after == after[..n + 1] + after[n + 1..];
  }

  lemma InPieces(keys: seq<string>, n: nat)
    requires n < |keys|
    ensures keys == keys[..n] + [keys[n]] + keys[n + 1..]
  {
  }

  lemma InsertedIsSorted(others: seq<string>, x: string, i: nat)
    requires i <= |others| && Sorted(others)
    requires i > 0 ==> Below(others[i - 1], x)
    requires i < |others| ==> Below(x, others[i])
    ensures Sorted(others[..i] + [x] + others[i..])
  {
    hide Below;
    forall a | 0 <= a < i ensures Below(others[a], x) {
      if a < i - 1 { BelowIsTransitive(others[a], others[i - 1], x); }
    }
    forall b | i <= b < |others| ensures Below(x, others[b]) {
      if b > i { BelowIsTransitive(x, others[i], others[b]); }
    }
  }

  lemma SamePieces(others: seq<string>, x: string, i: nat, rest: seq<string>)
    requires i <= |others|
    ensures Permutation(others[..i] + [x] + others[i..] + rest, others + [x] + rest)
  {
    assert others == others[..i] + others[i..];
  }

  method GetChecksumForConfigMap(data: map<string, string>, iteration: seq<string>) returns (allData: string)
    requires IterationOrder(iteration, data)
    ensures HashedText(allData, data)
  {
    var keys := new string[|iteration|](i requires 0 <= i < |iteration| => iteration[i]);
    assert keys[..] == iteration;
    SortStrings(keys);
    SortedIterationOrder(iteration, keys[..], data);
    allData := "";
    for i := 0 to keys.Length
      invariant allData == Concatenated(keys[..i], data)
    {
      assert keys[..i + 1][..i] == keys[..i];
      assert keys[i] in keys[..];
      allData := allData + data[keys[i]];
    }
    assert keys[..keys.Length] == keys[..];
  }

  lemma SortedIterationOrder(iteration: seq<string>, sorted: seq<string>, data: map<string, string>)
    requires IterationOrder(iteration, data) && Permutation(sorted, iteration)
    ensures IterationOrder(sorted, data)
  {
    forall k ensures k in sorted <==> k in data {
      assert k in sorted <==> k in multiset(sorted);
      assert k in iteration <==> k in multiset(iteration);
    }
    forall k ensures multiset(iteration)[k] <= 1 {
      DistinctMeansOnce(iteration, k);
    }
    forall i, j | 0 <= i < j < |sorted| ensures sorted[i] != sorted[j] {
      TwiceMeansTwo(sorted, i, j);
    }
  }

  lemma {:induction false} DistinctMeansOnce(keys: seq<string>, k: string)
    requires forall i, j :: 0 <= i < j < |keys| ==> keys[i] != keys[j]
    ensures multiset(keys)[k] <= 1
  {
    if keys != [] {
      var init, last := keys[..|keys| - 1], keys[|keys| - 1];
      DistinctMeansOnce(init, k);
      assert keys == init + [last];
      if k == last {
        assert k !in init;
      }
    }
  }

  lemma TwiceMeansTwo(keys: seq<string>, i: nat, j: nat)
    requires i < j < |keys|
    ensures keys[i] == keys[j] ==> multiset(keys)[keys[i]] >= 2
  {
    assert keys == keys[..j] + [keys[j]] + keys[j + 1..];
    assert keys[..j] == keys[..i] + [keys[i]] + keys[i + 1..j];
  }

  /** Sorting leaves no choice: two sorted enumerations of the same keys are equal. */
  lemma {:induction false} SortedOrderIsUnique(a: seq<string>, b: seq<string>, data: map<string, string>)
    requires IterationOrder(a, data) && IterationOrder(b, data) && Sorted(a) && Sorted(b)
    ensures a == b
    decreases |a|
  {
    hide Below, Sorted, IterationOrder;
    EmptyOrder(a, data);
    EmptyOrder(b, data);
    if a != [] {
      var x, y := a[|a| - 1], b[|b| - 1];
      SameLast(a, b, data);
      DropLast(a, data);
      DropLast(b, data);
      SortedOrderIsUnique(a[..|a| - 1], b[..|b| - 1], data - {x});
      assert a == a[..|a| - 1] + [x] && b == b[..|b| - 1] + [y];
    }
  }

  lemma SameLast(a: seq<string>, b: seq<string>, data: map<string, string>)
    requires IterationOrder(a, data) && IterationOrder(b, data) && Sorted(a) && Sorted(b) && a != [] && b != []
    ensures a[|a| - 1] == b[|b| - 1]
  {
    hide Below, Sorted;
    var x, y := a[|a| - 1], b[|b| - 1];
    assert x in data && y in data;
    LastIsLargest(a, y);
    LastIsLargest(b, x);
    BelowIsAntisymmetric(x, y);
  }

  lemma EmptyOrder(keys: seq<string>, data: map<string, string>)
    requires IterationOrder(keys, data)
    ensures keys == [] <==> data.Keys == {}
  {
    if keys != [] {
      assert keys[0] in data;
    }
  }

  lemma LastIsLargest(keys: seq<string>, k: string)
    requires Sorted(keys) && k in keys
    ensures Below(k, keys[|keys| - 1])
  {
    var i :| 0 <= i < |keys| && keys[i] == k;
    BelowIsTotal(k, k);
  }

  lemma DropLast(keys: seq<string>, data: map<string, string>)
    requires IterationOrder(keys, data) && Sorted(keys) && keys != []
    ensures IterationOrder(keys[..|keys| - 1], data - {keys[|keys| - 1]}) && Sorted(keys[..|keys| - 1])
  {
    var init, last := keys[..|keys| - 1], keys[|keys| - 1];
    assert keys == init + [last];
    forall k ensures k in init <==> k in data - {last} {
      if k in init {
        assert k in keys && k != last;
      }
      if k in data - {last} {
        assert k in keys;
      }
    }
  }

  /** The hashed text is a function of the map: iteration order cannot change the checksum. */
  lemma ChecksumIgnoresIterationOrder(text: string, text': string, data: map<string, string>)
    requires HashedText(text, data) && HashedText(text', data)
    ensures text == text'
  {
    var keys :| IterationOrder(keys, data) && Sorted(keys) && text == Concatenated(keys, data);
    var keys' :| IterationOrder(keys', data) && Sorted(keys') && text' == Concatenated(keys', data);
    SortedOrderIsUnique(keys, keys', data);
  }

  // --- What the checksum tells apart ---

  function Joined(texts: seq<string>): string {
    if texts == [] then "" else texts[0] + Joined(texts[1..])
  }

  lemma {:induction false} JoinedAppend(texts: seq<string>, last: string)
    ensures Joined(texts + [last]) == Joined(texts) + last
  {
    if texts == [] {
      assert [last][1..] == [];
      assert texts + [last] == [last];
    } else {
      assert (texts + [last])[1..] == texts[1..] + [last];
      JoinedAppend(texts[1..], last);
    }
  }

  function ValuesOf(keys: seq<string>, data: map<string, string>): (values: seq<string>)
    requires forall k <- keys :: k in data
    ensures |values| == |keys| && forall i :: 0 <= i < |keys| ==> values[i] == data[keys[i]]
  {
    seq(|keys|, i requires 0 <= i < |keys| => data[keys[i]])
  }

  lemma {:induction false} ConcatenatedIsJoined(keys: seq<string>, data: map<string, string>)
    requires forall k <- keys :: k in data
    ensures Concatenated(keys, data) == Joined(ValuesOf(keys, data))
  {
    if keys != [] {
      var last := |keys| - 1;
      ConcatenatedIsJoined(keys[..last], data);
      JoinedAppend(ValuesOf(keys[..last], data), data[keys[last]]);
      assert ValuesOf(keys, data) == ValuesOf(keys[..last], data) + [data[keys[last]]];
    }
  }

  /** None of these texts is empty, and none begins another. */
  ghost predicate PrefixFree(texts: set<string>) {
    forall s, t | s in texts && t in texts :: s != "" && !(s < t)
  }

  ghost predicate From(list: seq<string>, texts: set<string>) {
    forall i :: 0 <= i < |list| ==> list[i] in texts
  }

  /** Such texts can be cut apart again in one way only. */
  lemma {:induction false} JoinedIsInjective(a: seq<string>, b: seq<string>, texts: set<string>)
    requires PrefixFree(texts) && From(a, texts) && From(b, texts) && Joined(a) == Joined(b)
    ensures a == b
    decreases |a|
  {
    if a != [] && b != [] {
      FirstIsSame(a, b, texts);
      assert Joined(a[1..]) == Joined(a)[|a[0]|..] == Joined(b)[|b[0]|..] == Joined(b[1..]);
      JoinedIsInjective(a[1..], b[1..], texts);
      assert a == [a[0]] + a[1..] && b == [b[0]] + b[1..];
    }
  }

  lemma FirstIsSame(a: seq<string>, b: seq<string>, texts: set<string>)
    requires PrefixFree(texts) && From(a, texts) && From(b, texts) && Joined(a) == Joined(b) && a != [] && b != []
    ensures a[0] == b[0]
  {
    var text, s, t := Joined(a), a[0], b[0];
    assert s in texts && t in texts;
    assert text[..|s|] == s && text[..|t|] == t;
    if |s| <= |t| {
      assert s == t[..|s|];
    }
  }

  /** For maps with the same keys and such values, the hashed texts are equal only if the maps are; and
      maps with other numbers of keys never have equal ones. */
  lemma EqualTextsMeanEqualMaps(text: string, a: map<string, string>, b: map<string, string>)
    requires HashedText(text, a) && HashedText(text, b) && PrefixFree(a.Values + b.Values)
    ensures |a| == |b|
    ensures a.Keys == b.Keys ==> a == b
  {
    hide Sorted, Below, Concatenated, PrefixFree;
    var keys :| IterationOrder(keys, a) && Sorted(keys) && text == Concatenated(keys, a);
    var keys' :| IterationOrder(keys', b) && Sorted(keys') && text == Concatenated(keys', b);
    OrderCounts(keys, a);
    OrderCounts(keys', b);
    SameValues(keys, a, keys', b);
    assert |keys| == |ValuesOf(keys, a)| == |keys'|;
    if a.Keys == b.Keys {
      SameMaps(keys, a, keys', b);
    }
  }

  lemma SameMaps(keys: seq<string>, a: map<string, string>, keys': seq<string>, b: map<string, string>)
    requires IterationOrder(keys, a) && IterationOrder(keys', b) && Sorted(keys) && Sorted(keys')
    requires ValuesOf(keys, a) == ValuesOf(keys', b) && a.Keys == b.Keys
    ensures a == b
  {
    hide Sorted, Below;
    SortedOrderIsUnique(keys, keys', b);
    forall k | k in a ensures a[k] == b[k] {
      var i :| 0 <= i < |keys| && keys[i] == k;
      assert ValuesOf(keys, a)[i] == ValuesOf(keys', b)[i];
    }
  }

  lemma SameValues(keys: seq<string>, a: map<string, string>, keys': seq<string>, b: map<string, string>)
    requires IterationOrder(keys, a) && IterationOrder(keys', b) && Concatenated(keys, a) == Concatenated(keys', b)
    requires PrefixFree(a.Values + b.Values)
    ensures ValuesOf(keys, a) == ValuesOf(keys', b)
  {
    hide Concatenated, PrefixFree;
    ConcatenatedIsJoined(keys, a);
    ConcatenatedIsJoined(keys', b);
    JoinedIsInjective(ValuesOf(keys, a), ValuesOf(keys', b), a.Values + b.Values);
  }

  lemma {:induction false} OrderCounts(keys: seq<string>, data: map<string, string>)
    requires IterationOrder(keys, data)
    ensures |keys| == |data| && forall k :: k in keys <==> k in data
    decreases |keys|
  {
    if keys == [] {
      assert data == map[];
    } else {
      var last := |keys| - 1;
      OrderWithoutLast(keys, data);
      OrderCounts(keys[..last], data - {keys[last]});
      assert data.Keys == (data - {keys[last]}).Keys + {keys[last]};
      assert |data.Keys| == |data| && |(data - {keys[last]}).Keys| == |data - {keys[last]}|;
    }
  }

  lemma OrderWithoutLast(keys: seq<string>, data: map<string, string>)
    requires IterationOrder(keys, data) && keys != []
    ensures IterationOrder(keys[..|keys| - 1], data - {keys[|keys| - 1]})
  {
    var init, last := keys[..|keys| - 1], keys[|keys| - 1];
    assert keys == init + [last];
  }

  /** The parts of CFSSL's configuration: JSON objects, the last one optional. */
  datatype Configuration = Configuration(caRoot: Json.Value, csrRoot: Json.Value, db: Option<Json.Value>) {
    predicate Valid() {
      caRoot.Object? && csrRoot.Object? && (db.Some? ==> db.value.Object?)
    }

    function Data(): map<string, string> {
      var required := map["ca_root_config.json" := Json.Marshal(caRoot), "csr_root_ca.json" := Json.Marshal(csrRoot)];
      if db.Some? then required["db_config.json" := Json.Marshal(db.value)] else required
    }
  }

  /** The checksum covers values only, but it does tell apart the configurations that the operator makes:
      the hashed texts are equal if and only if the ConfigMaps are. */
  lemma ConfigurationsAreToldApart(text: string, text': string, a: Configuration, b: Configuration)
    requires a.Valid() && b.Valid() && HashedText(text, a.Data()) && HashedText(text', b.Data())
    ensures text == text' <==> a.Data() == b.Data()
  {
    hide HashedText;
    if a.Data() == b.Data() {
      ChecksumIgnoresIterationOrder(text, text', a.Data());
    }
    if text == text' {
      var texts := a.Data().Values + b.Data().Values;
      forall s, t | s in texts && t in texts ensures s != "" && !(s < t) {
        var v := ValueOf(a, b, s);
        var w := ValueOf(a, b, t);
        Json.ObjectsDoNotBegin(v, w);
      }
      EqualTextsMeanEqualMaps(text, a.Data(), b.Data());
      SameNumberSameKeys(a, b);
    }
  }

  lemma ValueOf(a: Configuration, b: Configuration, s: string) returns (v: Json.Value)
    requires a.Valid() && b.Valid() && s in a.Data().Values + b.Data().Values
    ensures v.Object? && s == Json.Marshal(v)
  {
    hide Json.Marshal;
    var c := if s in a.Data().Values then a else b;
    var key :| key in c.Data() && c.Data()[key] == s;
    v := if key == "ca_root_config.json" then c.caRoot else if key == "csr_root_ca.json" then c.csrRoot else c.db.value;
  }

  lemma SameNumberSameKeys(a: Configuration, b: Configuration)
    requires |a.Data()| == |b.Data()|
    ensures a.Data().Keys == b.Data().Keys
  {
    hide Json.Marshal;
    var short := {"ca_root_config.json", "csr_root_ca.json"};
    var long := short + {"db_config.json"};
    assert "ca_root_config.json"[1] != "csr_root_ca.json"[1];
    assert |short| == 2 && |long| == 3;
    assert a.Data().Keys == (if a.db.Some? then long else short);
    assert b.Data().Keys == (if b.db.Some? then long else short);
    assert |a.Data()| == |a.Data().Keys| && |b.Data()| == |b.Data().Keys|;
  }

  /** For other maps it need not: moving text between neighbouring keys goes unnoticed. */
  lemma ChecksumMissesMovedText()
    ensures var a, b := map["k" := "xy", "l" := "z"], map["k" := "x", "l" := "yz"];
            a != b && exists text :: HashedText(text, a) && HashedText(text, b)
  {
    var a, b := map["k" := "xy", "l" := "z"], map["k" := "x", "l" := "yz"];
    assert a["k"] == "xy" && b["k"] == "x";
    var keys := ["k", "l"];
    assert keys[0] == "k" && keys[1] == "l";
    assert IterationOrder(keys, a) && IterationOrder(keys, b) && Sorted(keys);
    assert keys[..1] == ["k"] && keys[..1][..0] == [];
    assert Concatenated(keys, a) == "xyz" && Concatenated(keys, b) == "xyz";
    assert HashedText("xyz", a) && HashedText("xyz", b);
  }
}
