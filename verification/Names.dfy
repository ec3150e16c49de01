/** Why the Data Updater Plant Deployments can be told apart by number: their names differ. */
module Names {
  import opened Text

  const COMPONENT_NAME := "-data-updater-plant"

  /** Replica 0 keeps the plain name, which the single-replica case uses as well. */
  function DUPName(instance: string, index: nat): string {
    instance + COMPONENT_NAME + if index > 0 then "-" + Itoa(index) else ""
  }

  lemma DUPNamesAreDistinct(instance: string, i: nat, j: nat)
    requires DUPName(instance, i) == DUPName(instance, j)
    ensures i == j
  {
    var prefix := instance + COMPONENT_NAME;
    var a, b := if i > 0 then "-" + Itoa(i) else "", if j > 0 then "-" + Itoa(j) else "";
    assert (prefix + a)[|prefix|..] == a && (prefix + b)[|prefix|..] == b;
    if i > 0 && j > 0 {
      assert a[1..] == Itoa(i) && b[1..] == Itoa(j);
      ItoaIsInjective(i, j);
    }
  }
}
