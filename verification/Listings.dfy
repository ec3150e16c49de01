/** Lists of objects, taken to come in the order of names; nothing proved here depends on that. */
module Listings {
  import opened Checksums

  /** The first of some names. */
  function Least(names: set<string>): (first: string)
    requires names != {}
    ensures first in names && forall n <- names :: Below(first, n)
  {
    LeastExists(names);
    assert exists first <- names :: forall n <- names :: Below(first, n) by {
      var first :| First(first, names);
    }
    LeastIsUnique(names);
    var first :| first in names && forall n <- names :: Below(first, n);
    first
  }

  ghost predicate First(first: string, names: set<string>) {
    first in names && forall n <- names :: Below(first, n)
  }

  lemma {:induction false} LeastExists(names: set<string>)
    requires names != {}
    ensures exists first :: First(first, names)
    decreases |names|
  {
    hide First;
    var some :| some in names;
    var rest := names - {some};
    if rest == {} {
      FirstOfOne(some, names);
    } else {
      LeastExists(rest);
      var least :| First(least, rest);
      FirstOfMore(some, least, names);
    }
  }

  lemma FirstOfOne(some: string, names: set<string>)
    requires some in names && names - {some} == {}
    ensures First(some, names)
  {
    hide Below;
    BelowIsTotal(some, some);
    assert forall n <- names :: n == some by {
      assert forall n <- names :: n != some ==> n in names - {some};
    }
  }

  lemma FirstOfMore(some: string, least: string, names: set<string>)
    requires some in names && First(least, names - {some})
    ensures First(some, names) || First(least, names)
  {
    hide Below;
    BelowIsTotal(some, some);
    BelowIsTotal(some, least);
    forall n | n in names && Below(some, least) ensures Below(some, n) {
      if n != some {
        BelowIsTransitive(some, least, n);
      }
    }
    assert forall n <- names :: n == some || n in names - {some};
  }

  lemma LeastIsUnique(names: set<string>)
    ensures forall a, b | a in names && b in names && (forall n <- names :: Below(a, n)) && (forall n <- names :: Below(b, n)) :: a == b
  {
    forall a, b | a in names && b in names && (forall n <- names :: Below(a, n)) && (forall n <- names :: Below(b, n)) ensures a == b {
      BelowIsAntisymmetric(a, b);
    }
  }

  /** All of some names, in order. */
  function Listed(names: set<string>): (list: seq<string>)
    ensures forall n :: n in list <==> n in names
  {
    if names == {} then [] else [Least(names)] + Listed(names - {Least(names)})
  }
}
