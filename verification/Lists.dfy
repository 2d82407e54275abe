/** Lists without repetition, and in order. */
module Lists {

  predicate Distinct<T(==)>(xs: seq<T>) { forall i, j :: 0 <= i < j < |xs| ==> xs[i] != xs[j] }

  predicate Ascending(xs: seq<nat>) { forall i, j :: 0 <= i < j < |xs| ==> xs[i] < xs[j] }

  lemma {:induction false} InOrder(s: set<nat>) returns (xs: seq<nat>)
    ensures Ascending(xs) && forall x :: x in xs <==> x in s
  {
    if s == {} {
      xs := [];
    } else {
      var m := Greatest(s);
      var rest := InOrder(s - {m});
      xs := rest + [m];
      forall i | 0 <= i < |rest| ensures rest[i] < m {
        assert rest[i] in rest;
      }
    }
  }

  lemma {:induction false} Greatest(s: set<nat>) returns (m: nat)
    requires s != {}
    ensures m in s && forall x :: x in s ==> x <= m
  {
    var a :| a in s;
    if s == {a} {
      m := a;
    } else {
      var k := Greatest(s - {a});
      m := if k < a then a else k;
      forall x | x in s ensures x <= m {
        assert x == a || x in s - {a};
      }
    }
  }
}
