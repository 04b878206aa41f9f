/** Sums of weights over finite sets, independent of the order of summation. */
module Sums {
  ghost function Weight<K>(k: K, w: map<K, nat>): nat {
    if k in w then w[k] else 0
  }

  ghost function Sum<K>(s: set<K>, w: map<K, nat>): nat {
    if s == {} then 0 else var x :| x in s; Weight(x, w) + Sum(s - {x}, w)
  }

  lemma {:induction false} SumRemove<K>(s: set<K>, x: K, w: map<K, nat>)
    requires x in s
    ensures Sum(s, w) == Weight(x, w) + Sum(s - {x}, w)
  {
    var y :| y in s && Sum(s, w) == Weight(y, w) + Sum(s - {y}, w);
    if y != x {
      SumRemove(s - {y}, x, w);
      SumRemove(s - {x}, y, w);
      assert s - {y} - {x} == s - {x} - {y};
    }
  }

  lemma SumAdd<K>(s: set<K>, x: K, w: map<K, nat>)
    requires x !in s
    ensures Sum(s + {x}, w) == Weight(x, w) + Sum(s, w)
  {
    SumRemove(s + {x}, x, w);
    assert s + {x} - {x} == s;
  }

  lemma {:induction false} SumUnion<K>(a: set<K>, b: set<K>, w: map<K, nat>)
    requires a !! b
    ensures Sum(a + b, w) == Sum(a, w) + Sum(b, w)
    decreases |b|
  {
    if b == {} {
      assert a + b == a;
    } else {
      var x :| x in b;
      SumRemove(b, x, w);
      SumAdd(a + (b - {x}), x, w);
      assert a + (b - {x}) + {x} == a + b;
      SumUnion(a, b - {x}, w);
    }
  }

  lemma SumSubset<K>(a: set<K>, b: set<K>, w: map<K, nat>)
    requires a <= b
    ensures Sum(a, w) <= Sum(b, w)
  {
    SumUnion(a, b - a, w);
    assert a + (b - a) == b;
  }

  lemma {:induction false} SumAgree<K>(s: set<K>, v: map<K, nat>, w: map<K, nat>)
    requires forall k :: k in s ==> Weight(k, v) == Weight(k, w)
    ensures Sum(s, v) == Sum(s, w)
    decreases |s|
  {
    if s != {} {
      var x :| x in s;
      SumRemove(s, x, v);
      SumRemove(s, x, w);
      SumAgree(s - {x}, v, w);
    }
  }
}
