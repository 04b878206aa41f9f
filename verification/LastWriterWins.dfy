/** Tables whose rows carry a timestamp and where the newest write of a key wins. */
module LastWriterWins {
  function Put<K, R>(m: map<K, R>, k: K, r: R, ts: R -> int): map<K, R> {
    if k in m && ts(r) < ts(m[k]) then m else m[k := r]
  }

  function Fold<K, R>(m: map<K, R>, es: seq<(K, R)>, ts: R -> int): map<K, R>
    decreases |es|
  {
    if es == [] then m else Fold(Put(m, es[0].0, es[0].1, ts), es[1..], ts)
  }

  /** Writes of one key in one second carry one row, also against what is stored. */
  ghost predicate Consistent<K(!new), R(!new)>(m: map<K, R>, es: seq<(K, R)>, ts: R -> int) {
    && (forall i, j ::
         0 <= i < |es| && 0 <= j < |es| && es[i].0 == es[j].0 && ts(es[i].1) == ts(es[j].1) ==> es[i].1 == es[j].1)
    && (forall i :: 0 <= i < |es| && es[i].0 in m && ts(es[i].1) == ts(m[es[i].0]) ==> es[i].1 == m[es[i].0])
  }

  /** `r` is what is stored or written for `k`. */
  ghost predicate Offered<K, R>(m: map<K, R>, es: seq<(K, R)>, k: K, r: R) {
    (k in m && m[k] == r) || (k, r) in es
  }

  /** The fold keeps, for every key offered, a row offered for it that is newest. */
  lemma {:induction false} FoldIsNewest<K(!new), R(!new)>(m: map<K, R>, es: seq<(K, R)>, ts: R -> int)
    ensures forall k :: k in Fold(m, es, ts) ==> Offered(m, es, k, Fold(m, es, ts)[k])
    ensures forall k, r :: Offered(m, es, k, r) ==> k in Fold(m, es, ts) && ts(r) <= ts(Fold(m, es, ts)[k])
    decreases |es|
  {
    if es != [] {
      var m' := Put(m, es[0].0, es[0].1, ts);
      FoldIsNewest(m', es[1..], ts);
      var out := Fold(m', es[1..], ts);
      forall k | k in out ensures Offered(m, es, k, out[k]) {
        assert Offered(m', es[1..], k, out[k]);
        if (k, out[k]) !in es[1..] && k == es[0].0 && m' != m {
          assert es[0] == (k, out[k]);
        }
      }
      forall k, r | Offered(m, es, k, r) ensures k in out && ts(r) <= ts(out[k]) {
        if (k, r) in es[1..] {
          assert Offered(m', es[1..], k, r);
        } else {
          assert k in m' && ts(r) <= ts(m'[k]) by {
            if (k, r) in es {
              var i :| 0 <= i < |es| && es[i] == (k, r);
              assert i == 0 || es[1..][i - 1] == (k, r);
            }
          }
          assert Offered(m', es[1..], k, m'[k]);
        }
      }
    }
  }

  /** Reordering and repeating the writes changes nothing. */
  lemma Converges<K(!new), R(!new)>(m: map<K, R>, es: seq<(K, R)>, fs: seq<(K, R)>, ts: R -> int)
    requires Consistent(m, es, ts)
    requires forall e :: e in es <==> e in fs
    ensures Fold(m, es, ts) == Fold(m, fs, ts)
  {
    var a, b := Fold(m, es, ts), Fold(m, fs, ts);
    FoldIsNewest(m, es, ts);
    FoldIsNewest(m, fs, ts);
    assert forall k, r :: Offered(m, es, k, r) <==> Offered(m, fs, k, r);
    forall k | k in a ensures k in b && a[k] == b[k] {
      assert Offered(m, es, k, a[k]) && Offered(m, fs, k, a[k]);
      assert Offered(m, fs, k, b[k]) && Offered(m, es, k, b[k]);
      assert ts(a[k]) == ts(b[k]);
    }
    forall k | k in b ensures k in a {
      assert Offered(m, fs, k, b[k]) && Offered(m, es, k, b[k]);
    }
  }

  lemma {:induction false} FoldJoin<K, R>(m: map<K, R>, es: seq<(K, R)>, fs: seq<(K, R)>, ts: R -> int)
    ensures Fold(m, es + fs, ts) == Fold(Fold(m, es, ts), fs, ts)
    decreases |es|
  {
    if es == [] {
      assert es + fs == fs;
    } else {
      assert (es + fs)[1..] == es[1..] + fs;
      FoldJoin(Put(m, es[0].0, es[0].1, ts), es[1..], fs, ts);
    }
  }
}
