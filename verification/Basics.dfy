/** What several models share: optional values, and the sizes of finite sets. */
module Basics {

  datatype Option<+T> = None | Some(value: T)

  lemma SubsetSize<T>(a: set<T>, b: set<T>)
    requires a <= b
    ensures |a| <= |b|
  {
    if a != {} {
      var x :| x in a;
      SubsetSize(a - {x}, b - {x});
    }
  }

  /** A map that never gives the same value twice has as many values as keys. */
  lemma {:induction false} InjectiveSize<K, V>(f: map<K, V>)
    requires forall a, b :: a in f && b in f && f[a] == f[b] ==> a == b
    ensures |f.Values| == |f.Keys|
  {
    if f.Keys == {} {
      assert f.Values == {};
    } else {
      var a :| a in f;
      var g := f - {a};
      InjectiveSize(g);
      assert f.Keys == g.Keys + {a};
      assert f.Values == g.Values + {f[a]};
      assert f[a] !in g.Values;
    }
  }
}
