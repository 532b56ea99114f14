// Small datatypes and set facts shared by the other modules.
module Common {

  datatype Option<+T> = None | Some(value: T)

  datatype Result<+T, +E> = Ok(value: T) | Err(error: E)

  /** A Go map: either nil (readable as empty, never writable) or made. */
  datatype GoMap<K, +V> = Nil | Made(entries: map<K, V>)

  /** The content of a Go map; reading a nil one is allowed. */
  function Entries<K, V>(m: GoMap<K, V>): map<K, V> { match m case Nil => map[] case Made(entries) => entries }

  /** The ID of a user's session. */
  type User = string

  /** Go's `int` on a 64-bit platform. */
  type GoInt = x: int | -0x8000_0000_0000_0000 <= x < 0x8000_0000_0000_0000

  predicate Distinct<T(==)>(s: seq<T>) {
    forall i, j :: 0 <= i < j < |s| ==> s[i] != s[j]
  }

  predicate Injective(m: map<nat, GoInt>) {
    forall a, b :: a in m && b in m && a != b ==> m[a] != m[b]
  }

  lemma AddEntry(m: map<nat, GoInt>, k: nat, v: GoInt)
    requires Injective(m) && k !in m && v !in m.Values
    ensures Injective(m[k := v])
    ensures m[k := v].Values == m.Values + {v}
    ensures m[k := v].Keys == m.Keys + {k}
  {
    var m' := m[k := v];
    forall a | a in m ensures m[a] != v {
      assert m[a] in m.Values;
    }
    forall x | x in m.Values ensures x in m'.Values {
      var a :| a in m && m[a] == x;
      assert m'[a] == x;
    }
    assert m'[k] == v;
  }

  lemma {:induction false} InjectiveSize(m: map<nat, GoInt>)
    requires Injective(m)
    ensures |m.Values| == |m.Keys|
    decreases |m|
  {
    if m.Keys != {} {
      var k :| k in m;
      var rest := m - {k};
      InjectiveSize(rest);
      assert m.Keys == rest.Keys + {k};
      assert m.Values == rest.Values + {m[k]} by {
        forall v | v in m.Values ensures v in rest.Values + {m[k]} {
          var k' :| k' in m && m[k'] == v;
          if k' != k { assert rest[k'] == v; }
        }
        forall v | v in rest.Values ensures v in m.Values {
          var k' :| k' in rest && rest[k'] == v;
          assert m[k'] == v;
        }
      }
      assert forall k' :: k' in rest ==> rest[k'] == m[k'] != m[k];
      assert m[k] !in rest.Values;
    }
  }

  /** A subset of a finite set is no larger than the set. */
  lemma SubsetSize<T>(a: set<T>, b: set<T>)
    requires a <= b
    ensures |a| <= |b|
  {
    assert b == a + (b - a);
    assert |b| == |a| + |b - a|;
  }

  lemma StrictSubsetSize<T>(a: set<T>, b: set<T>)
    requires a < b
    ensures |a| < |b|
  {
    assert b == a + (b - a);
    assert |b| == |a| + |b - a|;
    assert b - a != {};
  }
}
