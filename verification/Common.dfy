/** Types shared by every module. */
module Common {

  datatype Option<+T> = None | Some(value: T)

  datatype Result<+T, +E> = Ok(value: T) | Err(error: E)

  function Min(a: int, b: int): int { if a <= b then a else b }

  function Max(a: int, b: int): int { if a <= b then b else a }

  /** The elements of a finite set of ids, in ascending order: a query with ORDER BY id. */
  function Ascending(s: set<nat>): (r: seq<nat>)
    ensures forall x :: x in r <==> x in s
    ensures forall i, j :: 0 <= i < j < |r| ==> r[i] < r[j]
    decreases |s|
  {
    if s == {} then [] else [Least(s)] + Ascending(s - {Least(s)})
  }

  function Least(s: set<nat>): (m: nat)
    requires s != {}
    ensures m in s && forall x :: x in s ==> m <= x
  {
    HasLeast(s);
    var m :| m in s && forall x :: x in s ==> m <= x;
    m
  }

  lemma {:induction false} HasLeast(s: set<nat>)
    requires s != {}
    ensures exists m :: m in s && forall x :: x in s ==> m <= x
    decreases |s|
  {
    var e :| e in s;
    var rest := s - {e};
    var least := e;
    if rest != {} {
      HasLeast(rest);
      var m :| m in rest && forall x :: x in rest ==> m <= x;
      least := Min(e, m);
    }
    forall x | x in s ensures least <= x {
      assert x == e || x in rest;
    }
    assert least in s;
  }

  /** Cardinality grows with inclusion. */
  lemma {:induction false} SubsetCard<T>(a: set<T>, b: set<T>)
    requires a <= b
    ensures |a| <= |b|
  {
    assert b == a + (b - a);
    assert |b| == |a| + |b - a|;
  }

  /** A map with new values, computed by `f`, for some keys. */
  function Put<K, V>(m: map<K, V>, ks: set<K>, f: K --> V): map<K, V>
    requires forall k :: k in ks ==> f.requires(k)
  {
    m + map k | k in ks :: f(k)
  }

  lemma PutAdd<K, V>(m: map<K, V>, ks: set<K>, k: K, f: K --> V)
    requires f.requires(k) && forall x :: x in ks ==> f.requires(x)
    ensures Put(m, ks + {k}, f) == Put(m, ks, f)[k := f(k)]
  {}

  lemma PutTwice<K, V>(m: map<K, V>, a: set<K>, b: set<K>, f: K --> V, g: K --> V)
    requires forall k :: k in a + b ==> f.requires(k)
    requires forall k :: k in b ==> g.requires(k) && g(k) == f(k)
    ensures Put(Put(m, a, f), b, g) == Put(m, a + b, f)
  {}

  /** How many of the keys satisfy `p`. */
  function Count<K>(ks: set<K>, p: K --> bool): nat
    requires forall k :: k in ks ==> p.requires(k)
  {
    |set k | k in ks && p(k)|
  }

  lemma CountAdd<K>(ks: set<K>, k: K, p: K --> bool)
    requires k !in ks && p.requires(k) && forall x :: x in ks ==> p.requires(x)
    ensures Count(ks + {k}, p) == Count(ks, p) + (if p(k) then 1 else 0)
  {
    var before := set x | x in ks && p(x);
    assert (set x | x in ks + {k} && p(x)) == if p(k) then before + {k} else before;
  }

  lemma CountUnion<K>(a: set<K>, b: set<K>, p: K --> bool, q: K --> bool)
    requires a !! b
    requires forall x :: x in a + b ==> p.requires(x)
    requires forall x :: x in b ==> q.requires(x) && q(x) == p(x)
    ensures Count(a + b, p) == Count(a, p) + Count(b, q)
  {
    var x, y := set k | k in a && p(k), set k | k in b && q(k);
    assert (set k | k in a + b && p(k)) == x + y;
    assert x !! y;
  }

  lemma CountSame<K>(ks: set<K>, p: K --> bool, q: K --> bool)
    requires forall x :: x in ks ==> p.requires(x) && q.requires(x) && p(x) == q(x)
    ensures Count(ks, p) == Count(ks, q)
  {
    assert (set x | x in ks && p(x)) == set x | x in ks && q(x);
  }

  lemma CountNone<K>(ks: set<K>, p: K --> bool)
    requires forall x :: x in ks ==> p.requires(x) && !p(x)
    ensures Count(ks, p) == 0
  {
    assert (set x | x in ks && p(x)) == {};
  }

  lemma CountIs<K>(ks: set<K>, p: K --> bool, s: set<K>)
    requires forall k :: k in ks ==> p.requires(k)
    requires forall k :: k in s <==> k in ks && p(k)
    ensures Count(ks, p) == |s|
  {
    assert (set k | k in ks && p(k)) == s;
  }

  // ---- sequences without repetition ----

  predicate NoRepeats<T(==)>(s: seq<T>) { forall i, j :: 0 <= i < j < |s| ==> s[i] != s[j] }

  lemma {:induction false} NoRepeatsCount<T>(s: seq<T>)
    ensures NoRepeats(s) <==> forall x :: x in s ==> multiset(s)[x] == 1
  {
    if s != [] {
      var n := |s| - 1;
      assert s == s[..n] + [s[n]];
      NoRepeatsCount(s[..n]);
      if NoRepeats(s) {
        assert s[n] !in s[..n];
      } else if NoRepeats(s[..n]) {
        var i, j :| 0 <= i < j < |s| && s[i] == s[j];
        assert j == n && s[i] in s[..n];
        assert multiset(s)[s[n]] > 1;
      } else {
        var x :| x in s[..n] && multiset(s[..n])[x] != 1;
        assert x in s && multiset(s)[x] > 1;
      }
    }
  }

  /** Without repetition, being a permutation is having the same elements. */
  lemma PermutationIsSameElements<T>(a: seq<T>, b: seq<T>)
    requires NoRepeats(b)
    ensures multiset(a) == multiset(b) <==> NoRepeats(a) && forall x :: x in a <==> x in b
  {
    NoRepeatsCount(a);
    NoRepeatsCount(b);
    if multiset(a) == multiset(b) {
      forall x ensures x in a <==> x in b {
        assert x in a <==> x in multiset(a);
        assert x in b <==> x in multiset(b);
      }
    } else if NoRepeats(a) && forall x :: x in a <==> x in b {
      forall x ensures multiset(a)[x] == multiset(b)[x] {
        assert x in a <==> x in multiset(a);
        assert x in b <==> x in multiset(b);
      }
    }
  }
}
