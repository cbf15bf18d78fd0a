/** Small collection vocabulary shared by the models: options and results, ascending
    key order, and sums over the values of a map. */
module Collections {

  datatype Option<+T> = None | Some(value: T)

  datatype Result<+T, +E> = Success(value: T) | Failure(error: E)

  /** The least element of a non-empty set of naturals. */
  function MinOf(ks: set<nat>): (m: nat)
    requires ks != {}
    ensures m in ks && forall k | k in ks :: m <= k
  {
    MinExists(ks);
    var m :| m in ks && forall k | k in ks :: m <= k;
    m
  }

  lemma MinExists(ks: set<nat>)
    requires ks != {}
    ensures exists m :: m in ks && forall k | k in ks :: m <= k
  {
    var x :| x in ks;
    MinBelow(ks, x);
  }

  lemma {:induction false} MinBelow(ks: set<nat>, x: nat)
    requires x in ks
    ensures exists m :: m in ks && forall k | k in ks :: m <= k
    decreases x
  {
    if exists y :: y in ks && y < x {
      var y :| y in ks && y < x;
      MinBelow(ks, y);
    } else {
      assert x in ks && forall k | k in ks :: x <= k;
    }
  }

  ghost predicate StrictlyAscending(s: seq<nat>) {
    forall i, j | 0 <= i < j < |s| :: s[i] < s[j]
  }

  /** The members of a set in ascending order. */
  function Ascending(ks: set<nat>): (r: seq<nat>)
    ensures |r| == |ks|
    ensures forall k :: k in ks <==> k in r
    ensures StrictlyAscending(r)
  {
    if ks == {} then []
    else
      var m := MinOf(ks);
      var rest := Ascending(ks - {m});
      AscendingCons(ks, m, rest);
      [m] + rest
  }

  lemma AscendingCons(ks: set<nat>, m: nat, rest: seq<nat>)
    requires m in ks && (forall k | k in ks :: m <= k)
    requires (forall k :: k in ks - {m} <==> k in rest) && StrictlyAscending(rest)
    ensures (forall k :: k in ks <==> k in [m] + rest) && StrictlyAscending([m] + rest)
  {
    forall i | 0 <= i < |rest| ensures m < rest[i] {
      assert rest[i] in rest;
    }
  }

  /** The sum of f over the values of m. */
  ghost function MapSum<V>(m: map<nat, V>, f: V -> nat): nat
    decreases |m|
  {
    if m == map[] then 0
    else
      var k := MinOf(m.Keys);
      f(m[k]) + MapSum(m - {k}, f)
  }

  lemma {:induction false} MapSumSplit<V>(m: map<nat, V>, k: nat, f: V -> nat)
    requires k in m
    ensures MapSum(m, f) == f(m[k]) + MapSum(m - {k}, f)
    decreases |m|
  {
    var least := MinOf(m.Keys);
    if k != least {
      MapSumSplit(m - {least}, k, f);
      assert (m - {k}).Keys == m.Keys - {k} && least in (m - {k}).Keys;
      var other := MinOf((m - {k}).Keys);
      assert least == other;
      assert m - {least} - {k} == m - {k} - {least};
    }
  }

  lemma MapSumPut<V>(m: map<nat, V>, k: nat, v: V, f: V -> nat)
    ensures MapSum(m[k := v], f) + (if k in m then f(m[k]) else 0) == MapSum(m, f) + f(v)
  {
    MapSumSplit(m[k := v], k, f);
    assert m[k := v] - {k} == m - {k};
    if k in m {
      MapSumSplit(m, k, f);
    } else {
      assert m - {k} == m;
    }
  }
}
