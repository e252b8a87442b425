/** pkg/lib/hashing.go */
module Hashing {
  import opened Sorting

  /** `index` is the place in the caller's slice, which a stable sort keeps as the tie-break. */
  datatype Record<V> = Record(record: V, value: int, index: nat)

  predicate Before<V(!new)>(r: Record<V>, s: Record<V>) {
    r.value < s.value || (r.value == s.value && r.index < s.index)
  }

  predicate Sorted<V(!new)>(rs: seq<Record<V>>) {
    forall i, j :: 0 <= i < j < |rs| ==> Before(rs[i], rs[j])
  }

  function ValueOf<V>(r: Record<V>): int {
    r.value
  }

  lemma InsertKeepsSorted<V(!new)>(rs: seq<Record<V>>, r: Record<V>)
    requires Sorted(rs) && forall s :: s in rs ==> s.index < r.index
    ensures Sorted(Insert(rs, r, ValueOf))
  {
    hide Insert, Position;
    var p, placed := Position(rs, r, ValueOf), Insert(rs, r, ValueOf);
    InsertedAt(rs, r, ValueOf);
    forall i | 0 <= i < p ensures Before(rs[i], r) {
      assert rs[i] in rs && (i < p - 1 ==> Before(rs[i], rs[p - 1]));
    }
    forall i, j | 0 <= i < j < |placed| ensures Before(placed[i], placed[j]) {
      if i == p {
        assert ValueOf(r) < ValueOf(rs[j - 1]) && placed[j] == rs[j - 1];
      } else if j == p {
        assert Before(rs[i], r) && placed[i] == rs[i];
      } else {
        assert Before(rs[if i < p then i else i - 1], rs[if j < p then j else j - 1]);
      }
    }
  }

  // ---- What is chosen, without sorting ----

  /** Index i wins over j for this key: buckets at or above the key first, then lower buckets, then order. */
  predicate Wins<V(!new)>(values: seq<V>, bucket: V -> int, key: int, i: nat, j: nat)
    requires i < |values| && j < |values|
  {
    var b, c := bucket(values[i]), bucket(values[j]);
    if (b >= key) != (c >= key) then b >= key else b < c || (b == c && i <= j)
  }

  ghost predicate Chosen<V(!new)>(values: seq<V>, bucket: V -> int, key: int, i: nat) {
    i < |values| && forall j: nat :: j < |values| ==> Wins(values, bucket, key, i, j)
  }

  function Choose<V(!new)>(values: seq<V>, bucket: V -> int, key: int): (i: nat)
    requires values != []
    ensures Chosen(values, bucket, key, i)
  {
    if |values| == 1 then 0 else
      var init := values[..|values| - 1];
      var i := Choose(init, bucket, key);
      assert forall j: nat :: j < |init| ==> Wins(init, bucket, key, i, j) && values[j] == init[j];
      if Wins(values, bucket, key, i, |values| - 1) then i else |values| - 1
  }

  /** The smallest index whose value reaches the key. */
  method Search<V(!new)>(vs: seq<Record<V>>, key: int) returns (i: nat)
    requires Sorted(vs)
    ensures i <= |vs|
    ensures forall k :: 0 <= k < i ==> vs[k].value < key
    ensures forall k :: i <= k < |vs| ==> vs[k].value >= key
  {
    i := 0;
    var j := |vs|;
    while i < j
      invariant 0 <= i <= j <= |vs|
      invariant forall k :: 0 <= k < i ==> vs[k].value < key
      invariant forall k :: j <= k < |vs| ==> vs[k].value >= key
    {
      var h := (i + j) / 2;
      if vs[h].value < key {
        i := h + 1;
      } else {
        j := h;
      }
    }
  }

  /** The records of the first n elements of the slice, each with its bucket. */
  ghost predicate RecordsOf<V(!new)>(rs: seq<Record<V>>, values: seq<V>, n: nat, bucket: V -> int)
    requires n <= |values|
  {
    && (forall s :: s in rs ==> s.index < n && s.record == values[s.index] && s.value == bucket(s.record))
    && (forall i: nat :: i < n ==> Record(values[i], bucket(values[i]), i) in rs)
  }

  lemma PlaceRecord<V(!new)>(rs: seq<Record<V>>, values: seq<V>, n: nat, bucket: V -> int)
    requires n < |values| && Sorted(rs) && RecordsOf(rs, values, n, bucket)
    ensures
      var placed := Insert(rs, Record(values[n], bucket(values[n]), n), ValueOf);
      Sorted(placed) && RecordsOf(placed, values, n + 1, bucket)
  {
    hide Insert, Sorted;
    var r := Record(values[n], bucket(values[n]), n);
    InsertKeepsSorted(rs, r);
    InsertHolds(rs, r, ValueOf);
    assert forall s :: s in Insert(rs, r, ValueOf) <==> s in multiset(Insert(rs, r, ValueOf));
    assert forall s :: s in Insert(rs, r, ValueOf) <==> s in rs || s == r;
  }

  /** Sorting by bucket and searching picks the least bucket at or above the key, else the least bucket. */
  method ConsistentHash<V(!new)>(values: seq<V>, key: int, bucket: V -> int) returns (v: V)
    requires values != []
    ensures v == values[Choose(values, bucket, key)] && v in values
    ensures (exists w :: w in values && bucket(w) >= key) ==>
      bucket(v) >= key && forall w :: w in values && bucket(w) >= key ==> bucket(v) <= bucket(w)
    ensures (forall w :: w in values ==> bucket(w) < key) ==> forall w :: w in values ==> bucket(v) <= bucket(w)
  {
    hide Insert;
    var vs: seq<Record<V>> := [];
    for n := 0 to |values|
      invariant Sorted(vs) && RecordsOf(vs, values, n, bucket)
    {
      var r := Record(values[n], bucket(values[n]), n);
      PlaceRecord(vs, values, n, bucket);
      vs := Insert(vs, r, ValueOf);
    }
    assert Record(values[0], bucket(values[0]), 0) in vs;
    var idx := Search(vs, key);
    var at := if idx == |vs| then 0 else idx;
    v := vs[at].record;
    ghost var i := vs[at].index;
    assert vs[at] in vs;
    forall j: nat | j < |values| ensures Wins(values, bucket, key, i, j) {
      var r := Record(values[j], bucket(values[j]), j);
      assert r in vs;
      var k :| 0 <= k < |vs| && vs[k] == r;
    }
    ChosenUnique(values, bucket, key, i, Choose(values, bucket, key));
    ChosenNearest(values, bucket, key, i);
  }

  /** The chosen value's bucket is the least at or above the key when there is one, else the least of all, and
      among equals the chosen value comes first. */
  lemma ChosenNearest<V(!new)>(values: seq<V>, bucket: V -> int, key: int, i: nat)
    requires Chosen(values, bucket, key, i)
    ensures (exists w :: w in values && bucket(w) >= key) ==>
      bucket(values[i]) >= key && forall w :: w in values && bucket(w) >= key ==> bucket(values[i]) <= bucket(w)
    ensures (forall w :: w in values ==> bucket(w) < key) ==> forall w :: w in values ==> bucket(values[i]) <= bucket(w)
    ensures forall j: nat :: j < i ==> bucket(values[j]) != bucket(values[i])
  {
    forall w | w in values ensures exists j: nat :: j < |values| && values[j] == w && Wins(values, bucket, key, i, j) {
      var j: nat :| j < |values| && values[j] == w;
      assert Wins(values, bucket, key, i, j);
    }
    forall j: nat | j < i ensures bucket(values[j]) != bucket(values[i]) {
      assert Wins(values, bucket, key, i, j);
    }
  }

  lemma ChosenUnique<V(!new)>(values: seq<V>, bucket: V -> int, key: int, i: nat, j: nat)
    requires Chosen(values, bucket, key, i) && Chosen(values, bucket, key, j)
    ensures i == j
  {
    assert Wins(values, bucket, key, i, j) && Wins(values, bucket, key, j, i);
  }

  // ---- Consistency ----

  ghost predicate DistinctBuckets<V(!new)>(values: seq<V>, bucket: V -> int) {
    forall v, w :: v in values && w in values && bucket(v) == bucket(w) ==> v == w
  }

  /** Any slice that keeps the chosen value and adds no others makes the same choice, whatever its order and
      whatever unchosen values are gone. */
  lemma UnchosenIrrelevant<V(!new)>(values: seq<V>, fewer: seq<V>, bucket: V -> int, key: int)
    requires fewer != [] && DistinctBuckets(values, bucket)
    requires forall v :: v in fewer ==> v in values
    requires values != [] && values[Choose(values, bucket, key)] in fewer
    ensures fewer[Choose(fewer, bucket, key)] == values[Choose(values, bucket, key)]
  {
    var i, j := Choose(values, bucket, key), Choose(fewer, bucket, key);
    var k :| 0 <= k < |fewer| && fewer[k] == values[i];
    assert fewer[j] in values;
    var l :| 0 <= l < |values| && values[l] == fewer[j];
    assert Wins(values, bucket, key, i, l) && Wins(fewer, bucket, key, j, k);
  }

  /** So the choice does not depend on order. */
  lemma OrderIrrelevant<V(!new)>(values: seq<V>, other: seq<V>, bucket: V -> int, key: int)
    requires values != [] && other != [] && DistinctBuckets(values, bucket)
    requires forall v :: v in values <==> v in other
    ensures values[Choose(values, bucket, key)] == other[Choose(other, bucket, key)]
  {
    UnchosenIrrelevant(values, other, bucket, key);
  }

  /** Exactly when the order does not matter: when no other value shares the chosen one's bucket. */
  lemma OrderIrrelevantIff<V(!new)>(values: seq<V>, bucket: V -> int, key: int)
    requires values != []
    ensures
      var chosen := values[Choose(values, bucket, key)];
      (forall other :: other != [] && multiset(other) == multiset(values) ==> other[Choose(other, bucket, key)] == chosen)
      <==> (forall v :: v in values && bucket(v) == bucket(chosen) ==> v == chosen)
  {
    hide Choose;
    var i := Choose(values, bucket, key);
    var unique := forall v :: v in values && bucket(v) == bucket(values[i]) ==> v == values[i];
    if unique {
      forall other | other != [] && multiset(other) == multiset(values)
        ensures other[Choose(other, bucket, key)] == values[i]
      {
        SameBucket(values, other, bucket, key);
      }
    } else {
      var v :| v in values && bucket(v) == bucket(values[i]) && v != values[i];
      var k: nat :| k < |values| && values[k] == v;
      MovedFirst(values, k);
      FirstOfTies(values, k, bucket, key);
      var other := Fronted(values, k);
      assert other != [] && multiset(other) == multiset(values) && other[Choose(other, bucket, key)] != values[i];
    }
  }

  lemma SameBucket<V(!new)>(values: seq<V>, other: seq<V>, bucket: V -> int, key: int)
    requires values != [] && other != [] && multiset(other) == multiset(values)
    ensures
      var v := other[Choose(other, bucket, key)];
      bucket(v) == bucket(values[Choose(values, bucket, key)]) && v in values
  {
    hide Choose;
    var i, j := Choose(values, bucket, key), Choose(other, bucket, key);
    assert other[j] in multiset(values) && values[i] in multiset(other);
    var k: nat :| k < |other| && other[k] == values[i];
    var l: nat :| l < |values| && values[l] == other[j];
    assert Wins(values, bucket, key, i, l) && Wins(other, bucket, key, j, k);
  }

  /** The same values with the one at k in front. */
  function Fronted<V>(values: seq<V>, k: nat): seq<V>
    requires k < |values|
  {
    [values[k]] + values[..k] + values[k + 1..]
  }

  lemma MovedFirst<V>(values: seq<V>, k: nat)
    requires k < |values|
    ensures multiset(Fronted(values, k)) == multiset(values)
  {
    assert values == values[..k] + [values[k]] + values[k + 1..];
  }

  /** A value in the chosen bucket is chosen once it comes first. */
  lemma FirstOfTies<V(!new)>(values: seq<V>, k: nat, bucket: V -> int, key: int)
    requires k < |values| && bucket(values[k]) == bucket(values[Choose(values, bucket, key)])
    ensures Fronted(values, k)[Choose(Fronted(values, k), bucket, key)] == values[k]
  {
    hide Choose;
    var other, i := Fronted(values, k), Choose(values, bucket, key);
    forall j: nat | j < |other| ensures Wins(other, bucket, key, 0, j) {
      var l := if j == 0 then k else if j <= k then j - 1 else j;
      assert other[j] == values[l] && Wins(values, bucket, key, i, l);
    }
    ChosenUnique(other, bucket, key, 0, Choose(other, bucket, key));
  }

  /** And adding a value either keeps the choice or moves it to that value. */
  lemma AddedOnlyTakesOver<V(!new)>(values: seq<V>, more: seq<V>, x: V, bucket: V -> int, key: int)
    requires values != [] && more != [] && DistinctBuckets(more, bucket)
    requires forall v :: v in more <==> v in values || v == x
    ensures more[Choose(more, bucket, key)] == values[Choose(values, bucket, key)] || more[Choose(more, bucket, key)] == x
  {
    var v := more[Choose(more, bucket, key)];
    assert v in more;
    if v != x {
      UnchosenIrrelevant(more, values, bucket, key);
    }
  }
}
