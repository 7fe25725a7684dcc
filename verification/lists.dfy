/** Facts about lists of names, used to describe the order in which Go ranges
    over a map.

    Go leaves the iteration order of `for k := range m` unspecified (and
    randomises it on purpose). The model therefore takes that order as an
    explicit sequence and asks only that it visit every key exactly once; every
    property of the model is proved for every such order.
 */
module Lists {

  /** No name occurs twice. */
  predicate NoDups<T(==)>(s: seq<T>) {
    forall i, j :: 0 <= i < j < |s| ==> s[i] != s[j]
  }

  /** `order` is one possible iteration order over the key set `keys`. */
  predicate Enumerates<T(==)>(order: seq<T>, keys: set<T>) {
    && NoDups(order)
    && (forall x :: x in order ==> x in keys)
    && (forall x :: x in keys ==> x in order)
  }

  /** The set of elements of a list. */
  function Elements<T>(s: seq<T>): set<T> {
    set x | x in s
  }

  /** A duplicate-free list has as many elements as its set of elements. */
  lemma {:induction false} DistinctCount<T>(s: seq<T>)
    requires NoDups(s)
    ensures |Elements(s)| == |s|
  {
    if |s| > 0 {
      DistinctCount(s[1..]);
      assert Elements(s) == {s[0]} + Elements(s[1..]);
      assert forall j :: 0 <= j < |s[1..]| ==> s[1..][j] == s[j + 1];
    } else {
      assert Elements(s) == {};
    }
  }

  /** A list without members is empty. */
  lemma EmptyWhenNoMember<T>(xs: seq<T>)
    ensures (forall t :: t !in xs) ==> xs == []
  {
    if xs != [] {
      assert xs[0] in xs;
    }
  }

  /** Two maps are equal exactly when every key of the first is in the second
      with the same value, and the second has no other key. */
  lemma MapsEqualIff<K, V>(m: map<K, V>, s: map<K, V>)
    ensures m == s <==>
      (forall t :: t in m ==> t in s && s[t] == m[t]) && (forall t :: t in s ==> t in m)
  {
    if (forall t :: t in m ==> t in s && s[t] == m[t]) && (forall t :: t in s ==> t in m) {
      assert m.Keys == s.Keys;
    }
  }

  /** The entries of `order`, in order, that are not keys of `m`: what a loop
      over one map collects when it skips the keys another map has. */
  function Absent<K(!new), V>(m: map<K, V>, order: seq<K>): (r: seq<K>)
    ensures forall t :: t in r <==> t in order && t !in m
    ensures NoDups(order) ==> NoDups(r)
  {
    if |order| == 0 then []
    else
      var rest := Absent(m, order[1..]);
      if order[0] in m then rest else [order[0]] + rest
  }

  /** Nothing is skipped against an empty map. */
  lemma {:induction false} AbsentFromEmpty<K(!new), V>(m: map<K, V>, order: seq<K>)
    requires m == map[]
    ensures Absent(m, order) == order
  {
    if |order| > 0 {
      AbsentFromEmpty(m, order[1..]);
    }
  }

  /** Over an iteration order of `other`, one entry per key of `other` that
      `m` lacks. */
  lemma AbsentCount<K(!new), V>(m: map<K, V>, other: map<K, V>, order: seq<K>)
    requires Enumerates(order, other.Keys)
    ensures |Absent(m, order)| == |other.Keys - m.Keys|
  {
    var r := Absent(m, order);
    DistinctCount(r);
    assert Elements(r) == other.Keys - m.Keys;
  }
}
