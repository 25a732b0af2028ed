/** The order every ranking of the repository sorts by: higher score first, then the smaller id. */
module Ordering {

  /** Strict lexicographic order by code point, as Python compares strings. */
  predicate Less(a: string, b: string) {
    b != "" && (a == "" || a[0] < b[0] || (a[0] == b[0] && Less(a[1..], b[1..])))
  }

  lemma {:induction false} LessIsTotal(a: string, b: string)
    ensures a != b ==> Less(a, b) || Less(b, a)
    ensures !(Less(a, b) && Less(b, a))
  {
    if a != "" && b != "" && a[0] == b[0] {
      LessIsTotal(a[1..], b[1..]);
      assert a == [a[0]] + a[1..] && b == [b[0]] + b[1..];
    }
  }

  lemma {:induction false} LessIsTransitive(a: string, b: string, c: string)
    requires Less(a, b) && Less(b, c)
    ensures Less(a, c)
  {
    if a != "" && a[0] == b[0] && b[0] == c[0] {
      LessIsTransitive(a[1..], b[1..], c[1..]);
    }
  }

  datatype Key = Key(score: real, id: string)

  /** `sorted(..., key=lambda item: (-item.score, item.id))`. */
  predicate Before(a: Key, b: Key) {
    a.score > b.score || (a.score == b.score && Less(a.id, b.id))
  }

  lemma BeforeIsTotal(a: Key, b: Key)
    ensures a != b ==> Before(a, b) || Before(b, a)
    ensures !(Before(a, b) && Before(b, a))
  {
    LessIsTotal(a.id, b.id);
  }

  lemma BeforeIsTransitive(a: Key, b: Key, c: Key)
    requires Before(a, b) && Before(b, c)
    ensures Before(a, c)
  {
    if a.score == b.score == c.score { LessIsTransitive(a.id, b.id, c.id); }
  }

  ghost predicate Sorted(xs: seq<Key>) {
    forall i, j :: 0 <= i < j < |xs| ==> Before(xs[i], xs[j])
  }

  function Elements<T>(xs: seq<T>): set<T> {
    set x | x in xs
  }

  /** The enumeration of a set in ranking order. */
  function Place(k: Key, xs: seq<Key>): (r: seq<Key>)
    requires Sorted(xs)
    ensures Sorted(r) && Elements(r) == Elements(xs) + {k}
  {
    if xs == [] then [k]
    else if k == xs[0] then xs
    else
      BeforeIsTotal(k, xs[0]);
      if Before(k, xs[0]) then
        assert Sorted([k] + xs) by {
          forall j | 0 <= j < |xs| ensures Before(k, xs[j]) {
            if j > 0 { BeforeIsTransitive(k, xs[0], xs[j]); }
          }
        }
        [k] + xs
      else
        var rest := Place(k, xs[1..]);
        assert xs == [xs[0]] + xs[1..];
        assert Sorted([xs[0]] + rest) by {
          forall j | 0 <= j < |rest| ensures Before(xs[0], rest[j]) {
            assert rest[j] in Elements(rest);
            assert rest[j] == k || rest[j] in xs[1..];
          }
        }
        assert Elements([xs[0]] + rest) == {xs[0]} + Elements(rest);
        [xs[0]] + rest
  }

  function Ranked(xs: seq<Key>): (r: seq<Key>)
    ensures Sorted(r) && Elements(r) == Elements(xs)
  {
    if xs == [] then []
    else
      assert xs == xs[..|xs| - 1] + [xs[|xs| - 1]];
      Place(xs[|xs| - 1], Ranked(xs[..|xs| - 1]))
  }

  /** A set has only one enumeration in ranking order, so neither input order nor dictionary order
      matters. */
  lemma {:induction false} SortedIsUnique(xs: seq<Key>, ys: seq<Key>)
    requires Sorted(xs) && Sorted(ys) && Elements(xs) == Elements(ys)
    ensures xs == ys
  {
    assert xs != [] ==> xs[0] in Elements(xs);
    assert ys != [] ==> ys[0] in Elements(ys);
    if xs != [] && ys != [] {
      FirstIsLeast(xs, ys);
      assert xs == [xs[0]] + xs[1..] && ys == [ys[0]] + ys[1..];
      BeforeIsTotal(xs[0], xs[0]);
      assert xs[0] !in xs[1..] && ys[0] !in ys[1..];
      assert Elements(xs[1..]) == Elements(xs) - {xs[0]};
      assert Elements(ys[1..]) == Elements(ys) - {ys[0]};
      SortedIsUnique(xs[1..], ys[1..]);
    }
  }

  lemma FirstIsLeast(xs: seq<Key>, ys: seq<Key>)
    requires Sorted(xs) && Sorted(ys) && Elements(xs) == Elements(ys) && xs != [] && ys != []
    ensures xs[0] == ys[0]
  {
    assert xs[0] in Elements(xs) && ys[0] in Elements(ys);
    BeforeIsTotal(xs[0], ys[0]);
    var i :| 0 <= i < |ys| && ys[i] == xs[0];
    var j :| 0 <= j < |xs| && xs[j] == ys[0];
  }

  function Ids(keys: seq<Key>): (r: seq<string>)
    ensures |r| == |keys| && forall i :: 0 <= i < |keys| ==> r[i] == keys[i].id
  {
    seq(|keys|, i requires 0 <= i < |keys| => keys[i].id)
  }

  function Keyed(ids: seq<string>): (r: seq<Key>)
    ensures |r| == |ids| && forall i :: 0 <= i < |ids| ==> r[i] == Key(0.0, ids[i])
  {
    seq(|ids|, i requires 0 <= i < |ids| => Key(0.0, ids[i]))
  }

  predicate NoDuplicates<T(==)>(xs: seq<T>) {
    forall i, j :: 0 <= i < j < |xs| ==> xs[i] != xs[j]
  }

  predicate Ascending(ids: seq<string>) {
    forall i, j :: 0 <= i < j < |ids| ==> Less(ids[i], ids[j])
  }

  /** `tuple(sorted(ids))` of a set, given some enumeration of it. */
  function SortIds(ids: seq<string>): (r: seq<string>)
    ensures Ascending(r) && NoDuplicates(r) && Elements(r) == Elements(ids)
  {
    SortIdsFacts(ids);
    Ids(Ranked(Keyed(ids)))
  }

  lemma SameElements<T>(xs: seq<T>, ys: seq<T>, x: T)
    requires Elements(xs) == Elements(ys) && x in xs
    ensures x in ys
  {
    assert x in Elements(ys);
  }

  lemma SortIdsFacts(ids: seq<string>)
    ensures var r := Ids(Ranked(Keyed(ids)));
            Ascending(r) && NoDuplicates(r) && Elements(r) == Elements(ids)
  {
    var keyed := Keyed(ids);
    var keys := Ranked(keyed);
    var r := Ids(keys);
    forall k | k in keys ensures k in keyed && k.score == 0.0 && k.id in ids { SameElements(keys, keyed, k); }
    forall i, j | 0 <= i < j < |r| ensures Less(r[i], r[j]) && r[i] != r[j] {
      assert Before(keys[i], keys[j]) && keys[i] in keys && keys[j] in keys;
      LessIsTotal(r[i], r[j]);
    }
    forall id | id in r ensures id in ids {
      var j :| 0 <= j < |r| && r[j] == id;
      assert keys[j] in keys;
    }
    forall id | id in ids ensures id in r {
      var i :| 0 <= i < |ids| && ids[i] == id;
      SameElements(keyed, keys, keyed[i]);
      var j :| 0 <= j < |keys| && keys[j] == keyed[i];
      assert r[j] == id;
    }
  }

  lemma KeyedHas(a: seq<string>, b: seq<string>, k: Key)
    requires k in Keyed(a) && Elements(a) == Elements(b)
    ensures k in Keyed(b)
  {
    assert k.id in Elements(a);
    var i :| 0 <= i < |b| && b[i] == k.id;
    assert Keyed(b)[i] == k;
  }
}
