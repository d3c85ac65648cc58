/** The order the selection code sorts by: an integer rank, then the identifier compared byte by byte. */
module Ordering {

  datatype Key = Key(rank: int, id: string)

  predicate StringLess(a: string, b: string)
    decreases |a|
  {
    if b == "" then false
    else if a == "" then true
    else if a[0] != b[0] then a[0] < b[0]
    else StringLess(a[1..], b[1..])
  }

  predicate Less(a: Key, b: Key) {
    a.rank < b.rank || (a.rank == b.rank && StringLess(a.id, b.id))
  }

  predicate AtMost(a: Key, b: Key) {
    a == b || Less(a, b)
  }

  lemma {:induction false} StringLessTotal(a: string, b: string)
    ensures a == b || StringLess(a, b) || StringLess(b, a)
    ensures !(StringLess(a, b) && StringLess(b, a))
    ensures !StringLess(a, a)
    decreases |a|
  {
    if a != "" && b != "" && a[0] == b[0] {
      StringLessTotal(a[1..], b[1..]);
      assert a == [a[0]] + a[1..] && b == [b[0]] + b[1..];
    }
    if a != "" {
      StringLessTotal(a[1..], a[1..]);
    }
  }

  lemma {:induction false} StringLessTransitive(a: string, b: string, c: string)
    requires StringLess(a, b) && StringLess(b, c)
    ensures StringLess(a, c)
    decreases |a|
  {
    if a != "" && a[0] == b[0] && b[0] == c[0] {
      StringLessTransitive(a[1..], b[1..], c[1..]);
    }
  }

  lemma LessTotal(a: Key, b: Key)
    ensures a == b || Less(a, b) || Less(b, a)
    ensures !(Less(a, b) && Less(b, a))
    ensures !Less(a, a)
  {
    StringLessTotal(a.id, b.id);
    StringLessTotal(a.id, a.id);
  }

  lemma LessTransitive(a: Key, b: Key, c: Key)
    requires AtMost(a, b) && AtMost(b, c)
    ensures AtMost(a, c)
  {
    if a.rank == b.rank == c.rank && StringLess(a.id, b.id) && StringLess(b.id, c.id) {
      StringLessTransitive(a.id, b.id, c.id);
    }
  }

  ghost predicate IsLeast(k: Key, keys: set<Key>) {
    k in keys && forall other :: other in keys ==> AtMost(k, other)
  }

  lemma LeastUnique(a: Key, b: Key, keys: set<Key>)
    requires IsLeast(a, keys) && IsLeast(b, keys)
    ensures a == b
  {
    LessTotal(a, b);
  }

  ghost predicate Sorted(s: seq<Key>) {
    forall i, j :: 0 <= i < j < |s| ==> AtMost(s[i], s[j])
  }

  function Insert(k: Key, s: seq<Key>): (r: seq<Key>)
    ensures multiset(r) == multiset(s) + multiset{k}
  {
    if s == [] then [k]
    else if AtMost(k, s[0]) then [k] + s
    else
      assert s == [s[0]] + s[1..];
      [s[0]] + Insert(k, s[1..])
  }

  lemma {:induction false} InsertKeepsSorted(k: Key, s: seq<Key>)
    requires Sorted(s)
    ensures Sorted(Insert(k, s))
    decreases |s|
  {
    if s != [] && AtMost(k, s[0]) {
      forall j | 0 <= j < |s| ensures AtMost(k, s[j]) {
        LessTransitive(k, s[0], s[j]);
      }
    } else if s != [] {
      var rest := Insert(k, s[1..]);
      InsertKeepsSorted(k, s[1..]);
      LessTotal(k, s[0]);
      forall j | 0 <= j < |rest| ensures AtMost(s[0], rest[j]) {
        assert rest[j] in multiset(rest);
        assert rest[j] == k || rest[j] in s[1..];
      }
    }
  }

  /** What the library's `slices.SortFunc` promises for this comparison: the same items in ascending order. */
  function Sort(s: seq<Key>): (r: seq<Key>)
    ensures multiset(r) == multiset(s)
    ensures Sorted(r)
  {
    if s == [] then []
    else
      assert s == [s[0]] + s[1..];
      InsertKeepsSorted(s[0], Sort(s[1..]));
      Insert(s[0], Sort(s[1..]))
  }

  lemma SortElements(s: seq<Key>)
    ensures |Sort(s)| == |s|
    ensures forall k :: k in s <==> k in Sort(s)
  {
    assert forall k :: k in s <==> k in multiset(s);
    assert forall k :: k in Sort(s) <==> k in multiset(Sort(s));
    assert |multiset(s)| == |multiset(Sort(s))|;
  }

  /** The first item of a sorted list is the least of its items. */
  lemma SortedFirstIsLeast(s: seq<Key>, keys: set<Key>)
    requires s != [] && Sorted(s) && keys == set k | k in s
    ensures IsLeast(s[0], keys)
  {
  }

  /** Every non-empty finite set of keys has a least one. */
  lemma {:induction false} LeastIsThere(keys: set<Key>)
    requires keys != {}
    ensures exists k :: IsLeast(k, keys)
    decreases |keys|
  {
    var k :| k in keys;
    var rest := keys - {k};
    assert keys == rest + {k};
    if rest == {} {
      assert IsLeast(k, keys);
    } else {
      LeastIsThere(rest);
      var other :| IsLeast(other, rest);
      LessTotal(k, other);
      if AtMost(k, other) {
        forall x | x in keys ensures AtMost(k, x) {
          if x != k { LessTransitive(k, other, x); }
        }
        assert IsLeast(k, keys);
      } else {
        assert IsLeast(other, keys);
      }
    }
  }
}
