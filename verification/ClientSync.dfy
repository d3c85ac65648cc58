/** The budget a nested sync value has to keep: how deep, how many keys, how long its lists and texts. */
module ClientSync {

  const MAX_DEPTH := 8
  const MAX_KEYS := 200
  const MAX_STRING_BYTES := 4 * 1024

  /** Decoded JSON. Texts are byte strings; a scalar is a number, a boolean or null. */
  datatype Json = Object(members: seq<Member>) | Array(items: seq<Json>) | Text(text: string) | Scalar
  datatype Member = Member(key: string, value: Json)

  function Max(a: nat, b: nat): nat { if a < b then b else a }

  // --- what the budget measures ----------------------------------------------------------------------------

  /** The number of levels below a value. */
  function Height(v: Json): nat
    decreases v, 1
  {
    match v
    case Object(members) => MembersHeight(members)
    case Array(items) => ItemsHeight(items)
    case _ => 0
  }

  function MembersHeight(members: seq<Member>): nat
    decreases members, 0
  {
    if members == [] then 0 else Max(1 + Height(members[0].value), MembersHeight(members[1..]))
  }

  function ItemsHeight(items: seq<Json>): nat
    decreases items, 0
  {
    if items == [] then 0 else Max(1 + Height(items[0]), ItemsHeight(items[1..]))
  }

  /** The number of object keys in the whole tree. */
  function TotalKeys(v: Json): nat
    decreases v, 1
  {
    match v
    case Object(members) => |members| + MembersKeys(members)
    case Array(items) => ItemsKeys(items)
    case _ => 0
  }

  function MembersKeys(members: seq<Member>): nat
    decreases members, 0
  {
    if members == [] then 0 else TotalKeys(members[0].value) + MembersKeys(members[1..])
  }

  function ItemsKeys(items: seq<Json>): nat
    decreases items, 0
  {
    if items == [] then 0 else TotalKeys(items[0]) + ItemsKeys(items[1..])
  }

  predicate ShortText(s: string) { |s| <= MAX_STRING_BYTES }

  /** Every text and key is short enough and every list has few enough items, at any level. */
  predicate Modest(v: Json)
    decreases v, 1
  {
    match v
    case Object(members) => AllMembersModest(members)
    case Array(items) => |items| <= MAX_KEYS && AllItemsModest(items)
    case Text(text) => ShortText(text)
    case Scalar => true
  }

  predicate AllMembersModest(members: seq<Member>)
    decreases members, 0
  {
    members == [] || (ShortText(members[0].key) && Modest(members[0].value) && AllMembersModest(members[1..]))
  }

  predicate AllItemsModest(items: seq<Json>)
    decreases items, 0
  {
    items == [] || (Modest(items[0]) && AllItemsModest(items[1..]))
  }

  // --- the validator -------------------------------------------------------------------------------------

  /**
   * One pass that shares a key counter along the whole tree and stops at the first violation. It accepts exactly the
   * values that keep the budget as a whole, whatever order the members are visited in.
   */
  method ValidateContainer(v: Json, depth: nat, keys: nat) returns (ok: bool, counted: nat)
    requires keys <= MAX_KEYS
    ensures ok <==> depth + Height(v) <= MAX_DEPTH && keys + TotalKeys(v) <= MAX_KEYS && Modest(v)
    ensures ok ==> counted == keys + TotalKeys(v)
    decreases v
  {
    counted := keys;
    if depth > MAX_DEPTH {
      return false, counted;
    }
    match v {
      case Object(members) =>
        counted := counted + |members|;
        if counted > MAX_KEYS {
          return false, counted;
        }
        for i := 0 to |members|
          invariant keys + |members| + MembersKeys(members) == counted + MembersKeys(members[i..])
          invariant counted <= MAX_KEYS
          invariant depth + MembersHeight(members) <= MAX_DEPTH <==> depth + MembersHeight(members[i..]) <= MAX_DEPTH
          invariant AllMembersModest(members) <==> AllMembersModest(members[i..])
        {
          assert members[i..][1..] == members[i + 1..] && members[i..][0] == members[i];
          if !ShortText(members[i].key) {
            return false, counted;
          }
          var fine, next := ValidateContainer(members[i].value, depth + 1, counted);
          if !fine {
            return false, next;
          }
          counted := next;
        }
        return true, counted;
      case Array(items) =>
        if |items| > MAX_KEYS {
          return false, counted;
        }
        for i := 0 to |items|
          invariant keys + ItemsKeys(items) == counted + ItemsKeys(items[i..])
          invariant counted <= MAX_KEYS
          invariant depth + ItemsHeight(items) <= MAX_DEPTH <==> depth + ItemsHeight(items[i..]) <= MAX_DEPTH
          invariant AllItemsModest(items) <==> AllItemsModest(items[i..])
        {
          assert items[i..][1..] == items[i + 1..] && items[i..][0] == items[i];
          var fine, next := ValidateContainer(items[i], depth + 1, counted);
          if !fine {
            return false, next;
          }
          counted := next;
        }
        return true, counted;
      case Text(text) => return ShortText(text), counted;
      case Scalar => return true, counted;
    }
  }

  lemma {:induction false} MembersAppend(a: seq<Member>, b: seq<Member>)
    ensures MembersKeys(a + b) == MembersKeys(a) + MembersKeys(b)
    ensures MembersHeight(a + b) == Max(MembersHeight(a), MembersHeight(b))
    ensures AllMembersModest(a + b) <==> AllMembersModest(a) && AllMembersModest(b)
    decreases |a|
  {
    if a == [] {
      assert a + b == b;
    } else {
      assert (a + b)[1..] == a[1..] + b;
      MembersAppend(a[1..], b);
    }
  }

  /** What the budget measures of two member lists is the same. */
  ghost predicate Alike(a: seq<Member>, b: seq<Member>) {
    MembersKeys(a) == MembersKeys(b) && MembersHeight(a) == MembersHeight(b)
        && (AllMembersModest(a) <==> AllMembersModest(b))
  }

  lemma MemberToFront(left: seq<Member>, x: Member, right: seq<Member>)
    ensures Alike([x] + (left + right), left + ([x] + right))
  {
    MembersAppend(left, [x] + right);
    MembersAppend([x], right);
    MembersAppend([x], left + right);
    MembersAppend(left, right);
    hide MembersKeys, MembersHeight, AllMembersModest;
  }

  lemma AlikePrepend(x: Member, a: seq<Member>, b: seq<Member>)
    requires Alike(a, b)
    ensures Alike([x] + a, [x] + b)
  {
    MembersAppend([x], a);
    MembersAppend([x], b);
  }

  /** The first member of one list, found in another with the same members. */
  lemma FindFirst(a: seq<Member>, b: seq<Member>) returns (left: seq<Member>, right: seq<Member>)
    requires multiset(a) == multiset(b) && a != []
    ensures b == left + ([a[0]] + right) && multiset(a[1..]) == multiset(left + right)
  {
    var x, rest := a[0], a[1..];
    assert a == [x] + rest;
    assert multiset(a) == multiset{x} + multiset(rest);
    assert x in multiset(b);
    var i :| 0 <= i < |b| && b[i] == x;
    left, right := b[..i], b[i + 1..];
    assert b == left + ([x] + right);
    assert multiset(b) == multiset(left) + (multiset{x} + multiset(right));
    assert multiset(left + right) == multiset(left) + multiset(right);
    Uncount(multiset(rest), multiset(left) + multiset(right), x);
  }

  lemma Uncount(a: multiset<Member>, b: multiset<Member>, x: Member)
    requires multiset{x} + a == multiset{x} + b
    ensures a == b
  {
    assert (multiset{x} + a) - multiset{x} == a;
    assert (multiset{x} + b) - multiset{x} == b;
  }

  lemma {:induction false} SameMembers(a: seq<Member>, b: seq<Member>)
    requires multiset(a) == multiset(b)
    ensures |a| == |b| && Alike(a, b)
    decreases |a|
  {
    assert |a| == |multiset(a)| == |multiset(b)| == |b|;
    if a == [] {
      assert b == [];
    } else {
      hide Alike;
      var left, right := FindFirst(a, b);
      SameMembers(a[1..], left + right);
      AlikePrepend(a[0], a[1..], left + right);
      MemberToFront(left, a[0], right);
      AlikeTransitive([a[0]] + a[1..], [a[0]] + (left + right), b);
      assert a == [a[0]] + a[1..];
    }
  }

  lemma AlikeTransitive(a: seq<Member>, b: seq<Member>, c: seq<Member>)
    requires Alike(a, b) && Alike(b, c)
    ensures Alike(a, c)
  {
  }

  /** A map's members come in no particular order; in whatever order they are visited, the budget measures the same. */
  lemma MemberOrderIsIrrelevant(a: seq<Member>, b: seq<Member>)
    requires multiset(a) == multiset(b)
    ensures TotalKeys(Object(a)) == TotalKeys(Object(b)) && Height(Object(a)) == Height(Object(b))
    ensures Modest(Object(a)) <==> Modest(Object(b))
  {
    SameMembers(a, b);
  }

  // --- what the measures mean ------------------------------------------------------------------------------

  function Children(v: Json): (values: seq<Json>)
    ensures forall i :: 0 <= i < |values| ==> values[i] < v
  {
    match v
    case Object(members) => Values(members)
    case Array(items) => items
    case _ => []
  }

  function Values(members: seq<Member>): (values: seq<Json>)
    ensures |values| == |members| && forall i :: 0 <= i < |values| ==> values[i] == members[i].value
  {
    if members == [] then [] else [members[0].value] + Values(members[1..])
  }

  /** The path leads to a value inside `v`: at every level it says which child to go to. */
  predicate Inside(v: Json, path: seq<nat>)
    decreases |path|
  {
    path == [] || (path[0] < |Children(v)| && Inside(Children(v)[path[0]], path[1..]))
  }

  function At(v: Json, path: seq<nat>): Json
    requires Inside(v, path)
    decreases |path|
  {
    if path == [] then v else At(Children(v)[path[0]], path[1..])
  }

  lemma {:induction false} MembersHeightBounds(members: seq<Member>)
    ensures forall i :: 0 <= i < |members| ==> Height(members[i].value) < MembersHeight(members)
    ensures members != [] ==> exists i :: 0 <= i < |members| && MembersHeight(members) == 1 + Height(members[i].value)
    decreases |members|
  {
    if members != [] {
      MembersHeightBounds(members[1..]);
      assert forall i :: 0 < i < |members| ==> members[i] == members[1..][i - 1];
      if MembersHeight(members) == 1 + Height(members[0].value) {
      } else {
        var i :| 0 <= i < |members[1..]| && MembersHeight(members[1..]) == 1 + Height(members[1..][i].value);
        assert members[i + 1] == members[1..][i];
      }
    }
  }

  lemma {:induction false} ItemsHeightBounds(items: seq<Json>)
    ensures forall i :: 0 <= i < |items| ==> Height(items[i]) < ItemsHeight(items)
    ensures items != [] ==> exists i :: 0 <= i < |items| && ItemsHeight(items) == 1 + Height(items[i])
    decreases |items|
  {
    if items != [] {
      ItemsHeightBounds(items[1..]);
      assert forall i :: 0 < i < |items| ==> items[i] == items[1..][i - 1];
      if ItemsHeight(items) != 1 + Height(items[0]) {
        var i :| 0 <= i < |items[1..]| && ItemsHeight(items[1..]) == 1 + Height(items[1..][i]);
        assert items[i + 1] == items[1..][i];
      }
    }
  }

  lemma ChildrenBoundHeight(v: Json)
    ensures forall i :: 0 <= i < |Children(v)| ==> Height(Children(v)[i]) < Height(v)
    ensures if Children(v) == [] then Height(v) == 0
            else exists i :: 0 <= i < |Children(v)| && Height(v) == 1 + Height(Children(v)[i])
  {
    match v
    case Object(members) =>
      MembersHeightBounds(members);
      if members != [] {
        var i :| 0 <= i < |members| && MembersHeight(members) == 1 + Height(members[i].value);
        assert Children(v)[i] == members[i].value;
      }
    case Array(items) => ItemsHeightBounds(items);
    case _ =>
  }

  /** The height is the length of the longest path inside. */
  lemma {:induction false} HeightIsLongestPath(v: Json) returns (longest: seq<nat>)
    ensures Inside(v, longest) && |longest| == Height(v)
    ensures forall path :: Inside(v, path) ==> |path| <= Height(v)
    decreases v
  {
    hide Children, Height;
    ChildrenBoundHeight(v);
    longest := [];
    if Children(v) != [] {
      var i :| 0 <= i < |Children(v)| && Height(v) == 1 + Height(Children(v)[i]);
      longest := HeightIsLongestPath(Children(v)[i]);
      longest := [i] + longest;
    }
    forall path | Inside(v, path) ensures |path| <= Height(v) {
      if path != [] {
        var below := HeightIsLongestPath(Children(v)[path[0]]);
        assert Inside(Children(v)[path[0]], path[1..]);
      }
    }
  }

  /** The value itself is within the budget, whatever is inside it. */
  predicate ModestHere(v: Json) {
    match v
    case Object(members) => forall i :: 0 <= i < |members| ==> |members[i].key| <= 4096
    case Array(items) => |items| <= 200
    case Text(text) => |text| <= 4096
    case Scalar => true
  }

  ghost predicate ModestInside(v: Json) {
    forall path :: Inside(v, path) ==> ModestHere(At(v, path))
  }

  lemma {:induction false} MembersModest(members: seq<Member>)
    ensures AllMembersModest(members) <==>
            forall i :: 0 <= i < |members| ==> |members[i].key| <= 4096 && Modest(members[i].value)
    decreases |members|
  {
    if members != [] {
      MembersModest(members[1..]);
      assert forall i :: 0 < i < |members| ==> members[i] == members[1..][i - 1];
    }
  }

  lemma {:induction false} ItemsModest(items: seq<Json>)
    ensures AllItemsModest(items) <==> forall i :: 0 <= i < |items| ==> Modest(items[i])
    decreases |items|
  {
    if items != [] {
      ItemsModest(items[1..]);
      assert forall i :: 0 < i < |items| ==> items[i] == items[1..][i - 1];
    }
  }

  lemma ModestByChildren(v: Json)
    ensures Modest(v) <==> ModestHere(v) && forall i :: 0 <= i < |Children(v)| ==> Modest(Children(v)[i])
  {
    match v
    case Object(members) =>
      MembersModest(members);
      assert forall i :: 0 <= i < |members| ==> Children(v)[i] == members[i].value;
    case Array(items) =>
      ItemsModest(items);
      assert Children(v) == items;
    case _ =>
  }

  /** A tree is modest exactly if every value inside it is. */
  lemma {:induction false} ModestEverywhere(v: Json)
    ensures Modest(v) <==> ModestInside(v)
    decreases v
  {
    hide Modest, ModestHere, Children;
    ModestByChildren(v);
    forall i: nat | i < |Children(v)|
      ensures Modest(Children(v)[i]) <==> ModestInside(Children(v)[i])
    {
      ModestEverywhere(Children(v)[i]);
    }
    if Modest(v) {
      forall path | Inside(v, path) ensures ModestHere(At(v, path)) {
        if path != [] {
          assert Modest(Children(v)[path[0]]) && Inside(Children(v)[path[0]], path[1..]);
        }
      }
    } else if !ModestHere(v) {
      assert Inside(v, []) && At(v, []) == v;
    } else {
      var i: nat :| i < |Children(v)| && !Modest(Children(v)[i]);
      var path :| Inside(Children(v)[i], path) && !ModestHere(At(Children(v)[i], path));
      assert ([i] + path)[1..] == path;
      assert Inside(v, [i] + path) && At(v, [i] + path) == At(Children(v)[i], path);
    }
  }

  // --- the keys --------------------------------------------------------------------------------------------

  function Under(i: nat, paths: set<seq<nat>>): set<seq<nat>> { set p | p in paths :: [i] + p }

  /** The paths that end at a member of an object. */
  function KeyPaths(v: Json): set<seq<nat>>
    decreases v, 1
  {
    match v
    case Object(members) => MemberPaths(members, 0)
    case Array(items) => ItemPaths(items, 0)
    case _ => {}
  }

  function MemberPaths(members: seq<Member>, from: nat): set<seq<nat>>
    decreases members, 0
  {
    if members == [] then {}
    else {[from]} + Under(from, KeyPaths(members[0].value)) + MemberPaths(members[1..], from + 1)
  }

  function ItemPaths(items: seq<Json>, from: nat): set<seq<nat>>
    decreases items, 0
  {
    if items == [] then {} else Under(from, KeyPaths(items[0])) + ItemPaths(items[1..], from + 1)
  }

  lemma {:induction false} UnderSize(i: nat, paths: set<seq<nat>>)
    ensures |Under(i, paths)| == |paths|
    decreases |paths|
  {
    if paths != {} {
      var p :| p in paths;
      UnderSize(i, paths - {p});
      UnderStarts(i, paths - {p}, [i] + p);
      assert ([i] + p)[1..] == p;
      assert Under(i, paths) == Under(i, paths - {p}) + {[i] + p};
    }
  }

  /** Two disjoint sets count together as they do apart. */
  lemma ApartSize(a: set<seq<nat>>, b: set<seq<nat>>)
    requires a !! b
    ensures |a + b| == |a| + |b|
  {
    assert (a + b) - a == b;
  }

  lemma UnderStarts(i: nat, paths: set<seq<nat>>, p: seq<nat>)
    ensures p in Under(i, paths) <==> p != [] && p[0] == i && p[1..] in paths
  {
    if p != [] && p[0] == i && p[1..] in paths {
      assert p == [i] + p[1..];
    }
    if p in Under(i, paths) {
      var q :| q in paths && p == [i] + q;
      assert p[1..] == q;
    }
  }

  lemma {:induction false} MemberPathsStart(members: seq<Member>, from: nat, p: seq<nat>)
    ensures p in MemberPaths(members, from) <==>
            && p != [] && from <= p[0] < from + |members|
            && (p[1..] == [] || p[1..] in KeyPaths(members[p[0] - from].value))
    decreases |members|
  {
    hide KeyPaths;
    if members != [] {
      MemberPathsStart(members[1..], from + 1, p);
      UnderStarts(from, KeyPaths(members[0].value), p);
      if p != [] && p[0] == from && p[1..] == [] {
        assert p == [from];
      }
    }
  }

  lemma {:induction false} ItemPathsStart(items: seq<Json>, from: nat, p: seq<nat>)
    ensures p in ItemPaths(items, from) <==>
            p != [] && from <= p[0] < from + |items| && p[1..] in KeyPaths(items[p[0] - from])
    decreases |items|
  {
    hide KeyPaths;
    if items != [] {
      ItemPathsStart(items[1..], from + 1, p);
      UnderStarts(from, KeyPaths(items[0]), p);
    }
  }

  /** A path to a key is not empty: it leads to a child, and to a key of that child unless it ends there. */
  lemma KeyPathsStart(v: Json, p: seq<nat>)
    ensures p in KeyPaths(v) <==>
            && p != [] && p[0] < |Children(v)|
            && ((v.Object? && p[1..] == []) || p[1..] in KeyPaths(Children(v)[p[0]]))
  {
    match v
    case Object(members) => MemberPathsStart(members, 0, p);
    case Array(items) => ItemPathsStart(items, 0, p);
    case _ =>
  }

  lemma {:induction false} MemberPathsCount(members: seq<Member>, from: nat)
    ensures |MemberPaths(members, from)| == |members| + MembersKeys(members)
    decreases members, 0
  {
    if members != [] {
      var (first, rest) := (KeyPaths(members[0].value), MemberPaths(members[1..], from + 1));
      MemberPathsCount(members[1..], from + 1);
      KeyPathsCount(members[0].value);
      KeyPathsStart(members[0].value, []);
      hide KeyPaths;
      UnderSize(from, first);
      forall p ensures p in Under(from, first) <==> p != [] && p[0] == from && p[1..] in first {
        UnderStarts(from, first, p);
      }
      forall p | p in rest ensures p != [] && p[0] > from {
        MemberPathsStart(members[1..], from + 1, p);
      }
      assert [from][1..] == [];
      ApartSize({[from]}, Under(from, first));
      ApartSize({[from]} + Under(from, first), rest);
    }
  }

  lemma {:induction false} ItemPathsCount(items: seq<Json>, from: nat)
    ensures |ItemPaths(items, from)| == ItemsKeys(items)
    decreases items, 0
  {
    if items != [] {
      var (first, rest) := (KeyPaths(items[0]), ItemPaths(items[1..], from + 1));
      ItemPathsCount(items[1..], from + 1);
      KeyPathsCount(items[0]);
      hide KeyPaths;
      UnderSize(from, first);
      forall p | p in Under(from, first) ensures p != [] && p[0] == from {
        UnderStarts(from, first, p);
      }
      forall p | p in rest ensures p != [] && p[0] > from {
        ItemPathsStart(items[1..], from + 1, p);
      }
      ApartSize(Under(from, first), rest);
    }
  }

  lemma {:induction false} KeyPathsCount(v: Json)
    ensures |KeyPaths(v)| == TotalKeys(v)
    decreases v, 1
  {
    match v
    case Object(members) => MemberPathsCount(members, 0);
    case Array(items) => ItemPathsCount(items, 0);
    case _ =>
  }

  lemma {:induction false} KeyPathsEndInObjects(v: Json, p: seq<nat>)
    ensures p in KeyPaths(v) <==>
            p != [] && Inside(v, p) && Inside(v, p[..|p| - 1]) && At(v, p[..|p| - 1]).Object?
    decreases |p|
  {
    hide KeyPaths, Children;
    KeyPathsStart(v, p);
    if p != [] && p[0] < |Children(v)| {
      KeyPathsEndInObjects(Children(v)[p[0]], p[1..]);
      if p[1..] != [] {
        assert p[..|p| - 1][1..] == p[1..][..|p[1..]| - 1];
      } else {
        assert p[..|p| - 1] == [];
        KeyPathsStart(Children(v)[p[0]], []);
      }
    }
  }

  /** The key count is the number of paths inside that end at a member of an object. */
  lemma KeysAreCounted(v: Json)
    ensures TotalKeys(v) == |KeyPaths(v)|
    ensures forall p :: p in KeyPaths(v) <==>
              p != [] && Inside(v, p) && Inside(v, p[..|p| - 1]) && At(v, p[..|p| - 1]).Object?
  {
    hide KeyPaths, Inside, At;
    KeyPathsCount(v);
    forall p
      ensures p in KeyPaths(v) <==>
              p != [] && Inside(v, p) && Inside(v, p[..|p| - 1]) && At(v, p[..|p| - 1]).Object?
    {
      KeyPathsEndInObjects(v, p);
    }
  }
}
