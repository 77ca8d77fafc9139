// Comparing configurations as JSON: objects are sorted by key at every depth before they are compared.
module CanonicalJson {
  datatype Member = Member(key: string, value: Json)

  datatype Json =
    | Null
    | Bool(b: bool)
    | Int(n: int)
    | Float(x: real)
    | Text(s: string)
    | Array(items: seq<Json>)
    | Object(members: seq<Member>)

  // ---- The order of keys ----

  predicate Le(s: string, t: string) {
    s == [] || (t != [] && (s[0] < t[0] || (s[0] == t[0] && Le(s[1..], t[1..]))))
  }

  lemma {:induction false} LeTotal(s: string, t: string)
    ensures Le(s, t) || Le(t, s)
    decreases |s|
  {
    if s != [] && t != [] && s[0] == t[0] {
      LeTotal(s[1..], t[1..]);
    }
  }

  lemma {:induction false} LeAntisymmetric(s: string, t: string)
    requires Le(s, t) && Le(t, s)
    ensures s == t
    decreases |s|
  {
    if s != [] {
      LeAntisymmetric(s[1..], t[1..]);
      assert s == [s[0]] + s[1..] && t == [t[0]] + t[1..];
    }
  }

  lemma {:induction false} LeTransitive(s: string, t: string, u: string)
    requires Le(s, t) && Le(t, u)
    ensures Le(s, u)
    decreases |s|
  {
    if s != [] && s[0] == t[0] == u[0] {
      LeTransitive(s[1..], t[1..], u[1..]);
    }
  }

  // ---- Sorting ----

  predicate Sorted(p: seq<Member>) {
    forall i, j :: 0 <= i < j < |p| ==> Le(p[i].key, p[j].key)
  }

  function Insert(m: Member, p: seq<Member>): seq<Member> {
    if p == [] || Le(m.key, p[0].key) then [m] + p else [p[0]] + Insert(m, p[1..])
  }

  function Sort(p: seq<Member>): seq<Member> {
    if p == [] then [] else Insert(p[0], Sort(p[1..]))
  }

  lemma {:induction false} InsertMembers(m: Member, p: seq<Member>, x: Member)
    ensures x in Insert(m, p) <==> x == m || x in p
    decreases |p|
  {
    if p != [] && !Le(m.key, p[0].key) {
      InsertMembers(m, p[1..], x);
    }
  }

  lemma {:induction false} SortMembers(p: seq<Member>, x: Member)
    ensures x in Sort(p) <==> x in p
    decreases |p|
  {
    if p != [] {
      SortMembers(p[1..], x);
      InsertMembers(p[0], Sort(p[1..]), x);
    }
  }

  lemma {:induction false} InsertSorted(m: Member, p: seq<Member>)
    requires Sorted(p)
    ensures Sorted(Insert(m, p))
    decreases |p|
  {
    if p == [] {
    } else if Le(m.key, p[0].key) {
      FirstBelow(m, p);
    } else {
      InsertSorted(m, p[1..]);
      LeTotal(m.key, p[0].key);
      var rest := Insert(m, p[1..]);
      forall j | 0 <= j < |rest| ensures Le(p[0].key, rest[j].key) {
        InsertMembers(m, p[1..], rest[j]);
      }
      ConsSorted(p[0], rest);
    }
  }

  lemma ConsSorted(m: Member, p: seq<Member>)
    requires Sorted(p) && forall j :: 0 <= j < |p| ==> Le(m.key, p[j].key)
    ensures Sorted([m] + p)
  {}

  lemma FirstBelow(m: Member, p: seq<Member>)
    requires Sorted(p) && p != [] && Le(m.key, p[0].key)
    ensures Sorted([m] + p)
  {
    forall j | 0 <= j < |p| ensures Le(m.key, p[j].key) {
      if j > 0 {
        LeTransitive(m.key, p[0].key, p[j].key);
      }
    }
    ConsSorted(m, p);
  }

  lemma {:induction false} SortSorted(p: seq<Member>)
    ensures Sorted(Sort(p))
    decreases |p|
  {
    if p != [] {
      SortSorted(p[1..]);
      InsertSorted(p[0], Sort(p[1..]));
    }
  }

  /** Sorting what is sorted changes nothing. */
  lemma {:induction false} SortOfSorted(p: seq<Member>)
    requires Sorted(p)
    ensures Sort(p) == p
    decreases |p|
  {
    if p != [] {
      SortOfSorted(p[1..]);
    }
  }

  // ---- Distinct keys ----

  predicate DistinctKeys(p: seq<Member>) {
    forall i, j :: 0 <= i < j < |p| ==> p[i].key != p[j].key
  }

  lemma {:induction false} InsertDistinct(m: Member, p: seq<Member>)
    requires DistinctKeys(p) && forall j :: 0 <= j < |p| ==> p[j].key != m.key
    ensures DistinctKeys(Insert(m, p))
    decreases |p|
  {
    if p != [] && !Le(m.key, p[0].key) {
      InsertDistinct(m, p[1..]);
      var rest := Insert(m, p[1..]);
      forall j | 0 <= j < |rest| ensures rest[j].key != p[0].key {
        InsertMembers(m, p[1..], rest[j]);
      }
    }
  }

  lemma {:induction false} SortDistinct(p: seq<Member>)
    requires DistinctKeys(p)
    ensures DistinctKeys(Sort(p))
    decreases |p|
  {
    if p != [] {
      SortDistinct(p[1..]);
      var rest := Sort(p[1..]);
      forall j | 0 <= j < |rest| ensures rest[j].key != p[0].key {
        SortMembers(p[1..], rest[j]);
      }
      InsertDistinct(p[0], rest);
    }
  }

  /** Two sorted lists with distinct keys and the same members are the same list. */
  lemma {:induction false} SortedUnique(p: seq<Member>, q: seq<Member>)
    requires Sorted(p) && Sorted(q) && DistinctKeys(p) && DistinctKeys(q)
    requires forall x :: x in p <==> x in q
    ensures p == q
    decreases |p|
  {
    assert q != [] ==> q[0] in p;
    if p != [] {
      assert p[0] in q;
      SameFirst(p, q);
      forall x ensures x in p[1..] <==> x in q[1..] {
        NotFirst(p, x);
        NotFirst(q, x);
      }
      SortedUnique(p[1..], q[1..]);
      assert p == [p[0]] + p[1..] && q == [q[0]] + q[1..];
    }
  }

  lemma SameFirst(p: seq<Member>, q: seq<Member>)
    requires Sorted(p) && Sorted(q) && DistinctKeys(q) && p != [] && q != [] && p[0] in q && q[0] in p
    ensures p[0] == q[0]
  {
    var j :| 0 <= j < |q| && q[j] == p[0];
    var i :| 0 <= i < |p| && p[i] == q[0];
    if j > 0 {
      LeAntisymmetric(p[0].key, q[0].key);
    }
  }

  lemma NotFirst(p: seq<Member>, x: Member)
    requires DistinctKeys(p) && p != []
    ensures x in p[1..] <==> x in p && x != p[0]
  {
    if x in p && x != p[0] {
      var i :| 0 <= i < |p| && p[i] == x;
      assert p[1..][i - 1] == x;
    }
  }

  // ---- Canonical form ----

  lemma MemberSmaller(v: Json, m: Member)
    requires v.Object? && m in v.members
    ensures m.value < v
  {
    var i :| 0 <= i < |v.members| && v.members[i] == m;
    assert v.members[i] < v;
  }

  /** Sort the members, then go into their values. */
  function Canon(v: Json): Json {
    match v
    case Object(members) =>
      var p := Sort(members);
      Object(seq(|p|, i requires 0 <= i < |p| =>
        SortMembers(members, p[i]);
        MemberSmaller(v, p[i]);
        Member(p[i].key, Canon(p[i].value))))
    case Array(items) => Array(seq(|items|, i requires 0 <= i < |items| => Canon(items[i])))
    case _ => v
  }

  /** Keys are distinct in every object, at every depth. */
  predicate WellKeyed(v: Json) {
    match v
    case Object(members) => DistinctKeys(members) && forall i :: 0 <= i < |members| ==> WellKeyed(members[i].value)
    case Array(items) => forall i :: 0 <= i < |items| ==> WellKeyed(items[i])
    case _ => true
  }

  /** Equal up to the order of the members of every object, at every depth. */
  predicate Same(a: Json, b: Json)
    decreases a, 1
  {
    match a
    case Object(p) =>
      && b.Object?
      && (forall i :: 0 <= i < |p| ==> Finds(p[i], b.members))
      && (forall j :: 0 <= j < |b.members| ==> Found(a, b.members[j]))
    case Array(items) =>
      b.Array? && |items| == |b.items| && forall i :: 0 <= i < |items| ==> Same(items[i], b.items[i])
    case _ => a == b
  }

  predicate SameMember(m: Member, n: Member)
    decreases m, 1
  {
    m.key == n.key && Same(m.value, n.value)
  }

  /** A member has a match among others. */
  predicate Finds(m: Member, q: seq<Member>)
    decreases m, 2
  {
    exists j :: 0 <= j < |q| && SameMember(m, q[j])
  }

  /** A member has a match in an object. */
  predicate Found(a: Json, n: Member)
    requires a.Object?
    decreases a, 0
  {
    exists i :: 0 <= i < |a.members| && SameMember(a.members[i], n)
  }

  // ---- Canonical forms decide equality ----

  function CanonMember(m: Member): Member {
    Member(m.key, Canon(m.value))
  }

  lemma CanonObject(p: seq<Member>)
    ensures var q := Canon(Object(p)).members;
      |q| == |Sort(p)| && forall i :: 0 <= i < |q| ==> q[i] == CanonMember(Sort(p)[i])
  {}

  lemma CanonHas(p: seq<Member>, m: Member)
    requires m in p
    ensures CanonMember(m) in Canon(Object(p)).members
  {
    CanonObject(p);
    SortMembers(p, m);
    var i :| 0 <= i < |Sort(p)| && Sort(p)[i] == m;
    assert Canon(Object(p)).members[i] == CanonMember(m);
  }

  lemma CanonFrom(p: seq<Member>, x: Member) returns (m: Member)
    requires x in Canon(Object(p)).members
    ensures m in p && x == CanonMember(m)
  {
    CanonObject(p);
    var i :| 0 <= i < |Sort(p)| && x == CanonMember(Sort(p)[i]);
    m := Sort(p)[i];
    SortMembers(p, m);
  }

  lemma CanonSorted(p: seq<Member>)
    ensures Sorted(Canon(Object(p)).members)
    ensures DistinctKeys(p) ==> DistinctKeys(Canon(Object(p)).members)
  {
    CanonObject(p);
    SortSorted(p);
    if DistinctKeys(p) {
      SortDistinct(p);
    }
  }

  /** Canonical forms are their own canonical form. */
  lemma {:induction false} CanonTwice(v: Json)
    ensures Canon(Canon(v)) == Canon(v)
    decreases v
  {
    match v
    case Object(p) =>
      var q := Canon(v).members;
      CanonSorted(p);
      SortOfSorted(q);
      CanonObject(q);
      forall i | 0 <= i < |q| ensures CanonMember(q[i]) == q[i] {
        var m := CanonFrom(p, q[i]);
        MemberSmaller(v, m);
        CanonTwice(m.value);
      }
      assert Canon(Object(q)).members == q;
    case Array(items) =>
      forall i | 0 <= i < |items| ensures Canon(Canon(items[i])) == Canon(items[i]) {
        CanonTwice(items[i]);
      }
      assert Canon(Canon(v)).items == Canon(v).items;
    case _ =>
  }

  lemma {:induction false} SameGivesEqual(a: Json, b: Json)
    requires WellKeyed(a) && WellKeyed(b) && Same(a, b)
    ensures Canon(a) == Canon(b)
    decreases a, 1
  {
    match a
    case Object(p) =>
      var q := b.members;
      forall x ensures x in Canon(a).members <==> x in Canon(b).members {
        if x in Canon(a).members {
          SameForth(a, b, x);
        }
        if x in Canon(b).members {
          SameBack(a, b, x);
        }
      }
      CanonSorted(p);
      CanonSorted(q);
      SortedUnique(Canon(a).members, Canon(b).members);
    case Array(items) =>
      forall i | 0 <= i < |items| ensures Canon(items[i]) == Canon(b.items[i]) {
        SameGivesEqual(items[i], b.items[i]);
      }
      assert Canon(a).items == Canon(b).items;
    case _ =>
  }

  lemma {:induction false} SameForth(a: Json, b: Json, x: Member)
    requires a.Object? && b.Object? && WellKeyed(a) && WellKeyed(b) && Same(a, b)
    requires x in Canon(a).members
    ensures x in Canon(b).members
    decreases a, 0
  {
    var m := CanonFrom(a.members, x);
    var i :| 0 <= i < |a.members| && a.members[i] == m;
    assert Finds(m, b.members);
    var j :| 0 <= j < |b.members| && SameMember(m, b.members[j]);
    MemberSmaller(a, m);
    SameGivesEqual(m.value, b.members[j].value);
    CanonHas(b.members, b.members[j]);
  }

  lemma {:induction false} SameBack(a: Json, b: Json, x: Member)
    requires a.Object? && b.Object? && WellKeyed(a) && WellKeyed(b) && Same(a, b)
    requires x in Canon(b).members
    ensures x in Canon(a).members
    decreases a, 0
  {
    var n := CanonFrom(b.members, x);
    var j :| 0 <= j < |b.members| && b.members[j] == n;
    assert Found(a, n);
    var i :| 0 <= i < |a.members| && SameMember(a.members[i], n);
    MemberSmaller(a, a.members[i]);
    SameGivesEqual(a.members[i].value, n.value);
    CanonHas(a.members, a.members[i]);
  }

  lemma {:induction false} EqualGivesSame(a: Json, b: Json)
    requires Canon(a) == Canon(b)
    ensures Same(a, b)
    decreases a, 1
  {
    match a
    case Object(p) =>
      forall i | 0 <= i < |p| ensures Finds(p[i], b.members) {
        EqualForth(a, b, p[i]);
      }
      forall j | 0 <= j < |b.members| ensures Found(a, b.members[j]) {
        EqualBack(a, b, b.members[j]);
      }
    case Array(items) =>
      forall i | 0 <= i < |items| ensures Same(items[i], b.items[i]) {
        assert Canon(a).items[i] == Canon(b).items[i];
        EqualGivesSame(items[i], b.items[i]);
      }
    case _ =>
  }

  lemma {:induction false} EqualForth(a: Json, b: Json, m: Member)
    requires a.Object? && b.Object? && Canon(a) == Canon(b) && m in a.members
    ensures Finds(m, b.members)
    decreases a, 0
  {
    CanonHas(a.members, m);
    var n := CanonFrom(b.members, CanonMember(m));
    MemberSmaller(a, m);
    EqualGivesSame(m.value, n.value);
    var j :| 0 <= j < |b.members| && b.members[j] == n;
    assert SameMember(m, b.members[j]);
  }

  lemma {:induction false} EqualBack(a: Json, b: Json, n: Member)
    requires a.Object? && b.Object? && Canon(a) == Canon(b) && n in b.members
    ensures Found(a, n)
    decreases a, 0
  {
    CanonHas(b.members, n);
    var m := CanonFrom(a.members, CanonMember(n));
    MemberSmaller(a, m);
    EqualGivesSame(m.value, n.value);
    var i :| 0 <= i < |a.members| && a.members[i] == m;
    assert SameMember(a.members[i], n);
  }

  /** Canonical forms are equal exactly when the values are equal up to the order of keys. */
  lemma EqualIffSame(a: Json, b: Json)
    requires WellKeyed(a) && WellKeyed(b)
    ensures Canon(a) == Canon(b) <==> Same(a, b)
  {
    if Same(a, b) {
      SameGivesEqual(a, b);
    } else if Canon(a) == Canon(b) {
      EqualGivesSame(a, b);
    }
  }

  /** Canonicalising changes a value only in the order of its keys. */
  lemma CanonIsSame(v: Json)
    ensures Same(v, Canon(v))
  {
    CanonTwice(v);
    EqualGivesSame(v, Canon(v));
  }

  // ---- The recursion over the value ----

  method Canonicalize(v: Json) returns (r: Json)
    ensures r == Canon(v)
    decreases v
  {
    match v {
      case Object(members) =>
        var pairs := Sort(members);
        var rebuilt := [];
        for i := 0 to |pairs|
          invariant |rebuilt| == i && forall k :: 0 <= k < i ==> rebuilt[k] == CanonMember(pairs[k])
        {
          SortMembers(members, pairs[i]);
          MemberSmaller(v, pairs[i]);
          var item := Canonicalize(pairs[i].value);
          rebuilt := rebuilt + [Member(pairs[i].key, item)];
        }
        CanonObject(members);
        assert rebuilt == Canon(v).members;
        r := Object(rebuilt);
      case Array(items) =>
        var done := [];
        for i := 0 to |items|
          invariant |done| == i && forall k :: 0 <= k < i ==> done[k] == Canon(items[k])
        {
          var item := Canonicalize(items[i]);
          done := done + [item];
        }
        assert done == Canon(v).items;
        r := Array(done);
      case _ => r := v;
    }
  }

  datatype Serialized = Value(json: Json) | Failed

  /** A configuration that cannot be serialized equals none. */
  method ConfigEqual(lhs: Serialized, rhs: Serialized) returns (equal: bool)
    requires (lhs.Value? ==> WellKeyed(lhs.json)) && (rhs.Value? ==> WellKeyed(rhs.json))
    ensures equal <==> lhs.Value? && rhs.Value? && Same(lhs.json, rhs.json)
  {
    if lhs.Failed? || rhs.Failed? {
      return false;
    }
    var left := Canonicalize(lhs.json);
    var right := Canonicalize(rhs.json);
    EqualIffSame(lhs.json, rhs.json);
    return left == right;
  }
}
