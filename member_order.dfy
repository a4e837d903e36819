/** The order of `getMembers`: `ORDER BY first_name ASC, last_name ASC`, NULLs last, by code point. */
module MemberOrder {
  import opened Wrappers
  import opened Tables

  /** Lexicographic comparison by code point: negative, zero or positive. */
  function StrCmp(a: string, b: string): (r: int)
    ensures -1 <= r <= 1
    ensures r == 0 <==> a == b
  {
    if a == [] && b == [] then 0
    else if a == [] then -1
    else if b == [] then 1
    else if a[0] < b[0] then -1
    else if a[0] > b[0] then 1
    else
      var r := StrCmp(a[1..], b[1..]);
      assert r == 0 ==> a == [a[0]] + a[1..] == [b[0]] + b[1..] == b;
      r
  }

  lemma {:induction false} StrCmpAntisymmetric(a: string, b: string)
    ensures StrCmp(a, b) == -StrCmp(b, a)
  {
    if a != [] && b != [] && a[0] == b[0] {
      StrCmpAntisymmetric(a[1..], b[1..]);
    }
  }

  lemma {:induction false} StrCmpTransitive(a: string, b: string, c: string)
    requires StrCmp(a, b) <= 0 && StrCmp(b, c) <= 0
    ensures StrCmp(a, c) <= 0
  {
    if a != [] && b != [] && c != [] && a[0] == b[0] == c[0] {
      StrCmpTransitive(a[1..], b[1..], c[1..]);
    }
  }

  /** A missing value sorts after every present one (PostgreSQL's default for ascending order). */
  function OptCmp(a: Option<string>, b: Option<string>): (r: int)
    ensures -1 <= r <= 1
    ensures r == 0 <==> a == b
  {
    match (a, b)
    case (None, None) => 0
    case (None, Some(_)) => 1
    case (Some(_), None) => -1
    case (Some(x), Some(y)) => StrCmp(x, y)
  }

  lemma OptCmpAntisymmetric(a: Option<string>, b: Option<string>)
    ensures OptCmp(a, b) == -OptCmp(b, a)
  {
    if a.Some? && b.Some? {
      StrCmpAntisymmetric(a.value, b.value);
    }
  }

  lemma OptCmpTransitive(a: Option<string>, b: Option<string>, c: Option<string>)
    requires OptCmp(a, b) <= 0 && OptCmp(b, c) <= 0
    ensures OptCmp(a, c) <= 0
  {
    if a.Some? && b.Some? && c.Some? {
      StrCmpTransitive(a.value, b.value, c.value);
    }
  }

  /** First name, then last name. */
  function NameCmp(p: Profile, q: Profile): int {
    var c := OptCmp(p.firstName, q.firstName);
    if c != 0 then c else OptCmp(p.lastName, q.lastName)
  }

  predicate NameLe(p: Profile, q: Profile) {
    NameCmp(p, q) <= 0
  }

  lemma NameLeTotal(p: Profile, q: Profile)
    ensures NameLe(p, q) || NameLe(q, p)
  {
    OptCmpAntisymmetric(p.firstName, q.firstName);
    OptCmpAntisymmetric(p.lastName, q.lastName);
  }

  lemma NameLeTransitive(p: Profile, q: Profile, r: Profile)
    requires NameLe(p, q) && NameLe(q, r)
    ensures NameLe(p, r)
  {
    OptCmpAntisymmetric(p.firstName, q.firstName);
    OptCmpAntisymmetric(q.firstName, r.firstName);
    OptCmpAntisymmetric(p.firstName, r.firstName);
    if OptCmp(p.firstName, q.firstName) == 0 && OptCmp(q.firstName, r.firstName) == 0 {
      OptCmpTransitive(p.lastName, q.lastName, r.lastName);
    } else {
      OptCmpTransitive(p.firstName, q.firstName, r.firstName);
    }
  }

  predicate SortedByName(s: seq<Profile>) {
    forall i, j :: 0 <= i < j < |s| ==> NameLe(s[i], s[j])
  }

  /** Puts `x` in front of the first element it does not sort after. */
  function Insert(x: Profile, s: seq<Profile>): (r: seq<Profile>)
    ensures multiset(r) == multiset(s) + multiset{x}
    ensures |r| == |s| + 1
  {
    if s == [] || NameLe(x, s[0]) then [x] + s
    else
      var r := [s[0]] + Insert(x, s[1..]);
      assert s == [s[0]] + s[1..];
      r
  }

  lemma {:induction false} InsertSorted(x: Profile, s: seq<Profile>)
    requires SortedByName(s)
    ensures SortedByName(Insert(x, s))
  {
    if s == [] || NameLe(x, s[0]) {
      forall j | 1 <= j < |s| + 1 ensures NameLe(x, ([x] + s)[j]) {
        NameLeTransitive(x, s[0], s[j - 1]);
      }
    } else {
      NameLeTotal(x, s[0]);
      InsertSorted(x, s[1..]);
      var t := Insert(x, s[1..]);
      forall j | 0 <= j < |t| ensures NameLe(s[0], t[j]) {
        assert t[j] in multiset(t);
        assert t[j] in multiset(s[1..]) + multiset{x};
        if t[j] != x {
          assert t[j] in s[1..];
          var k :| 0 <= k < |s| - 1 && s[1..][k] == t[j];
          assert s[k + 1] == t[j];
        }
      }
    }
  }

  /** The members in name order (insertion sort). */
  function SortByName(s: seq<Profile>): (r: seq<Profile>)
    ensures multiset(r) == multiset(s) && |r| == |s|
  {
    if s == [] then []
    else
      assert s == [s[0]] + s[1..];
      Insert(s[0], SortByName(s[1..]))
  }

  lemma {:induction false} SortByNameSorted(s: seq<Profile>)
    ensures SortedByName(SortByName(s))
  {
    if s != [] {
      SortByNameSorted(s[1..]);
      InsertSorted(s[0], SortByName(s[1..]));
    }
  }

  /** The first member in name order sorts no later than any member. */
  lemma FirstIsLeast(s: seq<Profile>, p: Profile)
    requires p in s
    ensures SortByName(s) != [] && NameLe(SortByName(s)[0], p)
  {
    var r := SortByName(s);
    SortByNameSorted(s);
    assert p in multiset(r);
    var k :| 0 <= k < |r| && r[k] == p;
    if k == 0 {
      OptCmpAntisymmetric(p.firstName, p.firstName);
    }
  }
}
