/**
 * The collection-level operations the controllers run on a fetched table:
 * `filter`, `map`, lookup by id, the unique index on `name`, and the four-way
 * name/id listing that every list endpoint repeats.
 */
module Queries {
  import opened Js
  import opened ObjectIds

  /** `a` is `b` with some elements left out, the rest in their original order. */
  predicate IsSubsequence<T(==)>(a: seq<T>, b: seq<T>)
    decreases |b|
  {
    a == [] || (b != [] && ((a[0] == b[0] && IsSubsequence(a[1..], b[1..])) || IsSubsequence(a, b[1..])))
  }

  /** `s.filter(p)` */
  function Filter<T(==,!new)>(s: seq<T>, p: T -> bool): (r: seq<T>)
    ensures |r| <= |s|
    ensures forall x :: x in r <==> x in s && p(x)
    ensures IsSubsequence(r, s)
    decreases |s|
  {
    if s == [] then []
    else if p(s[0]) then [s[0]] + Filter(s[1..], p)
    else Filter(s[1..], p)
  }

  /** A kept element is kept as many times as it occurs; a dropped one not at all. */
  lemma {:induction false} FilterMultiplicity<T(!new)>(s: seq<T>, p: T -> bool, x: T)
    ensures multiset(Filter(s, p))[x] == if p(x) then multiset(s)[x] else 0
    decreases |s|
  {
    if s != [] {
      FilterMultiplicity(s[1..], p, x);
      assert s == [s[0]] + s[1..];
      assert multiset(s) == multiset{s[0]} + multiset(s[1..]);
      if p(s[0]) {
        assert multiset(Filter(s, p)) == multiset{s[0]} + multiset(Filter(s[1..], p));
      }
    }
  }

  lemma FilterKeepsEveryCopy<T(!new)>(s: seq<T>, p: T -> bool)
    ensures forall x :: multiset(Filter(s, p))[x] == if p(x) then multiset(s)[x] else 0
  {
    forall x ensures multiset(Filter(s, p))[x] == if p(x) then multiset(s)[x] else 0 {
      FilterMultiplicity(s, p, x);
    }
  }

  /** Filters by predicates that agree everywhere keep the same elements. */
  lemma {:induction false} FilterAgrees<T(!new)>(s: seq<T>, p: T -> bool, q: T -> bool)
    requires forall x :: p(x) == q(x)
    ensures Filter(s, p) == Filter(s, q)
    decreases |s|
  {
    if s != [] {
      FilterAgrees(s[1..], p, q);
    }
  }

  /** `s.map(f)` */
  function Map<T, U>(s: seq<T>, f: T -> U): (r: seq<U>)
    ensures |r| == |s| && forall k :: 0 <= k < |s| ==> r[k] == f(s[k])
  {
    seq(|s|, k requires 0 <= k < |s| => f(s[k]))
  }

  lemma {:induction false} MapKeepsSubsequence<T, U>(a: seq<T>, b: seq<T>, f: T -> U)
    requires IsSubsequence(a, b)
    ensures IsSubsequence(Map(a, f), Map(b, f))
    decreases |b|
  {
    if a != [] {
      assert Map(b, f)[1..] == Map(b[1..], f);
      if a[0] == b[0] && IsSubsequence(a[1..], b[1..]) {
        assert Map(a, f)[1..] == Map(a[1..], f);
        MapKeepsSubsequence(a[1..], b[1..], f);
      } else {
        MapKeepsSubsequence(a, b[1..], f);
      }
    }
  }

  /** A stronger filter keeps a subsequence of what a weaker one keeps. */
  lemma {:induction false} FilterMonotone<T(!new)>(s: seq<T>, p: T -> bool, q: T -> bool)
    requires forall x :: p(x) ==> q(x)
    ensures IsSubsequence(Filter(s, p), Filter(s, q))
    decreases |s|
  {
    if s != [] {
      FilterMonotone(s[1..], p, q);
      var fp, fq := Filter(s[1..], p), Filter(s[1..], q);
      if p(s[0]) {
        assert Filter(s, p) == [s[0]] + fp && Filter(s, q) == [s[0]] + fq;
        assert ([s[0]] + fp)[1..] == fp && ([s[0]] + fq)[1..] == fq;
      } else if q(s[0]) {
        assert Filter(s, q) == [s[0]] + fq && ([s[0]] + fq)[1..] == fq;
        SkipHead(fp, s[0], fq);
      }
    }
  }

  lemma SkipHead<T>(a: seq<T>, x: T, b: seq<T>)
    requires IsSubsequence(a, b)
    ensures IsSubsequence(a, [x] + b)
  {
    assert ([x] + b)[1..] == b;
  }

  /** When no two elements satisfy `p`, filtering by `p` keeps at most one. */
  lemma {:induction false} FilterAtMostOne<T(!new)>(s: seq<T>, p: T -> bool)
    requires forall i, j :: 0 <= i < j < |s| && p(s[i]) ==> !p(s[j])
    ensures |Filter(s, p)| <= 1
    decreases |s|
  {
    if s != [] {
      var rest := s[1..];
      if p(s[0]) {
        forall y | y in rest ensures !p(y) {
          var j :| 0 <= j < |rest| && rest[j] == y;
          assert s[j + 1] == y;
        }
        NothingMatchesNothingKept(rest, p);
      } else {
        forall i, j | 0 <= i < j < |rest| && p(rest[i]) ensures !p(rest[j]) {
          assert rest[i] == s[i + 1] && rest[j] == s[j + 1];
        }
        FilterAtMostOne(rest, p);
      }
    }
  }

  /** The ids of a table in store order: strictly increasing, hence distinct. */
  predicate IncreasingIds<T>(t: seq<T>, id: T -> nat)
  {
    forall i, j :: 0 <= i < j < |t| ==> id(t[i]) < id(t[j])
  }

  /** Every id of a table is below `bound`, the next id to hand out. */
  predicate IdsBelow<T>(t: seq<T>, id: T -> nat, bound: nat)
  {
    forall k :: 0 <= k < |t| ==> id(t[k]) < bound
  }

  /** The unique index on `name`: no two documents share a name. */
  predicate DistinctNames<T>(t: seq<T>, name: T -> string)
  {
    forall i, j :: 0 <= i < j < |t| ==> name(t[i]) != name(t[j])
  }

  /** The invariant of every table: ids increasing in store order and below `bound`, names unique. */
  predicate TableWellFormed<T>(t: seq<T>, id: T -> nat, name: T -> string, bound: nat)
  {
    IncreasingIds(t, id) && IdsBelow(t, id, bound) && DistinctNames(t, name)
  }

  /** Some document other than the one at `skip` already holds name `n`. */
  predicate NameTakenExcept<T>(t: seq<T>, name: T -> string, n: string, skip: int)
  {
    exists k :: 0 <= k < |t| && k != skip && name(t[k]) == n
  }

  /** Some document already holds name `n`: an insert of `n` breaks the unique index. */
  predicate NameTaken<T>(t: seq<T>, name: T -> string, n: string)
  {
    NameTakenExcept(t, name, n, -1)
  }

  /** The position of the document with id `n`, as `findById` / `updateOne({_id: n})` locate it. */
  function IndexOfId<T>(t: seq<T>, id: T -> nat, n: nat): (r: Option<nat>)
    ensures r.Some? ==> r.value < |t| && id(t[r.value]) == n
    ensures r.None? ==> forall k :: 0 <= k < |t| ==> id(t[k]) != n
    decreases |t|
  {
    if t == [] then None
    else if id(t[0]) == n then Some(0)
    else match IndexOfId(t[1..], id, n)
      case None => None
      case Some(k) => Some(k + 1)
  }

  /**
   * `findById(s)` for a client id string: the document whose id text is `s`, or
   * nothing when `s` does not cast or no document has that id.
   */
  function FindByIdText<T>(t: seq<T>, id: T -> nat, s: string): (r: Option<T>)
    ensures r.Some? ==> ParseId(s) == Some(id(r.value)) && IdText(id(r.value)) == s
    ensures r.Some? ==> exists k :: 0 <= k < |t| && t[k] == r.value
    ensures r.None? ==> forall k :: 0 <= k < |t| ==> IdText(id(t[k])) != s
  {
    IdTextMatchesOnlyParsed(t, id, s);
    match ParseId(s)
    case None => None
    case Some(n) =>
      match IndexOfId(t, id, n)
      case None => None
      case Some(k) => Some(t[k])
  }

  /** The documents whose id text is `s` are exactly those whose id `s` casts to. */
  lemma IdTextMatchesOnlyParsed<T>(t: seq<T>, id: T -> nat, s: string)
    ensures forall k :: 0 <= k < |t| ==> (IdText(id(t[k])) == s <==> ParseId(s) == Some(id(t[k])))
  {
    forall k | 0 <= k < |t| ensures IdText(id(t[k])) == s <==> ParseId(s) == Some(id(t[k])) {
      ParseIdText(id(t[k]));
      if ParseId(s) == Some(id(t[k])) {
        IdTextOfParsed(s, id(t[k]));
      }
    }
  }

  /** `(d) => d.<path> equals the ObjectId n`, for an optional reference path. */
  function RefIs<T>(ref: T -> Option<nat>, n: nat): T -> bool
  {
    d => ref(d) == Some(n)
  }

  /**
   * `find({<path>: s})` on a reference path: `s` is cast to an ObjectId first, and
   * a string that does not cast fails the query; otherwise the documents whose
   * reference has id text `s`, in store order. Documents without the path never match.
   */
  function FindByRef<T(==,!new)>(t: seq<T>, ref: T -> Option<nat>, s: string): (r: Option<seq<T>>)
    ensures r.None? <==> ParseId(s).None?
    ensures r.Some? ==> IsSubsequence(r.value, t)
    ensures r.Some? ==> forall d :: d in r.value <==> d in t && ref(d).Some? && IdText(ref(d).value) == s
    ensures r.Some? ==> forall d :: multiset(r.value)[d] ==
                                      if ref(d).Some? && IdText(ref(d).value) == s then multiset(t)[d] else 0
    ensures r.Some? && (forall d :: d in t ==> ref(d).None? || IdText(ref(d).value) != s) ==> r.value == []
  {
    match ParseId(s)
    case None => None
    case Some(n) =>
      RefMatchesOnlyParsed(ref, s, n);
      NothingMatchesNothingKept(t, RefIs(ref, n));
      FilterKeepsEveryCopy(t, RefIs(ref, n));
      Some(Filter(t, RefIs(ref, n)))
  }

  /** A filter that no element of the sequence satisfies keeps nothing. */
  lemma NothingMatchesNothingKept<T(!new)>(s: seq<T>, p: T -> bool)
    ensures (forall x :: x in s ==> !p(x)) ==> Filter(s, p) == []
  {
  }

  /** A reference has id text `s` exactly when it is the id `s` casts to. */
  lemma RefMatchesOnlyParsed<T(!new)>(ref: T -> Option<nat>, s: string, n: nat)
    requires ParseId(s) == Some(n)
    ensures forall d :: RefIs(ref, n)(d) <==> ref(d).Some? && IdText(ref(d).value) == s
  {
    IdTextOfParsed(s, n);
    forall d ensures RefIs(ref, n)(d) <==> ref(d).Some? && IdText(ref(d).value) == s {
      if ref(d).Some? {
        IdTextInjective(ref(d).value, n);
      }
    }
  }

  lemma MapMembership<T, U>(s: seq<T>, f: T -> U, y: U)
    ensures y in Map(s, f) <==> exists k :: 0 <= k < |s| && f(s[k]) == y
  {
    if y in Map(s, f) {
      var k :| 0 <= k < |s| && Map(s, f)[k] == y;
    }
  }

  /** Appending a document with a fresh id and a fresh name keeps a table well formed. */
  lemma AppendKeepsTableWellFormed<T>(t: seq<T>, id: T -> nat, name: T -> string, bound: nat, x: T)
    requires TableWellFormed(t, id, name, bound)
    requires id(x) == bound && !NameTaken(t, name, name(x))
    ensures TableWellFormed(t + [x], id, name, bound + 1)
  {
    var u := t + [x];
    forall i, j | 0 <= i < j < |u| ensures name(u[i]) != name(u[j]) {
      if j == |t| {
        assert u[i] == t[i];
        assert name(t[i]) != name(x) by {
          if name(t[i]) == name(x) { assert NameTakenExcept(t, name, name(x), -1); }
        }
      }
    }
  }

  /** Replacing the document at `k` by one with the same id and a name no other holds keeps a table well formed. */
  lemma ReplaceKeepsTableWellFormed<T>(t: seq<T>, id: T -> nat, name: T -> string, bound: nat, k: nat, x: T)
    requires TableWellFormed(t, id, name, bound)
    requires k < |t| && id(x) == id(t[k]) && !NameTakenExcept(t, name, name(x), k)
    ensures TableWellFormed(t[k := x], id, name, bound)
  {
    var u := t[k := x];
    forall i, j | 0 <= i < j < |u| ensures name(u[i]) != name(u[j]) {
      if i == k || j == k {
        var other := if i == k then j else i;
        assert !(other != k && name(t[other]) == name(x));
      }
    }
  }

  /** What a list endpoint answers: the names-only view, or matching full documents. */
  datatype Listing<T> = Names(names: seq<string>) | Records(records: seq<T>)

  /** `(c) => c.name === n` */
  function NameIs<T>(name: T -> string, n: string): T -> bool
  {
    c => name(c) == n
  }

  /** `(c) => c._id.toString() === s` */
  function IdStringIs<T>(id: T -> nat, s: string): T -> bool
  {
    c => IdText(id(c)) == s
  }

  /** `(c) => c.name === n && c._id === s`: the `_id` is an ObjectId object, not a string. */
  function NameAndRawIdAre<T>(name: T -> string, id: T -> nat, n: string, s: string): T -> bool
  {
    c => name(c) == n && StrictEqualsString(ObjectId(id(c)), s)
  }

  /**
   * The four-way branch of every list endpoint: both filters, name only, id only,
   * or neither (the names-only view). A filter counts as given when it is truthy.
   */
  function List<T(==,!new)>(t: seq<T>, name: T -> string, id: T -> nat, nameFilter: Option<string>, idFilter: Option<string>): (r: Listing<T>)
    ensures !StringTruthy(nameFilter) && !StringTruthy(idFilter) ==>
      r.Names? && |r.names| == |t| && forall k :: 0 <= k < |t| ==> r.names[k] == name(t[k])
    ensures StringTruthy(nameFilter) && !StringTruthy(idFilter) ==>
      r.Records? && IsSubsequence(r.records, t) &&
      (forall c :: c in r.records <==> c in t && name(c) == nameFilter.value) &&
      (forall c :: multiset(r.records)[c] == if name(c) == nameFilter.value then multiset(t)[c] else 0)
    ensures !StringTruthy(nameFilter) && StringTruthy(idFilter) ==>
      r.Records? && IsSubsequence(r.records, t) &&
      (forall c :: c in r.records <==> c in t && IdText(id(c)) == idFilter.value) &&
      (forall c :: multiset(r.records)[c] == if IdText(id(c)) == idFilter.value then multiset(t)[c] else 0) &&
      (IncreasingIds(t, id) ==> |r.records| <= 1)
    ensures StringTruthy(nameFilter) && StringTruthy(idFilter) ==> r == Records([])
  {
    if StringTruthy(nameFilter) && StringTruthy(idFilter) then
      NothingMatchesNothingKept(t, NameAndRawIdAre(name, id, nameFilter.value, idFilter.value));
      Records(Filter(t, NameAndRawIdAre(name, id, nameFilter.value, idFilter.value)))
    else if StringTruthy(nameFilter) then
      FilterKeepsEveryCopy(t, NameIs(name, nameFilter.value));
      Records(Filter(t, NameIs(name, nameFilter.value)))
    else if StringTruthy(idFilter) then
      IdFilterAtMostOne(t, id, idFilter.value);
      FilterKeepsEveryCopy(t, IdStringIs(id, idFilter.value));
      Records(Filter(t, IdStringIs(id, idFilter.value)))
    else
      Names(Map(t, name))
  }

  lemma IdFilterAtMostOne<T(!new)>(t: seq<T>, id: T -> nat, s: string)
    ensures IncreasingIds(t, id) ==> |Filter(t, IdStringIs(id, s))| <= 1
  {
    if IncreasingIds(t, id) {
      var p := IdStringIs(id, s);
      forall i, j | 0 <= i < j < |t| && p(t[i]) ensures !p(t[j]) {
        IdTextInjective(id(t[i]), id(t[j]));
      }
      FilterAtMostOne(t, p);
    }
  }

  /**
   * As written, the both-filters branch keeps nothing; what it was evidently meant
   * to keep (name and id string both matching) would still lie within the
   * name-only answer.
   */
  lemma BothFiltersWithinNameOnly<T(!new)>(t: seq<T>, name: T -> string, id: T -> nat, n: string, s: string)
    requires n != "" && s != ""
    ensures List(t, name, id, Some(n), Some(s)) == Records([])
    ensures IsSubsequence(Filter(t, c => name(c) == n && IdText(id(c)) == s), List(t, name, id, Some(n), None).records)
  {
    FilterMonotone(t, c => name(c) == n && IdText(id(c)) == s, NameIs(name, n));
  }
}
