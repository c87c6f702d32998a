/**
 * The in-memory repository
 * (src/property/infrastructure/repository/inmemory/property.inmemory.js):
 * an ordered array of references to Property objects with upsert-by-id
 * `save`, lookup, a filtering and paginating `findAll`, in-place `update`
 * and splicing `delete`.
 */
module PropertyRepository {
  import opened Js
  import opened Pagination
  import opened PropertyEntity
  import opened Sequences

  const PROPERTY_NOT_FOUND := "Property not found"

  /** The `filters` object of `findAll`; every key is optional, and `{}` is the default. */
  datatype Filters = Filters(status: Option<string>, search: Option<string>, limit: Option<int>, offset: Option<int>)

  const NoFilters := Filters(None, None, None, None)

  /** `ps.findIndex(p => p.id === id)`, with `None` for `-1`. */
  function IndexOfId(ps: seq<Property>, id: int): Option<nat> {
    FirstIndexOf(ps, IdOf, id)
  }

  function IdOf(p: Property): int {
    p.id
  }

  /** No two stored entries share an id. */
  predicate UniqueIds(ps: seq<Property>) {
    forall i, j :: 0 <= i < j < |ps| ==> ps[i].id != ps[j].id
  }

  /** The array after `save(p)`: the first entry with `p`'s id is replaced, or `p` is appended. */
  function Saved(ps: seq<Property>, p: Property): seq<Property> {
    match IndexOfId(ps, p.id)
    case Some(i) => ps[i := p]
    case None => ps + [p]
  }

  /** The array after `splice(i, 1)`. */
  function Removed(ps: seq<Property>, i: nat): seq<Property>
    requires i < |ps|
  {
    ps[..i] + ps[i + 1..]
  }

  /** `save` replaces in place when the id is present and appends otherwise; either way ids stay unique and `p` is stored. */
  lemma SaveKeepsIdsUnique(ps: seq<Property>, p: Property)
    requires UniqueIds(ps)
    ensures var r := Saved(ps, p);
      UniqueIds(r) && p in r &&
      (if exists q :: q in ps && q.id == p.id then |r| == |ps| else r == ps + [p])
  {
    var r := Saved(ps, p);
    match IndexOfId(ps, p.id)
    case Some(i) =>
      assert r[i] == p;
    case None =>
      assert r[|ps|] == p;
      assert forall q :: q in ps ==> q.id != p.id;
  }

  /** `delete` removes exactly the entry at `i`, keeps the others in their relative order, and keeps ids unique. */
  lemma RemoveKeepsOrder(ps: seq<Property>, i: nat)
    requires i < |ps|
    ensures var r := Removed(ps, i);
      |r| == |ps| - 1 &&
      (forall j :: 0 <= j < i ==> r[j] == ps[j]) &&
      (forall j :: i <= j < |r| ==> r[j] == ps[j + 1]) &&
      (UniqueIds(ps) ==> UniqueIds(r) && forall q :: q in r ==> q.id != ps[i].id)
  {
    var r := Removed(ps, i);
    if UniqueIds(ps) {
      forall a, b | 0 <= a < b < |r| ensures r[a].id != r[b].id {
        var a', b' := if a < i then a else a + 1, if b < i then b else b + 1;
        assert r[a] == ps[a'] && r[b] == ps[b'];
      }
      forall q | q in r ensures q.id != ps[i].id {
        var k :| 0 <= k < |r| && r[k] == q;
        assert q == ps[if k < i then k else k + 1];
      }
    }
  }

  /** `result.filter(p => p.status === status)` */
  function FilterStatus(ps: seq<Property>, status: string): (r: seq<Property>)
    reads ps
    ensures KeepsStatus(ps, status, r)
  {
    if ps == [] then []
    else
      var rest := FilterStatus(ps[1..], status);
      var r := if ps[0].status == Str(status) then [ps[0]] + rest else rest;
      FilterStatusStep(ps, status, rest, r);
      r
  }

  /** The contract of `FilterStatus`: `r` keeps, in order and with their counts, exactly the entries of `ps` with the status. */
  predicate KeepsStatus(ps: seq<Property>, status: string, r: seq<Property>)
    reads ps, r
  {
    KeepsStatusInOrder(ps, status, r) && KeepsStatusCounts(ps, status, r)
  }

  /** `r` is drawn in order from `ps`, every entry of `r` has the status, and every entry of `ps` with it is in `r`. */
  predicate KeepsStatusInOrder(ps: seq<Property>, status: string, r: seq<Property>)
    reads ps, r
  {
    |r| <= |ps| && (forall i :: 0 <= i < |r| ==> r[i] in ps) && IsSubsequence(r, ps) &&
    (forall p :: p in r ==> p.status == Str(status)) &&
    (forall i :: 0 <= i < |ps| && ps[i].status == Str(status) ==> ps[i] in r)
  }

  /** Each entry of `ps` with the status occurs in `r` as often as in `ps`, and the others not at all. */
  predicate KeepsStatusCounts(ps: seq<Property>, status: string, r: seq<Property>)
    reads ps
  {
    forall x | x in ps :: multiset(r)[x] == if x.status == Str(status) then multiset(ps)[x] else 0
  }

  /** One step of `FilterStatus`: keeping or dropping the head keeps the contract. */
  lemma FilterStatusStep(ps: seq<Property>, status: string, rest: seq<Property>, r: seq<Property>)
    requires ps != [] && KeepsStatus(ps[1..], status, rest)
    requires r == if ps[0].status == Str(status) then [ps[0]] + rest else rest
    ensures KeepsStatus(ps, status, r)
  {
    FilterStatusStepInOrder(ps, status, rest, r);
    FilterStatusStepCounts(ps, status, rest, r);
  }

  lemma FilterStatusStepInOrder(ps: seq<Property>, status: string, rest: seq<Property>, r: seq<Property>)
    requires ps != [] && KeepsStatusInOrder(ps[1..], status, rest)
    requires r == if ps[0].status == Str(status) then [ps[0]] + rest else rest
    ensures KeepsStatusInOrder(ps, status, r)
  {
    assert ps == [ps[0]] + ps[1..];
    if ps[0].status == Str(status) {
      assert r[1..] == rest;
    } else if rest != [] {
      assert rest[0] in rest;
      assert rest[0] != ps[0];
    }
  }

  lemma FilterStatusStepCounts(ps: seq<Property>, status: string, rest: seq<Property>, r: seq<Property>)
    requires ps != [] && KeepsStatusCounts(ps[1..], status, rest)
    requires forall i :: 0 <= i < |rest| ==> rest[i] in ps[1..]
    requires r == if ps[0].status == Str(status) then [ps[0]] + rest else rest
    ensures KeepsStatusCounts(ps, status, r)
  {
    assert ps == [ps[0]] + ps[1..];
    assert multiset(ps) == multiset{ps[0]} + multiset(ps[1..]);
    if ps[0].status == Str(status) {
      assert multiset(r) == multiset{ps[0]} + multiset(rest);
    }
    forall x | x in ps
      ensures multiset(r)[x] == if x.status == Str(status) then multiset(ps)[x] else 0
    {
      if x !in ps[1..] {
        assert x !in rest;
      }
    }
  }

  /**
   * `p.title.toLowerCase().includes(term) || p.description.toLowerCase().includes(term)`.
   * The description is only looked at when the title does not match, and then a
   * description that is not a string makes `toLowerCase` throw a `TypeError`.
   */
  function SearchHit(p: Property, term: string): Result<bool>
    reads p
  {
    if Includes(ToLower(p.title), term) then Ok(true)
    else if !p.description.Str? then Err(TypeError)
    else Ok(Includes(ToLower(p.description.s), term))
  }

  /** `result.filter(p => <SearchHit>)`, which throws as soon as one entry's test throws. */
  function FilterSearch(ps: seq<Property>, term: string): (r: Result<seq<Property>>)
    reads ps
    ensures r.Ok? <==> forall i :: 0 <= i < |ps| ==> SearchHit(ps[i], term).Ok?
    ensures r.Ok? ==> KeepsHits(ps, term, r.value)
    ensures r.Err? ==> r.error == TypeError
  {
    if ps == [] then Ok([])
    else
      match SearchHit(ps[0], term)
      case Err(e) => Err(e)
      case Ok(hit) =>
        match FilterSearch(ps[1..], term)
        case Err(e) => Err(e)
        case Ok(rest) =>
          var r := if hit then [ps[0]] + rest else rest;
          FilterSearchStep(ps, term, hit, rest, r);
          Ok(r)
  }

  /**
   * The contract of a successful `FilterSearch`: `r` keeps, in order and with
   * their counts, exactly the entries of `ps` the search hits.
   */
  predicate KeepsHits(ps: seq<Property>, term: string, r: seq<Property>)
    reads ps, r
  {
    |r| <= |ps| && IsSubsequence(r, ps) &&
    (forall p :: p in r ==> p in ps && SearchHit(p, term) == Ok(true)) &&
    (forall i :: 0 <= i < |ps| && SearchHit(ps[i], term) == Ok(true) ==> ps[i] in r) &&
    (forall x | x in ps :: multiset(r)[x] == if SearchHit(x, term) == Ok(true) then multiset(ps)[x] else 0)
  }

  /** One step of `FilterSearch`: keeping or dropping the head by its test keeps the contract. */
  lemma FilterSearchStep(ps: seq<Property>, term: string, hit: bool, rest: seq<Property>, r: seq<Property>)
    requires ps != [] && SearchHit(ps[0], term) == Ok(hit) && KeepsHits(ps[1..], term, rest)
    requires r == if hit then [ps[0]] + rest else rest
    ensures KeepsHits(ps, term, r)
  {
    assert ps == [ps[0]] + ps[1..];
    assert multiset(ps) == multiset{ps[0]} + multiset(ps[1..]);
    if hit {
      assert multiset(r) == multiset{ps[0]} + multiset(rest);
      assert r[1..] == rest;
    } else if rest != [] {
      assert rest[0] in rest;
      assert rest[0] != ps[0];
    }
    forall x | x in ps
      ensures multiset(r)[x] == if SearchHit(x, term) == Ok(true) then multiset(ps)[x] else 0
    {
      if x !in ps[1..] {
        assert x !in rest;
      }
    }
  }

  /** The entries `findAll` keeps before paginating: the status filter first, then the search. */
  function Filtered(ps: seq<Property>, f: Filters): Result<seq<Property>>
    reads ps
  {
    var byStatus := if f.status.Some? && f.status.value != "" then FilterStatus(ps, f.status.value) else ps;
    if f.search.Some? && f.search.value != "" then FilterSearch(byStatus, ToLower(f.search.value))
    else Ok(byStatus)
  }

  /** `findAll(filters)`: filter, then report the filtered count as `total` and slice out the page. */
  function Query(ps: seq<Property>, f: Filters): Result<Page<Property>>
    reads ps
  {
    match Filtered(ps, f)
    case Err(e) => Err(e)
    case Ok(result) => Ok(Paginate(result, f.limit, f.offset))
  }

  /** `p` passes both of `findAll`'s filters. */
  predicate Matches(p: Property, f: Filters)
    reads p
  {
    (f.status.Some? && f.status.value != "" ==> p.status == Str(f.status.value)) &&
    (f.search.Some? && f.search.value != "" ==> SearchHit(p, ToLower(f.search.value)) == Ok(true))
  }

  /**
   * Every entry `findAll` keeps matches the status exactly (when one is given)
   * and the search case-insensitively, and every matching entry is kept, in
   * store order and as many times as it is stored.
   */
  lemma QueryKeepsMatchesInOrder(ps: seq<Property>, f: Filters)
    requires Filtered(ps, f).Ok?
    ensures var result := Filtered(ps, f).value;
      IsSubsequence(result, ps) &&
      (forall i :: 0 <= i < |result| ==> Matches(result[i], f)) &&
      (forall i :: 0 <= i < |ps| && Matches(ps[i], f) ==> ps[i] in result) &&
      (forall x | x in ps :: multiset(result)[x] == if Matches(x, f) then multiset(ps)[x] else 0)
  {
    var hasStatus := f.status.Some? && f.status.value != "";
    var byStatus := if hasStatus then FilterStatus(ps, f.status.value) else ps;
    var result := Filtered(ps, f).value;
    if !hasStatus {
      SubsequenceReflexive(ps);
    }
    if f.search.Some? && f.search.value != "" {
      var term := ToLower(f.search.value);
      assert FilterSearch(byStatus, term) == Ok(result);
      SubsequenceTransitive(result, byStatus, ps);
      forall x | x in ps
        ensures multiset(result)[x] == if Matches(x, f) then multiset(ps)[x] else 0
      {
        if x !in byStatus {
          assert x !in result;
        }
      }
    }
  }

  /**
   * `total` counts the filtered entries before pagination; for a non-negative
   * offset and limit the page holds the filtered entries from `offset` on,
   * `limit` of them or as many as remain.
   */
  lemma QueryTotalAndPage(ps: seq<Property>, f: Filters)
    requires Filtered(ps, f).Ok?
    ensures var result := Filtered(ps, f).value; var page := Query(ps, f);
      page.Ok? && page.value.total == |result| &&
      (0 <= page.value.offset && 0 <= page.value.limit ==>
        |page.value.items| == Max(0, Min(page.value.limit, |result| - page.value.offset)) &&
        forall i :: 0 <= i < |page.value.items| ==> page.value.items[i] == result[page.value.offset + i])
  {
    var result := Filtered(ps, f).value;
    if 0 <= EffectiveOffset(f.offset) && 0 <= EffectiveLimit(f.limit, |result|) {
      PageWindow(result, f.limit, f.offset);
    }
  }

  /** Without a status or a search, `findAll` cannot throw and pages over the whole store. */
  lemma UnfilteredQuery(ps: seq<Property>, limit: Option<int>, offset: Option<int>)
    ensures Query(ps, Filters(None, None, limit, offset)) == Ok(Paginate(ps, limit, offset))
    ensures Query(ps, NoFilters) == Ok(Page(ps, |ps|, |ps|, 0))
  {
    NoPaginationIsEverything(ps);
  }

  /** "Beautiful Villa" matches the lower-case search "beautiful". */
  lemma SearchIgnoresCase(p: Property)
    requires p.title == "Beautiful Villa"
    ensures SearchHit(p, ToLower("beautiful")) == Ok(true)
  {
    var t := ToLower(p.title);
    assert ToLower("beautiful") == "beautiful";
    assert t[0..9] == "beautiful";
    assert OccursAt(t, "beautiful", 0);
  }

  /** The repository object. */
  class InMemoryRepository {
    var properties: seq<Property>

    constructor()
      ensures properties == []
    {
      properties := [];
    }

    /** `save(p)`: upsert by id; returns its argument. */
    method Save(p: Property) returns (r: Property)
      modifies this
      ensures r == p
      ensures properties == Saved(old(properties), p)
    {
      var i := IndexOfId(properties, p.id);
      if i.Some? {
        properties := properties[i.value := p];
      } else {
        properties := properties + [p];
      }
      return p;
    }

    /** `findById(id)`: the first stored entry with that id, the object itself, or `null`. */
    method FindById(id: int) returns (r: Option<Property>)
      ensures r.Some? <==> exists p :: p in properties && p.id == id
      ensures r.Some? ==> r.value in properties && r.value.id == id
      ensures r.Some? ==> r.value == properties[IndexOfId(properties, id).value]
    {
      var i := IndexOfId(properties, id);
      if i.Some? {
        return Some(properties[i.value]);
      }
      return None;
    }

    /** `findAll(filters)`: works on a copy, so the store is not changed. */
    method FindAll(f: Filters) returns (r: Result<Page<Property>>)
      ensures r == Query(properties, f)
      ensures r.Ok? ==> r.value.total <= |properties|
    {
      r := Query(properties, f);
    }

    /** `update(id, p)`: overwrites the first entry with that id in place, or throws. */
    method Update(id: int, p: Property) returns (r: Result<Property>)
      modifies this
      ensures IndexOfId(old(properties), id).None? ==>
        r == Err(Error(PROPERTY_NOT_FOUND)) && properties == old(properties)
      ensures IndexOfId(old(properties), id).Some? ==>
        r == Ok(p) && properties == old(properties)[IndexOfId(old(properties), id).value := p]
    {
      var i := IndexOfId(properties, id);
      if i.None? {
        return Err(Error(PROPERTY_NOT_FOUND));
      }
      properties := properties[i.value := p];
      return Ok(p);
    }

    /** `delete(id)`: splices out the first entry with that id, or throws. */
    method Delete(id: int) returns (r: Result<bool>)
      modifies this
      ensures IndexOfId(old(properties), id).None? ==>
        r == Err(Error(PROPERTY_NOT_FOUND)) && properties == old(properties)
      ensures IndexOfId(old(properties), id).Some? ==>
        r == Ok(true) && properties == Removed(old(properties), IndexOfId(old(properties), id).value)
    {
      var i := IndexOfId(properties, id);
      if i.None? {
        return Err(Error(PROPERTY_NOT_FOUND));
      }
      properties := properties[..i.value] + properties[i.value + 1..];
      return Ok(true);
    }
  }
}
