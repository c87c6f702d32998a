/**
 * The standalone legacy server (server.js): plain records in a module-level
 * array and an id counter, its own `validateProperty` with a full mode and
 * a key-presence update mode, and the bodies of its five routes. Records keep
 * the payload's values as they were sent (nothing is trimmed).
 */
module LegacyServer {
  import opened Js
  import opened Sequences
  import opened Pagination
  import opened PropertyEntity
  import opened PropertyDomainService
  import PropertyRepository
  import PropertyCommands

  const VALIDATION_FAILED := "Validation failed"

  /** A stored record: the payload's values plus the id and the two timestamps. */
  datatype ServerRecord = ServerRecord(
    id: int, title: Value, description: Value, address: Value, price: Value, status: Value,
    createdAt: Tick, updatedAt: Tick)

  /** The JSON a route sends. */
  datatype ReplyBody =
    | One(record: ServerRecord)
    | Listing(page: Page<ServerRecord>)
    | Invalid(error: string, details: seq<string>)
    | Problem(error: string)
    | Message(message: string)

  /** `res.status(code).json(body)` */
  datatype Reply = Reply(code: int, body: ReplyBody)

  /** The title or address check: a truthy string that does not trim to `''`. */
  predicate Filled(v: Value) {
    v.Str? && !IsBlank(v.s)
  }

  /**
   * `validateProperty(data, isUpdate)`: in full mode title, address and price
   * are all checked; in update mode only those whose key is present. Messages
   * come in the order title, address, price, at most one per field, and
   * there are no others.
   */
  function ValidateProperty(data: PropertyData, isUpdate: bool): (errors: seq<string>)
    ensures (TITLE_REQUIRED in errors) <==> (!isUpdate || !data.title.Undefined?) && !Filled(data.title)
    ensures (ADDRESS_REQUIRED in errors) <==> (!isUpdate || !data.address.Undefined?) && !Filled(data.address)
    ensures (PRICE_REQUIRED in errors) <==> (!isUpdate || !data.price.Undefined?) && IsNullish(data.price)
    ensures (PRICE_POSITIVE in errors) <==>
      (!isUpdate || !data.price.Undefined?) && !IsNullish(data.price) && !IsPositiveNumber(data.price)
    ensures forall m :: m in errors ==> m in {TITLE_REQUIRED, ADDRESS_REQUIRED, PRICE_REQUIRED, PRICE_POSITIVE}
    ensures forall i, j :: 0 <= i < j < |errors| ==> MessageRank(errors[i]) < MessageRank(errors[j])
  {
    NonBlankStringIff(data.title);
    NonBlankStringIff(data.address);
    var title := if (!isUpdate || !data.title.Undefined?) && !IsNonBlankString(data.title) then [TITLE_REQUIRED] else [];
    var address := if (!isUpdate || !data.address.Undefined?) && !IsNonBlankString(data.address) then [ADDRESS_REQUIRED] else [];
    var price :=
      if isUpdate && data.price.Undefined? then []
      else if IsNullish(data.price) then [PRICE_REQUIRED]
      else if !IsPositiveNumber(data.price) then [PRICE_POSITIVE]
      else [];
    title + address + price
  }

  /**
   * The full-mode check agrees with the entity's constructor: it passes
   * exactly when the entity accepts the payload, and otherwise its first
   * message is the one the constructor throws.
   */
  lemma FullModeMatchesEntity(data: PropertyData, id: int, now: Tick)
    ensures ValidateProperty(data, false) == [] <==> Build(CreateInput(data, id), now).Ok?
    ensures var errors := ValidateProperty(data, false);
      errors != [] ==> Build(CreateInput(data, id), now) == Err(Error(errors[0]))
  {
    BuildReportsFirstFailure(CreateInput(data, id), now);
  }

  /**
   * Update mode skips absent keys, and with all three keys present it is full
   * mode. It is stricter than the domain service's validator: a
   * whitespace-only title fails here and passes there.
   */
  lemma UpdateModeChecksPresentKeys(data: PropertyData)
    ensures ValidateProperty(data.(title := Undefined, address := Undefined, price := Undefined), true) == []
    ensures !data.title.Undefined? && !data.address.Undefined? && !data.price.Undefined? ==>
      ValidateProperty(data, true) == ValidateProperty(data, false)
    ensures var blank := EmptyData.(title := Str(" "));
      ValidateProperty(blank, true) == [TITLE_REQUIRED] && ValidatePropertyData(blank) == []
  {
    assert IsWhitespace(' ');
    var blank := EmptyData.(title := Str(" "));
    assert !Filled(blank.title);
  }

  /** What a record looks like as a payload. */
  function FieldsOf(r: ServerRecord): PropertyData {
    PropertyData(r.title, r.description, r.address, r.price, r.status)
  }

  /** A record as the routes store it: title and address filled, price positive. */
  predicate Stored(r: ServerRecord) {
    Filled(r.title) && Filled(r.address) && IsPositiveNumber(r.price)
  }

  /** A payload passes the full-mode check exactly when it has the shape of a stored record. */
  lemma FullModeMeansStored(r: ServerRecord)
    ensures ValidateProperty(FieldsOf(r), false) == [] <==> Stored(r)
  {
  }

  /** The record POST builds: `description || ''`, `status || 'available'`, both timestamps now. */
  function NewRecord(body: PropertyData, id: int, now: Tick): ServerRecord {
    ServerRecord(id, body.title, if Truthy(body.description) then body.description else Str(""),
      body.address, body.price, if Truthy(body.status) then body.status else Str(AVAILABLE), now, now)
  }

  /** `{ ...existing, ...body, id }`: every key the body has overrides, and the id is forced. */
  function Merge(existing: ServerRecord, body: PropertyData, id: int): ServerRecord {
    ServerRecord(id,
      if body.title.Undefined? then existing.title else body.title,
      if body.description.Undefined? then existing.description else body.description,
      if body.address.Undefined? then existing.address else body.address,
      if body.price.Undefined? then existing.price else body.price,
      if body.status.Undefined? then existing.status else body.status,
      existing.createdAt, existing.updatedAt)
  }

  /**
   * The merged record always carries title, address and price, so PUT's
   * update-mode check is in effect a full check, and a merged record that
   * passes it has the stored shape.
   */
  lemma MergedRecordIsFullyChecked(existing: ServerRecord, body: PropertyData, id: int)
    requires Stored(existing)
    ensures var merged := Merge(existing, body, id);
      ValidateProperty(FieldsOf(merged), true) == ValidateProperty(FieldsOf(merged), false) &&
      (ValidateProperty(FieldsOf(merged), true) == [] <==> Stored(merged))
  {
    var merged := Merge(existing, body, id);
    UpdateModeChecksPresentKeys(FieldsOf(merged));
    FullModeMeansStored(merged);
  }

  /** `properties.findIndex(p => p.id === id)`, with `None` for `-1`; `find` returns the entry there. */
  function IndexOfRecord(ps: seq<ServerRecord>, id: int): Option<nat> {
    FirstIndexOf(ps, (p: ServerRecord) => p.id, id)
  }

  /** `result.filter(p => p.status === status)` */
  function FilterByStatus(ps: seq<ServerRecord>, status: string): (r: seq<ServerRecord>)
    ensures KeepsStatus(ps, status, r)
  {
    if ps == [] then []
    else
      var rest := FilterByStatus(ps[1..], status);
      var r := if ps[0].status == Str(status) then [ps[0]] + rest else rest;
      FilterByStatusStep(ps, status, rest, r);
      r
  }

  /** The contract of `FilterByStatus`: `r` keeps, in order and with their counts, exactly the records of `ps` with the status. */
  predicate KeepsStatus(ps: seq<ServerRecord>, status: string, r: seq<ServerRecord>) {
    (forall i :: 0 <= i < |r| ==> r[i] in ps) &&
    IsSubsequence(r, ps) &&
    (forall i :: 0 <= i < |r| ==> r[i].status == Str(status)) &&
    (forall i :: 0 <= i < |ps| && ps[i].status == Str(status) ==> ps[i] in r) &&
    (forall x :: x in ps ==> multiset(r)[x] == if x.status == Str(status) then multiset(ps)[x] else 0)
  }

  /** One step of `FilterByStatus`: keeping or dropping the head keeps its contract. */
  lemma FilterByStatusStep(ps: seq<ServerRecord>, status: string, rest: seq<ServerRecord>, r: seq<ServerRecord>)
    requires ps != [] && KeepsStatus(ps[1..], status, rest)
    requires r == if ps[0].status == Str(status) then [ps[0]] + rest else rest
    ensures KeepsStatus(ps, status, r)
  {
    assert ps == [ps[0]] + ps[1..];
    assert multiset(ps) == multiset{ps[0]} + multiset(ps[1..]);
    if ps[0].status == Str(status) {
      assert multiset(r) == multiset{ps[0]} + multiset(rest);
      assert r[1..] == rest;
    } else if rest != [] {
      assert rest[0] != ps[0];
    }
    forall x | x in ps
      ensures multiset(r)[x] == if x.status == Str(status) then multiset(ps)[x] else 0
    {
      if x !in ps[1..] {
        assert x !in rest;
      }
    }
  }

  /** The list route's result: the status filter when the `status` parameter is non-empty, then pagination. */
  function ListPage(ps: seq<ServerRecord>, status: Option<string>, limit: Option<int>, offset: Option<int>): Page<ServerRecord> {
    var result := if status.Some? && status.value != "" then FilterByStatus(ps, status.value) else ps;
    Paginate(result, limit, offset)
  }

  /**
   * With a status, the list route's `total` counts the matching records, of
   * which there are at most as many as stored, and every record on the page
   * has that status; without one, it pages over everything.
   */
  lemma ListPageMeaning(ps: seq<ServerRecord>, status: string, limit: Option<int>, offset: Option<int>)
    requires status != ""
    ensures var page := ListPage(ps, Some(status), limit, offset);
      page.total == |FilterByStatus(ps, status)| && page.total <= |ps| &&
      forall i :: 0 <= i < |page.items| ==> page.items[i].status == Str(status)
    ensures ListPage(ps, None, limit, offset) == ListPage(ps, Some(""), limit, offset) == Paginate(ps, limit, offset)
  {
    SubsequenceLength(FilterByStatus(ps, status), ps);
  }

  /** Ids grow strictly along the array: in particular they are unique. */
  predicate IncreasingIds(ps: seq<ServerRecord>) {
    forall i, j :: 0 <= i < j < |ps| ==> ps[i].id < ps[j].id
  }

  /** Every record has the stored shape and an id below `nextId`, and ids increase along the array. */
  predicate ValidStore(ps: seq<ServerRecord>, nextId: int) {
    IncreasingIds(ps) && forall i :: 0 <= i < |ps| ==> Stored(ps[i]) && ps[i].id < nextId
  }

  /** POST keeps the store valid: the new record takes `nextId`, which then advances. */
  lemma AppendKeepsValid(ps: seq<ServerRecord>, nextId: int, r: ServerRecord)
    requires ValidStore(ps, nextId) && Stored(r) && r.id == nextId
    ensures ValidStore(ps + [r], nextId + 1)
  {
  }

  /** PUT keeps the store valid: the replacement keeps the id and has the stored shape. */
  lemma ReplaceKeepsValid(ps: seq<ServerRecord>, nextId: int, i: nat, r: ServerRecord)
    requires ValidStore(ps, nextId) && i < |ps| && Stored(r) && r.id == ps[i].id
    ensures ValidStore(ps[i := r], nextId)
  {
  }

  /**
   * PUT keeps the store valid: the merged record is checked as fully as a new
   * one, and one that passes keeps the id of the record it replaces.
   */
  lemma PutKeepsValid(ps: seq<ServerRecord>, nextId: int, i: nat, body: PropertyData, id: int, now: Tick)
    requires ValidStore(ps, nextId) && i < |ps| && ps[i].id == id
    ensures var merged := Merge(ps[i], body, id);
      ValidateProperty(FieldsOf(merged), true) == ValidateProperty(FieldsOf(merged), false) &&
      (ValidateProperty(FieldsOf(merged), true) == [] ==> ValidStore(ps[i := merged.(updatedAt := now)], nextId))
  {
    var merged := Merge(ps[i], body, id);
    MergedRecordIsFullyChecked(ps[i], body, id);
    if ValidateProperty(FieldsOf(merged), true) == [] {
      FullModeMeansStored(merged.(updatedAt := now));
      ReplaceKeepsValid(ps, nextId, i, merged.(updatedAt := now));
    }
  }

  /** DELETE keeps the store valid, and since ids are unique the removed id is gone. */
  lemma RemoveKeepsValid(ps: seq<ServerRecord>, nextId: int, k: nat)
    requires ValidStore(ps, nextId) && k < |ps|
    ensures var rest := ps[..k] + ps[k + 1..];
      ValidStore(rest, nextId) && forall r :: r in rest ==> r.id != ps[k].id
  {
    var rest := ps[..k] + ps[k + 1..];
    forall a, b | 0 <= a < b < |rest| ensures rest[a].id < rest[b].id {
      var a', b' := if a < k then a else a + 1, if b < k then b else b + 1;
      assert rest[a] == ps[a'] && rest[b] == ps[b'];
    }
    forall j | 0 <= j < |rest| ensures Stored(rest[j]) && rest[j].id < nextId && rest[j].id != ps[k].id {
      var j' := if j < k then j else j + 1;
      assert rest[j] == ps[j'];
    }
  }

  /** The module-level state: `properties` and `nextId`. */
  class Server {
    var properties: seq<ServerRecord>
    var nextId: int

    ghost predicate Valid()
      reads this
    {
      ValidStore(properties, nextId)
    }

    constructor()
      ensures properties == [] && nextId == 1 && Valid()
    {
      properties := [];
      nextId := 1;
    }

    /** POST /api/properties: a full-mode failure changes nothing; otherwise the record gets `nextId` and is appended. */
    method Post(body: PropertyData, now: Tick) returns (reply: Reply)
      requires Valid()
      modifies this
      ensures Valid()
      ensures ValidateProperty(body, false) != [] ==>
        reply == Reply(400, Invalid(VALIDATION_FAILED, ValidateProperty(body, false))) &&
        properties == old(properties) && nextId == old(nextId)
      ensures ValidateProperty(body, false) == [] ==>
        reply == Reply(201, One(NewRecord(body, old(nextId), now))) &&
        properties == old(properties) + [NewRecord(body, old(nextId), now)] && nextId == old(nextId) + 1
    {
      var errors := ValidateProperty(body, false);
      if |errors| > 0 {
        return Reply(400, Invalid(VALIDATION_FAILED, errors));
      }
      var record := NewRecord(body, nextId, now);
      FullModeMeansStored(record);
      AppendKeepsValid(properties, nextId, record);
      nextId := nextId + 1;
      properties := properties + [record];
      return Reply(201, One(record));
    }

    /** GET /api/properties: changes nothing. */
    method List(status: Option<string>, limit: Option<int>, offset: Option<int>) returns (reply: Reply)
      ensures reply == Reply(200, Listing(ListPage(properties, status, limit, offset)))
      ensures status.None? && limit.None? && offset.None? ==>
        reply.body.page.items == properties && reply.body.page.total == |properties|
    {
      reply := Reply(200, Listing(ListPage(properties, status, limit, offset)));
      NoPaginationIsEverything(properties);
    }

    /** GET /api/properties/:id: the first record with that id, or 404. */
    method Get(id: int) returns (reply: Reply)
      ensures IndexOfRecord(properties, id).None? <==> reply == Reply(404, Problem(PropertyRepository.PROPERTY_NOT_FOUND))
      ensures IndexOfRecord(properties, id).Some? ==>
        reply == Reply(200, One(properties[IndexOfRecord(properties, id).value])) && reply.body.record.id == id
    {
      var i := IndexOfRecord(properties, id);
      if i.None? {
        return Reply(404, Problem(PropertyRepository.PROPERTY_NOT_FOUND));
      }
      return Reply(200, One(properties[i.value]));
    }

    /**
     * PUT /api/properties/:id: 404 for a missing id; otherwise the merged
     * record is checked, and either nothing changes or it replaces the record
     * at the same index with `updatedAt` refreshed.
     */
    method Put(id: int, body: PropertyData, now: Tick) returns (reply: Reply)
      requires Valid()
      modifies this
      ensures Valid() && nextId == old(nextId) && |properties| == |old(properties)|
      ensures IndexOfRecord(old(properties), id).None? ==>
        reply == Reply(404, Problem(PropertyRepository.PROPERTY_NOT_FOUND)) && properties == old(properties)
      ensures IndexOfRecord(old(properties), id).Some? ==>
        var i := IndexOfRecord(old(properties), id).value;
        var merged := Merge(old(properties)[i], body, id);
        var errors := ValidateProperty(FieldsOf(merged), false);
        (errors != [] ==> reply == Reply(400, Invalid(VALIDATION_FAILED, errors)) && properties == old(properties)) &&
        (errors == [] ==>
          reply == Reply(200, One(merged.(updatedAt := now))) &&
          properties == old(properties)[i := merged.(updatedAt := now)])
    {
      var i := IndexOfRecord(properties, id);
      if i.None? {
        return Reply(404, Problem(PropertyRepository.PROPERTY_NOT_FOUND));
      }
      var merged := Merge(properties[i.value], body, id);
      PutKeepsValid(properties, nextId, i.value, body, id, now);
      var errors := ValidateProperty(FieldsOf(merged), true);
      if |errors| > 0 {
        return Reply(400, Invalid(VALIDATION_FAILED, errors));
      }
      var updated := merged.(updatedAt := now);
      properties := properties[i.value := updated];
      return Reply(200, One(updated));
    }

    /** DELETE /api/properties/:id: 404 for a missing id; otherwise exactly that record is spliced out. */
    method Delete(id: int) returns (reply: Reply)
      requires Valid()
      modifies this
      ensures Valid() && nextId == old(nextId)
      ensures IndexOfRecord(old(properties), id).None? ==>
        reply == Reply(404, Problem(PropertyRepository.PROPERTY_NOT_FOUND)) && properties == old(properties)
      ensures IndexOfRecord(old(properties), id).Some? ==>
        var i := IndexOfRecord(old(properties), id).value;
        reply == Reply(200, Message(PropertyCommands.DELETED)) &&
        properties == old(properties)[..i] + old(properties)[i + 1..] &&
        forall r :: r in properties ==> r.id != id
    {
      var i := IndexOfRecord(properties, id);
      if i.None? {
        return Reply(404, Problem(PropertyRepository.PROPERTY_NOT_FOUND));
      }
      RemoveKeepsValid(properties, nextId, i.value);
      properties := properties[..i.value] + properties[i.value + 1..];
      return Reply(200, Message(PropertyCommands.DELETED));
    }
  }
}
