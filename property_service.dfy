/**
 * The domain service (src/property/domain/property.service.js): an id
 * counter that numbers new properties, a partial-update applier, and a
 * payload validator that is deliberately lighter than the entity's checks.
 */
module PropertyDomainService {
  import opened Js
  import opened PropertyEntity

  /** A create or update payload; `Undefined` marks a key that is absent. */
  datatype PropertyData = PropertyData(title: Value, description: Value, address: Value, price: Value, status: Value)

  /** The payload with every key absent: `{}`. */
  const EmptyData := PropertyData(Undefined, Undefined, Undefined, Undefined, Undefined)

  /** The payload's value for one mutable field. */
  function FieldValue(data: PropertyData, f: Field): Value {
    match f
    case Title => data.title
    case Description => data.description
    case Address => data.address
    case Price => data.price
    case Status => data.status
  }

  /** The constructor argument `createProperty` builds from a payload and the id it draws. */
  function CreateInput(data: PropertyData, id: int): PropertyInput {
    PropertyInput(id, data.title, data.description, data.address, data.price, data.status, None, None)
  }

  /** The position of each message in the order the validator checks fields. */
  function MessageRank(m: string): int {
    if m == TITLE_REQUIRED then 0
    else if m == ADDRESS_REQUIRED then 1
    else if m == PRICE_REQUIRED || m == PRICE_POSITIVE then 2
    else 3
  }

  /**
   * `validatePropertyData`: only keys that are present are checked; title and
   * address are rejected only when `null` or `''`; a present price is rejected
   * as missing when `null` and as non-positive when not a positive number.
   * Messages come in the order title, address, price, at most one per field,
   * and there are no others, so valid data yields `[]`.
   */
  function ValidatePropertyData(data: PropertyData): (errors: seq<string>)
    ensures (TITLE_REQUIRED in errors) <==> data.title == Null || data.title == Str("")
    ensures (ADDRESS_REQUIRED in errors) <==> data.address == Null || data.address == Str("")
    ensures (PRICE_REQUIRED in errors) <==> data.price == Null
    ensures (PRICE_POSITIVE in errors) <==> !IsNullish(data.price) && !IsPositiveNumber(data.price)
    ensures forall m :: m in errors ==> m in {TITLE_REQUIRED, ADDRESS_REQUIRED, PRICE_REQUIRED, PRICE_POSITIVE}
    ensures forall i, j :: 0 <= i < j < |errors| ==> MessageRank(errors[i]) < MessageRank(errors[j])
  {
    var title := if !data.title.Undefined? && (data.title.Null? || data.title == Str("")) then [TITLE_REQUIRED] else [];
    var address := if !data.address.Undefined? && (data.address.Null? || data.address == Str("")) then [ADDRESS_REQUIRED] else [];
    var price :=
      if data.price.Undefined? then []
      else if data.price.Null? then [PRICE_REQUIRED]
      else if !IsPositiveNumber(data.price) then [PRICE_POSITIVE]
      else [];
    title + address + price
  }

  /** A payload without title, address and price keys passes validation whatever else it holds. */
  lemma AbsentKeysAreNeverChecked(data: PropertyData)
    requires data.title.Undefined? && data.address.Undefined? && data.price.Undefined?
    ensures ValidatePropertyData(data) == []
  {
  }

  /**
   * The validator is weaker than the entity: whatever the entity accepts passes
   * it, and dropping the title key only drops the title message.
   */
  lemma ValidatorWeakerThanEntity(data: PropertyData, id: int, now: Tick)
    ensures Build(CreateInput(data, id), now).Ok? ==> ValidatePropertyData(data) == []
    ensures var errors := ValidatePropertyData(data);
      ValidatePropertyData(data.(title := Undefined)) == if TITLE_REQUIRED in errors then errors[1..] else errors
  {
    if Build(CreateInput(data, id), now).Ok? {
      assert data.title.Str? && data.title.s != "";
      assert data.address.Str? && data.address.s != "";
    }
  }

  /**
   * A payload with no title, or a whitespace-only one, and nothing else passes
   * the validator and is then rejected by the entity with the entity's own
   * message.
   */
  lemma MissingOrBlankTitlePassesValidator(id: int, now: Tick)
    ensures ValidatePropertyData(EmptyData) == [] &&
      Build(CreateInput(EmptyData, id), now) == Err(Error(TITLE_REQUIRED))
    ensures var blank := EmptyData.(title := Str(" "));
      ValidatePropertyData(blank) == [] && Build(CreateInput(blank, id), now) == Err(Error(TITLE_REQUIRED))
  {
    var blank := EmptyData.(title := Str(" "));
    assert IsWhitespace(blank.title.s[0]);
    assert !(blank.title.Str? && !IsBlank(blank.title.s));
  }

  /** One step of `updateProperty`: skip an absent field, stop after a throw, otherwise run the mutator. */
  function Then(s: Step, data: PropertyData, f: Field, now: Tick): Step {
    if s.outcome.Fail? || FieldValue(data, f).Undefined? then s
    else Mutate(s.rec, f, FieldValue(data, f), now)
  }

  /** The order in which `updateProperty` looks at the payload's fields. */
  const UPDATE_ORDER: seq<Field> := [Title, Description, Address, Price, Status]

  /** Runs the steps for `fields` in order. */
  function ApplyFields(s: Step, data: PropertyData, fields: seq<Field>, now: Tick): Step
    decreases |fields|
  {
    if fields == [] then s else ApplyFields(Then(s, data, fields[0], now), data, fields[1..], now)
  }

  /**
   * What `updateProperty` does to the entity: the present fields are applied in
   * the order title, description, address, price, status, and the first throw
   * ends the update with the fields before it already written.
   */
  function ApplyUpdate(rec: PropertyRecord, data: PropertyData, now: Tick): Step {
    ApplyFields(Step(rec, Pass), data, UPDATE_ORDER, now)
  }

  /** Once a step has thrown, the remaining steps change nothing. */
  lemma {:induction false} FailSticks(s: Step, data: PropertyData, fields: seq<Field>, now: Tick)
    requires s.outcome.Fail?
    ensures ApplyFields(s, data, fields, now) == s
    decreases |fields|
  {
    if fields != [] {
      FailSticks(Then(s, data, fields[0], now), data, fields[1..], now);
    }
  }

  /** `ApplyUpdate` written out as its five steps. */
  lemma ApplyUpdateSteps(rec: PropertyRecord, data: PropertyData, now: Tick)
    ensures ApplyUpdate(rec, data, now) ==
      Then(Then(Then(Then(Then(Step(rec, Pass), data, Title, now), data, Description, now),
        data, Address, now), data, Price, now), data, Status, now)
  {
    var o := UPDATE_ORDER;
    assert o[1..][1..][1..][1..][1..] == [];
  }

  /**
   * A successful update writes exactly the present fields: each absent field
   * keeps its value, each present one holds the value its mutator stores.
   */
  lemma UpdateTouchesOnlyPresentFields(rec: PropertyRecord, data: PropertyData, now: Tick)
    requires ApplyUpdate(rec, data, now).outcome.Pass?
    ensures var r := ApplyUpdate(rec, data, now).rec;
      (if data.title.Undefined? then r.title == rec.title else data.title.Str? && r.title == Trim(data.title.s)) &&
      (if data.description.Undefined? then r.description == rec.description
       else r.description == if Truthy(data.description) then data.description else Str("")) &&
      (if data.address.Undefined? then r.address == rec.address else data.address.Str? && r.address == Trim(data.address.s)) &&
      (if data.price.Undefined? then r.price == rec.price else data.price.Num? && r.price == data.price.n) &&
      (if data.status.Undefined? then r.status == rec.status else r.status == data.status)
  {
    var s1 := Then(Step(rec, Pass), data, Title, now);
    var s2 := Then(s1, data, Description, now);
    var s3 := Then(s2, data, Address, now);
    var s4 := Then(s3, data, Price, now);
    ApplyUpdateSteps(rec, data, now);
    ThenPassed(s4, data, Status, now);
    ThenPassed(s3, data, Price, now);
    ThenPassed(s2, data, Address, now);
    ThenPassed(s1, data, Description, now);
    ThenPassed(Step(rec, Pass), data, Title, now);
  }

  /** One applied step that did not throw: the field it handled holds its new value, every other field is as before. */
  lemma ThenPassed(s: Step, data: PropertyData, f: Field, now: Tick)
    requires Then(s, data, f, now).outcome.Pass?
    ensures s.outcome.Pass?
    ensures var r, v := Then(s, data, f, now).rec, FieldValue(data, f);
      (if f == Title && !v.Undefined? then v.Str? && r.title == Trim(v.s) else r.title == s.rec.title) &&
      (if f == Description && !v.Undefined? then r.description == (if Truthy(v) then v else Str(""))
       else r.description == s.rec.description) &&
      (if f == Address && !v.Undefined? then v.Str? && r.address == Trim(v.s) else r.address == s.rec.address) &&
      (if f == Price && !v.Undefined? then v.Num? && r.price == v.n else r.price == s.rec.price) &&
      (if f == Status && !v.Undefined? then r.status == v else r.status == s.rec.status)
  {
    if !FieldValue(data, f).Undefined? {
      MutateStores(s.rec, f, FieldValue(data, f), now);
    }
  }

  /**
   * Whatever happens, the id and creation time are kept and the entity stays
   * well formed; a payload with no keys changes nothing, not even `updatedAt`.
   */
  lemma UpdateKeepsIdentity(rec: PropertyRecord, data: PropertyData, now: Tick)
    ensures var s := ApplyUpdate(rec, data, now);
      s.rec.id == rec.id && s.rec.createdAt == rec.createdAt &&
      (WellFormed(rec) ==> WellFormed(s.rec)) &&
      (data == EmptyData ==> s == Step(rec, Pass))
  {
    ApplyUpdateSteps(rec, data, now);
    var s1 := Then(Step(rec, Pass), data, Title, now);
    var s2 := Then(s1, data, Description, now);
    var s3 := Then(s2, data, Address, now);
    var s4 := Then(s3, data, Price, now);
    MutateFrame(rec, Title, data.title, now);
    MutateFrame(s1.rec, Description, data.description, now);
    MutateFrame(s2.rec, Address, data.address, now);
    MutateFrame(s3.rec, Price, data.price, now);
    MutateFrame(s4.rec, Status, data.status, now);
  }

  /**
   * A throw part-way leaves the earlier fields written: a valid title with a
   * whitespace-only address fails with the address message, yet the title
   * (and `updatedAt`) have already changed.
   */
  lemma FailedUpdateKeepsEarlierFields(rec: PropertyRecord, newTitle: string, now: Tick)
    requires !IsBlank(newTitle)
    ensures var data := EmptyData.(title := Str(newTitle), address := Str(" "));
      var s := ApplyUpdate(rec, data, now);
      s.outcome == Fail(Error(ADDRESS_REQUIRED)) && s.rec == rec.(title := Trim(newTitle), updatedAt := now)
  {
    assert IsWhitespace(' ');
    var data := EmptyData.(title := Str(newTitle), address := Str(" "));
    ApplyUpdateSteps(rec, data, now);
    assert !(data.address.Str? && !IsBlank(data.address.s));
  }

  /** The domain service object. */
  class PropertyService {
    /** The id the next `createProperty` call hands out. */
    var nextId: int

    constructor()
      ensures nextId == 1
    {
      nextId := 1;
    }

    /**
     * `createProperty`: the counter advances before the entity is constructed,
     * so a construction that throws still uses up its id.
     */
    method CreateProperty(data: PropertyData, now: Tick) returns (r: Result<Property>)
      modifies this
      ensures nextId == old(nextId) + 1
      ensures Build(CreateInput(data, old(nextId)), now).Err? ==>
        r == Err(Build(CreateInput(data, old(nextId)), now).error)
      ensures Build(CreateInput(data, old(nextId)), now).Ok? ==>
        r.Ok? && fresh(r.value) && r.value.Valid() &&
        r.value.Record() == Build(CreateInput(data, old(nextId)), now).value
    {
      var id := nextId;
      nextId := nextId + 1;
      r := Property.New(CreateInput(data, id), now);
    }

    /** One `if (data.f !== undefined) property.updateF(data.f)` block of `updateProperty`. */
    method ApplyField(property: Property, data: PropertyData, f: Field, now: Tick) returns (o: Outcome)
      modifies property
      ensures property.Record() == Then(Step(old(property.Record()), Pass), data, f, now).rec
      ensures o == Then(Step(old(property.Record()), Pass), data, f, now).outcome
    {
      var v := FieldValue(data, f);
      if v.Undefined? {
        return Pass;
      }
      match f
      case Title => o := property.UpdateTitle(v, now);
      case Description => property.UpdateDescription(v, now); o := Pass;
      case Address => o := property.UpdateAddress(v, now);
      case Price => o := property.UpdatePrice(v, now);
      case Status => property.UpdateStatus(v, now); o := Pass;
    }

    /** `updateProperty`: mutates, and returns, the very entity it is given. */
    method UpdateProperty(property: Property, data: PropertyData, now: Tick) returns (r: Result<Property>)
      modifies property
      ensures property.Record() == ApplyUpdate(old(property.Record()), data, now).rec
      ensures r == match ApplyUpdate(old(property.Record()), data, now).outcome
                   case Pass => Ok(property)
                   case Fail(e) => Err(e)
    {
      ghost var s := Step(property.Record(), Pass);
      ghost var rest := UPDATE_ORDER;
      assert ApplyUpdate(old(property.Record()), data, now) == ApplyFields(s, data, rest, now);
      var o0 := ApplyField(property, data, Title, now);
      if o0.Fail? {
        FailSticks(Then(s, data, Title, now), data, rest[1..], now);
        return Err(o0.error);
      }
      s, rest := Then(s, data, Title, now), rest[1..];
      assert ApplyUpdate(old(property.Record()), data, now) == ApplyFields(s, data, rest, now);
      var o1 := ApplyField(property, data, Description, now);
      if o1.Fail? {
        FailSticks(Then(s, data, Description, now), data, rest[1..], now);
        return Err(o1.error);
      }
      s, rest := Then(s, data, Description, now), rest[1..];
      assert ApplyUpdate(old(property.Record()), data, now) == ApplyFields(s, data, rest, now);
      var o2 := ApplyField(property, data, Address, now);
      if o2.Fail? {
        FailSticks(Then(s, data, Address, now), data, rest[1..], now);
        return Err(o2.error);
      }
      s, rest := Then(s, data, Address, now), rest[1..];
      assert ApplyUpdate(old(property.Record()), data, now) == ApplyFields(s, data, rest, now);
      var o3 := ApplyField(property, data, Price, now);
      if o3.Fail? {
        FailSticks(Then(s, data, Price, now), data, rest[1..], now);
        return Err(o3.error);
      }
      s, rest := Then(s, data, Price, now), rest[1..];
      assert ApplyUpdate(old(property.Record()), data, now) == ApplyFields(s, data, rest, now);
      var o4 := ApplyField(property, data, Status, now);
      if o4.Fail? {
        FailSticks(Then(s, data, Status, now), data, rest[1..], now);
        return Err(o4.error);
      }
      s, rest := Then(s, data, Status, now), rest[1..];
      return Ok(property);
    }
  }

  /** A fresh service numbers its creations 1, 2, 3, ..., failed constructions included. */
  method CountFromOne(a: PropertyData, b: PropertyData, now: Tick) returns (first: Result<Property>, second: Result<Property>)
    ensures Build(CreateInput(a, 1), now).Ok? ==> first.Ok? && first.value.id == 1
    ensures Build(CreateInput(b, 2), now).Ok? ==> second.Ok? && second.value.id == 2
  {
    var service := new PropertyService();
    first := service.CreateProperty(a, now);
    second := service.CreateProperty(b, now);
  }
}
