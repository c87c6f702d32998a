/**
 * The Property entity (src/property/domain/property.entity.js): a record whose
 * constructor validates title, address and price, and whose mutators each
 * re-validate the one field they write before writing it and refreshing
 * `updatedAt`.
 */
module PropertyEntity {
  import opened Js

  const TITLE_REQUIRED := "Title is required and must be a non-empty string"
  const ADDRESS_REQUIRED := "Address is required and must be a non-empty string"
  const PRICE_REQUIRED := "Price is required"
  const PRICE_POSITIVE := "Price must be a positive number"
  const AVAILABLE := "available"

  /** The constructor's argument object; `Undefined` marks an omitted key. */
  datatype PropertyInput = PropertyInput(
    id: int, title: Value, description: Value, address: Value, price: Value, status: Value,
    createdAt: Option<Tick>, updatedAt: Option<Tick>)

  /** Everything observable about a Property object at one moment. */
  datatype PropertyRecord = PropertyRecord(
    id: int, title: string, description: Value, address: string, price: int, status: Value,
    createdAt: Tick, updatedAt: Tick)

  /** The entity invariant: trimmed non-empty title and address, positive price. */
  predicate WellFormed(r: PropertyRecord) {
    IsTrimmedNonEmpty(r.title) && IsTrimmedNonEmpty(r.address) && r.price > 0
  }

  /** `validateTitle`: accepts exactly the strings with a non-whitespace character and yields them trimmed. */
  function ValidateTitle(title: Value): (r: Result<string>)
    ensures r.Ok? <==> title.Str? && !IsBlank(title.s)
    ensures r.Ok? ==> r.value == Trim(title.s) && IsTrimmedNonEmpty(r.value)
    ensures r.Err? ==> r.error == Error(TITLE_REQUIRED)
  {
    NonBlankStringIff(title);
    if !IsNonBlankString(title) then Err(Error(TITLE_REQUIRED))
    else TrimShape(title.s); Ok(Trim(title.s))
  }

  /** `validateAddress`: the same rule as the title, with its own message. */
  function ValidateAddress(address: Value): (r: Result<string>)
    ensures r.Ok? <==> address.Str? && !IsBlank(address.s)
    ensures r.Ok? ==> r.value == Trim(address.s) && IsTrimmedNonEmpty(r.value)
    ensures r.Err? ==> r.error == Error(ADDRESS_REQUIRED)
  {
    NonBlankStringIff(address);
    if !IsNonBlankString(address) then Err(Error(ADDRESS_REQUIRED))
    else TrimShape(address.s); Ok(Trim(address.s))
  }

  /** `validatePrice`: a missing price and a non-positive one are told apart by their messages. */
  function ValidatePrice(price: Value): (r: Result<int>)
    ensures r.Ok? <==> price.Num? && price.n > 0
    ensures r.Ok? ==> r.value == price.n
    ensures price.Undefined? || price.Null? ==> r == Err(Error(PRICE_REQUIRED))
    ensures !price.Undefined? && !price.Null? && !r.Ok? ==> r == Err(Error(PRICE_POSITIVE))
  {
    if IsNullish(price) then Err(Error(PRICE_REQUIRED))
    else if !IsPositiveNumber(price) then Err(Error(PRICE_POSITIVE))
    else Ok(price.n)
  }

  /**
   * What `new Property(input)` produces: the first failing check, in the order
   * title, address, price, or the record with `description` defaulting to `''`,
   * `status` to `'available'`, and both timestamps to the current time.
   */
  function Build(input: PropertyInput, now: Tick): (r: Result<PropertyRecord>)
    ensures r.Ok? ==> WellFormed(r.value)
    ensures r.Ok? <==>
      ValidateTitle(input.title).Ok? && ValidateAddress(input.address).Ok? && ValidatePrice(input.price).Ok?
  {
    match ValidateTitle(input.title)
    case Err(e) => Err(e)
    case Ok(title) =>
      match ValidateAddress(input.address)
      case Err(e) => Err(e)
      case Ok(address) =>
        match ValidatePrice(input.price)
        case Err(e) => Err(e)
        case Ok(price) =>
          Ok(PropertyRecord(
               input.id, title,
               if input.description.Undefined? then Str("") else input.description,
               address, price,
               if input.status.Undefined? then Str(AVAILABLE) else input.status,
               if input.createdAt.Some? then input.createdAt.value else now,
               if input.updatedAt.Some? then input.updatedAt.value else now))
  }

  /** Construction fails with the message of the first field, in the order title, address, price, that is rejected. */
  lemma BuildReportsFirstFailure(input: PropertyInput, now: Tick)
    ensures input.title.Str? && !IsBlank(input.title.s) <==> !(Build(input, now) == Err(Error(TITLE_REQUIRED)))
    ensures ValidateTitle(input.title).Ok? ==>
      (Build(input, now) == Err(Error(ADDRESS_REQUIRED)) <==> !(input.address.Str? && !IsBlank(input.address.s)))
    ensures ValidateTitle(input.title).Ok? && ValidateAddress(input.address).Ok? ==>
      (Build(input, now) == Err(Error(PRICE_REQUIRED)) <==> IsNullish(input.price)) &&
      (Build(input, now) == Err(Error(PRICE_POSITIVE)) <==> !IsNullish(input.price) && !IsPositiveNumber(input.price))
  {
  }

  /** The stored title and address are the trimmed inputs; the id and price are stored as given. */
  lemma BuildStoresTrimmed(input: PropertyInput, now: Tick)
    requires Build(input, now).Ok?
    ensures var r := Build(input, now).value;
      r.title == Trim(input.title.s) && r.address == Trim(input.address.s) &&
      r.id == input.id && r.price == input.price.n
  {
  }

  /** Omitted description and status default to `''` and `'available'`; given ones, even `null`, are kept. */
  lemma BuildDefaults(input: PropertyInput, now: Tick)
    requires Build(input, now).Ok?
    ensures var r := Build(input, now).value;
      (r.description == if input.description.Undefined? then Str("") else input.description) &&
      (r.status == if input.status.Undefined? then Str(AVAILABLE) else input.status) &&
      (input.createdAt.None? ==> r.createdAt == now) && (input.updatedAt.None? ==> r.updatedAt == now)
  {
  }

  /** The fields an `update*` mutator can write. */
  datatype Field = Title | Description | Address | Price | Status

  /** A record after an attempted mutation, and whether the mutation threw. */
  datatype Step = Step(rec: PropertyRecord, outcome: Outcome)

  /**
   * What `update<Field>(v)` does to the record: validate `v` for that field
   * and, only if that succeeds, write the field and refresh `updatedAt`.
   * `updateDescription` stores `''` for a falsy value; `updateStatus` accepts anything.
   */
  function Mutate(rec: PropertyRecord, f: Field, v: Value, now: Tick): (s: Step)
    ensures s.outcome.Fail? <==>
      (f == Title && !(v.Str? && !IsBlank(v.s))) ||
      (f == Address && !(v.Str? && !IsBlank(v.s))) ||
      (f == Price && !(v.Num? && v.n > 0))
    ensures s.outcome.Fail? ==> s.outcome.error == Error(
      match f
      case Title => TITLE_REQUIRED
      case Address => ADDRESS_REQUIRED
      case _ => if IsNullish(v) then PRICE_REQUIRED else PRICE_POSITIVE)
    ensures s.outcome.Fail? ==> s.rec == rec
    ensures WellFormed(rec) ==> WellFormed(s.rec)
  {
    match f
    case Title =>
      (match ValidateTitle(v)
       case Err(e) => Step(rec, Fail(e))
       case Ok(t) => Step(rec.(title := t, updatedAt := now), Pass))
    case Description =>
      Step(rec.(description := if Truthy(v) then v else Str(""), updatedAt := now), Pass)
    case Address =>
      (match ValidateAddress(v)
       case Err(e) => Step(rec, Fail(e))
       case Ok(a) => Step(rec.(address := a, updatedAt := now), Pass))
    case Price =>
      (match ValidatePrice(v)
       case Err(e) => Step(rec, Fail(e))
       case Ok(p) => Step(rec.(price := p, updatedAt := now), Pass))
    case Status =>
      Step(rec.(status := v, updatedAt := now), Pass)
  }

  /** A successful mutation writes its own field and `updatedAt` and nothing else; `id` and `createdAt` never change. */
  lemma MutateFrame(rec: PropertyRecord, f: Field, v: Value, now: Tick)
    ensures var s := Mutate(rec, f, v, now);
      s.rec.id == rec.id && s.rec.createdAt == rec.createdAt &&
      (s.outcome.Pass? ==>
        s.rec.updatedAt == now &&
        (f != Title ==> s.rec.title == rec.title) &&
        (f != Description ==> s.rec.description == rec.description) &&
        (f != Address ==> s.rec.address == rec.address) &&
        (f != Price ==> s.rec.price == rec.price) &&
        (f != Status ==> s.rec.status == rec.status))
  {
  }

  /** A successful mutation stores the validated value: trimmed text, the given price, `''` for a falsy description. */
  lemma MutateStores(rec: PropertyRecord, f: Field, v: Value, now: Tick)
    requires Mutate(rec, f, v, now).outcome.Pass?
    ensures var r := Mutate(rec, f, v, now).rec;
      (f == Title ==> v.Str? && r.title == Trim(v.s)) &&
      (f == Address ==> v.Str? && r.address == Trim(v.s)) &&
      (f == Price ==> v.Num? && r.price == v.n) &&
      (f == Description ==> r.description == if Truthy(v) then v else Str("")) &&
      (f == Status ==> r.status == v)
  {
  }

  /** The Property object. `id` and `createdAt` are never written after construction. */
  class Property {
    const id: int
    var title: string
    var description: Value
    var address: string
    var price: int
    var status: Value
    const createdAt: Tick
    var updatedAt: Tick

    /** The object's current field values. */
    function Record(): PropertyRecord
      reads this
    {
      PropertyRecord(id, title, description, address, price, status, createdAt, updatedAt)
    }

    ghost predicate Valid()
      reads this
    {
      WellFormed(Record())
    }

    /** Allocates an object holding an already validated record. */
    constructor FromRecord(r: PropertyRecord)
      requires WellFormed(r)
      ensures Record() == r && Valid()
    {
      id, title, description, address := r.id, r.title, r.description, r.address;
      price, status, createdAt, updatedAt := r.price, r.status, r.createdAt, r.updatedAt;
    }

    /** `new Property(input)`: throws where `Build` fails, otherwise a fresh object holding `Build`'s record. */
    static method New(input: PropertyInput, now: Tick) returns (r: Result<Property>)
      ensures Build(input, now).Err? ==> r == Err(Build(input, now).error)
      ensures Build(input, now).Ok? ==>
        r.Ok? && fresh(r.value) && r.value.Record() == Build(input, now).value && r.value.Valid()
    {
      var title := ValidateTitle(input.title);
      if title.Err? {
        return Err(title.error);
      }
      var address := ValidateAddress(input.address);
      if address.Err? {
        return Err(address.error);
      }
      var price := ValidatePrice(input.price);
      if price.Err? {
        return Err(price.error);
      }
      var rec := PropertyRecord(
        input.id, title.value,
        if input.description.Undefined? then Str("") else input.description,
        address.value, price.value,
        if input.status.Undefined? then Str(AVAILABLE) else input.status,
        if input.createdAt.Some? then input.createdAt.value else now,
        if input.updatedAt.Some? then input.updatedAt.value else now);
      var p := new Property.FromRecord(rec);
      return Ok(p);
    }

    /** `updateTitle` */
    method UpdateTitle(v: Value, now: Tick) returns (r: Outcome)
      modifies this
      ensures Record() == Mutate(old(Record()), Title, v, now).rec
      ensures r == Mutate(old(Record()), Title, v, now).outcome
    {
      var t := ValidateTitle(v);
      if t.Err? {
        return Fail(t.error);
      }
      title := t.value;
      updatedAt := now;
      r := Pass;
    }

    /** `updateDescription` */
    method UpdateDescription(v: Value, now: Tick)
      modifies this
      ensures Record() == Mutate(old(Record()), Description, v, now).rec
    {
      description := if Truthy(v) then v else Str("");
      updatedAt := now;
    }

    /** `updateAddress` */
    method UpdateAddress(v: Value, now: Tick) returns (r: Outcome)
      modifies this
      ensures Record() == Mutate(old(Record()), Address, v, now).rec
      ensures r == Mutate(old(Record()), Address, v, now).outcome
    {
      var a := ValidateAddress(v);
      if a.Err? {
        return Fail(a.error);
      }
      address := a.value;
      updatedAt := now;
      r := Pass;
    }

    /** `updatePrice` */
    method UpdatePrice(v: Value, now: Tick) returns (r: Outcome)
      modifies this
      ensures Record() == Mutate(old(Record()), Price, v, now).rec
      ensures r == Mutate(old(Record()), Price, v, now).outcome
    {
      var p := ValidatePrice(v);
      if p.Err? {
        return Fail(p.error);
      }
      price := p.value;
      updatedAt := now;
      r := Pass;
    }

    /** `updateStatus`: any value is accepted. */
    method UpdateStatus(v: Value, now: Tick)
      modifies this
      ensures Record() == Mutate(old(Record()), Status, v, now).rec
    {
      status := v;
      updatedAt := now;
    }

    /** `isAvailable()` */
    predicate IsAvailable()
      reads this
    {
      Available(Record())
    }
  }

  /** `isAvailable()` of a record: the status is exactly the string `'available'`. */
  predicate Available(r: PropertyRecord) {
    r.status == Str(AVAILABLE)
  }

  /**
   * A property built without a status is available, and one built with a status
   * is available exactly when that status is `'available'`; afterwards only
   * `updateStatus` changes availability.
   */
  lemma AvailabilityFollowsStatus(input: PropertyInput, rec: PropertyRecord, f: Field, v: Value, now: Tick)
    ensures Build(input, now).Ok? ==>
      (Available(Build(input, now).value) <==> input.status.Undefined? || input.status == Str(AVAILABLE))
    ensures f != Status ==> (Available(Mutate(rec, f, v, now).rec) <==> Available(rec))
    ensures f == Status ==> (Available(Mutate(rec, f, v, now).rec) <==> v == Str(AVAILABLE))
  {
  }
}
