/**
 * The command handler (src/property/application/command/property.command.js):
 * create, update and delete, composed from the domain service and the
 * repository. The handler validates payloads with the service's light
 * validator and reports its messages behind a `Validation failed: ` prefix;
 * anything the validator lets through reaches the entity, whose own messages
 * are reported as they are.
 */
module PropertyCommands {
  import opened Js
  import opened PropertyEntity
  import opened PropertyDomainService
  import opened PropertyRepository

  datatype CreatePropertyCommand = CreatePropertyCommand(data: PropertyData)
  datatype UpdatePropertyCommand = UpdatePropertyCommand(id: int, data: PropertyData)
  datatype DeletePropertyCommand = DeletePropertyCommand(id: int)

  /** The `{ message }` object a successful delete returns. */
  datatype DeleteAck = DeleteAck(message: string)

  const DELETED := "Property deleted successfully"
  const VALIDATION_PREFIX := "Validation failed: "

  /** The error thrown for a non-empty list of validator messages. */
  function ValidationFailure(errors: seq<string>): Failure {
    Error(VALIDATION_PREFIX + Join(errors, ", "))
  }

  /** The messages the entity itself throws. */
  const ENTITY_MESSAGES := {TITLE_REQUIRED, ADDRESS_REQUIRED, PRICE_REQUIRED, PRICE_POSITIVE}

  /**
   * What a create reports, given the id the service would draw: the
   * validator's aggregated failure, else the entity's own outcome.
   */
  function CreateOutcome(data: PropertyData, id: int, now: Tick): Result<PropertyRecord> {
    var errors := ValidatePropertyData(data);
    if errors != [] then Err(ValidationFailure(errors))
    else Build(CreateInput(data, id), now)
  }

  /**
   * A create succeeds exactly when the entity accepts the payload (the
   * validator never rejects what the entity accepts), and then yields the
   * entity's record.
   */
  lemma CreateSucceedsIffEntityAccepts(data: PropertyData, id: int, now: Tick)
    ensures CreateOutcome(data, id, now).Ok? <==> Build(CreateInput(data, id), now).Ok?
    ensures CreateOutcome(data, id, now).Ok? ==> CreateOutcome(data, id, now) == Build(CreateInput(data, id), now)
  {
    ValidatorWeakerThanEntity(data, id, now);
  }

  /**
   * A failed create reports either the validator's messages behind the
   * prefix, or, when the validator found nothing, one of the entity's own
   * messages as it is.
   */
  lemma CreateFailureSource(data: PropertyData, id: int, now: Tick)
    requires CreateOutcome(data, id, now).Err?
    ensures var e := CreateOutcome(data, id, now).error; var errors := ValidatePropertyData(data);
      (errors != [] ==> e == ValidationFailure(errors)) &&
      (errors == [] ==> e.Error? && e.message in ENTITY_MESSAGES)
  {
    var input := CreateInput(data, id);
    if ValidatePropertyData(data) == [] {
      BuildReportsFirstFailure(input, now);
    }
  }

  /**
   * A payload without a title key passes the validator, so when nothing else
   * is wrong with it the create fails inside the entity, with the entity's
   * unprefixed title message.
   */
  lemma CreateWithoutTitleFailsInEntity(data: PropertyData, id: int, now: Tick)
    requires data.title.Undefined? && ValidatePropertyData(data) == []
    ensures CreateOutcome(data, id, now) == Err(Error(TITLE_REQUIRED))
  {
  }

  /** `{ title: '', price: -1 }` is rejected with both messages, title first, joined by `, `. */
  lemma CreateAggregatesMessages(id: int, now: Tick)
    ensures CreateOutcome(EmptyData.(title := Str(""), price := Num(-1)), id, now) ==
      Err(Error(VALIDATION_PREFIX + TITLE_REQUIRED + ", " + PRICE_POSITIVE))
  {
    var data := EmptyData.(title := Str(""), price := Num(-1));
    assert ValidatePropertyData(data) == [TITLE_REQUIRED, PRICE_POSITIVE];
    var parts := [TITLE_REQUIRED, PRICE_POSITIVE];
    assert parts[1..] == [PRICE_POSITIVE];
    assert Join(parts, ", ") == TITLE_REQUIRED + ", " + PRICE_POSITIVE;
    assert ValidationFailure(parts) == Error(VALIDATION_PREFIX + TITLE_REQUIRED + ", " + PRICE_POSITIVE);
    assert CreateOutcome(data, id, now) == Err(ValidationFailure(parts));
  }

  /** What the stored entity holds after an update of an existing entity. */
  function UpdatedRecord(rec: PropertyRecord, data: PropertyData, now: Tick): PropertyRecord {
    if ValidatePropertyData(data) != [] then rec else ApplyUpdate(rec, data, now).rec
  }

  /**
   * What an update reports, given the entity found for the id (if any): not
   * found comes first, then the validator, then the entity's mutators.
   */
  function UpdateOutcome(found: Option<PropertyRecord>, data: PropertyData, now: Tick): Result<PropertyRecord> {
    match found
    case None => Err(Error(PROPERTY_NOT_FOUND))
    case Some(rec) =>
      var errors := ValidatePropertyData(data);
      if errors != [] then Err(ValidationFailure(errors))
      else
        var s := ApplyUpdate(rec, data, now);
        if s.outcome.Pass? then Ok(s.rec) else Err(s.outcome.error)
  }

  /**
   * A missing id is reported whatever the payload; a rejected payload leaves
   * the entity as it was; a successful update keeps every absent field, the id
   * and the creation time, and returns what is stored.
   */
  lemma UpdateOutcomeMeaning(found: Option<PropertyRecord>, data: PropertyData, now: Tick)
    ensures found.None? ==> UpdateOutcome(found, data, now) == Err(Error(PROPERTY_NOT_FOUND))
    ensures found.Some? && ValidatePropertyData(data) != [] ==>
      UpdatedRecord(found.value, data, now) == found.value &&
      UpdateOutcome(found, data, now) == Err(ValidationFailure(ValidatePropertyData(data)))
    ensures found.Some? && UpdateOutcome(found, data, now).Ok? ==>
      var old_, r := found.value, UpdateOutcome(found, data, now).value;
      r == UpdatedRecord(old_, data, now) &&
      r.id == old_.id && r.createdAt == old_.createdAt &&
      (data.title.Undefined? ==> r.title == old_.title) &&
      (data.description.Undefined? ==> r.description == old_.description) &&
      (data.address.Undefined? ==> r.address == old_.address) &&
      (data.price.Undefined? ==> r.price == old_.price) &&
      (data.status.Undefined? ==> r.status == old_.status)
  {
    if found.Some? && UpdateOutcome(found, data, now).Ok? {
      UpdateTouchesOnlyPresentFields(found.value, data, now);
      UpdateKeepsIdentity(found.value, data, now);
    }
  }

  /**
   * The validator lets a whitespace-only address through, so an update with a
   * new title and such an address fails in the entity, after the title (and
   * `updatedAt`) of the stored entity have already been written.
   */
  lemma PartialUpdateIsVisible(rec: PropertyRecord, newTitle: string, now: Tick)
    requires newTitle != "" && !IsBlank(newTitle)
    ensures var data := EmptyData.(title := Str(newTitle), address := Str(" "));
      UpdateOutcome(Some(rec), data, now) == Err(Error(ADDRESS_REQUIRED)) &&
      UpdatedRecord(rec, data, now) == rec.(title := Trim(newTitle), updatedAt := now)
  {
    var data := EmptyData.(title := Str(newTitle), address := Str(" "));
    assert ValidatePropertyData(data) == [] by {
      assert data.title != Str("") && data.address != Str("") && data.price.Undefined?;
    }
    FailedUpdateKeepsEarlierFields(rec, newTitle, now);
  }

  /** The command handler object. */
  class PropertyCommandHandler {
    const service: PropertyService
    const repository: InMemoryRepository

    constructor(service: PropertyService, repository: InMemoryRepository)
      ensures this.service == service && this.repository == repository
    {
      this.service := service;
      this.repository := repository;
    }

    /**
     * `handleCreatePropertyCommand`: a rejected payload changes nothing, not
     * even the id counter; otherwise the service draws an id, and the entity
     * it builds is saved and returned.
     */
    method HandleCreate(command: CreatePropertyCommand, now: Tick) returns (r: Result<Property>)
      modifies service, repository
      ensures service.nextId == if ValidatePropertyData(command.data) == [] then old(service.nextId) + 1 else old(service.nextId)
      ensures var o := CreateOutcome(command.data, old(service.nextId), now);
        o.Err? ==> r == Err(o.error) && repository.properties == old(repository.properties)
      ensures var o := CreateOutcome(command.data, old(service.nextId), now);
        o.Ok? ==> (r.Ok? && fresh(r.value) && r.value.Valid() && r.value.Record() == o.value &&
                   repository.properties == Saved(old(repository.properties), r.value))
    {
      var errors := ValidatePropertyData(command.data);
      if |errors| > 0 {
        return Err(ValidationFailure(errors));
      }
      r := service.CreateProperty(command.data, now);
      if r.Ok? {
        var _ := repository.Save(r.value);
      }
    }

    /**
     * `handleUpdatePropertyCommand`: the entity found for the id is updated in
     * place, so the store sees every field written before a throw; the stored
     * sequence keeps the same references in the same positions.
     */
    method HandleUpdate(command: UpdatePropertyCommand, now: Tick) returns (r: Result<Property>)
      modifies repository, repository.properties
      ensures repository.properties == old(repository.properties)
      ensures IndexOfId(old(repository.properties), command.id).None? ==>
        r == Err(Error(PROPERTY_NOT_FOUND)) &&
        forall p :: p in repository.properties ==> p.Record() == old(p.Record())
      ensures IndexOfId(old(repository.properties), command.id).Some? ==>
        var target := old(repository.properties)[IndexOfId(old(repository.properties), command.id).value];
        var o := UpdateOutcome(Some(old(target.Record())), command.data, now);
        target.Record() == UpdatedRecord(old(target.Record()), command.data, now) &&
        (o.Ok? ==> r == Ok(target) && o.value == target.Record()) &&
        (o.Err? ==> r == Err(o.error)) &&
        forall p :: p in repository.properties && p != target ==> p.Record() == old(p.Record())
    {
      var existing := repository.FindById(command.id);
      if existing.None? {
        return Err(Error(PROPERTY_NOT_FOUND));
      }
      var property := existing.value;
      var errors := ValidatePropertyData(command.data);
      if |errors| > 0 {
        return Err(ValidationFailure(errors));
      }
      r := service.UpdateProperty(property, command.data, now);
      if r.Err? {
        return;
      }
      var _ := repository.Update(command.id, property);
    }

    /** `handleDeletePropertyCommand`: removes the first entity with the id, or reports it missing and changes nothing. */
    method HandleDelete(command: DeletePropertyCommand) returns (r: Result<DeleteAck>)
      modifies repository
      ensures IndexOfId(old(repository.properties), command.id).None? ==>
        r == Err(Error(PROPERTY_NOT_FOUND)) && repository.properties == old(repository.properties)
      ensures IndexOfId(old(repository.properties), command.id).Some? ==>
        r == Ok(DeleteAck(DELETED)) &&
        repository.properties == Removed(old(repository.properties), IndexOfId(old(repository.properties), command.id).value)
    {
      var existing := repository.FindById(command.id);
      if existing.None? {
        return Err(Error(PROPERTY_NOT_FOUND));
      }
      var _ := repository.Delete(command.id);
      return Ok(DeleteAck(DELETED));
    }
  }
}
