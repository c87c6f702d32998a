/**
 * The command and query handlers wired to one service and one repository, as
 * the container and the integration test wire them, driven through a whole
 * create, read, update, delete cycle.
 */
module PropertyWorkflow {
  import opened Js
  import opened PropertyEntity
  import opened PropertyDomainService
  import opened PropertyRepository
  import opened PropertyCommands
  import opened PropertyQueries

  const TITLE := "Integration Test Property"
  const DESCRIPTION := "A property created for integration testing"
  const ADDRESS := "789 Integration Blvd"
  const NEW_TITLE := "Updated Integration Test Property"

  /** The test's title, address and new title carry no surrounding whitespace. */
  lemma TestStringsTrimmed()
    ensures IsTrimmedNonEmpty(TITLE) && IsTrimmedNonEmpty(ADDRESS) && IsTrimmedNonEmpty(NEW_TITLE)
  {
    assert TITLE[0] == 'I' && TITLE[|TITLE| - 1] == 'y';
    assert ADDRESS[0] == '7' && ADDRESS[|ADDRESS| - 1] == 'd';
    assert NEW_TITLE[0] == 'U' && NEW_TITLE[|NEW_TITLE| - 1] == 'y';
  }

  /** A create payload carrying all five fields. */
  function FullPayload(title: string, description: string, address: string, price: int): PropertyData {
    PropertyData(Str(title), Str(description), Str(address), Num(price), Str(AVAILABLE))
  }

  /**
   * A payload whose title and address carry no surrounding whitespace and
   * whose price is positive passes the validator, and the entity holds
   * exactly what was sent.
   */
  lemma TrimmedPayloadBuilds(title: string, description: string, address: string, price: int, id: int, now: Tick)
    requires IsTrimmedNonEmpty(title) && IsTrimmedNonEmpty(address) && price > 0
    ensures ValidatePropertyData(FullPayload(title, description, address, price)) == []
    ensures Build(CreateInput(FullPayload(title, description, address, price), id), now) ==
      Ok(PropertyRecord(id, title, Str(description), address, price, Str(AVAILABLE), now, now))
  {
    TrimKeepsTrimmed(title);
    TrimKeepsTrimmed(address);
  }

  /** A payload holding only a title and a price. */
  function TitleAndPrice(title: string, price: int): PropertyData {
    EmptyData.(title := Str(title), price := Num(price))
  }

  /**
   * Updating with a title without surrounding whitespace and a positive
   * price writes both and `updatedAt`, keeps everything else, and succeeds.
   */
  lemma TitleAndPriceUpdate(rec: PropertyRecord, title: string, price: int, now: Tick)
    requires IsTrimmedNonEmpty(title) && price > 0
    ensures UpdatedRecord(rec, TitleAndPrice(title, price), now) == rec.(title := title, price := price, updatedAt := now)
    ensures UpdateOutcome(Some(rec), TitleAndPrice(title, price), now) ==
      Ok(rec.(title := title, price := price, updatedAt := now))
  {
    TrimKeepsTrimmed(title);
    assert ValidatePropertyData(TitleAndPrice(title, price)) == [];
    ApplyUpdateSteps(rec, TitleAndPrice(title, price), now);
  }

  /**
   * On handlers sharing a repository that holds only `p`, with id 1: updating
   * its title and price keeps every other field and the stored reference; deleting it
   * acknowledges and empties the store, and a read afterwards reports it
   * missing.
   */
  method UpdateThenDelete(commands: PropertyCommandHandler, queries: PropertyQueryHandler, p: Property, now: Tick)
    returns (updated: Result<Property>, deleted: Result<DeleteAck>, gone: Result<Property>)
    requires commands.repository == queries.repository
    requires commands.repository.properties == [p] && p.id == 1
    modifies commands.repository, p
    ensures updated == Ok(p) && p.Record() == old(p.Record()).(title := NEW_TITLE, price := 475000, updatedAt := now)
    ensures deleted == Ok(DeleteAck(DELETED)) && commands.repository.properties == []
    ensures gone == Err(Error(PROPERTY_NOT_FOUND))
  {
    var repository := commands.repository;
    assert IndexOfId(repository.properties, 1) == Some(0);
    TestStringsTrimmed();
    TitleAndPriceUpdate(p.Record(), NEW_TITLE, 475000, now);
    updated := commands.HandleUpdate(UpdatePropertyCommand(1, TitleAndPrice(NEW_TITLE, 475000)), now);
    assert repository.properties == [p];
    assert IndexOfId(repository.properties, 1) == Some(0);
    deleted := commands.HandleDelete(DeletePropertyCommand(1));
    assert repository.properties == [] && IndexOfId(repository.properties, 1) == None;
    gone := queries.HandleGetProperty(GetPropertyQuery(1));
  }

  /**
   * On fresh handlers: the first create gets id 1 and holds what was sent,
   * and reads back as the same entity; the update writes the new title and
   * price and keeps the rest; deleting it acknowledges, and a read afterwards
   * reports it missing.
   */
  method CreateReadUpdateDelete(t0: Tick, t1: Tick)
    returns (created: Result<Property>, read: Result<Property>, updated: Result<Property>,
             deleted: Result<DeleteAck>, gone: Result<Property>)
    ensures created.Ok? && created.value.id == 1
    ensures created.value.Record() == PropertyRecord(1, NEW_TITLE, Str(DESCRIPTION), ADDRESS, 475000, Str(AVAILABLE), t0, t1)
    ensures read == created
    ensures updated == created
    ensures deleted == Ok(DeleteAck(DELETED))
    ensures gone == Err(Error(PROPERTY_NOT_FOUND))
  {
    var service := new PropertyService();
    var repository := new InMemoryRepository();
    var commands := new PropertyCommandHandler(service, repository);
    var queries := new PropertyQueryHandler(repository);

    TestStringsTrimmed();
    TrimmedPayloadBuilds(TITLE, DESCRIPTION, ADDRESS, 450000, 1, t0);
    created := commands.HandleCreate(CreatePropertyCommand(FullPayload(TITLE, DESCRIPTION, ADDRESS, 450000)), t0);
    var p := created.value;
    assert p.Record() == PropertyRecord(1, TITLE, Str(DESCRIPTION), ADDRESS, 450000, Str(AVAILABLE), t0, t0);
    assert repository.properties == [p];
    assert IndexOfId(repository.properties, 1) == Some(0);
    read := queries.HandleGetProperty(GetPropertyQuery(1));
    updated, deleted, gone := UpdateThenDelete(commands, queries, p, t1);
  }
}
