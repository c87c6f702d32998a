# Property listing service — a Dafny model

This project models the domain and application layers of a small
property-listing service, together with the standalone legacy server that
predates them:

- **Property entity**: a class whose constructor validates the title, then the
  address, then the price. It stores the title and address trimmed and defaults
  `description` to `''` and `status` to `'available'`. Each `update*` mutator
  re-validates its one field before writing it and refreshing `updatedAt`.
- **Domain service**: an id counter that starts at 1 and advances before the
  entity is constructed. It also has a partial-update applier that touches only
  the fields present in the payload, and a light payload validator. That
  validator checks only present keys and rejects only `null` and `''`.
- **In-memory repository**: an ordered sequence of references to Property
  objects. `save` is an upsert by id. `findById` returns the stored object.
  `findAll` filters by exact status, then by a case-insensitive search over the
  title or description, then paginates. `update` replaces in place and `delete`
  splices out. Both fail with `'Property not found'`.
- **Command handler**: create, update and delete, composed from the service and
  the repository. Validation errors are reported as `'Validation failed: '`
  followed by the messages joined with `', '`. Update works on the stored
  object itself, so fields written before a failing mutator stay written in the
  store.
- **Query handler**: get-by-id with a not-found check, and a list query passed
  straight to the repository.
- **Dependency container**: a map from a name to a factory and a cached
  instance. It has overwriting `register` and a memoised, recursive `resolve`.
- **Legacy server** (`server.js`): its own `validateProperty`, with a full mode
  and a key-presence update mode. Its route bodies work on a module-level array
  of plain records and a `nextId` counter.

JavaScript's dynamic values are the datatype `Js.Value`
(`Undefined | Null | Bool | Num | Str | Other`). `Undefined` also stands for a
key that is absent. Thrown errors are `Err` results carrying the thrown message.
Wall-clock timestamps are an abstract `Tick` passed in as a parameter.

## Behaviour worth noting

- Create runs the service's light validator, which checks only the keys
  present and rejects only `null` and `''`. A payload without a title, or with
  a whitespace-only one, is therefore not rejected by the validator for its
  title. When its other fields pass, it fails in the entity constructor with
  the entity's own message, without the `Validation failed:` prefix
  (`PropertyCommands.CreateWithoutTitleFailsInEntity`).
- A create that fails in the entity constructor still uses up an id, because
  the counter advances before the entity is built
  (`PropertyDomainService.PropertyService.CreateProperty`).
- An update whose later field fails in the entity leaves the earlier fields
  written in the stored object, because the mutators work on that object
  itself (`PropertyCommands.PartialUpdateIsVisible`,
  `PropertyCommands.PropertyCommandHandler.HandleUpdate`).
- Ids come from a counter that is never reset, so an id freed by a delete is
  never handed out again.

## Model

| member | source | states |
|---|---|---|
| `PropertyEntity.ValidateTitle` | src/property/domain/property.entity.js:22-27 | accepts exactly the strings that contain a non-whitespace character, and returns them trimmed (non-empty, no surrounding whitespace); every other value gives 'Title is required and must be a non-empty string' |
| `PropertyEntity.ValidateAddress` | src/property/domain/property.entity.js:29-34 | the same rule for the address, with the address message |
| `PropertyEntity.ValidatePrice` | src/property/domain/property.entity.js:36-44 | a missing or null price gives 'Price is required'; any other value that is not a positive number gives 'Price must be a positive number'; a positive number is accepted unchanged |
| `PropertyEntity.Build` | src/property/domain/property.entity.js:2-20 | construction succeeds exactly when all three field checks accept, and a constructed record always has a trimmed non-empty title and address and a positive price |
| `PropertyEntity.BuildReportsFirstFailure` | src/property/domain/property.entity.js:13-16 | the constructor's error is the message of the first field rejected, in the order title, address, price; each message is given exactly when that field is the first one rejected |
| `PropertyEntity.BuildStoresTrimmed` | src/property/domain/property.entity.js:12-16 | the stored title and address are the trimmed inputs; the id and price are stored as given |
| `PropertyEntity.BuildDefaults` | src/property/domain/property.entity.js:5-8 | an omitted description becomes `''` and an omitted status `'available'`; given values, even null, are kept; missing timestamps take the current time |
| `PropertyEntity.Mutate` | src/property/domain/property.entity.js:46-69 | a mutator fails exactly when the title or address is blank or the price is not positive; it then throws the title or address message, or 'Price is required' for a missing or null price and 'Price must be a positive number' otherwise; a failed mutator leaves the record, `updatedAt` included, unchanged; a well-formed record stays well formed |
| `PropertyEntity.MutateFrame` | src/property/domain/property.entity.js:46-69 | `id` and `createdAt` never change; a successful mutator writes only its own field and refreshes `updatedAt` |
| `PropertyEntity.MutateStores` | src/property/domain/property.entity.js:46-69 | a successful mutator stores the trimmed title or address, the given price, the description or `''` when it is falsy, and any status as given |
| `PropertyEntity.Property.New` | src/property/domain/property.entity.js:2-20 | `new Property(input)` fails with the constructor's error or yields a fresh, valid object whose fields are the constructed record |
| `PropertyEntity.Property.FromRecord` | src/property/domain/property.entity.js:12-19 | the object holds exactly the given validated record |
| `PropertyEntity.Property.UpdateTitle` | src/property/domain/property.entity.js:46-49 | the object's new state and the outcome are those of the title mutator applied to its old state |
| `PropertyEntity.Property.UpdateDescription` | src/property/domain/property.entity.js:51-54 | the new state is the description mutator applied to the old state |
| `PropertyEntity.Property.UpdateAddress` | src/property/domain/property.entity.js:56-59 | the new state and the outcome are those of the address mutator |
| `PropertyEntity.Property.UpdatePrice` | src/property/domain/property.entity.js:61-64 | the new state and the outcome are those of the price mutator |
| `PropertyEntity.Property.UpdateStatus` | src/property/domain/property.entity.js:66-69 | the new state is the status mutator applied to the old state; any value is accepted |
| `PropertyEntity.AvailabilityFollowsStatus` | src/property/domain/property.entity.js:71-73 | a property is available exactly when its status is `'available'`: a new one without a status is available, and afterwards only a status update changes availability |
| `Js.Trim` | src/property/domain/property.entity.js:26 | `String.prototype.trim`, characterised by `TrimEmptyIff`, `TrimShape`, `TrimIsBlankFlankedInfix`, `TrimKeepsTrimmed` and `TrimIdempotent` |
| `Js.TrimEmptyIff` | src/property/domain/property.entity.js:23 | `s.trim() === ''` holds exactly when `s` is whitespace only |
| `Js.TrimShape` | src/property/domain/property.entity.js:26 | a non-blank string trims to a non-empty string that neither starts nor ends with whitespace |
| `Js.TrimIsBlankFlankedInfix` | src/property/domain/property.entity.js:26 | the trimmed string is a contiguous piece of the input, and only whitespace is dropped before and after it |
| `Js.TrimKeepsTrimmed` | src/property/domain/property.entity.js:33 | a string without surrounding whitespace is left unchanged by trimming |
| `Js.TrimIdempotent` | src/property/domain/property.entity.js:26 | trimming a stored (already trimmed) value again changes nothing |
| `Js.NonBlankStringIff` | src/property/domain/property.entity.js:23 | `v && typeof v === 'string' && v.trim() !== ''` holds exactly for strings that are not whitespace only |
| `Js.Includes` | src/property/infrastructure/repository/inmemory/property.inmemory.js:34-35 | `String.prototype.includes`: some index at which the needle occurs |
| `Js.Join` | src/property/application/command/property.command.js:16 | `errors.join(', ')`, shown on two messages by `CreateAggregatesMessages` |
| `Js.ToLower` | src/property/infrastructure/repository/inmemory/property.inmemory.js:32-35 | lowercasing keeps the length and maps each character through ASCII lowercasing |
| `PropertyDomainService.ValidatePropertyData` | src/property/domain/property.service.js:49-69 | each message appears exactly when its condition holds: title/address null or `''`, price null, or price present but not a positive number; no other message can appear, so valid data yields `[]`; messages are strictly ordered title, address, price, so there is at most one per field |
| `PropertyDomainService.AbsentKeysAreNeverChecked` | src/property/domain/property.service.js:52-66 | a payload without title, address and price keys yields no errors |
| `PropertyDomainService.ValidatorWeakerThanEntity` | src/property/domain/property.service.js:49-69 | whatever the entity constructor accepts passes the validator, and removing the title key removes only the title message |
| `PropertyDomainService.MissingOrBlankTitlePassesValidator` | src/property/domain/property.service.js:52-54 | a payload with no title, or a whitespace-only one, passes the validator but is rejected by the entity with 'Title is required and must be a non-empty string' |
| `PropertyDomainService.ApplyUpdate` | src/property/domain/property.service.js:23-46 | the entity after `updateProperty`: stated by `ApplyUpdateSteps`, `UpdateTouchesOnlyPresentFields`, `UpdateKeepsIdentity` and `FailSticks` |
| `PropertyDomainService.FailSticks` | src/property/domain/property.service.js:23-46 | once a mutator has thrown, the remaining steps of the update change nothing |
| `PropertyDomainService.ApplyUpdateSteps` | src/property/domain/property.service.js:26-44 | the update applies the fields in the order title, description, address, price, status |
| `PropertyDomainService.UpdateTouchesOnlyPresentFields` | src/property/domain/property.service.js:23-44 | after a successful update every absent field keeps its old value and every present field holds what its mutator stores |
| `PropertyDomainService.ThenPassed` | src/property/domain/property.service.js:26-44 | one applied field that did not throw changes only that field |
| `PropertyDomainService.UpdateKeepsIdentity` | src/property/domain/property.service.js:23-46 | the id and creation time are kept, the entity stays well formed, and an empty payload changes nothing, not even `updatedAt` |
| `PropertyDomainService.FailedUpdateKeepsEarlierFields` | src/property/domain/property.service.js:26-36 | a valid title with a whitespace-only address fails with the address message, yet the title and `updatedAt` are already written |
| `PropertyDomainService.PropertyService.constructor` | src/property/domain/property.service.js:5-8 | a fresh service's counter is 1 |
| `PropertyDomainService.PropertyService.CreateProperty` | src/property/domain/property.service.js:10-21 | the counter advances by one whether or not construction succeeds; the result is the constructor's error, or a fresh valid entity built with the previous counter value as its id |
| `PropertyDomainService.PropertyService.ApplyField` | src/property/domain/property.service.js:26-44 | one `if (data.f !== undefined) property.updateF(data.f)` block: the entity's new state and the outcome are that step applied to its old state |
| `PropertyDomainService.PropertyService.UpdateProperty` | src/property/domain/property.service.js:23-47 | the given entity's new state is the update applied to its old state, and on success the very same object is returned |
| `PropertyDomainService.CountFromOne` | src/property/domain/property.service.js:7-12 | on a fresh service, successful creations get ids 1 and then 2 |
| `Sequences.FirstIndexOf` | src/property/infrastructure/repository/inmemory/property.inmemory.js:54 | `findIndex` by id (used by the repository and the legacy server alike): the index found holds the id and no earlier entry does; none is found only when no entry has the id |
| `PropertyRepository.Saved` | src/property/infrastructure/repository/inmemory/property.inmemory.js:9-17 | the store after `save`: what it means is stated by `SaveKeepsIdsUnique` |
| `PropertyRepository.Removed` | src/property/infrastructure/repository/inmemory/property.inmemory.js:65 | the store after `splice(index, 1)`: what it means is stated by `RemoveKeepsOrder` |
| `PropertyRepository.SaveKeepsIdsUnique` | src/property/infrastructure/repository/inmemory/property.inmemory.js:9-17 | after `save` the entity is stored and ids stay unique; the length is unchanged when the id was present, and otherwise the entity is appended |
| `PropertyRepository.RemoveKeepsOrder` | src/property/infrastructure/repository/inmemory/property.inmemory.js:62-69 | removing one entry keeps the others in their relative order, keeps ids unique, and removes the id |
| `PropertyRepository.SearchHit` | src/property/infrastructure/repository/inmemory/property.inmemory.js:33-36 | the search callback, whose hits and TypeError are characterised by `FilterSearch` and `SearchIgnoresCase` |
| `PropertyRepository.Filtered` | src/property/infrastructure/repository/inmemory/property.inmemory.js:24-37 | the status filter, then the search filter: what it keeps is stated by `QueryKeepsMatchesInOrder` |
| `PropertyRepository.Query` | src/property/infrastructure/repository/inmemory/property.inmemory.js:23-51 | the `findAll` result: its total and page are stated by `QueryTotalAndPage`, and the unfiltered case by `UnfilteredQuery` |
| `PropertyRepository.FilterStatus` | src/property/infrastructure/repository/inmemory/property.inmemory.js:27-29 | keeps, in stored order, exactly the entries whose status equals the filter, each as many times as it is stored |
| `PropertyRepository.FilterSearch` | src/property/infrastructure/repository/inmemory/property.inmemory.js:31-37 | keeps, in order, exactly the entries the search hits, each as many times as it is stored; it throws a TypeError exactly when some entry's test throws, that is, a title miss meets a non-string description |
| `PropertyRepository.QueryKeepsMatchesInOrder` | src/property/infrastructure/repository/inmemory/property.inmemory.js:23-37 | the filtered result is a subsequence of the store, every kept entry matches both filters, and every matching entry is kept as many times as it is stored |
| `PropertyRepository.QueryTotalAndPage` | src/property/infrastructure/repository/inmemory/property.inmemory.js:39-50 | `total` is the filtered count before pagination; for a non-negative offset and limit the page holds max(0, min(limit, total − offset)) entries, the filtered ones from `offset` on |
| `PropertyRepository.UnfilteredQuery` | src/property/infrastructure/repository/inmemory/property.inmemory.js:23-50 | without status or search, `findAll` cannot throw, and with no limit or offset it returns the whole store |
| `PropertyRepository.SearchIgnoresCase` | src/property/infrastructure/repository/inmemory/property.inmemory.js:31-37 | 'Beautiful Villa' matches the search 'beautiful' |
| `PropertyRepository.InMemoryRepository.constructor` | src/property/infrastructure/repository/inmemory/property.inmemory.js:4-7 | a new repository is empty |
| `PropertyRepository.InMemoryRepository.Save` | src/property/infrastructure/repository/inmemory/property.inmemory.js:9-17 | returns its argument, and the store becomes the upsert of the old store |
| `PropertyRepository.InMemoryRepository.FindById` | src/property/infrastructure/repository/inmemory/property.inmemory.js:19-21 | returns the stored object (the first with the id) exactly when some entry has the id, and null otherwise |
| `PropertyRepository.InMemoryRepository.FindAll` | src/property/infrastructure/repository/inmemory/property.inmemory.js:23-51 | returns the filter-then-paginate result of the store, whose total never exceeds the stored count, and changes nothing |
| `PropertyRepository.InMemoryRepository.Update` | src/property/infrastructure/repository/inmemory/property.inmemory.js:53-60 | replaces only the entry at the id's index and returns the argument, or fails with 'Property not found' and changes nothing |
| `PropertyRepository.InMemoryRepository.Delete` | src/property/infrastructure/repository/inmemory/property.inmemory.js:62-69 | splices out exactly the entry at the id's index and returns true, or fails with 'Property not found' and changes nothing |
| `Pagination.EffectiveLimit` | src/property/infrastructure/repository/inmemory/property.inmemory.js:40 | `limit || result.length`, whose effect on the page is stated by `Paginate` and `PageWindow` |
| `Pagination.EffectiveOffset` | src/property/infrastructure/repository/inmemory/property.inmemory.js:41 | `offset || 0`, whose effect on the page is stated by `Paginate` and `PageWindow` |
| `Pagination.Slice` | src/property/infrastructure/repository/inmemory/property.inmemory.js:43 | `slice` yields the entries between the two clamped indices, in order |
| `Pagination.Paginate` | src/property/infrastructure/repository/inmemory/property.inmemory.js:40-49 | `total` is the input count; the limit defaults to the count when absent or 0, and the offset defaults to 0 |
| `Pagination.PageWindow` | src/property/infrastructure/repository/inmemory/property.inmemory.js:40-43 | for a non-negative offset and limit the page has max(0, min(limit, total − offset)) entries, namely those from the offset on |
| `Pagination.NoPaginationIsEverything` | src/property/infrastructure/repository/inmemory/property.inmemory.js:40-43 | with neither limit nor offset the page is the whole result |
| `Pagination.LastPartialPage` | src/property/infrastructure/repository/inmemory/property.inmemory.js:40-49 | five items with limit 2 and offset 4 give a page holding only the fifth item, with total 5 |
| `PropertyCommands.CreateOutcome` | src/property/application/command/property.command.js:12-26 | a create reports the validator's aggregated failure, or else the entity constructor's outcome |
| `PropertyCommands.CreateSucceedsIffEntityAccepts` | src/property/application/command/property.command.js:12-26 | a create succeeds exactly when the entity constructor accepts the payload, and then yields the entity's record |
| `PropertyCommands.CreateFailureSource` | src/property/application/command/property.command.js:14-20 | a failed create reports the validator's messages behind the prefix, or, when the validator found nothing, one of the entity's own messages without the prefix |
| `PropertyCommands.CreateWithoutTitleFailsInEntity` | src/property/application/command/property.command.js:14-20 | a payload without a title that passes the validator fails with the entity's unprefixed title message |
| `PropertyCommands.ValidationFailure` | src/property/application/command/property.command.js:16 | the thrown `Validation failed: ...` error, whose text is shown by `CreateAggregatesMessages` |
| `PropertyCommands.CreateAggregatesMessages` | src/property/application/command/property.command.js:14-17 | `{title: '', price: -1}` fails with 'Validation failed: ' followed by the title message, then ', ', then the price message |
| `PropertyCommands.UpdateOutcome` | src/property/application/command/property.command.js:28-48 | not found is reported before validation, and validation before the mutators |
| `PropertyCommands.UpdatedRecord` | src/property/application/command/property.command.js:35-45 | the stored entity's fields after an update, stated by `UpdateOutcomeMeaning` and `PartialUpdateIsVisible` |
| `PropertyCommands.UpdateOutcomeMeaning` | src/property/application/command/property.command.js:28-48 | a missing id fails with 'Property not found' whatever the payload; an invalid payload leaves the entity unchanged; a success returns the stored record, with absent fields, id and creation time kept |
| `PropertyCommands.PartialUpdateIsVisible` | src/property/application/command/property.command.js:36-45 | a new title with a whitespace-only address passes validation and fails in the entity with the address message, after the title and `updatedAt` were written |
| `PropertyCommands.PropertyCommandHandler.constructor` | src/property/application/command/property.command.js:6-10 | the handler holds the given service and repository |
| `PropertyCommands.PropertyCommandHandler.HandleCreate` | src/property/application/command/property.command.js:12-26 | a rejected payload changes neither the store nor the counter; otherwise the counter advances, and on success a fresh valid entity is saved and returned |
| `PropertyCommands.PropertyCommandHandler.HandleUpdate` | src/property/application/command/property.command.js:28-48 | the store keeps the same references in the same positions; a missing id changes nothing; otherwise only the found entity changes, to what the update writes before any failure, and on success that entity is returned |
| `PropertyCommands.PropertyCommandHandler.HandleDelete` | src/property/application/command/property.command.js:50-61 | a missing id fails with 'Property not found' and changes nothing; otherwise exactly that entry is removed and `{message: 'Property deleted successfully'}` is returned |
| `PropertyQueries.PropertyQueryHandler.constructor` | src/property/application/query/property.query.js:5-8 | the handler holds the given repository |
| `PropertyQueries.PropertyQueryHandler.HandleGetProperty` | src/property/application/query/property.query.js:10-16 | fails with 'Property not found' exactly when no entry has the id, and otherwise returns the stored object the repository finds, without changing anything |
| `PropertyQueries.PropertyQueryHandler.HandleGetProperties` | src/property/application/query/property.query.js:18-20 | returns exactly the repository's `findAll` result for the filters; the default `{}` query returns the whole store |
| `PropertyWorkflow.TrimmedPayloadBuilds` | src/property/application/command/property.command.js:12-20 | a create payload with all five fields, whose title and address carry no surrounding whitespace and whose price is positive, passes the validator and builds an entity holding exactly what was sent (the create step of the integration test, __tests__/full_integration.test.js lines 28-44) |
| `PropertyWorkflow.TitleAndPriceUpdate` | src/property/application/command/property.command.js:28-48 | an update with a title without surrounding whitespace and a positive price succeeds, writes both and `updatedAt`, and keeps every other field (the update step of the integration test, lines 64-75) |
| `PropertyWorkflow.UpdateThenDelete` | __tests__/full_integration.test.js:64-101 | on a store holding one entity, the title-and-price update returns the same object with the new title and price, the delete acknowledges and empties the store, and a read then fails with 'Property not found' |
| `PropertyWorkflow.CreateReadUpdateDelete` | __tests__/full_integration.test.js:26-102 | on fresh handlers a create gets id 1 and holds what was sent, reads back as the same object, carries the new title and price after the update with its description, address and status kept, is deleted, and is then not found |
| `DependencyInjection.DependencyContainer.constructor` | dependency_injection/dependency_injection.js:9-12 | a new container holds exactly the six default registrations, none of them built |
| `DependencyInjection.DependencyContainer.InitializeContainer` | dependency_injection/dependency_injection.js:14-42 | registers the six default factories under their names, overwriting those names |
| `DependencyInjection.DependencyContainer.Register` | dependency_injection/dependency_injection.js:44-46 | stores the factory with no cached instance and without building anything |
| `DependencyInjection.DependencyContainer.Resolve` | dependency_injection/dependency_injection.js:48-60 | an unregistered name fails with 'Service <name> not registered' and changes nothing; a cached instance is returned without building; otherwise the instance is built from its dependencies, cached and returned; a failure is always 'Service <n> not registered' for some name `n` missing from the registry, and then the requested name stays uncached; names and factories never change, and cached instances are never discarded |
| `DependencyInjection.DependencyContainer.Construct` | dependency_injection/dependency_injection.js:55-57 | a fresh instance, numbered above every earlier one, is built by the name's factory from the instances cached for its dependencies, and is cached; a failure is a 'not registered' error for a missing name, and the name stays uncached |
| `DependencyInjection.DependencyContainer.ResolveDependencies` | dependency_injection/dependency_injection.js:25-41 | a factory resolves its names in order; the first failure, always a 'not registered' error for a missing name, ends the factory; the entry being built is untouched; on success each resolved instance is the one cached under that name |
| `DependencyInjection.DependencyContainer.ResolveFor` | dependency_injection/dependency_injection.js:26-39 | one nested `this.resolve` call keeps everything cached so far, leaves the entry being built untouched, fails only with a 'not registered' error for a missing name, and on success caches the dependency |
| `DependencyInjection.DefaultEntries` | dependency_injection/dependency_injection.js:14-42 | a fresh container has nothing built, and the handlers and the repository are registered with their own factories |
| `DependencyInjection.DefaultsAreResolvable` | dependency_injection/dependency_injection.js:14-42 | exactly the names propertyService, propertyRepository, eventPublisher, eventSubscriber, commandHandler and queryHandler are registered; the registrations have no cycle and depend only on registered names |
| `DependencyInjection.SameFactoriesKeepShape` | dependency_injection/dependency_injection.js:54-57 | caching instances does not create a cycle or an unregistered dependency |
| `DependencyInjection.NotOwnDependency` | dependency_injection/dependency_injection.js:25-41 | without cycles no factory resolves its own name |
| `DependencyInjection.CachingKeeps` | dependency_injection/dependency_injection.js:55-59 | caching the built instance keeps every earlier cache entry and records how the instance was built |
| `DependencyInjection.ResolveHandlers` | dependency_injection/dependency_injection.js:31-41 | the command and query handlers are built around one and the same repository instance, and resolving the command handler again returns the identical instance |
| `DependencyInjection.HandlersShareRepository` | dependency_injection/dependency_injection.js:31-41 | the same, on a freshly constructed container |
| `LegacyServer.ValidateProperty` | server.js:12-36 | each message appears exactly when its field is checked (always in full mode, only if its key is present in update mode) and fails: title/address not a non-blank string, price missing or null, or price not a positive number; no other message can appear, so valid data yields `[]`; messages are strictly ordered title, address, price |
| `LegacyServer.FullModeMatchesEntity` | server.js:12-36 | full mode passes exactly when the entity constructor accepts the payload, and otherwise its first message is the one the constructor throws |
| `LegacyServer.UpdateModeChecksPresentKeys` | server.js:15-27 | with no title, address or price keys update mode finds nothing; with all three it is full mode; it rejects a whitespace-only title that the service's validator lets pass |
| `LegacyServer.FullModeMeansStored` | server.js:12-36 | a record passes the full check exactly when its title and address are non-blank strings and its price is positive |
| `LegacyServer.MergedRecordIsFullyChecked` | server.js:116-117 | the merged PUT record carries all three keys, so its update-mode check is the full check |
| `LegacyServer.NewRecord` | server.js:54-63 | the record `POST` appends, whose fields are stated by `Server.Post` |
| `LegacyServer.Merge` | server.js:116 | `{ ...existing, ...body, id }`, fully checked by `MergedRecordIsFullyChecked` and kept valid by `PutKeepsValid` |
| `LegacyServer.ListPage` | server.js:71-89 | the list reply's page, stated by `ListPageMeaning` |
| `LegacyServer.FilterByStatus` | server.js:74-76 | keeps, in stored order, exactly the records whose status equals the filter, each as many times as it is stored |
| `LegacyServer.ListPageMeaning` | server.js:70-89 | `total` counts the status matches and is at most the stored count, and every listed record has the status; without a status the whole store is paginated |
| `LegacyServer.AppendKeepsValid` | server.js:54-65 | appending a valid record with id `nextId` keeps ids increasing once `nextId` advances |
| `LegacyServer.ReplaceKeepsValid` | server.js:127-129 | replacing a record by a valid one with the same id keeps the store valid |
| `LegacyServer.PutKeepsValid` | server.js:116-129 | a merged record that passes the check keeps the store valid when it replaces the original |
| `LegacyServer.RemoveKeepsValid` | server.js:143 | splicing out a record keeps the store valid and removes its id |
| `LegacyServer.Server.constructor` | server.js:5-6 | the store starts empty with `nextId` 1 |
| `LegacyServer.Server.Post` | server.js:44-67 | a full-mode failure gives 400 with the messages and changes nothing; otherwise the record gets id `nextId` with description `''` and status `'available'` by default, is appended, and `nextId` advances |
| `LegacyServer.Server.List` | server.js:70-90 | replies with the status-filtered, paginated page and changes nothing; with no parameters it lists the whole store |
| `LegacyServer.Server.Get` | server.js:93-103 | replies 404 'Property not found' exactly when no record has the id, and otherwise with the first record that has it |
| `LegacyServer.Server.Put` | server.js:106-131 | a missing id gives 404 and no change; a merged record that fails the check gives 400 and no change; otherwise the merged record, with `updatedAt` refreshed, replaces the record at the same index |
| `LegacyServer.Server.Delete` | server.js:134-147 | a missing id gives 404 and no change; otherwise exactly that record is removed, and no record with the id remains |

## Left out

- HTTP routing, status-code mapping in the endpoint adapter, `app.listen` and
  process start-up are not part of this model. The legacy server's replies
  are kept as a status code and a body value.
- The event publisher and subscriber are not modelled. They only invoke
  foreign callbacks, swallow their errors and log.
- The process-wide container singleton created at module load is not modelled.
  Only the container's own logic is.
- The abstract base classes that only throw 'Method not implemented' are not
  modelled.
- `async`/`await` is not modelled. No operation suspends, so every operation is
  a synchronous method.
- Timestamps are an abstract `Tick` given as a parameter. The model says only
  whether `updatedAt` is refreshed or kept.
- Prices are integers. Floating-point prices and `NaN` are not modelled.
- Ids, `limit` and `offset` arrive already parsed (`int` / `Option<int>`).
  `parseInt` on arbitrary strings is not modelled.
- Lowercasing covers ASCII letters only. Unicode case mapping is not modelled.
- A payload holds only the five fields title, description, address, price and
  status. Other keys are not modelled, for example a `createdAt` in a PUT body
  that the legacy server's spread would copy.
- A key that is absent and a key whose value is `undefined` are the same value.
  JSON request bodies cannot carry `undefined`, so `'k' in data` and
  `data.k !== undefined` agree on every request.
- Container factories are the six kinds the container registers, each known by
  the names it resolves. Arbitrary factory closures are not modelled, and
  instances are abstract numbered objects. The handler objects built by hand
  in `PropertyWorkflow` stand for what those factories construct.
- DependencyInjection.DependencyContainer.Resolve: requires a ranking of the
  whole registry under which every factory resolves only lower-ranked names,
  so no registered factory may take part in a dependency cycle. That is
  stronger than the source needs: it recurses without end only on a cycle
  reachable from the name being resolved, and it resolves names normally while
  an unrelated cycle is registered. Neither case is modelled.
- DependencyInjection.DependencyContainer.Construct: requires the same acyclic
  ranking of the whole registry, for the same reason.
- DependencyInjection.DependencyContainer.ResolveDependencies: requires the same
  acyclic ranking of the whole registry, for the same reason.
- DependencyInjection.DependencyContainer.ResolveFor: requires the same acyclic
  ranking of the whole registry, for the same reason.
