/**
 * The query handler (src/property/application/query/property.query.js): a
 * lookup by id with a not-found check, and a list query passed straight to
 * the repository. Neither changes anything.
 */
module PropertyQueries {
  import opened Js
  import opened Pagination
  import opened PropertyEntity
  import opened PropertyRepository

  datatype GetPropertyQuery = GetPropertyQuery(id: int)

  /** `new GetPropertiesQuery(filters = {})` */
  datatype GetPropertiesQuery = GetPropertiesQuery(filters: Filters)

  /** `new GetPropertiesQuery()` with its default `{}`. */
  const AllProperties := GetPropertiesQuery(NoFilters)

  /** The query handler object. */
  class PropertyQueryHandler {
    const repository: InMemoryRepository

    constructor(repository: InMemoryRepository)
      ensures this.repository == repository
    {
      this.repository := repository;
    }

    /** `handleGetPropertyQuery`: the stored entity with that id, or the not-found error. */
    method HandleGetProperty(query: GetPropertyQuery) returns (r: Result<Property>)
      ensures r.Err? <==> forall i :: 0 <= i < |repository.properties| ==> repository.properties[i].id != query.id
      ensures r.Err? ==> r.error == Error(PROPERTY_NOT_FOUND)
      ensures r.Ok? ==> r.value.id == query.id
      ensures r.Ok? ==> r.value == repository.properties[IndexOfId(repository.properties, query.id).value]
    {
      var found := repository.FindById(query.id);
      if found.None? {
        return Err(Error(PROPERTY_NOT_FOUND));
      }
      return Ok(found.value);
    }

    /** `handleGetPropertiesQuery`: exactly the repository's `findAll` for the query's filters. */
    method HandleGetProperties(query: GetPropertiesQuery) returns (r: Result<Page<Property>>)
      ensures r == Query(repository.properties, query.filters)
      ensures query == AllProperties ==> r == Ok(Page(repository.properties, |repository.properties|, |repository.properties|, 0))
    {
      r := repository.FindAll(query.filters);
      UnfilteredQuery(repository.properties, None, None);
    }
  }
}
