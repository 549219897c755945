/**
 * `CityService`: the shared entity service logic over the City table. What
 * sets it apart is the list of navigation properties GetById may include.
 */
module CityService {
  import opened EntityService
  import opened Guids

  const Name := "City"

  /** The `navigationProperties` of GetById, in declaration order. */
  const Navigations: seq<string> := ["CountryId_Country", "StateId_State"]

  /** Patch loads the row alone. */
  const PatchIncludes: seq<string> := []

  /** The service over a table keyed by Id. */
  method NewService<F>(properties: seq<string>, references: seq<string>, column: (Record<F>, string) -> int, rows: map<Guid, Record<F>>)
    returns (s: Service<F>)
    requires KeyedById(rows)
    ensures fresh(s) && s.Valid()
    ensures s.entity == EntityType(Name, properties, references, column) && s.rows == rows
    ensures s.navigations == Navigations && s.patchIncludes == PatchIncludes
  {
    s := new Service(EntityType(Name, properties, references, column), Navigations, PatchIncludes, rows);
  }

  /**
   * GetById includes a navigation exactly when it is one of the listed ones and some
   * requested field starts with its name and ".", ignoring case.
   */
  lemma IncludedNavigations(fields: string, n: string)
    ensures n in Included(Navigations, RequestedFields(fields)) <==>
            (n == "CountryId_Country" || n == "StateId_State") && AnyStartsWith(RequestedFields(fields), n + ".")
  {
  }
}
