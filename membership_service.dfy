/**
 * `MembershipService`: the shared entity service logic over the Membership table. What
 * sets it apart is the list of navigation properties GetById may include.
 */
module MembershipService {
  import opened EntityService
  import opened Guids

  const Name := "Membership"

  /** The `navigationProperties` of GetById: none. */
  const Navigations: seq<string> := []

  /** Patch loads the row alone. */
  const PatchIncludes: seq<string> := []

  /** The service over a table keyed by Id. */
  method NewService<F>(properties: seq<string>, references: seq<string>, column: (Record<F>, string) -> int, rows: map<Guid, Record<F>>)
    returns (s: Service<F>)
    requires KeyedById(rows)
    ensures fresh(s) && s.Valid()
    ensures s.entity == EntityType(Name, properties, references, column) && s.rows == rows
    ensures s.navigations == Navigations && s.patchIncludes == PatchIncludes
  {
    s := new Service(EntityType(Name, properties, references, column), Navigations, PatchIncludes, rows);
  }

  /** Whatever fields are requested, GetById includes no navigation. */
  lemma NeverIncludes(fields: string)
    ensures Included(Navigations, RequestedFields(fields)) == []
  {
  }
}
