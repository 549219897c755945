/**
 * `PatientService`: the shared entity service logic over the Patient table. What
 * sets it apart is the list of navigation properties GetById may include, and the
 * address PatchPatient loads with the row.
 */
module PatientService {
  import opened EntityService
  import opened Guids

  const Name := "Patient"

  /** The `navigationProperties` of GetById, in declaration order. */
  const Navigations: seq<string> :=
    ["Gender_Gender", "AgeUnit_AgeUnit", "ReferredById_Contact", "LocationId_Location",
     "MembershipId_Membership", "Title_Title", "PatientAddressId_Address"]

  /** What PatchPatient loads with the row it patches. */
  const PatchIncludes: seq<string> := ["PatientAddressId_Address"]

  /** The service over a table keyed by Id. */
  method NewService<F>(properties: seq<string>, references: seq<string>, column: (Record<F>, string) -> int, rows: map<Guid, Record<F>>)
    returns (s: Service<F>)
    requires KeyedById(rows)
    ensures fresh(s) && s.Valid()
    ensures s.entity == EntityType(Name, properties, references, column) && s.rows == rows
    ensures s.navigations == Navigations && s.patchIncludes == PatchIncludes
  {
    s := new Service(EntityType(Name, properties, references, column), Navigations, PatchIncludes, rows);
  }

  /**
   * GetById includes a navigation exactly when it is one of the listed ones and some
   * requested field starts with its name and ".", ignoring case.
   */
  lemma IncludedNavigations(fields: string, n: string)
    ensures n in Included(Navigations, RequestedFields(fields)) <==>
            (|| n == "Gender_Gender" || n == "AgeUnit_AgeUnit" || n == "ReferredById_Contact"
             || n == "LocationId_Location" || n == "MembershipId_Membership" || n == "Title_Title"
             || n == "PatientAddressId_Address")
            && AnyStartsWith(RequestedFields(fields), n + ".")
  {
  }
}
