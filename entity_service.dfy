/**
 * The logic shared by the ten generated entity services (MembershipService,
 * PatientService, ...). They differ only in the navigation properties GetById may
 * load eagerly and in what Patch loads, so every operation here takes those as
 * parameters and each service module supplies its own constants.
 *
 * The list query (`GetX`) is the pure function `GetPage`; the table operations
 * are methods of `Service`, whose `rows` field is the entity's table keyed by Id.
 */
module EntityService {
  import opened Wrappers
  import opened Text
  import opened Exceptions
  import opened Guids
  import opened Int32s
  import Sorting
  import opened Seqs

  // ---------------------------------------------------------------------------
  // Data model

  /** A row of an entity table: its primary key and the rest of its columns. */
  datatype Record<F> = Record(Id: Guid, data: F)

  /**
   * What the services use of an entity class: its name, the names of its public
   * properties, those of them whose value is another entity (navigation properties,
   * which SQL cannot order by), and the comparable value of a named property of a
   * row (the projection `OrderBy` sorts on).
   */
  datatype EntityType<!F> = EntityType(
    name: string,
    properties: seq<string>,
    references: seq<string>,
    column: (Record<F>, string) -> int)

  function TypeName<F>(e: EntityType<F>): string {
    "TheBoys.Entities." + e.name
  }

  /** The paging and sorting arguments of `GetX`; `sortField` is "" when null or empty. */
  datatype PageRequest = PageRequest(pageNumber: Int32, pageSize: Int32, sortField: string, sortOrder: Option<string>)

  const PageSizeInvalid := "Page size invalid!"
  const PageNumberInvalid := "Page mumber invalid!"
  const InvalidSortOrder := "Invalid sort order. Use 'asc' or 'desc'"
  const NoDataFound := "No data found!"
  const PatchDocumentMissing := "Patch document is missing!"

  /** What EF Core reports for an `OrderBy` over a navigation property it cannot translate to SQL. */
  const UntranslatableOrder := "The LINQ expression could not be translated."
  /** What SQL Server reports for `OFFSET n ROWS` with a negative n. */
  const NegativeOffset := "The offset specified in a OFFSET clause may not be negative."

  // ---------------------------------------------------------------------------
  // The list query pipeline

  /** `(pageNumber - 1) * pageSize` in 32-bit arithmetic. */
  function SkipCount(pageNumber: Int32, pageSize: Int32): Int32 {
    Wrap32((pageNumber - 1) * pageSize)
  }

  /** `Skip(n)`: a count of zero or less skips nothing. */
  function Drop<T>(s: seq<T>, n: int): seq<T> {
    if n <= 0 then s else if n >= |s| then [] else s[n..]
  }

  /** `Take(n)`: a count of zero or less takes nothing. */
  function Take<T>(s: seq<T>, n: int): seq<T> {
    if n <= 0 then [] else if n >= |s| then s else s[..n]
  }

  /** `Expression.Property(parameter, name)` looks the property up ignoring case. */
  function ResolveProperty(properties: seq<string>, name: string): (r: Option<string>)
    ensures r.Some? <==> exists p :: p in properties && EqualsIgnoreCase(p, name)
    ensures r.Some? ==> r.value in properties && EqualsIgnoreCase(r.value, name)
  {
    if properties == [] then None
    else if EqualsIgnoreCase(properties[0], name) then Some(properties[0])
    else ResolveProperty(properties[1..], name)
  }

  const NotDefinedPrefix := "Instance property '"
  const NotDefinedMiddle := "' is not defined for type '"
  const NotDefinedSuffix := "' (Parameter 'propertyName')"

  function PropertyNotDefined<F>(e: EntityType<F>, name: string): Exception {
    Raise(Argument, NotDefinedPrefix + name + NotDefinedMiddle + TypeName(e) + NotDefinedSuffix)
  }

  function Ascending<F>(e: EntityType<F>, property: string): Record<F> -> int {
    (r: Record<F>) => e.column(r, property)
  }

  function Descending<F>(e: EntityType<F>, property: string): Record<F> -> int {
    (r: Record<F>) => -e.column(r, property)
  }

  /**
   * The optional ordering step: nothing happens without a sort field; otherwise
   * the field must name a property, and only then is the sort order examined. An
   * order over a navigation property is built, but fails when the query is translated.
   */
  function Order<F>(e: EntityType<F>, rows: seq<Record<F>>, sortField: string, sortOrder: Option<string>)
    : (r: Result<seq<Record<F>>, Exception>)
    ensures r.Success? ==> multiset(r.value) == multiset(rows)
  {
    if sortField == "" then Success(rows)
    else match ResolveProperty(e.properties, sortField)
      case None => Failure(PropertyNotDefined(e, sortField))
      case Some(p) =>
        if sortOrder.None? then Failure(Raise(NullReference, NullReferenceMessage))
        else if !EqualsIgnoreCase(sortOrder.value, "asc") && !EqualsIgnoreCase(sortOrder.value, "desc") then
          Failure(ApplicationError(InvalidSortOrder))
        else if p in e.references then Failure(Raise(InvalidOperation, UntranslatableOrder))
        else if EqualsIgnoreCase(sortOrder.value, "asc") then Success(Sorting.SortBy(rows, Ascending(e, p)))
        else Success(Sorting.SortBy(rows, Descending(e, p)))
  }

  /**
   * `GetX(filters, searchTerm, pageNumber, pageSize, sortField, sortOrder)` over the
   * rows of the table in store order; `keep` is the predicate `FilterService.ApplyFilter`
   * builds from the filters and the search term. SQL Server refuses a skip count
   * that has wrapped to a negative number.
   */
  function GetPage<F>(e: EntityType<F>, source: seq<Record<F>>, keep: Record<F> -> bool, q: PageRequest)
    : (r: Result<seq<Record<F>>, Exception>)
    ensures q.pageSize < 1 ==> r == Failure(ApplicationError(PageSizeInvalid))
    ensures q.pageSize >= 1 && q.pageNumber < 1 ==> r == Failure(ApplicationError(PageNumberInvalid))
    ensures r.Success? ==> |r.value| <= q.pageSize
    ensures r.Success? ==> forall i :: 0 <= i < |r.value| ==> r.value[i] in source && keep(r.value[i])
  {
    if q.pageSize < 1 then Failure(ApplicationError(PageSizeInvalid))
    else if q.pageNumber < 1 then Failure(ApplicationError(PageNumberInvalid))
    else
      var skip := SkipCount(q.pageNumber, q.pageSize);
      var filtered := Filter(source, keep);
      var ordered :- Order(e, filtered, q.sortField, q.sortOrder);
      if skip < 0 then Failure(Raise(SqlError, NegativeOffset)) else
      var page := Take(Drop(ordered, skip), q.pageSize);
      assert forall i :: 0 <= i < |page| ==> page[i] in multiset(ordered);
      Success(page)
  }

  function Min(a: int, b: int): int { if a <= b then a else b }

  /**
   * For valid paging whose skip count does not wrap to a negative number (with
   * `SkipWithoutOverflow`: whenever (pageNumber - 1) * pageSize fits in an int),
   * the page is the slice of the filtered and ordered rows that starts at the skip
   * count and holds at most pageSize rows; past the end it is empty. A failing
   * ordering step is the query's failure.
   */
  lemma PageIsSlice<F>(e: EntityType<F>, source: seq<Record<F>>, keep: Record<F> -> bool, q: PageRequest)
    requires q.pageSize >= 1 && q.pageNumber >= 1
    requires SkipCount(q.pageNumber, q.pageSize) >= 0
    ensures var ordered := Order(e, Filter(source, keep), q.sortField, q.sortOrder);
      var skip := SkipCount(q.pageNumber, q.pageSize);
      && (ordered.Failure? ==> GetPage(e, source, keep, q) == Failure(ordered.error))
      && (ordered.Success? ==> GetPage(e, source, keep, q) == Success(Slice(ordered.value, skip, q.pageSize)))
  {
    var ordered := Order(e, Filter(source, keep), q.sortField, q.sortOrder);
    if ordered.Success? {
      PageAfterOrder(e, source, keep, q);
      TakeDropSlice(ordered.value, SkipCount(q.pageNumber, q.pageSize), q.pageSize);
    } else {
      PageAfterOrder(e, source, keep, q);
    }
  }

  /**
   * Past the validation checks, the query is the ordering step followed by Skip and
   * Take, which the store refuses when the skip count is negative.
   */
  lemma PageAfterOrder<F>(e: EntityType<F>, source: seq<Record<F>>, keep: Record<F> -> bool, q: PageRequest)
    requires q.pageSize >= 1 && q.pageNumber >= 1
    ensures var ordered := Order(e, Filter(source, keep), q.sortField, q.sortOrder);
      && (ordered.Failure? ==> GetPage(e, source, keep, q) == Failure(ordered.error))
      && (ordered.Success? && SkipCount(q.pageNumber, q.pageSize) < 0 ==>
            GetPage(e, source, keep, q) == Failure(Raise(SqlError, NegativeOffset)))
      && (ordered.Success? && SkipCount(q.pageNumber, q.pageSize) >= 0 ==>
            GetPage(e, source, keep, q) == Success(Take(Drop(ordered.value, SkipCount(q.pageNumber, q.pageSize)), q.pageSize)))
  {
  }

  /** The rows from index `skip` on, at most `size` of them. */
  function Slice<T>(s: seq<T>, skip: nat, size: nat): seq<T> {
    if skip >= |s| then [] else s[skip..Min(skip + size, |s|)]
  }

  lemma TakeDropSlice<T>(s: seq<T>, skip: nat, size: nat)
    ensures Take(Drop(s, skip), size) == Slice(s, skip, size)
  {
  }

  /** Ordering keeps every filtered row: sorting permutes, it neither drops nor duplicates. */
  lemma OrderKeepsCount<F>(e: EntityType<F>, rows: seq<Record<F>>, sortField: string, sortOrder: Option<string>)
    ensures var ordered := Order(e, rows, sortField, sortOrder);
      ordered.Success? ==> |ordered.value| == |rows|
  {
    var ordered := Order(e, rows, sortField, sortOrder);
    if ordered.Success? {
      assert |multiset(ordered.value)| == |multiset(rows)|;
    }
  }

  lemma SkipWithoutOverflow(pageNumber: Int32, pageSize: Int32)
    requires pageSize >= 1 && pageNumber >= 1
    requires (pageNumber - 1) * pageSize < 0x8000_0000
    ensures SkipCount(pageNumber, pageSize) == (pageNumber - 1) * pageSize >= 0
  {
    var a: nat := pageNumber - 1;
    var b: nat := pageSize;
    assert a * b >= 0;
  }

  /** Without a sort field the filtered rows pass through in store order, whatever the sort order says. */
  lemma UnsortedWithoutSortField<F>(e: EntityType<F>, source: seq<Record<F>>, keep: Record<F> -> bool, q: PageRequest)
    requires q.pageSize >= 1 && q.pageNumber >= 1 && q.sortField == ""
    ensures SkipCount(q.pageNumber, q.pageSize) >= 0 ==>
      GetPage(e, source, keep, q) == Success(Take(Drop(Filter(source, keep), SkipCount(q.pageNumber, q.pageSize)), q.pageSize))
    ensures SkipCount(q.pageNumber, q.pageSize) < 0 ==> GetPage(e, source, keep, q) == Failure(Raise(SqlError, NegativeOffset))
  {
  }

  /**
   * With a sort field, a property must match it ignoring case (else ArgumentException);
   * then the sort order must be "asc" or "desc" ignoring case (else the service's own
   * error, or NullReferenceException for a null order); then the property must not be
   * a navigation (else InvalidOperationException), and the skip count must not be negative.
   */
  lemma SortErrors<F>(e: EntityType<F>, source: seq<Record<F>>, keep: Record<F> -> bool, q: PageRequest)
    requires q.pageSize >= 1 && q.pageNumber >= 1 && q.sortField != ""
    ensures ResolveProperty(e.properties, q.sortField).None? ==>
      GetPage(e, source, keep, q) == Failure(PropertyNotDefined(e, q.sortField))
    ensures ResolveProperty(e.properties, q.sortField).Some? && q.sortOrder.None? ==>
      GetPage(e, source, keep, q) == Failure(Raise(NullReference, NullReferenceMessage))
    ensures ResolveProperty(e.properties, q.sortField).Some? && q.sortOrder.Some? ==>
      (GetPage(e, source, keep, q).Success? <==>
        (EqualsIgnoreCase(q.sortOrder.value, "asc") || EqualsIgnoreCase(q.sortOrder.value, "desc")) &&
        ResolveProperty(e.properties, q.sortField).value !in e.references &&
        SkipCount(q.pageNumber, q.pageSize) >= 0)
    ensures (ResolveProperty(e.properties, q.sortField).Some? && q.sortOrder.Some? &&
             !EqualsIgnoreCase(q.sortOrder.value, "asc") && !EqualsIgnoreCase(q.sortOrder.value, "desc")) ==>
      GetPage(e, source, keep, q) == Failure(ApplicationError(InvalidSortOrder))
    ensures (ResolveProperty(e.properties, q.sortField).Some? && q.sortOrder.Some? &&
             (EqualsIgnoreCase(q.sortOrder.value, "asc") || EqualsIgnoreCase(q.sortOrder.value, "desc")) &&
             ResolveProperty(e.properties, q.sortField).value in e.references) ==>
      GetPage(e, source, keep, q) == Failure(Raise(InvalidOperation, UntranslatableOrder))
  {
  }

  /** Sort orders that agree ignoring case give the same result. */
  lemma SortOrderIgnoresCase<F>(e: EntityType<F>, source: seq<Record<F>>, keep: Record<F> -> bool, q: PageRequest, other: string)
    requires q.sortOrder.Some? && EqualsIgnoreCase(q.sortOrder.value, other)
    ensures GetPage(e, source, keep, q) == GetPage(e, source, keep, q.(sortOrder := Some(other)))
  {
    OrderIgnoresCase(e, Filter(source, keep), q.sortField, q.sortOrder.value, other);
  }

  lemma OrderIgnoresCase<F>(e: EntityType<F>, rows: seq<Record<F>>, sortField: string, order: string, other: string)
    requires EqualsIgnoreCase(order, other)
    ensures Order(e, rows, sortField, Some(order)) == Order(e, rows, sortField, Some(other))
  {
    assert EqualsIgnoreCase(order, "asc") == EqualsIgnoreCase(other, "asc");
    assert EqualsIgnoreCase(order, "desc") == EqualsIgnoreCase(other, "desc");
  }

  lemma SliceSorted<T>(s: seq<T>, rank: T -> int, n: int, m: int)
    requires Sorting.SortedBy(s, rank)
    ensures Sorting.SortedBy(Take(Drop(s, n), m), rank)
  {
    var d := Drop(s, n);
    assert forall i :: 0 <= i < |d| ==> d[i] == s[i + (|s| - |d|)];
    var t := Take(d, m);
    assert forall i :: 0 <= i < |t| ==> t[i] == d[i];
  }

  /**
   * A sorted page is ordered by the resolved property: non-decreasing for "asc",
   * non-increasing for "desc".
   */
  lemma SortedPage<F>(e: EntityType<F>, source: seq<Record<F>>, keep: Record<F> -> bool, q: PageRequest)
    requires q.sortField != "" && GetPage(e, source, keep, q).Success?
    ensures ResolveProperty(e.properties, q.sortField).Some? && q.sortOrder.Some?
    ensures var p := ResolveProperty(e.properties, q.sortField).value;
      var page := GetPage(e, source, keep, q).value;
      (EqualsIgnoreCase(q.sortOrder.value, "asc") ==>
        forall i, j :: 0 <= i < j < |page| ==> e.column(page[i], p) <= e.column(page[j], p)) &&
      (EqualsIgnoreCase(q.sortOrder.value, "desc") ==>
        forall i, j :: 0 <= i < j < |page| ==> e.column(page[i], p) >= e.column(page[j], p))
  {
    var p := ResolveProperty(e.properties, q.sortField).value;
    var filtered := Filter(source, keep);
    var skip := SkipCount(q.pageNumber, q.pageSize);
    var page := GetPage(e, source, keep, q).value;
    if EqualsIgnoreCase(q.sortOrder.value, "asc") {
      var sorted := Sorting.SortBy(filtered, Ascending(e, p));
      SliceSorted(sorted, Ascending(e, p), skip, q.pageSize);
      assert page == Take(Drop(sorted, skip), q.pageSize);
      assert forall i, j :: 0 <= i < j < |page| ==> Ascending(e, p)(page[i]) <= Ascending(e, p)(page[j]);
    } else if EqualsIgnoreCase(q.sortOrder.value, "desc") {
      var sorted := Sorting.SortBy(filtered, Descending(e, p));
      SliceSorted(sorted, Descending(e, p), skip, q.pageSize);
      assert page == Take(Drop(sorted, skip), q.pageSize);
      assert forall i, j :: 0 <= i < j < |page| ==> Descending(e, p)(page[i]) <= Descending(e, p)(page[j]);
    }
  }

  /**
   * The skip count wraps: page 65537 of 65536 rows skips 2^32 rows, which 32-bit
   * arithmetic reads as 0, so that page repeats the first page.
   */
  lemma SkipWrapsToFirstPage<F>(e: EntityType<F>, source: seq<Record<F>>, keep: Record<F> -> bool, sortField: string, sortOrder: Option<string>)
    ensures SkipCount(65537, 65536) == 0
    ensures GetPage(e, source, keep, PageRequest(65537, 65536, sortField, sortOrder)) ==
      GetPage(e, source, keep, PageRequest(1, 65536, sortField, sortOrder))
  {
  }

  /**
   * The skip count can also wrap below zero: page 3 of size 2^30 skips 2^31 rows,
   * which 32-bit arithmetic reads as -2^31, and the store refuses the query.
   */
  lemma SkipWrapsNegative<F>(e: EntityType<F>, source: seq<Record<F>>, keep: Record<F> -> bool, sortField: string, sortOrder: Option<string>)
    ensures SkipCount(3, 0x4000_0000) == -0x8000_0000
    ensures var ordered := Order(e, Filter(source, keep), sortField, sortOrder);
      GetPage(e, source, keep, PageRequest(3, 0x4000_0000, sortField, sortOrder)) ==
        if ordered.Failure? then Failure(ordered.error) else Failure(Raise(SqlError, NegativeOffset))
  {
  }

  // ---------------------------------------------------------------------------
  // GetById field handling

  /** The field list handed to the mapper: "Id" alone, or "Id," before the requested fields. */
  function FieldString(fields: string): string {
    if fields == "" then "Id" else "Id," + fields
  }

  /** `allfields`: the requested fields split on "," and not trimmed; none for null or "". */
  function RequestedFields(fields: string): seq<string> {
    if fields == "" then [] else Split(fields, ',')
  }

  /** The mapper sees "Id" followed by exactly the requested fields. */
  lemma FieldStringParts(fields: string)
    ensures Split(FieldString(fields), ',') == ["Id"] + RequestedFields(fields)
  {
    assert ',' !in "Id";
    if fields == "" {
      SplitWithoutSeparator("Id", ',');
    } else {
      assert "Id," + fields == "Id" + [','] + fields;
      SplitAfterHead("Id", ',', fields);
    }
  }

  /** `fields.Any(field => field.StartsWith(prefix, StringComparison.OrdinalIgnoreCase))`. */
  function AnyStartsWith(fields: seq<string>, prefix: string): (b: bool)
    ensures b <==> exists f :: f in fields && StartsWithIgnoreCase(f, prefix)
  {
    if fields == [] then false
    else StartsWithIgnoreCase(fields[0], prefix) || AnyStartsWith(fields[1..], prefix)
  }

  /** The navigations GetById includes, in declaration order. */
  function Included(navigations: seq<string>, requested: seq<string>): (r: seq<string>)
    ensures forall n :: n in r <==> n in navigations && AnyStartsWith(requested, n + ".")
    ensures |r| <= |navigations|
  {
    if navigations == [] then []
    else
      var head := if AnyStartsWith(requested, navigations[0] + ".") then [navigations[0]] else [];
      head + Included(navigations[1..], requested)
  }

  lemma {:induction false} IncludedAppend(a: seq<string>, b: seq<string>, requested: seq<string>)
    ensures Included(a + b, requested) == Included(a, requested) + Included(b, requested)
  {
    if a != [] {
      IncludedAppend(a[1..], b, requested);
      assert (a + b)[1..] == a[1..] + b;
    } else {
      assert a + b == b;
    }
  }

  /** One more navigation considered: it is added at the end when the request names it. */
  lemma IncludedStep(navigations: seq<string>, i: nat, requested: seq<string>)
    requires i < |navigations|
    ensures Included(navigations[..i + 1], requested) ==
            Included(navigations[..i], requested) +
            (if AnyStartsWith(requested, navigations[i] + ".") then [navigations[i]] else [])
  {
    TakeSnoc(navigations, i);
    IncludedAppend(navigations[..i], [navigations[i]], requested);
    assert [navigations[i]][1..] == [];
  }

  /** The `foreach` over the navigation properties that adds an `Include` per match. */
  method IncludeNavigations(navigations: seq<string>, requested: seq<string>) returns (includes: seq<string>)
    ensures includes == Included(navigations, requested)
  {
    includes := [];
    var i := 0;
    while i < |navigations|
      invariant 0 <= i <= |navigations|
      invariant includes == Included(navigations[..i], requested)
    {
      var nav := navigations[i];
      IncludedStep(navigations, i, requested);
      if AnyStartsWith(requested, nav + ".") {
        includes := includes + [nav];
      }
      i := i + 1;
    }
    assert navigations[..i] == navigations;
  }

  /** A navigation is included when some requested field, in any letter case, is its name, ".", and more. */
  lemma NavigationRequested(navigations: seq<string>, requested: seq<string>, i: nat, k: nat, rest: string)
    requires i < |navigations| && k < |requested|
    requires EqualsIgnoreCase(requested[k], navigations[i] + "." + rest)
    ensures navigations[i] in Included(navigations, requested)
  {
    var p := navigations[i] + ".";
    var f := requested[k];
    assert (p + rest)[..|p|] == p;
    assert navigations[i] + "." + rest == p + rest;
    LowerAppend(p, rest);
    assert Lower(f)[..|p|] == Lower(p);
    assert Lower(f[..|p|]) == Lower(f)[..|p|];
    assert StartsWithIgnoreCase(f, p);
  }

  /** A request naming a navigation without a trailing "." does not include it. */
  lemma BareNavigationNotIncluded(navigations: seq<string>, nav: string)
    ensures nav !in Included(navigations, [nav])
  {
  }

  /** Requested fields that agree ignoring case include the same navigations. */
  lemma {:induction false} IncludedIgnoresCase(navigations: seq<string>, requested: seq<string>, other: seq<string>)
    requires |requested| == |other|
    requires forall k :: 0 <= k < |requested| ==> EqualsIgnoreCase(requested[k], other[k])
    ensures Included(navigations, requested) == Included(navigations, other)
  {
    forall n ensures AnyStartsWith(requested, n + ".") == AnyStartsWith(other, n + ".") {
      if AnyStartsWith(requested, n + ".") {
        var f :| f in requested && StartsWithIgnoreCase(f, n + ".");
        var k :| 0 <= k < |requested| && requested[k] == f;
        assert Lower(other[k])[..|n + "."|] == Lower(f)[..|n + "."|];
        assert Lower(other[k][..|n + "."|]) == Lower(other[k])[..|n + "."|];
        assert Lower(f[..|n + "."|]) == Lower(f)[..|n + "."|];
        assert StartsWithIgnoreCase(other[k], n + ".");
      }
      if AnyStartsWith(other, n + ".") {
        var f :| f in other && StartsWithIgnoreCase(f, n + ".");
        var k :| 0 <= k < |other| && other[k] == f;
        assert Lower(requested[k])[..|n + "."|] == Lower(f)[..|n + "."|];
        assert Lower(requested[k][..|n + "."|]) == Lower(requested[k])[..|n + "."|];
        assert Lower(f[..|n + "."|]) == Lower(f)[..|n + "."|];
        assert StartsWithIgnoreCase(requested[k], n + ".");
      }
    }
    IncludedPointwise(navigations, requested, other);
  }

  lemma {:induction false} IncludedPointwise(navigations: seq<string>, requested: seq<string>, other: seq<string>)
    requires forall n :: AnyStartsWith(requested, n + ".") == AnyStartsWith(other, n + ".")
    ensures Included(navigations, requested) == Included(navigations, other)
  {
    if navigations != [] {
      IncludedPointwise(navigations[1..], requested, other);
    }
  }

  // ---------------------------------------------------------------------------
  // The table

  ghost predicate KeyedById<F>(rows: map<Guid, Record<F>>) {
    forall k :: k in rows ==> rows[k].Id == k
  }

  /** Storing a row under its own key keeps the table keyed by Id. */
  lemma StoreKeyed<F>(rows: map<Guid, Record<F>>, key: Guid, row: Record<F>)
    requires KeyedById(rows) && row.Id == key
    ensures KeyedById(rows[key := row])
  {
  }

  /** Removing a key that was just added restores the table. */
  lemma StoreThenRemove<F>(rows: map<Guid, Record<F>>, key: Guid, row: Record<F>)
    requires key !in rows
    ensures rows[key := row] - {key} == rows
  {
  }

  /** `order` lists every key of the table once: the order in which the store enumerates it. */
  ghost predicate Enumerates<F>(order: seq<Guid>, rows: map<Guid, Record<F>>) {
    && (forall i, j :: 0 <= i < j < |order| ==> order[i] != order[j])
    && (forall k :: k in rows <==> k in order)
  }

  function RowsInOrder<F>(order: seq<Guid>, rows: map<Guid, Record<F>>): (s: seq<Record<F>>)
    requires forall k :: k in order ==> k in rows
    ensures |s| == |order| && forall i :: 0 <= i < |order| ==> s[i] == rows[order[i]]
  {
    seq(|order|, i requires 0 <= i < |order| => rows[order[i]])
  }

  /** Every row listed in store order is the table's row under its own key. */
  lemma RowInOrderIsStored<F>(order: seq<Guid>, rows: map<Guid, Record<F>>, x: Record<F>)
    requires KeyedById(rows) && forall k :: k in order ==> k in rows
    requires x in RowsInOrder(order, rows)
    ensures x.Id in rows && rows[x.Id] == x
  {
    var s := RowsInOrder(order, rows);
    var j :| 0 <= j < |s| && s[j] == x;
    assert rows[order[j]] == x;
  }

  /** The key a new row gets: its own, or the one EF generates for an unset (empty) Guid. */
  function NewKey<F>(model: Record<F>, generated: Guid): Guid {
    if model.Id == Empty then generated else model.Id
  }

  const DuplicateKeyMessage := "An error occurred while saving the entity changes. See the inner exception for details."
  const ConcurrencyMessage := "The database operation was expected to affect 1 row(s), but actually affected 0 row(s); data may have been modified or deleted since entities were loaded. See https://go.microsoft.com/fwlink/?LinkId=527962 for information on understanding and handling optimistic concurrency exceptions."
  const KeyModifiedPrefix := "The property '"
  const KeyModifiedSuffix := ".Id' is part of a key and so cannot be modified or marked as modified. To change the principal of an existing entity with an identifying foreign key, first delete the dependent and invoke 'SaveChanges', and then associate the dependent with the new principal."

  /**
   * SQL Server's refusal (errors 2627 and 3621) of an INSERT whose key is taken. The
   * table is named after its `DbSet`, which is the entity's name, its key constraint
   * `PK_<table>`, and a `uniqueidentifier` is shown in upper case. SqlClient joins the
   * two errors with `Environment.NewLine`, "\n" on Linux.
   */
  function PrimaryKeyViolation(table: string, key: Guid): string {
    "Violation of PRIMARY KEY constraint 'PK_" + table + "'. Cannot insert duplicate key in object 'dbo." + table
    + "'. The duplicate key value is (" + Upper(GuidText(key)) + ").\nThe statement has been terminated."
  }

  /** `SaveChangesAsync` after adding a row whose key is taken: EF wraps the SqlException. */
  function DuplicateKeyError<F>(e: EntityType<F>, key: Guid): (x: Exception)
    ensures x.kind == DbUpdate && x.message == DuplicateKeyMessage
    ensures x.inner == Some(Raise(SqlError, PrimaryKeyViolation(e.name, key)))
  {
    Wrapping(DbUpdate, DuplicateKeyMessage, Raise(SqlError, PrimaryKeyViolation(e.name, key)))
  }

  function ConcurrencyError(): Exception {
    Raise(DbUpdateConcurrency, ConcurrencyMessage)
  }

  function KeyModifiedError<F>(e: EntityType<F>): Exception {
    Raise(InvalidOperation, KeyModifiedPrefix + e.name + KeyModifiedSuffix)
  }

  /** One entity service over its table. */
  class Service<F> {
    const entity: EntityType<F>
    const navigations: seq<string>
    const patchIncludes: seq<string>
    var rows: map<Guid, Record<F>>

    ghost predicate Valid()
      reads this
    {
      KeyedById(rows)
    }

    constructor (entity: EntityType<F>, navigations: seq<string>, patchIncludes: seq<string>, rows: map<Guid, Record<F>>)
      requires KeyedById(rows)
      ensures Valid()
      ensures this.entity == entity && this.navigations == navigations && this.patchIncludes == patchIncludes
      ensures this.rows == rows
    {
      this.entity := entity;
      this.navigations := navigations;
      this.patchIncludes := patchIncludes;
      this.rows := rows;
    }

    /**
     * `GetById(id, fields)`: the mapper receives the row with that key (or null), the
     * navigations included for the requested fields, and the field string.
     */
    method GetById<R>(id: Guid, fields: string, mapper: (Option<Record<F>>, seq<string>, string) -> R) returns (r: R)
      ensures r == mapper(if id in rows then Some(rows[id]) else None,
                          Included(navigations, RequestedFields(fields)), FieldString(fields))
    {
      var requested := RequestedFields(fields);
      var fieldList := FieldString(fields);
      var includes := IncludeNavigations(navigations, requested);
      var found := if id in rows then Some(rows[id]) else None;
      r := mapper(found, includes, fieldList);
    }

    /** `Get(...)`: the list query over the table as the store enumerates it. */
    method Get(order: seq<Guid>, keep: Record<F> -> bool, q: PageRequest) returns (r: Result<seq<Record<F>>, Exception>)
      requires Valid() && Enumerates(order, rows)
      ensures r == GetPage(entity, RowsInOrder(order, rows), keep, q)
      ensures r.Success? ==> forall i :: 0 <= i < |r.value| ==>
        r.value[i].Id in rows && rows[r.value[i].Id] == r.value[i] && keep(r.value[i])
    {
      var source := RowsInOrder(order, rows);
      r := GetPage(entity, source, keep, q);
      if r.Success? {
        forall i | 0 <= i < |r.value| ensures r.value[i].Id in rows && rows[r.value[i].Id] == r.value[i] {
          RowInOrderIsStored(order, rows, r.value[i]);
        }
      }
    }

    /** `Create(model)`: adds the row and returns its key. */
    method Create(model: Record<F>, generated: Guid) returns (r: Result<Guid, Exception>)
      requires Valid()
      modifies this
      ensures Valid()
      ensures var key := NewKey(model, generated);
        if key in old(rows) then r == Failure(DuplicateKeyError(entity, key)) && rows == old(rows)
        else r == Success(key) && rows == old(rows)[key := model.(Id := key)]
    {
      var key := NewKey(model, generated);
      if key in rows {
        r := Failure(DuplicateKeyError(entity, key));
      } else {
        StoreKeyed(rows, key, model.(Id := key));
        rows := rows[key := model.(Id := key)];
        r := Success(key);
      }
    }

    /**
     * `Update(id, updatedEntity)`: `id` is ignored; the row keyed by `updatedEntity.Id` is
     * replaced. EF inserts an entity whose key is unset, and an update that touches no
     * row fails.
     */
    method Update(id: Guid, updatedEntity: Record<F>, generated: Guid) returns (r: Result<bool, Exception>)
      requires Valid()
      modifies this
      ensures Valid()
      ensures updatedEntity.Id == Empty ==>
        if generated in old(rows) then r == Failure(DuplicateKeyError(entity, generated)) && rows == old(rows)
        else r == Success(true) && rows == old(rows)[generated := updatedEntity.(Id := generated)]
      ensures updatedEntity.Id != Empty ==>
        if updatedEntity.Id in old(rows) then r == Success(true) && rows == old(rows)[updatedEntity.Id := updatedEntity]
        else r == Failure(ConcurrencyError()) && rows == old(rows)
    {
      if updatedEntity.Id == Empty {
        if generated in rows {
          r := Failure(DuplicateKeyError(entity, generated));
        } else {
          StoreKeyed(rows, generated, updatedEntity.(Id := generated));
          rows := rows[generated := updatedEntity.(Id := generated)];
          r := Success(true);
        }
      } else if updatedEntity.Id in rows {
        StoreKeyed(rows, updatedEntity.Id, updatedEntity);
        rows := rows[updatedEntity.Id := updatedEntity];
        r := Success(true);
      } else {
        r := Failure(ConcurrencyError());
      }
    }

    /** `Delete(id)`: removes exactly the row with that key. */
    method Delete(id: Guid) returns (r: Result<bool, Exception>)
      requires Valid()
      modifies this
      ensures Valid()
      ensures id in old(rows) ==> r == Success(true) && rows == old(rows) - {id}
      ensures id !in old(rows) ==> r == Failure(ApplicationError(NoDataFound)) && rows == old(rows)
    {
      if id !in rows {
        r := Failure(ApplicationError(NoDataFound));
      } else {
        rows := rows - {id};
        r := Success(true);
      }
    }

    /**
     * `Patch(id, document)`: a missing document fails first, then a missing row; otherwise
     * the document is applied to that row (loaded with `patchIncludes`) and saved. A
     * document that changes the key is refused by EF.
     */
    method Patch<D>(id: Guid, document: Option<D>, applyTo: (D, Record<F>, seq<string>) -> Record<F>)
      returns (r: Result<bool, Exception>)
      requires Valid()
      modifies this
      ensures Valid()
      ensures document.None? ==> r == Failure(ApplicationError(PatchDocumentMissing)) && rows == old(rows)
      ensures document.Some? && id !in old(rows) ==> r == Failure(ApplicationError(NoDataFound)) && rows == old(rows)
      ensures document.Some? && id in old(rows) ==>
        var patched := applyTo(document.value, old(rows)[id], patchIncludes);
        if patched.Id == id then r == Success(true) && rows == old(rows)[id := patched]
        else r == Failure(KeyModifiedError(entity)) && rows == old(rows)
    {
      if document.None? {
        r := Failure(ApplicationError(PatchDocumentMissing));
        return;
      }
      if id !in rows {
        r := Failure(ApplicationError(NoDataFound));
        return;
      }
      var patched := applyTo(document.value, rows[id], patchIncludes);
      if patched.Id != id {
        r := Failure(KeyModifiedError(entity));
      } else {
        StoreKeyed(rows, id, patched);
        rows := rows[id := patched];
        r := Success(true);
      }
    }
  }

  /** Creating a row under a fresh key and deleting that key leaves the table as it was. */
  method CreateThenDelete<F>(s: Service<F>, model: Record<F>, generated: Guid) returns (created: Result<Guid, Exception>)
    requires s.Valid()
    modifies s
    ensures s.Valid()
    ensures created.Success? ==> s.rows == old(s.rows)
    ensures NewKey(model, generated) !in old(s.rows) <==> created.Success?
  {
    created := s.Create(model, generated);
    if created.Success? {
      ghost var added := s.rows;
      var deleted := s.Delete(created.value);
      StoreThenRemove(old(s.rows), created.value, added[created.value]);
    }
  }
}
