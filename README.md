# TheBoys back end and add/edit dialog, modelled in Dafny

TheBoys is a generated CRUD application: an ASP.NET Core API over an EF Core
database and an Angular client. This project models the parts of it that
decide behaviour:

- **The ten entity services** (Membership, Patient, Location, Contact, Address,
  AgeUnit, Country, State, Title, City). Each one has the same operations:
  - `GetById`, including its eager loading of navigation properties;
  - the paged, filtered and sorted list query `GetX`;
  - `Create`, `Update`, `Delete` and `Patch` on a table keyed by `Guid`.

  The services differ only in their navigation lists. Patient's `Patch` also
  loads its address. So the shared logic lives in module `EntityService`, and
  each service module (`MembershipService`, `PatientService`, ...) holds its own
  constants and the facts about them.
- **The exception middleware** (`ExceptionMiddleware`). Each catch clause maps
  to an HTTP status. A message of the form `error_NNN_...` overrides that
  status. The JSON error body is built from the exception.
- **The exception formatter** (`ExceptionFormatter`). It writes the log text of
  an exception, including the chain of inner exceptions, and builds the
  `ErrorMessage` record. The records themselves are in module `Models`.
- **The blob file service** (`FileService`).
  - It names uploaded files as `{tenant}/{entity}/{field}/{file}`, moving a
    file into a timestamped folder when its plain name is taken.
  - It returns the stored paths with the container URI in front.
  - It deletes files again from those paths.
- **The client's add/edit dialog** (`TemplateAdd`).
  - Each layout field gets a default value and validators. Numeric fields get
    regular-expression validators, whose languages are in module `Patterns`.
  - The form controls are built recursively from a layout.
  - A loaded record is flattened into dotted form keys. Objects are rebuilt
    from dotted keys when the form is submitted.
  - Submitting sends either a filtered JSON Patch or a new record.

Supporting modules:

- `Int32s`: C# `int`, with wrap-around, `ToString` and `TryParse`.
- `Guids`: the textual form of a Guid.
- `Text`: case folding, `Split`, `Contains`.
- `Js`: JavaScript values and objects as ordered property lists.
- `Numerals`, `Seqs`, `Sorting`: numbers, sequences, and the sort that stands
  for `OrderBy`.
- `Exceptions`: the .NET exception types, each with the classes it derives
  from, since a catch clause also catches derived types.
- `Wrappers`: the `Option` and `Result` datatypes.

Where the code works by changing state, the model is imperative:

- `Service` is a class whose `rows` map the operations update.
- `BlobContainer` holds the blobs that `SaveFiles` and `DeleteFiles` change.
- `StringWriter` and `HttpResponse` are written to by the formatter and the
  middleware.
- `TemplateAddComponent` holds the form controls and `fieldOptions`.

Each method is proved against a function that specifies it, such as
`GetPage`, `Included`, `Saved`, `DeleteStatuses`, `InitFields`, `Flattened` or
`Unflattened`. The lemmas state what the source promises about those functions.

Two facts about the code's error handling and defaults:

- **Status of the list query's errors.** The page checks and the sort order
  check throw `ApplicationException`. No catch clause names that type, so
  these errors are answered with 500 (`ServiceErrorsAnswer500`). An unknown
  sort field makes `Expression.Property` throw an `ArgumentException`, which is
  answered with 406 (`UnknownSortFieldAnswers406`). The store's own refusals,
  an order over a navigation property and a negative offset, are answered with
  500 as well (`StoreFailuresAnswer500`).
- **Default page size.** The services declare `pageSize = 1` as the default
  (API/Services/MembershipService.g.cs:122). The model always takes the page
  size as given.

## Model

| member | source | states |
|---|---|---|
| EntityService.GetPage | API/Services/MembershipService.g.cs:169-205 | pageSize < 1 fails with "Page size invalid!" whatever pageNumber is. Otherwise pageNumber < 1 fails with "Page mumber invalid!". A successful page holds at most pageSize rows, each a row of the table that the filter keeps. |
| EntityService.PageIsSlice | API/Services/MembershipService.g.cs:182-203 | Assumes valid paging and a non-negative skip count. The page is then the slice of the filtered, ordered rows that starts at (pageNumber-1)*pageSize and holds at most pageSize rows; it is empty past the end. A failing ordering step is the query's failure. |
| EntityService.PageAfterOrder | API/Services/MembershipService.g.cs:181-203 | Once both page checks pass, the query is the ordering step followed by Skip(skip) and Take(pageSize). A failing ordering step is the query's failure. SQL Server refuses a negative skip count, so that query fails. |
| EntityService.SkipWithoutOverflow | API/Services/MembershipService.g.cs:182 | When (pageNumber-1)*pageSize fits in an int, the 32-bit skip count equals that product and is non-negative. |
| EntityService.SkipWrapsToFirstPage | API/Services/MembershipService.g.cs:182 | The 32-bit product wraps. For page 65537 of size 65536 the skip count is 0, so that page equals page 1. |
| EntityService.SkipWrapsNegative | API/Services/MembershipService.g.cs:182-203 | For page 3 of size 2^30 the skip count wraps to -2^31. Unless ordering already failed, the store then refuses the query. |
| EntityService.Order | API/Services/MembershipService.g.cs:184-201 | A successful ordering step returns a permutation of the filtered rows. |
| EntityService.OrderKeepsCount | API/Services/MembershipService.g.cs:184-201 | Ordering neither drops nor duplicates a row: a successful ordering keeps the row count. |
| EntityService.UnsortedWithoutSortField | API/Services/MembershipService.g.cs:182-203 | With an empty sort field, the filtered rows are paged in store order whatever sortOrder holds, including an invalid order. A negative skip count makes the store refuse the query. |
| EntityService.SortErrors | API/Services/MembershipService.g.cs:184-200 | With a sort field, the checks run in this order: (1) a field no property matches ignoring case is an ArgumentException; (2) a null order is a NullReferenceException; (3) an order that is neither "asc" nor "desc" ignoring case fails with "Invalid sort order. Use 'asc' or 'desc'"; (4) an order over a navigation property fails translation with an InvalidOperationException. The query succeeds exactly when the order is "asc" or "desc", the property is not a navigation, and the skip count is not negative. |
| EntityService.SortOrderIgnoresCase | API/Services/MembershipService.g.cs:189-196 | Sort orders that are equal ignoring case give the same result. |
| EntityService.SortedPage | API/Services/MembershipService.g.cs:184-203 | A successful sorted page is non-decreasing in the resolved property for "asc" and non-increasing for "desc". |
| EntityService.ResolveProperty | API/Services/MembershipService.g.cs:187 | A property is found exactly when some property name equals the sort field ignoring case, and the one found is such a name. |
| Sorting.SortBy | API/Services/MembershipService.g.cs:191-195 | The result is a permutation of the input, sorted by the key. |
| EntityService.FieldStringParts | API/Services/MembershipService.g.cs:90-99 | The mapper's field string is "Id" alone for null or empty fields, and otherwise "Id," followed by the fields verbatim. Split at ",", it is "Id" followed by exactly the requested fields, untrimmed. |
| EntityService.AnyStartsWith | API/Services/MembershipService.g.cs:104 | True exactly when some requested field starts with the prefix ignoring case. |
| EntityService.Included | API/Services/MembershipService.g.cs:101-108 | A navigation is included exactly when it is in the service's list and some requested field starts with its name and "." ignoring case. The result is never longer than the list. |
| EntityService.IncludeNavigations | API/Services/MembershipService.g.cs:102-108 | The foreach over the navigation list adds exactly the includes of `Included`, in list order. |
| EntityService.NavigationRequested | API/Services/PatientService.g.cs:104 | A requested field equal, ignoring case, to a navigation's name, ".", and any text includes that navigation. |
| EntityService.BareNavigationNotIncluded | API/Services/PatientService.g.cs:104 | A field naming a navigation without a trailing "." does not include it. |
| EntityService.IncludedIgnoresCase | API/Services/MembershipService.g.cs:104 | Field lists that agree position by position ignoring case include the same navigations. |
| EntityService.RowInOrderIsStored | API/Services/MembershipService.g.cs:181 | Every row the store enumerates is the table's row under its own key. |
| EntityService.Service.GetById | API/Services/MembershipService.g.cs:87-112 | The mapper receives the row with the id, or null when there is none. It also receives the navigations included for the requested fields and the field string. |
| EntityService.Service.Get | API/Services/MembershipService.g.cs:122-126 | The list query over the table in store order. Every row returned is a stored row under its own key. |
| EntityService.Service.Create | API/Services/MembershipService.g.cs:207-212 | An unset (empty) key takes the generated key. A new key adds exactly that row and returns its key. A key already in use fails with a DbUpdateException wrapping SQL Server's primary-key violation, and leaves the table unchanged. |
| EntityService.Service.Update | API/Services/MembershipService.g.cs:214-218 | The id argument is ignored and the row keyed by updatedEntity.Id is replaced. An unset key is inserted under the generated key. An absent key fails, as an update that affects no row does. On failure nothing changes. |
| EntityService.Service.Delete | API/Services/MembershipService.g.cs:220-231 | An absent id fails with "No data found!" and leaves the table unchanged. Otherwise exactly that row is removed and the call returns true. |
| EntityService.Service.Patch | API/Services/MembershipService.g.cs:233-249 | A null document fails with "Patch document is missing!" before any lookup. An absent id then fails with "No data found!". On an existing row, the document is applied to that row alone, loaded with the service's includes, and the result is stored. A document that changes the key is refused. |
| EntityService.CreateThenDelete | API/Services/MembershipService.g.cs:131-167 | Creating under a fresh key and then deleting that key leaves the table as it was. Creation succeeds exactly when the key is fresh. |
| MembershipService.NewService | API/Services/MembershipService.g.cs:101 | Builds the Membership service: no navigations, and Patch loads nothing extra. |
| MembershipService.NeverIncludes | API/Services/MembershipService.g.cs:101-108 | GetById includes no navigation, whatever fields are requested. |
| PatientService.NewService | API/Services/PatientService.g.cs:101 | Builds the Patient service with its seven navigations. Patch loads PatientAddressId_Address. |
| PatientService.IncludedNavigations | API/Services/PatientService.g.cs:101-108 | A name is included exactly when it is one of the seven navigations and some requested field starts with it and "." ignoring case. |
| LocationService.NewService | API/Services/LocationService.g.cs:101 | Builds the Location service with CountryId_Country, StateId_State and CityId_City. |
| LocationService.IncludedNavigations | API/Services/LocationService.g.cs:101-108 | A name is included exactly when it is one of those three and some requested field starts with it and "." ignoring case. |
| ContactService.NewService | API/Services/ContactService.g.cs:101 | Builds the Contact service with TitleId_Title, StateId_State, CityId_City and CountryId_Country. |
| ContactService.IncludedNavigations | API/Services/ContactService.g.cs:101-108 | A name is included exactly when it is one of those four and is requested with a "." suffix ignoring case. |
| AddressService.NewService | API/Services/AddressService.g.cs:101 | Builds the Address service with CountryId_Country, CityId_City and StateId_State. |
| AddressService.IncludedNavigations | API/Services/AddressService.g.cs:101-108 | A name is included exactly when it is one of those three and is requested with a "." suffix ignoring case. |
| AgeUnitService.NewService | API/Services/AgeUnitService.g.cs:101 | Builds the AgeUnit service with no navigations. |
| AgeUnitService.NeverIncludes | API/Services/AgeUnitService.g.cs:101-108 | GetById never adds an include. |
| CountryService.NewService | API/Services/CountryService.g.cs:101 | Builds the Country service with no navigations. |
| CountryService.NeverIncludes | API/Services/CountryService.g.cs:101-108 | GetById never adds an include. |
| StateService.NewService | API/Services/StateService.g.cs:101 | Builds the State service with CountryId_Country alone. |
| StateService.IncludedNavigations | API/Services/StateService.g.cs:101-108 | CountryId_Country is included exactly when some requested field starts with "CountryId_Country." ignoring case, and nothing else is ever included. |
| TitleService.NewService | API/Services/TitleService.g.cs:101 | Builds the Title service with no navigations. |
| TitleService.NeverIncludes | API/Services/TitleService.g.cs:101-108 | GetById never adds an include. |
| CityService.NewService | API/Services/CityService.g.cs:101 | Builds the City service with CountryId_Country and StateId_State. |
| CityService.IncludedNavigations | API/Services/CityService.g.cs:101-108 | A name is included exactly when it is one of those two and is requested with a "." suffix ignoring case. |
| ExceptionMiddleware.CatchStatus | API/Middleware/ExceptionMiddleware.g.cs:29-53 | The catch clauses are tried in order, and each catches its type and every type derived from it. FieldAccessException gives 409. Otherwise ValidationException gives 406. Otherwise UnauthorizedAccessException gives 401. Otherwise ArgumentException gives 406. Every other type gives 500. |
| ExceptionMiddleware.ArgumentSubclassAnswers406 | API/Middleware/ExceptionMiddleware.g.cs:44-48 | Any type derived from ArgumentException, and not from one of the earlier clauses' types, gets 406. |
| ExceptionMiddleware.CaughtTypesStatus | API/Middleware/ExceptionMiddleware.g.cs:29-48 | FieldAccessException gives 409, ValidationException 406, UnauthorizedAccessException 401. ArgumentException, ArgumentNullException and ArgumentOutOfRangeException give 406. |
| ExceptionMiddleware.UncaughtTypesStatus | API/Middleware/ExceptionMiddleware.g.cs:49-53 | ApplicationException, NullReferenceException, InvalidOperationException, DbUpdateException, DbUpdateConcurrencyException and SqlException reach the last clause and give 500. |
| ExceptionMiddleware.ErrorResponse | API/Middleware/ExceptionMiddleware.g.cs:76-101 | Error.Message is the exception's message. InnerExceptionMessage is the inner exception's message when there is one, and "" otherwise. The status is the custom code when the message carries one, and otherwise the status passed in. |
| ExceptionMiddleware.DuplicateKeyAnswered | API/Middleware/ExceptionMiddleware.g.cs:81-101 | For a key already in use, the body's message is EF's DbUpdateException message and its inner message is SQL Server's primary-key violation text for that table and key. |
| ExceptionMiddleware.CustomCodeOfMarkedMessage | API/Middleware/ExceptionMiddleware.g.cs:86-97 | "error_" followed by an int's text, "_" and any text yields that int as the status. |
| ExceptionMiddleware.CustomCodeOfBareMarker | API/Middleware/ExceptionMiddleware.g.cs:86-97 | The code needs no text after it and is not range-checked: any int counts. |
| ExceptionMiddleware.PrefixedMarkerNotCustom | API/Middleware/ExceptionMiddleware.g.cs:86-89 | Because the split is over the whole message, a message like "x_error_409..." is not custom: its second part is "error". |
| ExceptionMiddleware.MarkerAnywhere | API/Middleware/ExceptionMiddleware.g.cs:86-89 | The marker need not lead: an int in the second part counts wherever "error_" occurs later. |
| ExceptionMiddleware.NoUnderscoreNotCustom | API/Middleware/ExceptionMiddleware.g.cs:86-98 | A message without "_" keeps the status passed in. |
| ExceptionMiddleware.ServiceErrorsAnswer500 | API/Middleware/ExceptionMiddleware.g.cs:49-53 | An ApplicationException whose message has no "_" is answered with 500. This covers the services' own errors: invalid paging, invalid sort order, no data found, a missing patch document. |
| ExceptionMiddleware.StoreFailuresAnswer500 | API/Middleware/ExceptionMiddleware.g.cs:49-53 | An InvalidOperationException (an untranslatable order) or a SqlException (a negative offset) is answered with 500, unless its message holds "error_". |
| ExceptionMiddleware.UnknownSortFieldAnswers406 | API/Middleware/ExceptionMiddleware.g.cs:44-48 | The ArgumentException raised for an unknown sort field is answered with 406. This holds whenever neither the field nor the entity name contains "_". |
| ExceptionMiddleware.ErrorResponseAgreesWithErrorMessage | API/Middleware/ExceptionMiddleware.g.cs:98-100 | Without a custom code or an inner exception, the body is exactly the record `ErrorMessage(message, status)` builds. |
| ExceptionMiddleware.HandleException | API/Middleware/ExceptionMiddleware.g.cs:56-75 | The content type is always application/json. For 302 the body is the bare message. For any other status the body is `ErrorResponse` and the response status is that body's status code. |
| ExceptionMiddleware.InvokeAsync | API/Middleware/ExceptionMiddleware.g.cs:23-54 | When nothing is thrown, the response is untouched and nothing is logged. A thrown exception is logged with its full text and answered through `HandleException` with its catch clause's status. The 302 branch is never reached. |
| ExceptionFormatter.ErrorMessage | API/Middleware/ExceptionFormatter.g.cs:55-66 | Message is the error text and StatusCode the given status, 400 by default. InnerExceptionMessage stays "". |
| ExceptionFormatter.SourceType | API/Middleware/ExceptionFormatter.g.cs:27-35 | Empty without a throw site or without a declaring type. Otherwise it is the declaring type's assembly-qualified name. |
| ExceptionFormatter.ChainLinks | API/Middleware/ExceptionFormatter.g.cs:11-19 | Each exception of the chain wraps the next, and the last wraps nothing. |
| ExceptionFormatter.InnerLinesChain | API/Middleware/ExceptionFormatter.g.cs:11-19 | The inner-exception section has two lines per exception of the chain, starting with the logged exception itself: its message, then its type. |
| ExceptionMiddleware.DuplicateKeyLogged | API/Middleware/ExceptionFormatter.g.cs:11-19 | The log of a duplicate key has eleven lines, ending with EF's message and type, then SQL Server's text and the SqlException type. |
| ExceptionFormatter.LogLayout | API/Middleware/ExceptionFormatter.g.cs:27-47 | The log is "User: Anonymous", Message, ExceptionType, SourceType, SourceMethod, "StackTrace:" and the stack trace, in that order. SourceMethod is the throw site's method text, or "" without one. Then come two lines for each exception of the chain. |
| ExceptionFormatter.RenderSplit | API/Middleware/ExceptionFormatter.g.cs:37-47 | Text written line by line, when no line holds a line break, reads back as those lines followed by an empty remainder. |
| ExceptionFormatter.SerializeInnerException | API/Middleware/ExceptionFormatter.g.cs:11-19 | Writes the rendered chain lines after what the writer held. |
| ExceptionFormatter.SerializeToString | API/Middleware/ExceptionFormatter.g.cs:25-48 | Returns the rendering of the log lines above. |
| Int32s.Wrap32 | API/Services/MembershipService.g.cs:182 | The result is congruent to the exact value modulo 2^32, and equal to it when it fits in an int. |
| Int32s.ParseFormatted | API/Middleware/ExceptionMiddleware.g.cs:89 | Every int reads back from its own text: `int.TryParse` inverts `ToString`. |
| Int32s.ParseIgnoresWhite | API/Middleware/ExceptionMiddleware.g.cs:89 | White space of any length before and after an int's text (tab, line feed, vertical tab, form feed, carriage return, space) does not change what it parses to. |
| Int32s.ParseNeedsDigits | API/Middleware/ExceptionMiddleware.g.cs:89 | Text without a decimal digit never parses. |
| Int32s.ParseRefusesOverflow | API/Middleware/ExceptionMiddleware.g.cs:89 | The text of a number outside the int range does not parse. |
| FileService.TimeStamp | API/Services/FileService.g.cs:104-107 | `yyyyMMddHHmmssfff` is seventeen decimal digits. |
| FileService.TimeStampRoundTrip | API/Services/FileService.g.cs:104-107 | Each field of the time reads back from its columns. |
| FileService.TimeStampInjective | API/Services/FileService.g.cs:104-107 | Different moments give different timestamp folders. |
| FileService.TargetPath | API/Services/FileService.g.cs:52-58 | The blob is the plain `{tenant}/{entity}/{field}/{file}` path exactly when no blob of that name exists. Either way the path starts with the field's folder and ends with the file name. |
| FileService.Saved | API/Services/FileService.g.cs:45-76 | Saving gives exactly one path per file and removes no blob. |
| FileService.SavedEmptyPaths | API/Services/FileService.g.cs:49-73 | A path is "" exactly when its file has no name. |
| FileService.SavedPath | API/Services/FileService.g.cs:52-70 | The path of a named file is the container URI, "/" and its blob. That blob is the plain path when no blob of that name existed before the file, and otherwise the timestamped path taken at that file's time. |
| FileService.SavedStored | API/Services/FileService.g.cs:52-69 | A named file ends up stored under its blob, unless a later file of the batch took the same name. |
| FileService.SavedPrefix | API/Services/FileService.g.cs:47-74 | Saving more files never changes the paths already returned, so the paths come in input order. |
| FileService.SavedAt | API/Services/FileService.g.cs:47-74 | The files are saved one at a time: the first i+1 files are the first i plus one more pass of the loop. |
| FileService.SavedBlobsIgnoreUri | API/Services/FileService.g.cs:52-69 | The container URI plays no part in which blobs are written. |
| FileService.SavedKeysGrow | API/Services/FileService.g.cs:47-74 | Each file saved keeps every blob the earlier ones left. |
| FileService.StampedPathNotRechecked | API/Services/FileService.g.cs:56-58 | A file whose plain and timestamped paths are both taken still goes to the timestamped path, replacing that blob. |
| FileService.RelativePath | API/Services/FileService.g.cs:90 | The blob name taken from a path never holds "/{container}/". |
| FileService.RelativePathUnmarked | API/Services/FileService.g.cs:90 | A path without "/{container}/" is used as the blob name itself. |
| FileService.RelativePathAfter | API/Services/FileService.g.cs:90 | After the first "/{container}/", the blob name runs up to the next one. |
| FileService.RelativePathOfSaved | API/Services/FileService.g.cs:90 | The path that SaveFiles returns leads back to the blob it saved. This needs a URI ending in "/{container}" and neither the URI nor the blob name holding "/{container}/". |
| FileService.RelativePathDropsSecondPart | API/Services/FileService.g.cs:90 | Text after a second "/{container}/" is dropped. |
| FileService.DeleteStatuses | API/Services/FileService.g.cs:86-96 | There is one status per path, in order. A status is true exactly when its blob was stored and no earlier path of the batch named it. |
| FileService.BlobContainer.SaveFiles | API/Services/FileService.g.cs:43-77 | Returns the paths of `Saved` and leaves the container holding its blobs. |
| FileService.BlobContainer.DeleteFiles | API/Services/FileService.g.cs:84-97 | Returns the statuses of `DeleteStatuses`. Exactly the named blobs are gone. |
| Guids.GuidTextShape | API/Services/FileService.g.cs:52 | A tenant's folder name is 36 characters: hyphens at positions 8, 13, 18 and 23, hexadecimal digits elsewhere, and no "/". |
| Guids.GuidTextInjective | API/Services/FileService.g.cs:52 | Distinct tenants have distinct folder names. |
| TemplateAdd.GetDefaultValue | ClientApp/src/app/template/template-add/template-add.component.ts:94-106 | Returns null exactly for numeric, guid, date and datetime, and false exactly for boolean, all ignoring case. Returns '' for every other type. |
| TemplateAdd.FieldValidators | ClientApp/src/app/template/template-add/template-add.component.ts:151-169 | The required validator is present exactly when `required` is boolean true or a string equal to "true" ignoring case. A pattern validator is present exactly for numeric fields. There is no other validator, and the required validator comes first. |
| TemplateAdd.ParseInt | ClientApp/src/app/template/template-add/template-add.component.ts:163 | `parseInt` is NaN exactly when, after leading white space and one sign, no decimal digit follows. |
| TemplateAdd.ParseIntOfNumber | ClientApp/src/app/template/template-add/template-add.component.ts:163 | `parseInt` reads a number back from its text, after any leading white space and before any text that does not start with a digit: the value is that of the digit run, with its sign. |
| TemplateAdd.UnscaledNumericAccepts | ClientApp/src/app/template/template-add/template-add.component.ts:166-168 | Without a scale, the pattern accepts exactly an optional "-" followed by digits. |
| TemplateAdd.ScaledNumericAccepts | ClientApp/src/app/template/template-add/template-add.component.ts:162-165 | With a scale that reads as n >= 0, the pattern accepts exactly an integer, optionally followed by "." and n digits or fewer. |
| TemplateAdd.UnreadableScaleAccepts | ClientApp/src/app/template/template-add/template-add.component.ts:162-165 | A scale that reads as NaN or a negative number leaves the braces literal. A fraction is then one digit followed by that brace text. |
| TemplateAdd.ZeroScales | ClientApp/src/app/template/template-add/template-add.component.ts:162-168 | The number 0 is no scale, so a digit and a point fail. A truthy scale that reads as 0, such as "0", lets a digit and a bare point pass. |
| TemplateAdd.SearchControlName | ClientApp/src/app/template/template-add/template-add.component.ts:179 | The search control's name has no "." and ends with "_search". It is the field name plus "_search" when the field name has no point. |
| TemplateAdd.AddControlKeeps | ClientApp/src/app/template/template-add/template-add.component.ts:177 | Adding a control keeps every control there was, in its place. The set of names grows by the name. |
| TemplateAdd.InitLeafEffect | ClientApp/src/app/template/template-add/template-add.component.ts:149-183 | A field adds its own control, plus a search control if it is a guid field. A guid field gets an empty option list when it had none. The existing controls and options are kept. |
| TemplateAdd.InitFieldEffect | ClientApp/src/app/template/template-add/template-add.component.ts:145-185 | For one entry at any depth, only adds happen. Existing controls stay in place. The new names are exactly the controls the entry asks for. `fieldOptions` gains a list for each guid field that had none. |
| TemplateAdd.InitFieldsEffect | ClientApp/src/app/template/template-add/template-add.component.ts:143-186 | The same for a whole layout. Containers add no control themselves; their entries do. |
| TemplateAdd.InitFieldShape | ClientApp/src/app/template/template-add/template-add.component.ts:151-159 | Every entry, at any depth, is left with `required` true or false exactly as the required test judged it. |
| TemplateAdd.InitFieldsShape | ClientApp/src/app/template/template-add/template-add.component.ts:143-186 | The same for a whole layout, entry by entry. |
| TemplateAdd.ContainerTestIsCaseSensitive | ClientApp/src/app/template/template-add/template-add.component.ts:146 | "Section" with a capital letter is not a container and gets a control of its own. "section" recurses into its entries. |
| TemplateAdd.FlattenKeepsRecord | ClientApp/src/app/template/template-add/template-add.component.ts:189 | Every key of the record stays. Its value stays too, unless a flattened name coincides with it. |
| TemplateAdd.FlattenAddsNested | ClientApp/src/app/template/template-add/template-add.component.ts:191-202 | `key.nestedKey` is added for each own property of an object value. When no two flattened names coincide, it holds the nested value. |
| TemplateAdd.FlattenOnlyOneLevel | ClientApp/src/app/template/template-add/template-add.component.ts:188-205 | The keys of the result are exactly the record's keys and the one-level flattened names. |
| TemplateAdd.InsertPath | ClientApp/src/app/template/template-add/template-add.component.ts:221-230 | The reduce succeeds exactly when no step meets a truthy primitive. It then stores the value at the path, and leaves every other head untouched. |
| TemplateAdd.StepStores | ClientApp/src/app/template/template-add/template-add.component.ts:212-230 | One key stores its value at its dotted path and leaves every other head alone. |
| TemplateAdd.StepDotless | ClientApp/src/app/template/template-add/template-add.component.ts:212-223 | A key without a point is copied as it is, into the next place. |
| TemplateAdd.UnflattenDotless | ClientApp/src/app/template/template-add/template-add.component.ts:207-235 | An object without dotted keys is copied unchanged. |
| TemplateAdd.UnflattenStores | ClientApp/src/app/template/template-add/template-add.component.ts:207-235 | A key's value is found at its dotted path, provided no later key shares its head. |
| TemplateAdd.StepSeeds | ClientApp/src/app/template/template-add/template-add.component.ts:213-220 | A key `p.q` whose head holds nothing truthy replaces the head with an object of TenantId, then Id, then q. |
| TemplateAdd.UnflattenSeedsStub | ClientApp/src/app/template/template-add/template-add.component.ts:213-220 | The first dotted key with head p seeds p with TenantId and an Id, then stores q. When editing, the Id is the record's `p.split('_')[0]` property; when adding, it is a new UUID. |
| TemplateAdd.UnflattenBlockedByPrimitive | ClientApp/src/app/template/template-add/template-add.component.ts:225-229 | A head that already holds a truthy primitive makes a dotted key below it a TypeError. |
| TemplateAdd.UnflattenReplacesFalsy | ClientApp/src/app/template/template-add/template-add.component.ts:213-220 | A head holding a falsy value, such as '', is replaced by the seeded object. |
| TemplateAdd.UnflattenFailureSticks | ClientApp/src/app/template/template-add/template-add.component.ts:210-232 | Once a key throws, the whole call throws the same error. |
| TemplateAdd.PatchOps | ClientApp/src/app/template/template-add/template-add.component.ts:65 | The operations sent are exactly those of `compare` whose path has no "." and does not end with "_search". |
| TemplateAdd.PatchOpsInOrder | ClientApp/src/app/template/template-add/template-add.component.ts:65 | The filter keeps `compare`'s order: when `compare` returns a then b, the sent operations of a come before those of b. |
| TemplateAdd.PatchOpsMultiplicity | ClientApp/src/app/template/template-add/template-add.component.ts:65 | A sendable operation is sent as many times as `compare` lists it; any other is never sent. |
| TemplateAdd.PatchOpsAllSent | ClientApp/src/app/template/template-add/template-add.component.ts:65 | When every operation is sendable, `compare`'s list is sent unchanged. |
| Seqs.FilterAppend | ClientApp/src/app/template/template-add/template-add.component.ts:65 | `filter` of a concatenation is the concatenation of the filters. |
| Seqs.FilterMultiplicity | ClientApp/src/app/template/template-add/template-add.component.ts:65 | A kept element occurs as often in the filter as in the input; any other, never. |
| TemplateAdd.TemplateAddComponent.InitializeForm | ClientApp/src/app/template/template-add/template-add.component.ts:143-186 | The controls, the options and the normalised entries are those of `InitFields`. Nothing else changes. |
| TemplateAdd.TemplateAddComponent.InitializeEntry | ClientApp/src/app/template/template-add/template-add.component.ts:145-185 | One entry of the forEach, as `InitField`. |
| TemplateAdd.TemplateAddComponent.InitializeLeaf | ClientApp/src/app/template/template-add/template-add.component.ts:149-183 | A non-container entry, as `InitLeaf`. The `required` it leaves is the required test's verdict. |
| TemplateAdd.TemplateAddComponent.PushValidators | ClientApp/src/app/template/template-add/template-add.component.ts:150-169 | Pushes the validators of `FieldValidators` and returns the required verdict. |
| TemplateAdd.TemplateAddComponent.FlattenObject | ClientApp/src/app/template/template-add/template-add.component.ts:188-205 | Returns `Flattened(record)`. |
| TemplateAdd.TemplateAddComponent.UnflattenObject | ClientApp/src/app/template/template-add/template-add.component.ts:207-235 | Returns `Unflattened` of the form value, with the record and id of the component. |
| TemplateAdd.TemplateAddComponent.UnflattenKey | ClientApp/src/app/template/template-add/template-add.component.ts:211-230 | One key of the for-in loop, as `UnflattenStep`. |
| TemplateAdd.TemplateAddComponent.OnSubmit | ClientApp/src/app/template/template-add/template-add.component.ts:56-80 | An invalid form makes no call. If unflattening throws, that error is the outcome and no call is made. Otherwise an edit sets Id to the route id and patches with the filtered operations only, and an add sends the data. |
| Js.Set | ClientApp/src/app/template/template-add/template-add.component.ts:198 | Assigning `o[k] = v` makes `o[k]` read v and keeps every other property. An existing name keeps its place, and a new name goes last (no key there looks like an array index). |
| Js.SetTwice | ClientApp/src/app/template/template-add/template-add.component.ts:223 | A second assignment to a name overrides the first in the same place. |
| Patterns.IntegerMatches | ClientApp/src/app/template/template-add/template-add.component.ts:167 | `^-?\d+$` accepts exactly an optional "-" followed by decimal digits. |
| Patterns.WithFractionMatches | ClientApp/src/app/template/template-add/template-add.component.ts:164 | `-?[0-9]+(\.F){0,1}` accepts an integer, or an integer, ".", and text F accepts. |
| Patterns.DigitsRepeat | ClientApp/src/app/template/template-add/template-add.component.ts:164 | `[0-9]{min,max}` accepts exactly digit strings of a length between min and max. |

## Left out

- Which properties are navigations is given by each service's caller (`references` of `NewService`), not read from the entity classes. The exact messages of EF's translation error and of SQL Server's offset error are shortened. EF's save failures (`DuplicateKeyError`, `ConcurrencyError`, `KeyModifiedError`) carry their full texts, with SQL Server's two errors joined by `Environment.NewLine` as on Linux ("\n"; Windows has "\r\n"). The primary-key text assumes the tables were created under EF's naming: table `dbo.<entity>`, constraint `PK_<entity>`.
- EntityService.ResolveProperty takes the first property matching ignoring case. .NET throws AmbiguousMatchException when two names match that way; the model does not.
- Failures of `JsonPatchDocument.ApplyTo` (a bad path or value) are left out: the parameter always yields a row.
- A response that has already started when `HandleExceptionAsync` sets its status and headers is left out; the model always writes them.
- Foreign-key failures of `SaveChangesAsync` on Delete are left out: removing a row referenced elsewhere succeeds in the model.
- Entity Framework and SQL are left out. `IncludeRelated`, `FilterService.ApplyFilter` and `FieldMapperService.MapToFields` are parameters: an enumeration order, a predicate and a mapper. Of the SQL translation of the query, only two refusals are modelled: an order over a navigation property and a negative offset. EF change tracking is not modelled beyond what `Update` and `Remove` do to the table.
- Entity columns are a generic payload. The sort key maps a row and a property name to an integer. `OrderBy` over other comparable values (strings, dates, nulls) is that abstraction. SQL's ORDER BY leaves rows with equal keys in no defined order; the model picks one allowed order, store order. The Patient and Location entity classes are not part of this model.
- `JsonPatchDocument.ApplyTo` (RFC 6902) and `fast-json-patch`'s `compare` are function parameters. The changes `ApplyTo` could make to a related row loaded by Patient's include are not modelled.
- The controllers, the startup and DI configuration, the database context, logging (NLog) and async/await are left out. The middleware returns the text it would log.
- `ErrorDetails.ToString` (JSON serialisation) is left out: the response body is the error object itself.
- Azure Blob Storage calls are left out (`DownloadContentAsync`, `UploadAsync`, `DeleteIfExistsAsync`, stream copying, content types). The container is a map from blob names to files. A failed download probe is taken to mean the blob is absent.
- `WebUtility.UrlEncode` and URI escaping are left out. Names are used verbatim.
- `DateTime.Now`, `crypto.randomUUID` and `Guid.NewGuid` become parameters: `now(i)`, `newId(n)` and the generated key.
- Int32s.TryParseInt: culture-specific signs and trailing NUL characters, which `int.TryParse` also accepts, are left out. The white space it skips is the ASCII set that .NET's default style allows.
- Int32s.TryParseInt has no `ensures` of its own. `ParseFormatted`, `ParseIgnoresWhite`, `ParseNeedsDigits` and `ParseRefusesOverflow` state what it does.
- Text.Lower: case-insensitive comparison (`OrdinalIgnoreCase`, `toLowerCase`) folds ASCII letters only. Non-ASCII case mappings are left out.
- TemplateAdd.ParseInt: `parseInt` without a radix reads "0x" text as hexadecimal, which the model does not. Its white-space set is ASCII only, leaving out non-ASCII spaces, no-break space and the byte-order mark.
- Js: objects list their properties in insertion order. JavaScript enumerates keys that look like array indices ("0", "17") first, in numeric order; the keys in the modelled code are field names, which never look like that.
- TemplateAdd.UnscaledNumericAccepts and TemplateAdd.ScaledNumericAccepts state what the pattern accepts. Angular's `Validators.pattern` does not test an empty value (null or ''), which always passes.
- ExceptionFormatter: each line ends with "\n", `Environment.NewLine` on Linux. On Windows it is "\r\n".
- In the client model, JavaScript numbers are integers. Floating point, NaN as a value, arrays, Date objects and inherited (prototype) properties are left out.
- The date conversion in `initializeForm` (`Date.parse` of date and datetime fields) is left out.
- Some client plumbing is left out: `formValidation` focus handling, `getRecord`, `getLayout` and `getOptions` (`patchValue`), subscriptions, the dialog and the success alert. `formValidation`'s answer and the token's tenant id are parameters of `OnSubmit`.
- TemplateAdd.TemplateAddComponent.InitializeForm: the source normalises `field.required` in place on the layout objects. The model returns the normalised entries instead, so aliasing between layout objects is not captured.
- The record not yet loaded is the empty object. The source starts from `null` (template-add.component.ts:30), and the spread `{ ...this.record }` in `onSubmit` (line 64) reads `null` as `{}`. The source indexes the record (line 215) only when editing, after it is loaded.
- TemplateAdd.UnflattenStores: it states the stored value only for a key whose head no later key shares. A later key with the same head may extend or replace that value, which this lemma does not track.
- FileService.SavedStored: it states the stored blob only when no later file of the batch took the same blob name, since a later upload then replaces it.
