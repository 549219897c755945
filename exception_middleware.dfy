/**
 * The middleware that turns an exception escaping a request into a JSON error
 * response: the catch clause chooses a status, a message of the form
 * `error_NNN_...` overrides it, and the body carries the message and the inner
 * exception's message.
 */
module ExceptionMiddleware {
  import opened Wrappers
  import opened Text
  import opened Numerals
  import opened Exceptions
  import opened Int32s
  import Models
  import ExceptionFormatter
  import EntityService
  import Guids

  const Found: Int32 := 302
  const Unauthorized: Int32 := 401
  const NotAcceptable: Int32 := 406
  const Conflict: Int32 := 409
  const InternalServerError: Int32 := 500

  /**
   * The status the first matching catch clause of `InvokeAsync` passes on. The clauses,
   * in order, catch FieldAccessException, ValidationException, UnauthorizedAccessException,
   * ArgumentException and Exception, each with every type derived from it.
   */
  function CatchStatus(t: ExceptionType): (status: Int32)
    ensures status in {Unauthorized, NotAcceptable, Conflict, InternalServerError}
    ensures status == Conflict <==> IsA(t, FieldAccessName)
    ensures status == Unauthorized <==>
      !IsA(t, FieldAccessName) && !IsA(t, ValidationName) && IsA(t, UnauthorizedAccessName)
    ensures status == NotAcceptable <==>
      !IsA(t, FieldAccessName) && (IsA(t, ValidationName) || (!IsA(t, UnauthorizedAccessName) && IsArgumentException(t)))
  {
    if IsA(t, FieldAccessName) then Conflict
    else if IsA(t, ValidationName) then NotAcceptable
    else if IsA(t, UnauthorizedAccessName) then Unauthorized
    else if IsArgumentException(t) then NotAcceptable
    else InternalServerError
  }

  /** Any type derived from ArgumentException, and from none of the earlier clauses' types, gets 406. */
  lemma ArgumentSubclassAnswers406(t: ExceptionType)
    requires ArgumentName in t.bases
    requires !IsA(t, FieldAccessName) && !IsA(t, ValidationName) && !IsA(t, UnauthorizedAccessName)
    ensures CatchStatus(t) == NotAcceptable
  {
  }

  /** The statuses of the exception types the catch clauses name, and of ArgumentException's subclasses. */
  lemma CaughtTypesStatus()
    ensures CatchStatus(FieldAccess) == Conflict
    ensures CatchStatus(Validation) == NotAcceptable
    ensures CatchStatus(UnauthorizedAccess) == Unauthorized
    ensures CatchStatus(Argument) == NotAcceptable
    ensures CatchStatus(ArgumentNull) == NotAcceptable
    ensures CatchStatus(ArgumentOutOfRange) == NotAcceptable
  {
  }

  /** The other exception types the services and the framework throw reach the last clause. */
  lemma UncaughtTypesStatus()
    ensures CatchStatus(Application) == InternalServerError
    ensures CatchStatus(NullReference) == InternalServerError
    ensures CatchStatus(InvalidOperation) == InternalServerError
    ensures CatchStatus(DbUpdate) == InternalServerError
    ensures CatchStatus(DbUpdateConcurrency) == InternalServerError
    ensures CatchStatus(SqlError) == InternalServerError
  {
  }

  /**
   * The status a message asks for: when it contains "error_", the second of the
   * parts it splits into at every "_", if that part is an int.
   */
  function CustomCode(message: string): Option<Int32> {
    if Contains(message, "error_") then
      var errorMsg := Split(message, '_');
      if |errorMsg| > 1 then TryParseInt(errorMsg[1]) else None
    else None
  }

  /** `ErrorResponse(statusCode, ex)`. */
  function ErrorResponse(statusCode: Int32, ex: Exception): (r: Models.ErrorDetails)
    ensures r.Error.Message == ex.message
    ensures ex.inner.Some? ==> r.Error.InnerExceptionMessage == ex.inner.value.message
    ensures ex.inner.None? ==> r.Error.InnerExceptionMessage == ""
    ensures CustomCode(ex.message).None? ==> r.Error.StatusCode == statusCode
    ensures CustomCode(ex.message).Some? ==> r.Error.StatusCode == CustomCode(ex.message).value
  {
    var errorobject := Models.NewErrorDetails;
    var errorobject := if ex.inner.Some? then errorobject.(Error := errorobject.Error.(InnerExceptionMessage := ex.inner.value.message))
                       else errorobject;
    match CustomCode(ex.message)
    case Some(code) => errorobject.(Error := errorobject.Error.(StatusCode := code, Message := ex.message))
    case None => errorobject.(Error := errorobject.Error.(StatusCode := statusCode, Message := ex.message))
  }

  /** The part of an int's text never holds "_". */
  lemma NoUnderscoreInNumber(c: Int32)
    ensures '_' !in IntToString(c)
  {
    var m: nat := if c < 0 then -(c as int) else c;
    var d := NatToString(m);
    assert forall k :: 0 <= k < |d| ==> IsDigitIn(d[k], 10);
    if c < 0 {
      assert IntToString(c) == "-" + d;
    }
  }

  /** The documented format: "error_", the code, "_" and any text. */
  lemma CustomCodeOfMarkedMessage(c: Int32, rest: string)
    ensures CustomCode("error_" + IntToString(c) + "_" + rest) == Some(c)
  {
    var message := "error_" + IntToString(c) + "_" + rest;
    assert OccursAt(message, "error_", 0);
    NoUnderscoreInNumber(c);
    assert message == "error" + ['_'] + (IntToString(c) + ['_'] + rest);
    SplitAfterHead("error", '_', IntToString(c) + ['_'] + rest);
    SplitAfterHead(IntToString(c), '_', rest);
    ParseFormatted(c);
  }

  /** The code needs no text after it, and it is not range-checked: any int is taken. */
  lemma CustomCodeOfBareMarker(c: Int32)
    ensures CustomCode("error_" + IntToString(c)) == Some(c)
  {
    var digits := IntToString(c);
    var message := "error_" + digits;
    assert OccursAt(message, "error_", 0);
    assert Contains(message, "error_");
    NoUnderscoreInNumber(c);
    assert message == "error" + ['_'] + digits;
    SplitAfterHead("error", '_', digits);
    SplitWithoutSeparator(digits, '_');
    assert Split(message, '_') == ["error", digits];
    ParseFormatted(c);
  }

  /**
   * The split is over the whole message: with anything before "error_", the second
   * part is "error", so the message is not custom.
   */
  lemma PrefixedMarkerNotCustom(p: string, rest: string)
    requires '_' !in p
    ensures CustomCode(p + "_error_" + rest) == None
  {
    var message := p + "_error_" + rest;
    assert message == p + ['_'] + ("error" + ['_'] + rest);
    SplitAfterHead(p, '_', "error" + ['_'] + rest);
    SplitAfterHead("error", '_', rest);
    ParseNeedsDigits("error");
  }

  /** Nor need the marker lead: a number in second place counts wherever "error_" occurs. */
  lemma MarkerAnywhere(p: string, c: Int32, rest: string)
    requires '_' !in p
    ensures CustomCode(p + "_" + IntToString(c) + "_error_" + rest) == Some(c)
  {
    NoUnderscoreInNumber(c);
    MarkerAfterNumber(p, IntToString(c), rest);
    SecondPart(p, IntToString(c), rest);
    ParseFormatted(c);
  }

  lemma MarkerAfterNumber(p: string, x: string, rest: string)
    ensures Contains(p + "_" + x + "_error_" + rest, "error_")
  {
    var message := p + "_" + x + "_error_" + rest;
    var k := |p| + 1 + |x| + 1;
    assert message[k..k + 6] == "error_";
    assert OccursAt(message, "error_", k);
  }

  lemma SecondPart(p: string, x: string, rest: string)
    requires '_' !in p && '_' !in x
    ensures var parts := Split(p + "_" + x + "_error_" + rest, '_');
            |parts| > 1 && parts[1] == x
  {
    var message := p + "_" + x + "_error_" + rest;
    assert message == p + ['_'] + (x + ['_'] + ("error_" + rest));
    SplitAfterHead(p, '_', x + ['_'] + ("error_" + rest));
    SplitAfterHead(x, '_', "error_" + rest);
  }

  /** A message without "_" keeps the status of its catch clause. */
  lemma NoUnderscoreNotCustom(message: string)
    requires '_' !in message
    ensures CustomCode(message) == None
  {
    forall i | 0 <= i && i + 6 <= |message| ensures !OccursAt(message, "error_", i) {
      assert message[i..i + 6][5] == message[i + 5];
    }
    assert !Contains(message, "error_");
  }

  /** The services' own errors ("Page size invalid!", "No data found!", ...) are answered with 500. */
  lemma ServiceErrorsAnswer500(message: string)
    requires '_' !in message
    ensures ErrorResponse(CatchStatus(Application), ApplicationError(message)).Error.StatusCode == InternalServerError
  {
    var ex := ApplicationError(message);
    assert ex.message == message;
    NoUnderscoreNotCustom(message);
    UncaughtTypesStatus();
  }

  /**
   * The store's refusals, an order over a navigation that cannot be translated and a
   * negative offset, reach the last catch clause: unless their message holds
   * "error_", they are answered with 500.
   */
  lemma StoreFailuresAnswer500(message: string)
    requires !Contains(message, "error_")
    ensures ErrorResponse(CatchStatus(InvalidOperation), Raise(InvalidOperation, message)).Error.StatusCode == InternalServerError
    ensures ErrorResponse(CatchStatus(SqlError), Raise(SqlError, message)).Error.StatusCode == InternalServerError
  {
    UncaughtTypesStatus();
  }

  /**
   * A duplicate key refused by SQL Server: the body carries EF's message and, as the
   * inner message, SQL Server's text.
   */
  lemma DuplicateKeyAnswered<F>(e: EntityService.EntityType<F>, key: Guids.Guid, statusCode: Int32)
    ensures var ex := EntityService.DuplicateKeyError(e, key);
      && ErrorResponse(statusCode, ex).Error.Message == EntityService.DuplicateKeyMessage
      && ErrorResponse(statusCode, ex).Error.InnerExceptionMessage == EntityService.PrimaryKeyViolation(e.name, key)
  {
    var ex := EntityService.DuplicateKeyError(e, key);
    assert ex.inner.value.message == EntityService.PrimaryKeyViolation(e.name, key);
  }

  /** The log of a duplicate key ends with both exceptions of the chain, EF's first. */
  lemma DuplicateKeyLogged<F>(e: EntityService.EntityType<F>, key: Guids.Guid)
    ensures var lines := ExceptionFormatter.LogLines(EntityService.DuplicateKeyError(e, key));
      && |lines| == 11
      && lines[7..] ==
           [ExceptionFormatter.InnerPrefix + EntityService.DuplicateKeyMessage, ExceptionFormatter.InnerPrefix + FullName(DbUpdate),
            ExceptionFormatter.InnerPrefix + EntityService.PrimaryKeyViolation(e.name, key), ExceptionFormatter.InnerPrefix + FullName(SqlError)]
  {
    var ex := EntityService.DuplicateKeyError(e, key);
    var sql := Raise(SqlError, EntityService.PrimaryKeyViolation(e.name, key));
    var tail := ExceptionFormatter.InnerLines(Some(sql));
    assert sql.inner.None? && ExceptionFormatter.InnerLines(sql.inner) == [];
    assert tail == [ExceptionFormatter.InnerPrefix + sql.message, ExceptionFormatter.InnerPrefix + FullName(sql.kind)];
    var chain := ExceptionFormatter.InnerLines(Some(ex));
    assert chain == [ExceptionFormatter.InnerPrefix + ex.message, ExceptionFormatter.InnerPrefix + FullName(ex.kind)] + tail;
    assert |ExceptionFormatter.HeaderLines(ex)| == 7;
  }

  /**
   * An unknown sort field makes `Expression.Property` throw an ArgumentException, which
   * is answered with 406 when neither the field nor the entity's name holds "_".
   */
  lemma UnknownSortFieldAnswers406<F>(e: EntityService.EntityType<F>, name: string)
    requires '_' !in name && '_' !in e.name
    ensures var ex := EntityService.PropertyNotDefined(e, name);
            ErrorResponse(CatchStatus(ex.kind), ex).Error.StatusCode == NotAcceptable
  {
    var ex := EntityService.PropertyNotDefined(e, name);
    assert '_' !in EntityService.NotDefinedPrefix && '_' !in EntityService.NotDefinedMiddle;
    assert '_' !in EntityService.NotDefinedSuffix && '_' !in EntityService.TypeName(e);
    assert '_' !in ex.message;
    NoUnderscoreNotCustom(ex.message);
  }

  /** An uncustomised, uncaught-type error carries what `ErrorMessage` would build for its status. */
  lemma ErrorResponseAgreesWithErrorMessage(statusCode: Int32, kind: ExceptionType, message: string)
    requires CustomCode(message).None?
    ensures ErrorResponse(statusCode, Raise(kind, message)) == ExceptionFormatter.ErrorMessage(message, statusCode)
  {
  }

  /** The part of `HttpContext.Response` the middleware sets; the body is the error object sent. */
  class HttpResponse {
    var StatusCode: int
    var ContentType: string
    var Body: seq<Models.ErrorDetails>

    constructor ()
      ensures StatusCode == 200 && ContentType == "" && Body == []
    {
      StatusCode := 200;
      ContentType := "";
      Body := [];
    }
  }

  /**
   * `HandleExceptionAsync(context, exception, statusCode)`: 302 is answered with the bare
   * message; any other status goes through `ErrorResponse`, whose status is the response's.
   */
  method HandleException(response: HttpResponse, exception: Exception, statusCode: Int32 := InternalServerError)
    modifies response
    ensures response.ContentType == "application/json"
    ensures statusCode == Found ==>
      response.StatusCode == Found &&
      response.Body == old(response.Body) + [Models.ErrorDetails(Models.ErrorMessage(Found, exception.message, ""))]
    ensures statusCode != Found ==>
      response.StatusCode == ErrorResponse(statusCode, exception).Error.StatusCode &&
      response.Body == old(response.Body) + [ErrorResponse(statusCode, exception)]
  {
    response.ContentType := "application/json";
    var errorobject := Models.NewErrorDetails;
    if statusCode == Found {
      response.StatusCode := statusCode;
      errorobject := errorobject.(Error := errorobject.Error.(StatusCode := statusCode));
      errorobject := errorobject.(Error := errorobject.Error.(Message := exception.message));
    } else {
      errorobject := ErrorResponse(statusCode, exception);
      response.StatusCode := errorobject.Error.StatusCode;
    }
    response.Body := response.Body + [errorobject];
  }

  /**
   * `InvokeAsync(httpContext)`, given what the rest of the pipeline threw: nothing, or an
   * exception, which is logged and answered with the status of its catch clause unless
   * its message names one.
   */
  method InvokeAsync(thrown: Option<Exception>, response: HttpResponse) returns (logged: Option<string>)
    modifies response
    ensures thrown.None? ==> logged.None? && unchanged(response)
    ensures thrown.Some? ==>
      var ex := thrown.value;
      && logged == Some(ExceptionFormatter.Render(ExceptionFormatter.LogLines(ex)))
      && response.ContentType == "application/json"
      && response.StatusCode == ErrorResponse(CatchStatus(ex.kind), ex).Error.StatusCode
      && response.Body == old(response.Body) + [ErrorResponse(CatchStatus(ex.kind), ex)]
  {
    if thrown.None? {
      return None;
    }
    var ex := thrown.value;
    var text := ExceptionFormatter.SerializeToString(ex);
    logged := Some(text);
    HandleException(response, ex, CatchStatus(ex.kind));
  }
}
