/**
 * The text the middleware logs for an exception, and the error records built for
 * callers. The log is written line by line into a string writer; `LogLines` is the
 * sequence of lines it ends up holding.
 */
module ExceptionFormatter {
  import opened Wrappers
  import opened Text
  import opened Exceptions
  import opened Int32s
  import opened Seqs
  import Models

  /** `ErrorMessage(error, status)`: an error record for the text, with status 400 unless given. */
  function ErrorMessage(error: string, status: Int32 := 400): (r: Models.ErrorDetails)
    ensures r.Error.Message == error && r.Error.StatusCode == status && r.Error.InnerExceptionMessage == ""
  {
    var errorobject := Models.NewErrorDetails;
    errorobject.(Error := errorobject.Error.(Message := error, StatusCode := status))
  }

  /** The line terminator `WriteLine` appends (`Environment.NewLine` on Linux). */
  const NewLine := "\n"

  /** A `StringWriter`: the text written so far. */
  class StringWriter {
    var text: string

    constructor ()
      ensures text == ""
    {
      text := "";
    }

    method WriteLine(line: string)
      modifies this
      ensures text == old(text) + line + NewLine
    {
      text := text + line + NewLine;
    }
  }

  /** The text of lines each written with `WriteLine`. */
  function Render(lines: seq<string>): string {
    if lines == [] then "" else lines[0] + NewLine + Render(lines[1..])
  }

  lemma {:induction false} RenderAppend(a: seq<string>, b: seq<string>)
    ensures Render(a + b) == Render(a) + Render(b)
  {
    if a != [] {
      RenderAppend(a[1..], b);
      assert (a + b)[1..] == a[1..] + b;
    } else {
      assert a + b == b;
    }
  }

  lemma {:induction false} RenderIsJoin(lines: seq<string>)
    ensures Render(lines) == Join(lines + [""], '\n')
  {
    if lines != [] {
      RenderIsJoin(lines[1..]);
      assert (lines + [""])[1..] == lines[1..] + [""];
    }
  }

  /** A log whose lines hold no line break reads back as those lines, then an empty remainder. */
  lemma RenderSplit(lines: seq<string>)
    requires forall k :: 0 <= k < |lines| ==> '\n' !in lines[k]
    ensures Split(Render(lines), '\n') == lines + [""]
  {
    RenderIsJoin(lines);
    SplitJoin(lines + [""], '\n');
  }

  /** The exception and the exceptions it wraps, outermost first. */
  function Chain(e: Exception): (c: seq<Exception>)
    ensures |c| >= 1 && c[0] == e
    decreases e
  {
    [e] + (if e.inner.Some? then Chain(e.inner.value) else [])
  }

  /** Each exception of the chain wraps the next, and the last wraps nothing. */
  lemma {:induction false} ChainLinks(e: Exception)
    ensures forall k :: 0 <= k < |Chain(e)| - 1 ==> Chain(e)[k].inner == Some(Chain(e)[k + 1])
    ensures Chain(e)[|Chain(e)| - 1].inner.None?
    decreases e
  {
    if e.inner.Some? {
      ChainLinks(e.inner.value);
    }
  }

  /** What each line of the exception chain starts with. */
  const InnerPrefix := "Inner Exception: "

  /** The lines `SerializeInnerException(e, writer)` writes. */
  function InnerLines(e: Option<Exception>): seq<string>
    decreases e
  {
    match e
    case None => []
    case Some(x) => [InnerPrefix + x.message, InnerPrefix + FullName(x.kind)] + InnerLines(x.inner)
  }

  /** Two lines per exception of the chain: its message, then its type. */
  lemma InnerLinesChain(e: Exception)
    ensures |InnerLines(Some(e))| == 2 * |Chain(e)|
    ensures forall k :: 0 <= k < |Chain(e)| ==>
      && InnerLines(Some(e))[2 * k] == InnerPrefix + Chain(e)[k].message
      && InnerLines(Some(e))[2 * k + 1] == InnerPrefix + FullName(Chain(e)[k].kind)
  {
    InnerLinesLength(e);
    forall k | 0 <= k < |Chain(e)|
      ensures InnerLines(Some(e))[2 * k] == InnerPrefix + Chain(e)[k].message
      ensures InnerLines(Some(e))[2 * k + 1] == InnerPrefix + FullName(Chain(e)[k].kind)
    {
      InnerLinesAt(e, k);
    }
  }

  lemma {:induction false} InnerLinesLength(e: Exception)
    ensures |InnerLines(Some(e))| == 2 * |Chain(e)|
    decreases e
  {
    if e.inner.Some? {
      InnerLinesLength(e.inner.value);
    }
  }

  lemma {:induction false} InnerLinesAt(e: Exception, k: nat)
    requires k < |Chain(e)|
    ensures 2 * k + 1 < |InnerLines(Some(e))|
    ensures InnerLines(Some(e))[2 * k] == InnerPrefix + Chain(e)[k].message
    ensures InnerLines(Some(e))[2 * k + 1] == InnerPrefix + FullName(Chain(e)[k].kind)
    decreases k
  {
    InnerLinesLength(e);
    var head := [InnerPrefix + e.message, InnerPrefix + FullName(e.kind)];
    var rest := InnerLines(e.inner);
    assert InnerLines(Some(e)) == head + rest;
    if k == 0 {
      assert (head + rest)[0] == head[0] && (head + rest)[1] == head[1];
    } else {
      var x := e.inner.value;
      InnerLinesAt(x, k - 1);
      assert Chain(e) == [e] + Chain(x);
      assert Chain(e)[k] == Chain(x)[k - 1];
      assert (head + rest)[2 * k] == rest[2 * (k - 1)];
      assert (head + rest)[2 * k + 1] == rest[2 * (k - 1) + 1];
    }
  }

  /** `methodBase.ToString()`, or "" without a throw site. */
  function SourceMethod(ex: Exception): (r: string)
    ensures ex.targetSite.None? ==> r == ""
    ensures ex.targetSite.Some? ==> r == ex.targetSite.value.signature
  {
    match ex.targetSite
    case None => ""
    case Some(site) => site.signature
  }

  /** The declaring type's assembly-qualified name, or "" without a throw site or a declaring type. */
  function SourceType(ex: Exception): (r: string)
    ensures ex.targetSite.None? || ex.targetSite.value.declaringType.None? ==> r == ""
    ensures ex.targetSite.Some? && ex.targetSite.value.declaringType.Some? ==> r == ex.targetSite.value.declaringType.value
  {
    match ex.targetSite
    case None => ""
    case Some(site) => if site.declaringType.None? then "" else site.declaringType.value
  }

  /** The lines `SerializeToString(exception)` writes before the chain. */
  function HeaderLines(ex: Exception): seq<string> {
    ["User: Anonymous",
     "Message: " + ex.message,
     "ExceptionType: " + FullName(ex.kind),
     "SourceType: " + SourceType(ex),
     "SourceMethod: " + SourceMethod(ex),
     "StackTrace:",
     ex.stackTrace]
  }

  /** The lines `SerializeToString(exception)` writes. */
  function LogLines(ex: Exception): seq<string> {
    HeaderLines(ex) + InnerLines(Some(ex))
  }

  /**
   * The log layout: six header lines and the stack trace, then two lines for each
   * exception of the chain, starting with the logged exception itself.
   */
  lemma LogLayout(ex: Exception)
    ensures var lines := LogLines(ex);
      && |lines| == 7 + 2 * |Chain(ex)|
      && lines[0] == "User: Anonymous"
      && lines[1] == "Message: " + ex.message
      && lines[2] == "ExceptionType: " + FullName(ex.kind)
      && lines[3] == "SourceType: " + SourceType(ex)
      && lines[4] == "SourceMethod: " + SourceMethod(ex)
      && lines[5] == "StackTrace:"
      && lines[6] == ex.stackTrace
      && lines[7] == InnerPrefix + ex.message
      && lines[8] == InnerPrefix + FullName(ex.kind)
      && forall k :: 0 <= k < |Chain(ex)| ==>
           lines[7 + 2 * k] == InnerPrefix + Chain(ex)[k].message &&
           lines[8 + 2 * k] == InnerPrefix + FullName(Chain(ex)[k].kind)
  {
    InnerLinesChain(ex);
  }

  lemma RenderLine(lines: seq<string>, line: string)
    ensures Render(lines + [line]) == Render(lines) + line + NewLine
  {
    RenderAppend(lines, [line]);
    assert Render([line]) == line + NewLine + Render([]);
  }

  lemma RenderTwo(first: string, second: string, rest: seq<string>)
    ensures Render([first, second] + rest) == first + NewLine + second + NewLine + Render(rest)
  {
    var lines := [first, second] + rest;
    assert lines[1..] == [second] + rest && lines[1..][1..] == rest;
  }

  /** `SerializeInnerException(e, writer)`: writes the chain from `e` inwards. */
  method SerializeInnerException(e: Option<Exception>, writer: StringWriter)
    modifies writer
    ensures writer.text == old(writer.text) + Render(InnerLines(e))
    decreases e
  {
    if e.Some? {
      var x := e.value;
      var first, second := InnerPrefix + x.message, InnerPrefix + FullName(x.kind);
      ghost var t0 := writer.text;
      writer.WriteLine(first);
      writer.WriteLine(second);
      SerializeInnerException(x.inner, writer);
      RenderTwo(first, second, InnerLines(x.inner));
      RegroupAfterFirst(t0, first, NewLine, second, NewLine, Render(InnerLines(x.inner)));
    }
  }

  /** `SerializeToString(exception)`: the text the middleware logs. */
  method SerializeToString(exception: Exception) returns (s: string)
    ensures s == Render(LogLines(exception))
  {
    var sourceMethod := "";
    var sourceType := "";
    if exception.targetSite.Some? {
      var methodBase := exception.targetSite.value;
      sourceMethod := methodBase.signature;
      sourceType := if methodBase.declaringType.None? then "" else methodBase.declaringType.value;
    }
    assert sourceType == SourceType(exception) && sourceMethod == SourceMethod(exception);
    var writer := new StringWriter();
    ghost var lines: seq<string> := [];
    writer.WriteLine("User: Anonymous");
    RenderLine(lines, "User: Anonymous");
    lines := lines + ["User: Anonymous"];
    writer.WriteLine("Message: " + exception.message);
    RenderLine(lines, "Message: " + exception.message);
    lines := lines + ["Message: " + exception.message];
    writer.WriteLine("ExceptionType: " + FullName(exception.kind));
    RenderLine(lines, "ExceptionType: " + FullName(exception.kind));
    lines := lines + ["ExceptionType: " + FullName(exception.kind)];
    writer.WriteLine("SourceType: " + sourceType);
    RenderLine(lines, "SourceType: " + sourceType);
    lines := lines + ["SourceType: " + sourceType];
    writer.WriteLine("SourceMethod: " + sourceMethod);
    RenderLine(lines, "SourceMethod: " + sourceMethod);
    lines := lines + ["SourceMethod: " + sourceMethod];
    writer.WriteLine("StackTrace:");
    RenderLine(lines, "StackTrace:");
    lines := lines + ["StackTrace:"];
    writer.WriteLine(exception.stackTrace);
    RenderLine(lines, exception.stackTrace);
    lines := lines + [exception.stackTrace];
    SevenElements("User: Anonymous", "Message: " + exception.message, "ExceptionType: " + FullName(exception.kind),
                  "SourceType: " + sourceType, "SourceMethod: " + sourceMethod, "StackTrace:", exception.stackTrace);
    assert lines == HeaderLines(exception);
    SerializeInnerException(Some(exception), writer);
    s := writer.text;
    RenderAppend(lines, InnerLines(Some(exception)));
  }
}
