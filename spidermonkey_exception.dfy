/** The text of the host exception raised when an engine call fails, built
    from what the engine can say about its pending exception. */
module SpiderMonkeyException {
  import opened Common

  /** The parts of the engine's error report that reach the text. The line
      text is already converted to UTF-8; None is a null line buffer. */
  datatype ErrorReport = ErrorReport(filename: string, lineno: nat, linebuf: Option<string>, tokenOffset: nat)

  /** What the engine answers when asked about the failure: whether an
      exception is pending, whether its stack could be retrieved, whether the
      report builder could be initialised, the report (None when null), the
      report's message, and the rendered stack (None when the stack is null). */
  datatype EngineFailure = EngineFailure(
    pending: bool,
    stackOk: bool,
    reportOk: bool,
    report: Option<ErrorReport>,
    message: string,
    stack: Option<string>)

  const NO_EXCEPTION: string := "Spidermonkey failed, but spidermonkey did not set an exception."
  const NO_STACK: string := "Spidermonkey set an exception, but was unable to retrieve it."
  const NO_REPORT: string := "Spidermonkey set an exception, but could not initialize the error report."

  const STACK_HEADER: string := "Stack Trace: \n"

  /** The offending line as printed: empty for a null or empty line buffer. */
  function LineText(r: ErrorReport): string {
    match r.linebuf
    case Some(s) => s
    case None => ""
  }

  function Header(r: ErrorReport): string {
    "Error in file " + r.filename + ", on line " + Decimal(r.lineno) + ":\n"
  }

  /** The offending line and, below it, a caret under the token. */
  function CaretLines(r: ErrorReport): string {
    if |LineText(r)| > 0 then LineText(r) + "\n" + Spaces(r.tokenOffset) + "^\n" else ""
  }

  function ReportSection(report: Option<ErrorReport>): string {
    match report
    case Some(r) => Header(r) + CaretLines(r)
    case None => ""
  }

  function StackSection(stack: Option<string>): string {
    match stack
    case Some(s) => STACK_HEADER + s
    case None => ""
  }

  /** The text for a failure whose report could be built. */
  function Layout(f: EngineFailure): string {
    ReportSection(f.report) + f.message + "\n" + StackSection(f.stack)
  }

  /** setSpiderMonkeyException: three fixed messages for the failures that
      leave nothing to report, else the report built section by section. */
  method SetSpiderMonkeyException(f: EngineFailure) returns (text: string)
    ensures !f.pending ==> text == NO_EXCEPTION
    ensures f.pending && !f.stackOk ==> text == NO_STACK
    ensures f.pending && f.stackOk && !f.reportOk ==> text == NO_REPORT
    ensures f.pending && f.stackOk && f.reportOk ==> text == Layout(f)
  {
    if !f.pending {
      return NO_EXCEPTION;
    }
    if !f.stackOk {
      return NO_STACK;
    }
    if !f.reportOk {
      return NO_REPORT;
    }
    var out := "";
    if f.report.Some? {
      var r := f.report.value;
      var offsetSpaces := Spaces(r.tokenOffset);
      var linebuf := "";
      out := out + "Error in file " + r.filename + ", on line " + Decimal(r.lineno) + ":\n";
      assert out == Header(r);
      if r.linebuf.Some? {
        linebuf := r.linebuf.value;
      }
      assert linebuf == LineText(r);
      if |linebuf| > 0 {
        out := out + linebuf + "\n";
        out := out + offsetSpaces + "^\n";
        assert out == Header(r) + (linebuf + "\n" + offsetSpaces + "^\n");
      }
    }
    assert out == ReportSection(f.report);
    out := out + f.message + "\n";
    if f.stack.Some? {
      out := out + STACK_HEADER + f.stack.value;
    }
    assert out == ReportSection(f.report) + f.message + "\n" + StackSection(f.stack);
    text := out;
  }

  /** With a report, the text opens with the file and line header, the line
      number in decimal. */
  lemma HeaderFirst(f: EngineFailure)
    ensures f.report.Some? ==> Header(f.report.value) <= Layout(f)
    ensures f.report.None? ==> f.message + "\n" <= Layout(f)
  {
  }

  /** The caret sits in the column of the token: on the line after the
      offending line, tokenOffset spaces and then '^'. */
  lemma CaretColumn(f: EngineFailure)
    requires f.report.Some? && |LineText(f.report.value)| > 0
    ensures var r := f.report.value;
            var start := |Header(r)| + |LineText(r)| + 1;
            var text := Layout(f);
            start + r.tokenOffset + 1 < |text| &&
            text[start - 1] == '\n' &&
            text[|Header(r)|..start - 1] == LineText(r) &&
            (forall i :: start <= i < start + r.tokenOffset ==> text[i] == ' ') &&
            text[start + r.tokenOffset] == '^' &&
            text[start + r.tokenOffset + 1] == '\n'
  {
  }

  /** Without line text, no line and no caret: the header runs straight into
      the message. */
  lemma NoCaretWithoutLine(f: EngineFailure)
    requires f.report.Some? && |LineText(f.report.value)| == 0
    ensures Layout(f) == Header(f.report.value) + f.message + "\n" + StackSection(f.stack)
  {
  }

  /** The message and its newline come after the report section, with or
      without a report, and the stack section, when there is one, comes
      last and nothing follows it. */
  lemma MessageThenStack(f: EngineFailure)
    ensures var pre := ReportSection(f.report);
            var text := Layout(f);
            |pre| + |f.message| + 1 <= |text| &&
            text[..|pre|] == pre &&
            text[|pre|..|pre| + |f.message| + 1] == f.message + "\n" &&
            text[|pre| + |f.message| + 1..] == StackSection(f.stack)
  {
  }

  /** Something follows the message line exactly when the stack is present,
      and then it is the stack header and the stack; without a stack the text
      ends with the message line. */
  lemma StackLast(f: EngineFailure)
    ensures var text := Layout(f);
            var end := |ReportSection(f.report)| + |f.message| + 1;
            (f.stack.Some? <==> |text| > end) &&
            (f.stack.Some? ==> text[end..] == STACK_HEADER + f.stack.value) &&
            (f.stack.None? ==> text[|text| - |f.message| - 1..] == f.message + "\n")
  {
  }
}
