/**
 * The rest of `main`: parse the date, scan the log, select and print the
 * most active cookies, or report why not.
 */
module Command {
  import opened Options
  import opened Dates
  import opened LogScanner
  import opened MaxSelector
  import opened Arguments

  /** How a run of the program ends. */
  datatype Outcome =
    | Usage                          // the usage message
    | InvalidDate                    // the invalid-date message
    | ReadError(reason: string)      // the read-error message with the exception's reason
    | Crash(text: string)            // the timestamp parse exception escapes `main`
    | Printed(cookies: seq<string>)  // the cookies printed, one per line, in this order

  /** `main`. `LocalDate.parse` is `parseDate`; opening and reading the file is
      `readLog`, which gives its lines already split, or the reason it failed. */
  method RunCommand(
    args: seq<string>,
    parseDate: string -> Option<Date>,
    readLog: string -> Result<seq<Line>, string>,
    stamp: StampParser
  ) returns (out: Outcome)
    ensures FlagValue(args, "-f").None? || FlagValue(args, "-d").None? ==> out == Usage
    ensures FlagValue(args, "-f").Some? && FlagValue(args, "-d").Some? ==>
      match parseDate(FlagValue(args, "-d").value)
      case None => out == InvalidDate
      case Some(date) =>
        match readLog(FlagValue(args, "-f").value)
        case Failure(reason) => out == ReadError(reason)
        case Success(lines) =>
          match Scan(lines, date, stamp)
          case BadTimestamp(text) => out == Crash(text)
          case Counts(counts) =>
            && out.Printed?
            && (forall i, j :: 0 <= i < j < |out.cookies| ==> out.cookies[i] != out.cookies[j])
            && (forall c :: c in out.cookies <==> c in Winners(counts))
  {
    var invocation := ParseArgs(args);
    if invocation.None? {
      return Usage;
    }
    var filename, dateStr := invocation.value.filename, invocation.value.dateText;
    var date := parseDate(dateStr);
    if date.None? {
      return InvalidDate;
    }
    var contents := readLog(filename);
    if contents.Failure? {
      return ReadError(contents.error);
    }
    var cookieCount := ProcessLogFile(contents.value, date.value, stamp);
    if cookieCount.BadTimestamp? {
      return Crash(cookieCount.text);
    }
    var cookies := MostActiveCookies(cookieCount.counts);
    return Printed(cookies);
  }
}
