/**
 * The five-line log the unit tests use, and the tests' scenarios stated as
 * lemmas about the specification and as callers of the methods.
 */
module Samples {
  import opened Options
  import opened Dates
  import opened LogScanner
  import opened MaxSelector
  import opened Arguments
  import opened Command

  const First := "AtY0laUfhglK3lC7"
  const Second := "SAZuXPGUrfbcn5UA"
  const Third := "4sMM2LxV07bPJzwf"

  /** The sample log, newest record first, each line split at its comma. */
  const SampleLog: seq<Line> := [
    [First, "2018-12-09T14:19:00+00:00"],
    [Second, "2018-12-09T10:13:00+00:00"],
    [First, "2018-12-09T06:19:00+00:00"],
    [Second, "2018-12-08T22:03:00+00:00"],
    [Third, "2018-12-08T21:30:00+00:00"]
  ]

  /** The calendar dates the ISO offset date-time parser gives the sample's
      timestamps; every other text is treated as unparseable. */
  function SampleStamp(text: string): Option<Date>
  {
    if text in {"2018-12-09T14:19:00+00:00", "2018-12-09T10:13:00+00:00", "2018-12-09T06:19:00+00:00"} then
      Some(Date(2018, 12, 9))
    else if text in {"2018-12-08T22:03:00+00:00", "2018-12-08T21:30:00+00:00"} then
      Some(Date(2018, 12, 8))
    else
      None
  }

  /** `LocalDate.parse` on the date texts the tests use. */
  function SampleDate(text: string): Option<Date>
  {
    if text == "2018-12-09" then Some(Date(2018, 12, 9))
    else if text == "2018-12-10" then Some(Date(2018, 12, 10))
    else None
  }

  /** The file system of the tests: one readable log file. */
  function SampleFiles(name: string): Result<seq<Line>, string>
  {
    if name == "test-log.csv" then Success(SampleLog) else Failure(name + " (No such file or directory)")
  }

  lemma SampleFieldsTrimmed()
    ensures forall i, k :: 0 <= i < |SampleLog| && 0 <= k < 2 ==> Trim(SampleLog[i][k]) == SampleLog[i][k]
  {
    forall s | s in [First, Second, Third, "2018-12-09T14:19:00+00:00", "2018-12-09T10:13:00+00:00",
                     "2018-12-09T06:19:00+00:00", "2018-12-08T22:03:00+00:00", "2018-12-08T21:30:00+00:00"]
      ensures Trim(s) == s
    {
      assert !IsBlank(s[0]) && !IsBlank(s[|s| - 1]);
    }
  }

  /** On the sample log, target 2018-12-09: the first cookie twice, the second
      once, and the scan stops at the first record of 2018-12-08. */
  lemma SampleScanCountsTargetDay()
    ensures Halt(Steps(SampleLog, Date(2018, 12, 9), SampleStamp)) == 3
    ensures Scan(SampleLog, Date(2018, 12, 9), SampleStamp) == Counts(map[First := 2, Second := 1])
  {
    var steps := Steps(SampleLog, Date(2018, 12, 9), SampleStamp);
    SampleFieldsTrimmed();
    assert steps[0] == Count(First) && steps[1] == Count(Second) && steps[2] == Count(First);
    assert steps[3] == Stop;
    HaltIs(steps, 3);
    var prefix := steps[..3];
    assert prefix == [Count(First), Count(Second), Count(First)];
    SampleTally();
  }

  /** The tally of the first three sample steps. */
  lemma SampleTally()
    ensures Tally(Matching([Count(First), Count(Second), Count(First)])) == map[First := 2, Second := 1]
  {
    var steps := [Count(First), Count(Second), Count(First)];
    assert steps[1..] == [Count(Second), Count(First)] && steps[1..][1..] == [Count(First)];
    assert Matching([Count(First)]) == [First];
    assert Matching(steps[1..]) == [Second, First];
    assert Matching(steps) == [First, Second, First];
    var cookies := [First, Second, First];
    assert First != Second;
    assert cookies[..2] == [First, Second] && [First, Second][..1] == [First];
    assert Tally([First]) == map[First := 1];
    assert Tally([First, Second]) == map[First := 1, Second := 1];
  }

  /** On the sample log, target 2018-12-10: the first record is already
      earlier, so the scan stops at once with an empty mapping. */
  lemma SampleScanNoMatches()
    ensures Halt(Steps(SampleLog, Date(2018, 12, 10), SampleStamp)) == 0
    ensures Scan(SampleLog, Date(2018, 12, 10), SampleStamp) == Counts(map[])
  {
    var steps := Steps(SampleLog, Date(2018, 12, 10), SampleStamp);
    SampleFieldsTrimmed();
    assert steps[0] == Stop;
    HaltIs(steps, 0);
    assert Matching(steps[..0]) == [];
  }

  /** The counts {first: 2, second: 1} have one winner. */
  lemma OneMostActiveCookie()
    ensures Winners(map[First := 2, Second := 1]) == {First}
  {
    var counts := map[First := 2, Second := 1];
    assert First != Second;
    WinnersAreMaximal(counts);
    assert First in Winners(counts);
  }

  /** The counts {first: 2, second: 2} have two winners. */
  lemma MultipleMostActiveCookies()
    ensures Winners(map[First := 2, Second := 2]) == {First, Second}
  {
    var counts := map[First := 2, Second := 2];
    WinnersAreMaximal(counts);
    assert First in Winners(counts) && Second in Winners(counts);
  }

  /** A sequence without repetitions is as long as its set of members. */
  lemma {:induction false} DistinctLength(s: seq<string>, members: set<string>)
    requires forall i, j :: 0 <= i < j < |s| ==> s[i] != s[j]
    requires forall d :: d in s <==> d in members
    ensures |s| == |members|
  {
    if s == [] {
      assert members == {};
    } else {
      var t := s[1..];
      assert s == [s[0]] + t;
      forall j | 0 <= j < |t| ensures t[j] != s[0] {
        assert t[j] == s[j + 1];
      }
      assert forall d :: d in t <==> d in members - {s[0]};
      DistinctLength(t, members - {s[0]});
    }
  }

  /** A sequence without repetitions whose elements are exactly `c` is `[c]`. */
  lemma OnlyElement(s: seq<string>, c: string)
    requires forall i, j :: 0 <= i < j < |s| ==> s[i] != s[j]
    requires forall d :: d in s <==> d == c
    ensures s == [c]
  {
    DistinctLength(s, {c});
    assert s[0] in s;
  }

  /** `processLogFile` on the sample log returns the expected mapping. */
  method ProcessSampleLog() returns (r: ScanResult)
    ensures r == Counts(map[First := 2, Second := 1])
  {
    r := ProcessLogFile(SampleLog, Date(2018, 12, 9), SampleStamp);
    SampleScanCountsTargetDay();
  }

  /** `mostActiveCookies` with one winner returns it alone. */
  method SelectOneMostActive() returns (cookies: seq<string>)
    ensures cookies == [First]
  {
    cookies := MostActiveCookies(map[First := 2, Second := 1]);
    OneMostActiveCookie();
    OnlyElement(cookies, First);
  }

  /** `mostActiveCookies` with a tie returns both, in some order. */
  method SelectTiedMostActive() returns (cookies: seq<string>)
    ensures |cookies| == 2 && (cookies == [First, Second] || cookies == [Second, First])
  {
    cookies := MostActiveCookies(map[First := 2, Second := 2]);
    MultipleMostActiveCookies();
    assert First in cookies && Second in cookies && First != Second;
    DistinctLength(cookies, {First, Second});
    assert cookies[0] in cookies && cookies[1] in cookies;
  }

  /** The arguments `-f file -d date` give both values, unless the file name
      is itself `-f`. */
  lemma TwoFlagArguments(file: string, date: string)
    requires file != "-f"
    ensures FlagValue(["-f", file, "-d", date], "-f") == Some(file)
    ensures FlagValue(["-f", file, "-d", date], "-d") == Some(date)
  {
    var args := ["-f", file, "-d", date];
    assert args[..3] == ["-f", file, "-d"] && args[..3][..2] == ["-f", file];
    assert FlagValue(["-f", file], "-f") == Some(file);
    assert FlagValue(["-f", file, "-d"], "-f") == Some(file);
  }

  /** `main` with `-f` and no `-d` prints the usage message. */
  method RunWithoutDate() returns (out: Outcome)
    ensures out == Usage
  {
    out := RunCommand(["-f", "cookie_log.csv"], SampleDate, SampleFiles, SampleStamp);
  }

  /** `main` with an unparseable date prints the invalid-date message. */
  method RunWithInvalidDate() returns (out: Outcome)
    ensures out == InvalidDate
  {
    out := RunCommand(["-f", "test-log.csv", "-d", "invalidDate"], SampleDate, SampleFiles, SampleStamp);
    TwoFlagArguments("test-log.csv", "invalidDate");
  }

  /** `main` on a file that does not exist prints the read error. */
  method RunWithMissingFile() returns (out: Outcome)
    ensures out == ReadError("none" + " (No such file or directory)")
  {
    out := RunCommand(["-f", "none", "-d", "2018-12-09"], SampleDate, SampleFiles, SampleStamp);
    TwoFlagArguments("none", "2018-12-09");
    assert SampleDate("2018-12-09") == Some(Date(2018, 12, 9));
  }

  /** `main` on a date with no records prints nothing. */
  method RunWithNoMatchingEntries() returns (out: Outcome)
    ensures out == Printed([])
  {
    out := RunCommand(["-f", "test-log.csv", "-d", "2018-12-10"], SampleDate, SampleFiles, SampleStamp);
    TwoFlagArguments("test-log.csv", "2018-12-10");
    assert SampleDate("2018-12-10") == Some(Date(2018, 12, 10));
    assert SampleFiles("test-log.csv") == Success(SampleLog);
    SampleScanNoMatches();
    assert Winners(map[]) == {};
    DistinctLength(out.cookies, {});
  }

  /** `main` on the sample log and 2018-12-09 prints the one winner. */
  method RunOnSampleLog() returns (out: Outcome)
    ensures out == Printed([First])
  {
    out := RunCommand(["-f", "test-log.csv", "-d", "2018-12-09"], SampleDate, SampleFiles, SampleStamp);
    TwoFlagArguments("test-log.csv", "2018-12-09");
    assert SampleDate("2018-12-09") == Some(Date(2018, 12, 9));
    assert SampleFiles("test-log.csv") == Success(SampleLog);
    SampleScanCountsTargetDay();
    OneMostActiveCookie();
    OnlyElement(out.cookies, First);
  }
}
