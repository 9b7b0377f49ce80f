/**
 * The early exit of the log scanner against logs whose records carry
 * different UTC offsets.
 *
 * The scanner compares the calendar date as written in each timestamp (the
 * offset is dropped by `toLocalDate()`), but the `break` is justified by the
 * log being sorted by timestamp, that is, by instant. When offsets differ, a
 * log sorted newest-first by instant need not be in descending order of the
 * dates as written, and the `break` then loses target-date records.
 */
module Findings {
  import opened Options
  import opened Dates
  import opened LogScanner

  /** An ISO 8601 offset date-time: the local date, the local minute of the
      day, and the offset from UTC in minutes. */
  datatype OffsetDateTime = OffsetDateTime(date: Date, minuteOfDay: int, offset: int)

  /** Days from 1970-01-01 to a date of the proleptic Gregorian calendar. */
  function DayNumber(d: Date): int
  {
    var y := if d.month <= 2 then d.year - 1 else d.year;
    var era := y / 400;
    var yearOfEra := y - era * 400;
    var shiftedMonth := (d.month + 9) % 12;
    var dayOfYear := (153 * shiftedMonth + 2) / 5 + d.day - 1;
    var dayOfEra := yearOfEra * 365 + yearOfEra / 4 - yearOfEra / 100 + dayOfYear;
    era * 146097 + dayOfEra - 719468
  }

  /** The instant of an offset date-time, in minutes since the epoch. */
  function EpochMinute(t: OffsetDateTime): int
  {
    DayNumber(t.date) * 1440 + t.minuteOfDay - t.offset
  }

  /** Newest first by instant: the order "sorted by timestamp" means. */
  predicate NewestFirst(times: seq<OffsetDateTime>)
  {
    forall i, j :: 0 <= i < j < |times| ==> EpochMinute(times[j]) <= EpochMinute(times[i])
  }

  const LateUtc := OffsetDateTime(Date(2018, 12, 8), 23 * 60, 0)
  const EarlyPlusTwo := OffsetDateTime(Date(2018, 12, 9), 30, 120)

  /** `LocalDateTime.parse(text, ISO_OFFSET_DATE_TIME)` on the two texts of
      the log below. */
  function ParseOffsetStamp(text: string): Option<OffsetDateTime>
  {
    if text == "2018-12-08T23:00:00+00:00" then Some(LateUtc)
    else if text == "2018-12-09T00:30:00+02:00" then Some(EarlyPlusTwo)
    else None
  }

  /** The scanner's timestamp parser: the date as written, offset dropped. */
  function LocalDateStamp(text: string): Option<Date>
  {
    match ParseOffsetStamp(text)
    case None => None
    case Some(t) => Some(t.date)
  }

  const MixedOffsetLog: seq<Line> := [
    ["A", "2018-12-08T23:00:00+00:00"],
    ["B", "2018-12-09T00:30:00+02:00"]
  ]

  /** The log is newest first by instant (23:00Z, then 22:30Z), yet it is not
      descending by the dates as written, and with target 2018-12-09 the scan
      breaks at the first line and returns no counts although the log holds
      one record of that date. */
  lemma MixedOffsetsLoseRecords()
    ensures NewestFirst([LateUtc, EarlyPlusTwo])
    ensures !Descending(MixedOffsetLog, LocalDateStamp)
    ensures Scan(MixedOffsetLog, Date(2018, 12, 9), LocalDateStamp) == Counts(map[])
    ensures TallyOf(MixedOffsetLog, Date(2018, 12, 9), LocalDateStamp) == map["B" := 1]
  {
    assert EpochMinute(EarlyPlusTwo) == EpochMinute(LateUtc) - 30;
    var target := Date(2018, 12, 9);
    var first, second := MixedOffsetLog[0], MixedOffsetLog[1];
    assert Trim(first[0]) == "A" && Trim(first[1]) == first[1];
    assert Trim(second[0]) == "B" && Trim(second[1]) == second[1];
    assert DateOf(first, LocalDateStamp) == Some(Date(2018, 12, 8));
    assert DateOf(second, LocalDateStamp) == Some(target);
    var steps := Steps(MixedOffsetLog, target, LocalDateStamp);
    assert steps == [Stop, Count("B")];
    HaltIs(steps, 0);
    assert steps[..0] == [];
    assert steps[1..] == [Count("B")] && [Count("B")][1..] == [];
    assert Matching([Count("B")]) == ["B"];
    assert Matching(steps) == ["B"];
    assert ["B"][..0] == [];
  }
}
