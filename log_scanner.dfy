/**
 * The log scanner of MostActiveCookie: one pass over the log, newest record
 * first, counting the records of the target date per cookie and stopping at
 * the first record dated before the target.
 */
module LogScanner {
  import opened Options
  import opened Dates

  /** One log line, as the fields `line.split(",")` produced. */
  type Line = seq<string>

  /** The text parser for a timestamp field: `LocalDateTime.parse(text,
      ISO_OFFSET_DATE_TIME).toLocalDate()`, or None where that throws. */
  type StampParser = string -> Option<Date>

  /** The result of a scan: the count mapping, or the text of the timestamp
      whose parse failure aborted the scan. */
  datatype ScanResult = Counts(counts: map<string, nat>) | BadTimestamp(text: string)

  // ---------------------------------------------------------------------
  // String.trim
  // ---------------------------------------------------------------------

  /** The characters `String.trim` removes: every code point up to U+0020. */
  predicate IsBlank(c: char)
  {
    c <= ' '
  }

  /** Drops the leading blanks. */
  function TrimStart(s: string): string
  {
    if s != [] && IsBlank(s[0]) then TrimStart(s[1..]) else s
  }

  /** Drops the trailing blanks. */
  function TrimEnd(s: string): string
  {
    if s != [] && IsBlank(s[|s| - 1]) then TrimEnd(s[..|s| - 1]) else s
  }

  /** `String.trim`. */
  function Trim(s: string): string
  {
    TrimEnd(TrimStart(s))
  }

  lemma {:induction false} TrimStartRemovesLeadingBlanks(s: string)
    ensures var r := TrimStart(s);
      && |r| <= |s| && r == s[|s| - |r|..]
      && (forall i :: 0 <= i < |s| - |r| ==> IsBlank(s[i]))
      && (r == [] || !IsBlank(r[0]))
  {
    if s != [] && IsBlank(s[0]) {
      var t := s[1..];
      TrimStartRemovesLeadingBlanks(t);
      var r := TrimStart(t);
      assert TrimStart(s) == r;
      assert t[|t| - |r|..] == s[|s| - |r|..];
      forall i | 0 <= i < |s| - |r| ensures IsBlank(s[i]) {
        if i > 0 { assert s[i] == t[i - 1]; }
      }
    }
  }

  lemma {:induction false} TrimEndRemovesTrailingBlanks(s: string)
    ensures var r := TrimEnd(s);
      && |r| <= |s| && r == s[..|r|]
      && (forall i :: |r| <= i < |s| ==> IsBlank(s[i]))
      && (r == [] || !IsBlank(r[|r| - 1]))
  {
    if s != [] && IsBlank(s[|s| - 1]) {
      TrimEndRemovesTrailingBlanks(s[..|s| - 1]);
    }
  }

  /** `String.trim` removes the blanks at both ends and nothing else: the
      result is the part of `s` between a run of leading blanks and a run of
      trailing blanks, and it neither starts nor ends with a blank. */
  lemma TrimRemovesOuterBlanks(s: string)
    ensures var r, k := Trim(s), |s| - |TrimStart(s)|;
      && 0 <= k <= |s| - |r| && r == s[k..k + |r|]
      && (forall i :: 0 <= i < k ==> IsBlank(s[i]))
      && (forall i :: k + |r| <= i < |s| ==> IsBlank(s[i]))
    ensures Trim(s) == [] || (!IsBlank(Trim(s)[0]) && !IsBlank(Trim(s)[|Trim(s)| - 1]))
  {
    var t := TrimStart(s);
    TrimStartRemovesLeadingBlanks(s);
    var r := TrimEnd(t);
    TrimEndRemovesTrailingBlanks(t);
    var k := |s| - |t|;
    assert t == s[k..] && r == t[..|r|];
    assert r == s[k..k + |r|];
    forall i | k + |r| <= i < |s| ensures IsBlank(s[i]) {
      assert s[i] == t[i - k];
    }
    assert r != [] ==> r[0] == t[0];
  }

  // ---------------------------------------------------------------------
  // One line
  // ---------------------------------------------------------------------

  /** What the scan does with one line. */
  datatype Step =
    | Skip                  // wrong field count, or a record dated after the target
    | Count(cookie: string) // a record of the target date
    | Stop                  // a record dated before the target: the loop breaks
    | Abort(text: string)   // the timestamp does not parse: the exception escapes
  {
    predicate Halts()
    {
      Stop? || Abort?
    }
  }

  /** The calendar date of a two-field line, when its timestamp parses. */
  function DateOf(line: Line, stamp: StampParser): Option<Date>
  {
    if |line| == 2 then stamp(Trim(line[1])) else None
  }

  /** The body of the scan loop, applied to one line. */
  function Classify(line: Line, target: Date, stamp: StampParser): (step: Step)
    ensures step.Count? <==> |line| == 2 && stamp(Trim(line[1])) == Some(target)
    ensures step.Count? ==> step.cookie == Trim(line[0])
    ensures step == Stop <==> DateOf(line, stamp).Some? && Before(DateOf(line, stamp).value, target)
    ensures step.Abort? <==> |line| == 2 && stamp(Trim(line[1])).None?
    ensures step.Abort? ==> step.text == Trim(line[1])
  {
    if |line| != 2 then Skip
    else
      match stamp(Trim(line[1]))
      case None => Abort(Trim(line[1]))
      case Some(d) =>
        if d == target then Count(Trim(line[0]))
        else if Before(d, target) then Stop
        else Skip
  }

  // ---------------------------------------------------------------------
  // The scan, over the steps the loop body takes
  // ---------------------------------------------------------------------

  /** The step the loop body takes on each line. */
  function Steps(lines: seq<Line>, target: Date, stamp: StampParser): (steps: seq<Step>)
    ensures |steps| == |lines|
    ensures forall i :: 0 <= i < |lines| ==> steps[i] == Classify(lines[i], target, stamp)
  {
    seq(|lines|, i requires 0 <= i < |lines| => Classify(lines[i], target, stamp))
  }

  /** The index of the first step at which the scan halts, or `|steps|`. */
  function Halt(steps: seq<Step>): (h: nat)
    ensures h <= |steps|
    ensures forall i :: 0 <= i < h ==> !steps[i].Halts()
    ensures h < |steps| ==> steps[h].Halts()
  {
    if steps == [] then 0
    else if steps[0].Halts() then 0
    else 1 + Halt(steps[1..])
  }

  /** The cookies the steps count, in log order. */
  function Matching(steps: seq<Step>): seq<string>
  {
    if steps == [] then []
    else (if steps[0].Count? then [steps[0].cookie] else []) + Matching(steps[1..])
  }

  /** The count mapping of a sequence of cookies, built one occurrence at a
      time. `TallyCountsOccurrences` states what it is: each cookie that
      occurs, with its number of occurrences. */
  function Tally(cookies: seq<string>): map<string, nat>
  {
    if cookies == [] then map[]
    else
      var t, c := Tally(cookies[..|cookies| - 1]), cookies[|cookies| - 1];
      t[c := (if c in t then t[c] else 0) + 1]
  }

  /** The outcome of the loop over these steps: the tally of the steps before
      the first halting one, unless that one is an abort. */
  function Outcome(steps: seq<Step>): ScanResult
  {
    var h := Halt(steps);
    if h < |steps| && steps[h].Abort? then BadTimestamp(steps[h].text)
    else Counts(Tally(Matching(steps[..h])))
  }

  /** The full tally: per cookie, the number of target-date records in the
      whole log, with no early exit. */
  function TallyOf(lines: seq<Line>, target: Date, stamp: StampParser): map<string, nat>
  {
    Tally(Matching(Steps(lines, target, stamp)))
  }

  /** The outcome of `processLogFile` on `lines`. */
  function Scan(lines: seq<Line>, target: Date, stamp: StampParser): ScanResult
  {
    Outcome(Steps(lines, target, stamp))
  }

  /** The log is in descending date order, as far as its dates parse. */
  ghost predicate Descending(lines: seq<Line>, stamp: StampParser)
  {
    forall i, j :: 0 <= i < j < |lines| && DateOf(lines[i], stamp).Some? && DateOf(lines[j], stamp).Some? ==>
      !Before(DateOf(lines[i], stamp).value, DateOf(lines[j], stamp).value)
  }

  // ---------------------------------------------------------------------
  // The scan loop
  // ---------------------------------------------------------------------

  /** `processLogFile` on a log already read into memory. */
  method ProcessLogFile(lines: seq<Line>, target: Date, stamp: StampParser) returns (r: ScanResult)
    ensures r == Scan(lines, target, stamp)
  {
    ghost var steps := Steps(lines, target, stamp);
    var cookieCount: map<string, nat> := map[];
    var i := 0;
    while i < |lines|
      invariant i <= Halt(steps)
      invariant cookieCount == Tally(Matching(steps[..i]))
    {
      ghost var step := steps[i];
      assert step == Classify(lines[i], target, stamp);
      TallyStep(steps, i);
      var parts := lines[i];
      if |parts| == 2 {
        var cookie := Trim(parts[0]);
        var text := Trim(parts[1]);
        match stamp(text)
        case None =>
          assert step == Abort(text);
          HaltIs(steps, i);
          return BadTimestamp(text);
        case Some(date) =>
          if date == target {
            assert step == Count(cookie);
            cookieCount := cookieCount[cookie := (if cookie in cookieCount then cookieCount[cookie] else 0) + 1];
          } else if Before(date, target) {
            assert step == Stop;
            HaltIs(steps, i);
            break;
          } else {
            assert step == Skip;
          }
      } else {
        assert step == Skip;
      }
      i := i + 1;
    }
    return Counts(cookieCount);
  }

  // ---------------------------------------------------------------------
  // Lemmas about the steps
  // ---------------------------------------------------------------------

  lemma {:induction false} MatchingAppend(a: seq<Step>, b: seq<Step>)
    ensures Matching(a + b) == Matching(a) + Matching(b)
  {
    if a == [] {
      assert a + b == b;
    } else {
      assert (a + b)[1..] == a[1..] + b;
      MatchingAppend(a[1..], b);
    }
  }

  lemma {:induction false} MatchingMembers(steps: seq<Step>, c: string)
    requires c in Matching(steps)
    ensures exists i :: 0 <= i < |steps| && steps[i] == Count(c)
  {
    if steps[0] != Count(c) {
      MatchingMembers(steps[1..], c);
      var i :| 0 <= i < |steps[1..]| && steps[1..][i] == Count(c);
      assert steps[i + 1] == Count(c);
    }
  }

  lemma {:induction false} MatchingNone(steps: seq<Step>)
    requires forall i :: 0 <= i < |steps| ==> !steps[i].Count?
    ensures Matching(steps) == []
  {
    if steps != [] {
      assert !steps[0].Count?;
      MatchingNone(steps[1..]);
    }
  }

  /** Adding one occurrence of `c` raises its count by one, from 0 when absent. */
  lemma TallySnoc(cookies: seq<string>, c: string)
    ensures Tally(cookies + [c]) == Tally(cookies)[c := (if c in Tally(cookies) then Tally(cookies)[c] else 0) + 1]
  {
    assert (cookies + [c])[..|cookies|] == cookies;
  }

  /** The tally has a key for each cookie that occurs, mapped to its number of
      occurrences, and no other key. */
  lemma {:induction false} TallyCountsOccurrences(cookies: seq<string>)
    ensures forall c :: c in Tally(cookies) <==> c in multiset(cookies)
    ensures forall c :: c in Tally(cookies) ==> Tally(cookies)[c] == multiset(cookies)[c]
  {
    if cookies != [] {
      var p, last := cookies[..|cookies| - 1], cookies[|cookies| - 1];
      TallyCountsOccurrences(p);
      assert cookies == p + [last];
      assert multiset(cookies) == multiset(p) + multiset{last};
    }
  }

  /** One more step changes the tally exactly as the loop body does. */
  lemma TallyStep(steps: seq<Step>, i: nat)
    requires i < |steps|
    ensures var t := Tally(Matching(steps[..i]));
      Tally(Matching(steps[..i + 1])) ==
        match steps[i]
        case Count(c) => t[c := (if c in t then t[c] else 0) + 1]
        case _ => t
  {
    assert steps[..i + 1] == steps[..i] + [steps[i]];
    MatchingAppend(steps[..i], [steps[i]]);
    assert Matching([steps[i]]) == if steps[i].Count? then [steps[i].cookie] else [];
    if steps[i].Count? {
      TallySnoc(Matching(steps[..i]), steps[i].cookie);
    } else {
      assert Matching(steps[..i]) + [] == Matching(steps[..i]);
    }
  }

  /** Every key of the tally of some steps has a count of at least one and is
      the cookie of one of those steps; every step's counted cookie is a key. */
  lemma TallyWitnessed(steps: seq<Step>)
    ensures forall c :: c in Tally(Matching(steps)) ==>
      Tally(Matching(steps))[c] >= 1 && exists i :: 0 <= i < |steps| && steps[i] == Count(c)
    ensures forall i :: 0 <= i < |steps| && steps[i].Count? ==> steps[i].cookie in Tally(Matching(steps))
  {
    var cookies := Matching(steps);
    TallyCountsOccurrences(cookies);
    forall c | c in Tally(cookies) ensures exists i :: 0 <= i < |steps| && steps[i] == Count(c) {
      assert c in cookies;
      MatchingMembers(steps, c);
    }
    forall i | 0 <= i < |steps| && steps[i].Count? ensures steps[i].cookie in Tally(cookies) {
      MatchingHas(steps, i);
    }
  }

  lemma {:induction false} MatchingHas(steps: seq<Step>, i: nat)
    requires i < |steps| && steps[i].Count?
    ensures steps[i].cookie in Matching(steps)
  {
    if i > 0 {
      MatchingHas(steps[1..], i - 1);
      assert steps[1..][i - 1] == steps[i];
    }
  }

  /** Halt is determined by its contract. */
  lemma HaltIs(steps: seq<Step>, h: nat)
    requires h <= |steps|
    requires forall i :: 0 <= i < h ==> !steps[i].Halts()
    requires h < |steps| ==> steps[h].Halts()
    ensures Halt(steps) == h
  {
  }

  /** Where the scan of `a + b` halts: in `a` if it halts there, else in `b`. */
  lemma HaltAppend(a: seq<Step>, b: seq<Step>)
    ensures Halt(a + b) == if Halt(a) < |a| then Halt(a) else |a| + Halt(b)
  {
    var ha, hb := Halt(a), Halt(b);
    if ha < |a| {
      HaltIs(a + b, ha);
    } else {
      forall i | 0 <= i < |a| + hb ensures !(a + b)[i].Halts() {
        if i >= |a| { assert (a + b)[i] == b[i - |a|]; }
      }
      if hb < |b| { assert (a + b)[|a| + hb] == b[hb]; }
      HaltIs(a + b, |a| + hb);
    }
  }

  /** When the scan halts inside `a`, nothing after `a` matters. */
  lemma OutcomeInPrefix(a: seq<Step>, b: seq<Step>)
    requires Halt(a) < |a|
    ensures Outcome(a + b) == Outcome(a)
  {
    HaltAppend(a, b);
    var h := Halt(a);
    assert (a + b)[h] == a[h];
    assert (a + b)[..h] == a[..h];
  }

  /** When the scan runs through all of `a`, the outcome is that of `b`,
      with the cookies `a` counts added in front. */
  lemma OutcomeAfterPrefix(a: seq<Step>, b: seq<Step>)
    requires Halt(a) == |a|
    ensures Outcome(a + b) ==
      match Outcome(b)
      case BadTimestamp(t) => BadTimestamp(t)
      case Counts(_) => Counts(Tally(Matching(a) + Matching(b[..Halt(b)])))
  {
    var h := Halt(b);
    HaltAppend(a, b);
    assert Halt(a + b) == |a| + h;
    if h < |b| && b[h].Abort? {
      assert (a + b)[|a| + h] == b[h];
    } else {
      if h < |b| {
        assert (a + b)[|a| + h] == b[h];
      }
      assert (a + b)[..|a| + h] == a + b[..h];
      MatchingAppend(a, b[..h]);
    }
  }

  /** A skipped step can be removed without changing the outcome. */
  lemma OutcomeIgnoresSkip(pre: seq<Step>, post: seq<Step>)
    ensures Outcome(pre + [Skip] + post) == Outcome(pre + post)
  {
    if Halt(pre) < |pre| {
      OutcomeInPrefix(pre, [Skip] + post);
      OutcomeInPrefix(pre, post);
      assert pre + [Skip] + post == pre + ([Skip] + post);
    } else {
      var skipped := pre + [Skip];
      HaltAppend(pre, [Skip]);
      assert Halt([Skip]) == 1;
      assert Halt(skipped) == |skipped|;
      MatchingAppend(pre, [Skip]);
      assert Matching([Skip]) == [];
      assert Matching(skipped) == Matching(pre);
      OutcomeAfterPrefix(skipped, post);
      OutcomeAfterPrefix(pre, post);
    }
  }

  /** Nothing after a stop step matters. */
  lemma OutcomeEndsAtStop(pre: seq<Step>, post: seq<Step>)
    ensures Outcome(pre + [Stop] + post) == Outcome(pre + [Stop])
  {
    HaltAppend(pre, [Stop]);
    OutcomeInPrefix(pre + [Stop], post);
  }

  /** An abort step reached by the scan is its outcome. */
  lemma OutcomeAtAbort(pre: seq<Step>, text: string, post: seq<Step>)
    requires forall i :: 0 <= i < |pre| ==> !pre[i].Halts()
    ensures Outcome(pre + [Abort(text)] + post) == BadTimestamp(text)
  {
    var steps := pre + [Abort(text)] + post;
    forall i | 0 <= i < |pre| ensures !steps[i].Halts() {
      assert steps[i] == pre[i];
    }
    assert steps[|pre|] == Abort(text);
    HaltIs(steps, |pre|);
  }

  // ---------------------------------------------------------------------
  // Properties of the scan of a log
  // ---------------------------------------------------------------------

  /** The steps of a log are the steps of its parts. */
  lemma StepsAppend(a: seq<Line>, b: seq<Line>, target: Date, stamp: StampParser)
    ensures Steps(a + b, target, stamp) == Steps(a, target, stamp) + Steps(b, target, stamp)
  {
    var s, sa, sb := Steps(a + b, target, stamp), Steps(a, target, stamp), Steps(b, target, stamp);
    forall i | 0 <= i < |s| ensures s[i] == (sa + sb)[i] {
      if i < |a| { assert (a + b)[i] == a[i]; } else { assert (a + b)[i] == b[i - |a|]; }
    }
  }

  /** The steps of `pre + [l] + post`. */
  lemma StepsAround(pre: seq<Line>, l: Line, post: seq<Line>, target: Date, stamp: StampParser)
    ensures Steps(pre + [l] + post, target, stamp) ==
      Steps(pre, target, stamp) + [Classify(l, target, stamp)] + Steps(post, target, stamp)
    ensures Steps(pre + [l], target, stamp) == Steps(pre, target, stamp) + [Classify(l, target, stamp)]
    ensures Steps(pre + post, target, stamp) == Steps(pre, target, stamp) + Steps(post, target, stamp)
  {
    StepsAppend(pre + [l], post, target, stamp);
    StepsAppend(pre, [l], target, stamp);
    StepsAppend(pre, post, target, stamp);
  }

  /** Every key of the count mapping has a count of at least one and is the
      trimmed first field of a target-date record in the scanned prefix; every
      such record's cookie is a key. */
  lemma ScanCountsWitnessed(lines: seq<Line>, target: Date, stamp: StampParser, m: map<string, nat>)
    requires Scan(lines, target, stamp) == Counts(m)
    ensures forall c :: c in m ==> m[c] >= 1
    ensures forall c :: c in m ==>
      (exists i :: 0 <= i < Halt(Steps(lines, target, stamp)) &&
        |lines[i]| == 2 && Trim(lines[i][0]) == c && stamp(Trim(lines[i][1])) == Some(target))
    ensures forall i :: 0 <= i < Halt(Steps(lines, target, stamp)) ==>
      (|lines[i]| == 2 && stamp(Trim(lines[i][1])) == Some(target) ==> Trim(lines[i][0]) in m)
  {
    var steps := Steps(lines, target, stamp);
    var h := Halt(steps);
    var prefix := steps[..h];
    assert m == Tally(Matching(prefix));
    TallyWitnessed(prefix);
    forall c | c in m
      ensures exists i :: 0 <= i < h && |lines[i]| == 2 && Trim(lines[i][0]) == c && stamp(Trim(lines[i][1])) == Some(target)
    {
      var i :| 0 <= i < |prefix| && prefix[i] == Count(c);
      assert Classify(lines[i], target, stamp) == Count(c);
    }
    forall i | 0 <= i < h && |lines[i]| == 2 && stamp(Trim(lines[i][1])) == Some(target)
      ensures Trim(lines[i][0]) in m
    {
      assert prefix[i] == Count(Trim(lines[i][0]));
    }
  }

  /** A line that the loop body neither counts nor stops at can be removed
      without changing the outcome. */
  lemma SkippedLineIgnored(pre: seq<Line>, l: Line, post: seq<Line>, target: Date, stamp: StampParser)
    requires Classify(l, target, stamp) == Skip
    ensures Scan(pre + [l] + post, target, stamp) == Scan(pre + post, target, stamp)
  {
    StepsAround(pre, l, post, target, stamp);
    OutcomeIgnoresSkip(Steps(pre, target, stamp), Steps(post, target, stamp));
  }

  /** A line that does not split into exactly two fields changes nothing. */
  lemma MalformedLineIgnored(pre: seq<Line>, l: Line, post: seq<Line>, target: Date, stamp: StampParser)
    requires |l| != 2
    ensures Scan(pre + [l] + post, target, stamp) == Scan(pre + post, target, stamp)
  {
    SkippedLineIgnored(pre, l, post, target, stamp);
  }

  /** A record dated after the target changes nothing and does not stop the scan. */
  lemma LaterRecordIgnored(pre: seq<Line>, l: Line, post: seq<Line>, target: Date, stamp: StampParser)
    requires DateOf(l, stamp).Some? && Before(target, DateOf(l, stamp).value)
    ensures Scan(pre + [l] + post, target, stamp) == Scan(pre + post, target, stamp)
  {
    SkippedLineIgnored(pre, l, post, target, stamp);
  }

  /** A record dated before the target ends the scan: whatever follows it,
      even lines that would abort, contributes nothing. */
  lemma EarlierRecordStopsScan(pre: seq<Line>, l: Line, post: seq<Line>, target: Date, stamp: StampParser)
    requires DateOf(l, stamp).Some? && Before(DateOf(l, stamp).value, target)
    ensures Scan(pre + [l] + post, target, stamp) == Scan(pre + [l], target, stamp)
  {
    StepsAround(pre, l, post, target, stamp);
    OutcomeEndsAtStop(Steps(pre, target, stamp), Steps(post, target, stamp));
  }

  /** A two-field line whose timestamp does not parse, reached by the scan,
      aborts it with that timestamp's text. */
  lemma BadTimestampAborts(pre: seq<Line>, l: Line, post: seq<Line>, target: Date, stamp: StampParser)
    requires forall i :: 0 <= i < |pre| ==> !Classify(pre[i], target, stamp).Halts()
    requires |l| == 2 && stamp(Trim(l[1])).None?
    ensures Scan(pre + [l] + post, target, stamp) == BadTimestamp(Trim(l[1]))
  {
    StepsAround(pre, l, post, target, stamp);
    OutcomeAtAbort(Steps(pre, target, stamp), Trim(l[1]), Steps(post, target, stamp));
  }

  /** In a log in descending date order, no line after a record dated before
      the target is a target-date record. */
  lemma NothingMatchesAfterStop(lines: seq<Line>, h: nat, target: Date, stamp: StampParser)
    requires Descending(lines, stamp)
    requires h < |lines| && Classify(lines[h], target, stamp) == Stop
    ensures Matching(Steps(lines, target, stamp)[h..]) == []
  {
    var rest := Steps(lines, target, stamp)[h..];
    forall j | 0 <= j < |rest| ensures !rest[j].Count? {
      assert rest[j] == Classify(lines[h + j], target, stamp);
    }
    MatchingNone(rest);
  }

  /** The equivalence the early exit relies on: on a log in descending date
      order, the tally of the scanned prefix is the tally of the whole log,
      and when no timestamp fails to parse the scan returns that full tally. */
  lemma SortedScanIsFullTally(lines: seq<Line>, target: Date, stamp: StampParser)
    requires Descending(lines, stamp)
    ensures Scan(lines, target, stamp).Counts? ==> Scan(lines, target, stamp).counts == TallyOf(lines, target, stamp)
    ensures (forall i :: 0 <= i < |lines| && |lines[i]| == 2 ==> stamp(Trim(lines[i][1])).Some?) ==>
      Scan(lines, target, stamp) == Counts(TallyOf(lines, target, stamp))
  {
    var steps := Steps(lines, target, stamp);
    var h := Halt(steps);
    if h == |steps| {
      assert steps[..h] == steps;
    } else if steps[h] == Stop {
      NothingMatchesAfterStop(lines, h, target, stamp);
      assert steps == steps[..h] + steps[h..];
      MatchingAppend(steps[..h], steps[h..]);
      assert Matching(steps) == Matching(steps[..h]);
    } else {
      assert Classify(lines[h], target, stamp).Abort?;
    }
  }
}
