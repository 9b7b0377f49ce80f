/**
 * The maximum selector of MostActiveCookie: the cookies whose count equals
 * the largest count in the mapping.
 */
module MaxSelector {

  /** The value `maxCount` reaches: the largest count, but never below the
      initial 0. */
  ghost function MaxCount(counts: map<string, int>): (r: int)
    ensures 0 <= r
    ensures forall c :: c in counts ==> counts[c] <= r
    ensures r == 0 || exists c :: c in counts && counts[c] == r
    decreases counts.Keys
  {
    if counts == map[] then 0
    else
      var c :| c in counts;
      var rest := MaxCount(counts - {c});
      assert forall d :: d in counts ==> d == c || d in counts - {c};
      if counts[c] > rest then counts[c] else rest
  }

  /** The cookies `mostActiveCookies` returns, as a set. */
  ghost function Winners(counts: map<string, int>): set<string>
  {
    set c | c in counts && counts[c] == MaxCount(counts)
  }

  /** `maxCount` is the largest value in `counts`, or 0 when that is larger. */
  ghost predicate IsMaxCount(counts: map<string, int>, keys: set<string>, maxCount: int)
    requires keys <= counts.Keys
  {
    && 0 <= maxCount
    && (forall c :: c in keys ==> counts[c] <= maxCount)
    && (maxCount == 0 || exists c :: c in keys && counts[c] == maxCount)
  }

  /** MaxCount is the only value with its three properties. */
  lemma MaxCountUnique(counts: map<string, int>, m: int)
    requires IsMaxCount(counts, counts.Keys, m)
    ensures m == MaxCount(counts)
  {
  }

  /** `mostActiveCookies`: a first pass finds `maxCount`, a second collects
      each cookie whose count equals it. The order of the keys is left to the
      choice of `c`, as HashMap iteration order is unspecified. */
  method MostActiveCookies(cookieCount: map<string, int>) returns (cookies: seq<string>)
    ensures forall i, j :: 0 <= i < j < |cookies| ==> cookies[i] != cookies[j]
    ensures forall c :: c in cookies <==> c in Winners(cookieCount)
  {
    var maxCount := 0;
    var unseen := cookieCount.Keys;
    while unseen != {}
      invariant unseen <= cookieCount.Keys
      invariant IsMaxCount(cookieCount, cookieCount.Keys - unseen, maxCount)
      decreases unseen
    {
      var c :| c in unseen;
      var count := cookieCount[c];
      if count > maxCount {
        maxCount := count;
      }
      unseen := unseen - {c};
    }
    MaxCountUnique(cookieCount, maxCount);

    cookies := [];
    unseen := cookieCount.Keys;
    while unseen != {}
      invariant unseen <= cookieCount.Keys
      invariant forall i, j :: 0 <= i < j < |cookies| ==> cookies[i] != cookies[j]
      invariant forall c :: c in cookies <==> c in cookieCount.Keys - unseen && cookieCount[c] == maxCount
      decreases unseen
    {
      var c :| c in unseen;
      if cookieCount[c] == maxCount {
        cookies := cookies + [c];
      }
      unseen := unseen - {c};
    }
  }

  /** For non-negative counts, as the scanner produces, the winners are exactly
      the keys with a count no other key exceeds, and there is one whenever the
      mapping is not empty. */
  lemma WinnersAreMaximal(counts: map<string, int>)
    requires forall c :: c in counts ==> counts[c] >= 0
    ensures forall c :: c in Winners(counts) <==> c in counts && forall d :: d in counts ==> counts[d] <= counts[c]
    ensures counts != map[] ==> Winners(counts) != {}
  {
    var m := MaxCount(counts);
    if counts != map[] {
      var w: string;
      if m == 0 {
        w :| w in counts;
      } else {
        w :| w in counts && counts[w] == m;
      }
      assert w in Winners(counts);
    }
  }

  /** Because `maxCount` starts at 0, a mapping whose counts are all negative
      has no winner at all. */
  lemma NegativeCountsNeverWin(counts: map<string, int>)
    requires forall c :: c in counts ==> counts[c] < 0
    ensures Winners(counts) == {}
  {
    assert MaxCount(counts) == 0;
  }
}
