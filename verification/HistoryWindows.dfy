/**
 The history recovery scans closed orders in windows that go back from the recent past to a stop
 boundary. The validator of its summary fixes each window; this module shows what the windows add up
 to, and what a summary of high confidence is worth.

 Instants are milliseconds.
 */
module HistoryWindows {

  const MS_PER_DAY := 86400000
  const MAX_SAFE := 9007199254740991

  datatype Retention = Within | Beyond

  datatype Confidence = High | Partial

  datatype ConfidenceReason = ArchiveComplete | ArchiveInProgress | PageLimitReached | BeyondRetention

  datatype MarketSummary = MarketSummary(
    market: string,
    recentStartAt: int,
    recentEndAt: int,
    archivalStartAt: int,
    archivalEndAt: int,
    nextWindowEndAt: int,
    archiveComplete: bool,
    retention: Retention,
    confidence: Confidence,
    reason: ConfidenceReason,
    openTruncated: bool,
    recentTruncated: bool,
    archivalTruncated: bool,
    openPages: nat,
    recentPages: nat,
    archivalPages: nat,
    snapshotCount: nat)

  datatype Summary = Summary(
    lookbackDays: int,
    stopBeforeDays: int,
    stopBeforeAt: int,
    retentionDays: int,
    retentionBoundaryAt: int,
    retention: Retention,
    coverageComplete: bool,
    confidence: Confidence,
    reason: ConfidenceReason,
    failed: bool,
    scannedSnapshotCount: nat,
    recoveredOrderCount: nat,
    markets: seq<MarketSummary>)

  // ---------------------------------------------------------------------------------------------
  // One window
  // ---------------------------------------------------------------------------------------------

  /** The start of the window that ends at the given instant. */
  function WindowStart(end: int, lookback: int, stop: int): int {
    if end <= stop then end
    else if end - lookback > stop then end - lookback
    else stop
  }

  /** The windows of successive rounds, each as start and end. */
  function Windows(end: int, lookback: int, stop: int): seq<(int, int)>
    requires lookback > 0
    decreases if end > stop then end - stop else 0
  {
    if end <= stop then []
    else [(WindowStart(end, lookback, stop), end)] + Windows(WindowStart(end, lookback, stop), lookback, stop)
  }

  /** How many rounds are needed: the distance divided by the lookback, rounded up. */
  function Rounds(end: int, lookback: int, stop: int): int
    requires lookback > 0
  {
    if end <= stop then 0 else (end - stop + lookback - 1) / lookback
  }

  /** The quotient of a by b is the q whose multiple lies below a by less than b. */
  lemma QuotientIs(a: int, b: int, q: int)
    requires b > 0 && q * b <= a < q * b + b
    ensures a / b == q
  {
    var p := a / b;
    assert p * b <= a < p * b + b;
    assert (q + 1) * b == q * b + b && (p + 1) * b == p * b + b;
    if p > q {
      Multiples(q + 1, p, b);
      assert false;
    } else if q > p {
      Multiples(p + 1, q, b);
      assert false;
    }
  }

  lemma Multiples(x: int, y: int, b: int)
    requires x <= y && b > 0
    ensures x * b <= y * b
  {
  }

  lemma RoundStep(distance: int, lookback: int)
    requires distance > lookback > 0
    ensures (distance + lookback - 1) / lookback == 1 + (distance - 1) / lookback
  {
    var q := (distance - 1) / lookback;
    assert q * lookback <= distance - 1 < q * lookback + lookback;
    assert (q + 1) * lookback == q * lookback + lookback;
    QuotientIs(distance + lookback - 1, lookback, q + 1);
  }

  /** The windows join without gap or overlap from the first end down to the boundary, in as many rounds as stated. */
  lemma {:induction false} WindowsTile(end: int, lookback: int, stop: int)
    requires lookback > 0 && end >= stop
    ensures var ws := Windows(end, lookback, stop);
            |ws| == Rounds(end, lookback, stop) &&
            (ws == [] ==> end == stop) &&
            (ws != [] ==> ws[0].1 == end && ws[|ws| - 1].0 == stop) &&
            (forall i :: 0 <= i < |ws| ==> stop <= ws[i].0 < ws[i].1 <= end && ws[i].1 - ws[i].0 <= lookback) &&
            (forall i :: 0 < i < |ws| ==> ws[i].1 == ws[i - 1].0)
    decreases if end > stop then end - stop else 0
  {
    if end > stop {
      var start := WindowStart(end, lookback, stop);
      WindowsTile(start, lookback, stop);
      var rest := Windows(start, lookback, stop);
      assert Windows(end, lookback, stop) == [(start, end)] + rest;
      if end - lookback > stop { RoundStep(end - stop, lookback); } else { OneRound(end - stop, lookback); }
    }
  }

  lemma OneRound(distance: int, lookback: int)
    requires 0 < distance <= lookback
    ensures (distance + lookback - 1) / lookback == 1
  {
    QuotientIs(distance + lookback - 1, lookback, 1);
  }

  /** How many windows contain an instant. */
  function Containing(ws: seq<(int, int)>, at: int): nat {
    if ws == [] then 0 else (if ws[0].0 <= at < ws[0].1 then 1 else 0) + Containing(ws[1..], at)
  }

  /** Every instant between the boundary and the first end lies in exactly one window, and no other in any. */
  lemma {:induction false} EveryInstantOnce(end: int, lookback: int, stop: int, at: int)
    requires lookback > 0
    ensures Containing(Windows(end, lookback, stop), at) == if stop <= at < end then 1 else 0
    decreases if end > stop then end - stop else 0
  {
    if end > stop {
      var start := WindowStart(end, lookback, stop);
      EveryInstantOnce(start, lookback, stop, at);
      assert Windows(end, lookback, stop)[1..] == Windows(start, lookback, stop);
    }
  }

  // ---------------------------------------------------------------------------------------------
  // A valid summary
  // ---------------------------------------------------------------------------------------------

  predicate PageLimit(m: MarketSummary) { m.openTruncated || m.recentTruncated || m.archivalTruncated }

  function ExpectedRetention(start: int, stop: int, boundary: int): Retention {
    if start <= boundary || stop < boundary then Beyond else Within
  }

  function ExpectedReason(m: MarketSummary, stop: int, boundary: int): ConfidenceReason {
    if PageLimit(m) then PageLimitReached
    else if ExpectedRetention(m.archivalStartAt, stop, boundary) == Beyond then BeyondRetention
    else if m.archivalStartAt <= stop then ArchiveComplete
    else ArchiveInProgress
  }

  function ExpectedConfidence(m: MarketSummary, stop: int, boundary: int): Confidence {
    if m.archivalStartAt <= stop && !PageLimit(m) && ExpectedRetention(m.archivalStartAt, stop, boundary) == Within then High else Partial
  }

  /** The rules for one market of a summary. */
  predicate MarketValid(m: MarketSummary, startedAt: int, lookback: int, stop: int, boundary: int, now: int) {
    (m.market == "KRW-BTC" || m.market == "KRW-ETH") &&
    m.recentStartAt <= now && m.recentEndAt <= now && m.archivalStartAt <= now && m.archivalEndAt <= now && m.nextWindowEndAt <= now &&
    m.recentStartAt == startedAt - lookback && m.recentEndAt == startedAt &&
    m.archivalStartAt <= m.archivalEndAt <= startedAt - lookback &&
    m.archivalStartAt == WindowStart(m.archivalEndAt, lookback, stop) && m.nextWindowEndAt == m.archivalStartAt &&
    m.archiveComplete == (m.archivalStartAt <= stop) &&
    m.retention == ExpectedRetention(m.archivalStartAt, stop, boundary) &&
    m.reason == ExpectedReason(m, stop, boundary) && m.confidence == ExpectedConfidence(m, stop, boundary) &&
    (m.openTruncated ==> m.openPages > 0) && (m.recentTruncated ==> m.recentPages > 0) && (m.archivalTruncated ==> m.archivalPages > 0) &&
    m.openPages + m.recentPages + m.archivalPages <= MAX_SAFE && (m.snapshotCount > 0 ==> m.openPages + m.recentPages + m.archivalPages > 0)
  }

  function AccountReason(ms: seq<MarketSummary>): ConfidenceReason {
    if exists m :: m in ms && m.reason == PageLimitReached then PageLimitReached
    else if exists m :: m in ms && m.reason == BeyondRetention then BeyondRetention
    else if exists m :: m in ms && m.reason == ArchiveInProgress then ArchiveInProgress
    else ArchiveComplete
  }

  function TotalSnapshots(ms: seq<MarketSummary>): nat {
    if ms == [] then 0 else TotalSnapshots(ms[..|ms| - 1]) + ms[|ms| - 1].snapshotCount
  }

  predicate HeaderValid(s: Summary, startedAt: int, now: int) {
    0 < s.lookbackDays <= MAX_SAFE && s.lookbackDays <= s.stopBeforeDays && s.lookbackDays <= s.retentionDays && !s.failed && |s.markets| == 2 &&
    s.lookbackDays * MS_PER_DAY <= MAX_SAFE && s.stopBeforeDays * MS_PER_DAY <= MAX_SAFE && s.retentionDays * MS_PER_DAY <= MAX_SAFE &&
    s.stopBeforeAt == startedAt - s.stopBeforeDays * MS_PER_DAY && s.retentionBoundaryAt == startedAt - s.retentionDays * MS_PER_DAY &&
    startedAt <= now && s.stopBeforeAt <= now && s.retentionBoundaryAt <= now
  }

  predicate DistinctMarkets(ms: seq<MarketSummary>) {
    forall i, j :: 0 <= i < j < |ms| ==> ms[i].market != ms[j].market
  }

  predicate MarketsValid(s: Summary, startedAt: int, now: int) {
    forall m :: m in s.markets ==> MarketValid(m, startedAt, s.lookbackDays * MS_PER_DAY, s.stopBeforeAt, s.retentionBoundaryAt, now)
  }

  predicate TotalsValid(s: Summary) {
    var total := TotalSnapshots(s.markets);
    s.coverageComplete == (forall m :: m in s.markets ==> m.archiveComplete) &&
    s.retention == (if exists m :: m in s.markets && m.retention == Beyond then Beyond else Within) &&
    s.confidence == (if forall m :: m in s.markets ==> m.confidence == High then High else Partial) &&
    s.reason == AccountReason(s.markets) &&
    total <= MAX_SAFE && s.recoveredOrderCount <= s.scannedSnapshotCount <= total && (s.scannedSnapshotCount > 0 <==> total > 0)
  }

  predicate SummaryValid(s: Summary, startedAt: int, now: int) {
    HeaderValid(s, startedAt, now) && DistinctMarkets(s.markets) && MarketsValid(s, startedAt, now) && TotalsValid(s)
  }

  /** The scan over the markets; it stops at the first one that is invalid or repeats a market. */
  method ScanMarkets(s: Summary, startedAt: int, now: int) returns (ok: bool, total: nat)
    ensures ok <==> DistinctMarkets(s.markets) && MarketsValid(s, startedAt, now)
    ensures ok ==> total == TotalSnapshots(s.markets)
  {
    hide MarketValid;
    var lookback := s.lookbackDays * MS_PER_DAY;
    var seen: set<string> := {};
    total := 0;
    var i := 0;
    while i < |s.markets|
      invariant 0 <= i <= |s.markets|
      invariant seen == set k | 0 <= k < i :: s.markets[k].market
      invariant DistinctMarkets(s.markets[..i])
      invariant forall k :: 0 <= k < i ==> MarketValid(s.markets[k], startedAt, lookback, s.stopBeforeAt, s.retentionBoundaryAt, now)
      invariant total == TotalSnapshots(s.markets[..i])
    {
      var m := s.markets[i];
      if m.market in seen {
        ghost var k :| 0 <= k < i && s.markets[k].market == m.market;
        return false, 0;
      }
      if !MarketValid(m, startedAt, lookback, s.stopBeforeAt, s.retentionBoundaryAt, now) { return false, 0; }
      seen := seen + {m.market};
      total := total + m.snapshotCount;
      assert s.markets[..i + 1][..i] == s.markets[..i];
      i := i + 1;
    }
    assert s.markets[..i] == s.markets;
    ok := true;
  }

  /** isValidHistoryRecoverySummary: the header, one scan over the markets, then the totals. */
  method IsValidHistoryRecoverySummary(s: Summary, startedAt: int, now: int) returns (valid: bool)
    ensures valid == SummaryValid(s, startedAt, now)
  {
    hide HeaderValid, MarketsValid, AccountReason, DistinctMarkets, TotalSnapshots;
    if !HeaderValid(s, startedAt, now) { return false; }
    var scanned, total := ScanMarkets(s, startedAt, now);
    if !scanned { return false; }
    var coverage := forall m :: m in s.markets ==> m.archiveComplete;
    var beyond := exists m :: m in s.markets && m.retention == Beyond;
    var high := forall m :: m in s.markets ==> m.confidence == High;
    valid := total <= MAX_SAFE && s.coverageComplete == coverage && s.retention == (if beyond then Beyond else Within) &&
      s.confidence == (if high then High else Partial) && s.reason == AccountReason(s.markets) &&
      s.recoveredOrderCount <= s.scannedSnapshotCount && s.scannedSnapshotCount <= total && ((s.scannedSnapshotCount > 0) == (total > 0));
  }

  // ---------------------------------------------------------------------------------------------
  // What a valid summary says
  // ---------------------------------------------------------------------------------------------

  /** Both markets are there, each once. */
  lemma BothMarkets(s: Summary, startedAt: int, now: int)
    requires SummaryValid(s, startedAt, now)
    ensures (set m | m in s.markets :: m.market) == {"KRW-BTC", "KRW-ETH"}
  {
    var a, b := s.markets[0], s.markets[1];
    assert s.markets == [a, b];
    assert a in s.markets && b in s.markets;
  }

  /** A market is of high confidence exactly when its reason is a complete archive. */
  lemma MarketHighIff(m: MarketSummary, startedAt: int, lookback: int, stop: int, boundary: int, now: int)
    requires MarketValid(m, startedAt, lookback, stop, boundary, now)
    ensures m.confidence == High <==> m.reason == ArchiveComplete
    ensures m.confidence == High <==> m.archiveComplete && !PageLimit(m) && m.retention == Within
    ensures m.confidence == High ==> m.archivalStartAt <= stop && boundary < m.archivalStartAt && boundary < stop
  {
  }

  /** The account is of high confidence exactly when its reason is a complete archive, and then the stop boundary lies within the retention. */
  lemma AccountHighIff(s: Summary, startedAt: int, now: int)
    requires SummaryValid(s, startedAt, now)
    ensures s.confidence == High <==> s.reason == ArchiveComplete
    ensures s.confidence == High ==> s.stopBeforeDays < s.retentionDays && s.coverageComplete && s.retention == Within
    ensures s.confidence == High ==> forall m :: m in s.markets ==> !PageLimit(m) && m.archivalStartAt <= s.stopBeforeAt
  {
    hide MarketValid, PageLimit;
    var lookback := s.lookbackDays * MS_PER_DAY;
    forall m | m in s.markets
      ensures m.confidence == High <==> m.reason == ArchiveComplete
      ensures m.confidence == High <==> m.archiveComplete && !PageLimit(m) && m.retention == Within
      ensures m.confidence == High ==> m.archivalStartAt <= s.stopBeforeAt && s.retentionBoundaryAt < s.stopBeforeAt
    {
      MarketHighIff(m, startedAt, lookback, s.stopBeforeAt, s.retentionBoundaryAt, now);
    }
    assert s.markets[0] in s.markets;
  }

  /** A market's window is one of the windows of its archive, counted from its own end, and its next window continues it. */
  lemma SummaryFollowsWindows(m: MarketSummary, startedAt: int, lookback: int, stop: int, boundary: int, now: int)
    requires lookback > 0 && MarketValid(m, startedAt, lookback, stop, boundary, now) && m.archivalEndAt > stop
    ensures Windows(m.archivalEndAt, lookback, stop) == [(m.archivalStartAt, m.archivalEndAt)] + Windows(m.nextWindowEndAt, lookback, stop)
    ensures m.archiveComplete <==> Rounds(m.archivalEndAt, lookback, stop) == 1
  {
    WindowsTile(m.archivalEndAt, lookback, stop);
    WindowsTile(m.nextWindowEndAt, lookback, stop);
  }

  /** A market of a summary is valid exactly when everything that follows from the end of its archive window, and from what was truncated, is stated as it follows. */
  lemma MarketValidIff(m: MarketSummary, startedAt: int, lookback: int, stop: int, boundary: int, now: int)
    ensures MarketValid(m, startedAt, lookback, stop, boundary, now) <==>
              var end, recent := m.archivalEndAt, startedAt - lookback;
              var start := if end <= stop then end else if end - lookback > stop then end - lookback else stop;
              var truncated := m.openTruncated || m.recentTruncated || m.archivalTruncated;
              var beyond := start <= boundary || stop < boundary;
              var pages := m.openPages + m.recentPages + m.archivalPages;
              && m.market in {"KRW-BTC", "KRW-ETH"}
              && start <= end <= recent && recent <= now && startedAt <= now && end <= now
              && m.recentStartAt == recent && m.recentEndAt == startedAt && m.archivalStartAt == start && m.nextWindowEndAt == start
              && m.archiveComplete == (start <= stop) && m.retention == (if beyond then Beyond else Within)
              && m.confidence == (if start <= stop && !truncated && !beyond then High else Partial)
              && m.reason == (if truncated then PageLimitReached else if beyond then BeyondRetention else if start <= stop then ArchiveComplete else ArchiveInProgress)
              && (m.openTruncated ==> m.openPages > 0) && (m.recentTruncated ==> m.recentPages > 0) && (m.archivalTruncated ==> m.archivalPages > 0)
              && pages <= 9007199254740991 && (m.snapshotCount > 0 ==> pages > 0)
  {
  }

  /** The recent window and the archive's windows down from its start hold every instant from the stop boundary to the start of the run exactly once. */
  lemma RecentJoinsArchive(s: Summary, startedAt: int, now: int, m: MarketSummary, at: int)
    requires SummaryValid(s, startedAt, now) && m in s.markets
    ensures m.archivalEndAt <= m.recentStartAt && m.recentEndAt == startedAt && m.recentEndAt - m.recentStartAt == s.lookbackDays * 86400000
    ensures (if m.recentStartAt <= at < m.recentEndAt then 1 else 0) + Containing(Windows(m.recentStartAt, s.lookbackDays * 86400000, s.stopBeforeAt), at) ==
              if startedAt - s.stopBeforeDays * 86400000 <= at < startedAt then 1 else 0
  {
    hide Windows, Containing, TotalsValid, AccountReason, ExpectedReason, ExpectedConfidence, ExpectedRetention;
    EveryInstantOnce(m.recentStartAt, s.lookbackDays * MS_PER_DAY, s.stopBeforeAt, at);
    LongerStop(s.lookbackDays, s.stopBeforeDays);
  }

  lemma LongerStop(lookback: int, stop: int)
    requires lookback <= stop
    ensures lookback * MS_PER_DAY <= stop * MS_PER_DAY
  {
  }

  /** What two markets amount to. */
  predicate AddUp(s: Summary, a: MarketSummary, b: MarketSummary) {
    && s.coverageComplete == (a.archiveComplete && b.archiveComplete)
    && s.retention == (if a.retention == Within && b.retention == Within then Within else Beyond)
    && s.confidence == (if a.confidence == High && b.confidence == High then High else Partial)
    && s.reason == (if PageLimitReached in {a.reason, b.reason} then PageLimitReached else if BeyondRetention in {a.reason, b.reason} then BeyondRetention
                    else if ArchiveInProgress in {a.reason, b.reason} then ArchiveInProgress else ArchiveComplete)
    && s.recoveredOrderCount <= s.scannedSnapshotCount <= a.snapshotCount + b.snapshotCount <= 9007199254740991
    && (s.scannedSnapshotCount == 0 ==> a.snapshotCount == b.snapshotCount == 0)
  }

  lemma TotalsIff(s: Summary, a: MarketSummary, b: MarketSummary)
    requires s.markets == [a, b]
    ensures TotalsValid(s) <==> AddUp(s, a, b)
  {
    assert s.markets[..1] == [a] && [a][..0] == [];
    assert TotalSnapshots([a]) == a.snapshotCount;
    assert a in s.markets && b in s.markets;
  }

  /** Days whose milliseconds are safe integers. */
  lemma SafeDays(days: int)
    ensures days * MS_PER_DAY <= MAX_SAFE <==> days <= 104249991
  {
  }

  /**
   A summary is valid exactly if it is of a run that did not fail, with its bounds counted back from the
   run's start in days, and of two different markets, each valid, whose coverage, retention, confidence,
   reason and counts it adds up.
   */
  lemma SummaryValidIff(s: Summary, startedAt: int, now: int)
    ensures SummaryValid(s, startedAt, now) <==>
              && !s.failed && startedAt <= now
              && 1 <= s.lookbackDays && s.lookbackDays <= s.stopBeforeDays <= 104249991 && s.lookbackDays <= s.retentionDays <= 104249991
              && s.stopBeforeAt == startedAt - s.stopBeforeDays * 86400000 && s.retentionBoundaryAt == startedAt - s.retentionDays * 86400000
              && |s.markets| == 2
              && var a, b := s.markets[0], s.markets[1];
                 && a.market != b.market
                 && MarketValid(a, startedAt, s.lookbackDays * 86400000, s.stopBeforeAt, s.retentionBoundaryAt, now)
                 && MarketValid(b, startedAt, s.lookbackDays * 86400000, s.stopBeforeAt, s.retentionBoundaryAt, now)
                 && AddUp(s, a, b)
  {
    hide MarketValid, TotalsValid, AddUp;
    SafeDays(s.lookbackDays);
    SafeDays(s.stopBeforeDays);
    SafeDays(s.retentionDays);
    if |s.markets| == 2 {
      var a, b := s.markets[0], s.markets[1];
      assert s.markets == [a, b] && a in s.markets && b in s.markets;
      TotalsIff(s, a, b);
    }
  }

  /** A market whose archive of two weeks is complete after its first window. */
  function CompleteMarket(market: string): MarketSummary {
    MarketSummary(market, 2 * 604800000, 3 * 604800000, 604800000, 2 * 604800000, 604800000, true, Within, High, ArchiveComplete, false, false, false, 1, 1, 1, 5)
  }

  /** A run at the end of the third week, looking back one week at a time to the end of the first, within a retention of 20 days. */
  function CompleteSummary(): Summary {
    Summary(7, 14, 604800000, 20, 86400000, Within, true, High, ArchiveComplete, false, 8, 3, [CompleteMarket("KRW-BTC"), CompleteMarket("KRW-ETH")])
  }

  lemma CompleteSummaryIsValid()
    ensures SummaryValid(CompleteSummary(), 3 * 604800000, 3 * 604800000)
  {
    var s, b, e := CompleteSummary(), CompleteMarket("KRW-BTC"), CompleteMarket("KRW-ETH");
    assert s.markets[..1] == [b] && [b][..0] == [];
    assert TotalSnapshots(s.markets) == 10;
    assert forall m :: m in s.markets ==> m == b || m == e;
    assert b in s.markets;
  }
}
