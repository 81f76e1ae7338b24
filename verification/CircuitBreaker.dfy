/** The circuit breaker's state machine under interleaved calls. */
module CircuitBreaker {
  import opened Prelude
  import opened Backoff

  datatype BreakerState = CLOSED | OPEN | HALF_OPEN

  datatype Config = Config(failureThreshold: int, successThreshold: int, timeoutDuration: int)

  datatype Stats = Stats(total: nat, successful: nat, failed: nat,
                         consecutiveFailures: nat, consecutiveSuccesses: nat,
                         lastFailure: Option<int>, lastSuccess: Option<int>,
                         changedAt: int, changes: nat)

  datatype Breaker = Breaker(state: BreakerState, stats: Stats)

  function Init(now: int): Breaker {
    Breaker(CLOSED, Stats(0, 0, 0, 0, 0, None, None, now, 0))
  }

  // ---------- The three locked sections ----------

  function Change(b: Breaker, state: BreakerState, now: int): Breaker {
    Breaker(state, b.stats.(changedAt := now, changes := b.stats.changes + 1))
  }

  predicate Admits(cfg: Config, b: Breaker, now: int) {
    b.state.OPEN? ==> now - b.stats.changedAt >= cfg.timeoutDuration
  }

  function Check(cfg: Config, b: Breaker, now: int): Breaker {
    if b.state.OPEN? && Admits(cfg, b, now) then Change(b, HALF_OPEN, now) else b
  }

  function CountSuccess(b: Breaker, now: int): Breaker {
    b.(stats := b.stats.(total := b.stats.total + 1, successful := b.stats.successful + 1,
                         consecutiveSuccesses := b.stats.consecutiveSuccesses + 1,
                         consecutiveFailures := 0, lastSuccess := Some(now)))
  }

  function Succeed(cfg: Config, b: Breaker, now: int): Breaker {
    var b := CountSuccess(b, now);
    if b.state.HALF_OPEN? && b.stats.consecutiveSuccesses >= cfg.successThreshold then Change(b, CLOSED, now) else b
  }

  function CountFailure(b: Breaker, now: int): Breaker {
    b.(stats := b.stats.(total := b.stats.total + 1, failed := b.stats.failed + 1,
                         consecutiveFailures := b.stats.consecutiveFailures + 1,
                         consecutiveSuccesses := 0, lastFailure := Some(now)))
  }

  function Fail(cfg: Config, b: Breaker, now: int): Breaker {
    var b := CountFailure(b, now);
    if !b.state.OPEN? && b.stats.consecutiveFailures >= cfg.failureThreshold then Change(b, OPEN, now) else b
  }

  // ---------- Runs: calls enter, overlap and leave in any order ----------

  /** How the protected block ends: normally, with a trigger exception, or with any other. */
  datatype Outcome = Succeeded | Triggered | Ignored

  datatype Event =
    | Enter(id: nat, at: int)
    | Exit(id: nat, at: int, outcome: Outcome)

  function Step(cfg: Config, b: Breaker, e: Event): Breaker {
    match e
    case Enter(_, at) => Check(cfg, b, at)
    case Exit(_, at, Succeeded) => Succeed(cfg, b, at)
    case Exit(_, at, Triggered) => Fail(cfg, b, at)
    case Exit(_, _, Ignored) => b
  }

  function Run(cfg: Config, start: int, es: seq<Event>): Breaker {
    if es == [] then Init(start) else Step(cfg, Run(cfg, start, es[..|es| - 1]), es[|es| - 1])
  }

  lemma RunAppend(cfg: Config, start: int, es: seq<Event>, e: Event)
    ensures Run(cfg, start, es + [e]) == Step(cfg, Run(cfg, start, es), e)
  {
    assert (es + [e])[..|es|] == es;
  }

  // ---------- The history as the reference ----------

  predicate Records(e: Event) {
    e.Exit? && !e.outcome.Ignored?
  }

  /** The outcomes recorded so far, true for a success. */
  function Recorded(es: seq<Event>): seq<bool> {
    if es == [] then []
    else
      var e, before := es[|es| - 1], Recorded(es[..|es| - 1]);
      if Records(e) then before + [e.outcome.Succeeded?] else before
  }

  function Count(h: seq<bool>, b: bool): nat {
    if h == [] then 0 else Count(h[..|h| - 1], b) + if h[|h| - 1] == b then 1 else 0
  }

  /** The length of the run of b at the end of h. */
  function Trail(h: seq<bool>, b: bool): nat {
    if h == [] || h[|h| - 1] != b then 0 else 1 + Trail(h[..|h| - 1], b)
  }

  lemma {:induction false} TrailIsTheTrailingRun(h: seq<bool>, b: bool)
    ensures Trail(h, b) <= |h|
    ensures forall i :: |h| - Trail(h, b) <= i < |h| ==> h[i] == b
    ensures Trail(h, b) < |h| ==> h[|h| - Trail(h, b) - 1] != b
  {
    if h != [] && h[|h| - 1] == b {
      TrailIsTheTrailingRun(h[..|h| - 1], b);
    }
  }

  lemma HistoryAppend(h: seq<bool>, r: bool)
    ensures forall b :: Count(h + [r], b) == Count(h, b) + if r == b then 1 else 0
    ensures forall b :: Trail(h + [r], b) == if r == b then Trail(h, b) + 1 else 0
  {
    assert (h + [r])[..|h|] == h;
  }

  /** In every interleaving the counters are functions of the recorded outcomes. */
  lemma {:induction false} CountersRefineHistory(cfg: Config, start: int, es: seq<Event>)
    ensures var s, h := Run(cfg, start, es).stats, Recorded(es);
            && s.total == |h| && s.successful == Count(h, true) && s.failed == Count(h, false)
            && s.total == s.successful + s.failed
            && s.consecutiveSuccesses == Trail(h, true) && s.consecutiveFailures == Trail(h, false)
  {
    if es != [] {
      var init, e := es[..|es| - 1], es[|es| - 1];
      CountersRefineHistory(cfg, start, init);
      if Records(e) {
        HistoryAppend(Recorded(init), e.outcome.Succeeded?);
      }
    }
  }

  /** When an outcome of the given kind was last recorded. */
  function LastRecorded(es: seq<Event>, success: bool): Option<int> {
    if es == [] then None
    else
      var e := es[|es| - 1];
      if Records(e) && e.outcome.Succeeded? == success then Some(e.at) else LastRecorded(es[..|es| - 1], success)
  }

  lemma {:induction false} TimesRefineHistory(cfg: Config, start: int, es: seq<Event>)
    ensures var s := Run(cfg, start, es).stats;
            s.lastSuccess == LastRecorded(es, true) && s.lastFailure == LastRecorded(es, false)
  {
    if es != [] {
      TimesRefineHistory(cfg, start, es[..|es| - 1]);
    }
  }

  // ---------- Which transitions happen, and when ----------

  predicate Edge(a: BreakerState, b: BreakerState) {
    (a.CLOSED? && b.OPEN?) || (a.OPEN? && b.HALF_OPEN?) || (a.HALF_OPEN? && b.CLOSED?) || (a.HALF_OPEN? && b.OPEN?)
  }

  /** Only four edges exist, and each change, and nothing else, is counted and timed. */
  lemma OnlyFourEdges(cfg: Config, b: Breaker, e: Event)
    ensures var b' := Step(cfg, b, e);
            if b'.state == b.state then b'.stats.changedAt == b.stats.changedAt && b'.stats.changes == b.stats.changes
            else Edge(b.state, b'.state) && b'.stats.changedAt == e.at && b'.stats.changes == b.stats.changes + 1
  {
  }

  /** It closes exactly on a success in HALF_OPEN that makes the last successThreshold outcomes successes. */
  lemma ClosesExactly(cfg: Config, start: int, es: seq<Event>, e: Event)
    ensures var b, b' := Run(cfg, start, es), Run(cfg, start, es + [e]);
            !b.state.CLOSED? && b'.state.CLOSED? <==>
            b.state.HALF_OPEN? && e.Exit? && e.outcome.Succeeded?
              && Trail(Recorded(es + [e]), true) >= cfg.successThreshold
  {
    RunAppend(cfg, start, es, e);
    CountersRefineHistory(cfg, start, es + [e]);
  }

  /** It opens exactly on a trigger failure that ends a run of failureThreshold failures. */
  lemma OpensExactly(cfg: Config, start: int, es: seq<Event>, e: Event)
    ensures var b, b' := Run(cfg, start, es), Run(cfg, start, es + [e]);
            !b.state.OPEN? && b'.state.OPEN? <==>
            !b.state.OPEN? && e.Exit? && e.outcome.Triggered?
              && Trail(Recorded(es + [e]), false) >= cfg.failureThreshold
  {
    RunAppend(cfg, start, es, e);
    CountersRefineHistory(cfg, start, es + [e]);
  }

  lemma {:induction false} ClosedIsBelowThreshold(cfg: Config, start: int, es: seq<Event>)
    requires cfg.failureThreshold >= 1 && Run(cfg, start, es).state.CLOSED?
    ensures Trail(Recorded(es), false) < cfg.failureThreshold
  {
    CountersRefineHistory(cfg, start, es);
    if es != [] && Run(cfg, start, es[..|es| - 1]).state.CLOSED? {
      ClosedIsBelowThreshold(cfg, start, es[..|es| - 1]);
      CountersRefineHistory(cfg, start, es[..|es| - 1]);
    }
  }

  // ---------- How often it can open ----------

  /** The clock never runs backwards. */
  ghost predicate Clocked(start: int, es: seq<Event>) {
    (forall i :: 0 <= i < |es| ==> start <= es[i].at) && forall i, j :: 0 <= i < j < |es| ==> es[i].at <= es[j].at
  }

  /** The times at which the breaker went to OPEN. */
  function Openings(cfg: Config, start: int, es: seq<Event>): seq<int> {
    if es == [] then []
    else
      var init := es[..|es| - 1];
      var before := Openings(cfg, start, init);
      if !Run(cfg, start, init).state.OPEN? && Run(cfg, start, es).state.OPEN? then before + [es[|es| - 1].at] else before
  }

  /** An open breaker opened at the last opening; any other has outlived the timeout since then. */
  ghost predicate SinceOpening(cfg: Config, start: int, es: seq<Event>) {
    var b, o := Run(cfg, start, es), Openings(cfg, start, es);
    if o == [] then !b.state.OPEN?
    else
      && es != [] && o[|o| - 1] <= es[|es| - 1].at
      && (b.state.OPEN? ==> b.stats.changedAt == o[|o| - 1])
      && (!b.state.OPEN? ==> es[|es| - 1].at - o[|o| - 1] >= cfg.timeoutDuration)
  }

  lemma {:induction false} OpeningsTracked(cfg: Config, start: int, es: seq<Event>)
    requires Clocked(start, es)
    ensures SinceOpening(cfg, start, es)
  {
    if es != [] {
      var init := es[..|es| - 1];
      OpeningsTracked(cfg, start, init);
      OnlyFourEdges(cfg, Run(cfg, start, init), es[|es| - 1]);
    }
  }

  /** Neighbours are at least the gap apart. */
  ghost predicate Apart(o: seq<int>, gap: int) {
    forall i, j :: 0 <= i < j < |o| && j == i + 1 ==> o[j] - o[i] >= gap
  }

  /** Openings are in time order and any two neighbours are at least the timeout apart. */
  lemma {:induction false} OpeningsApart(cfg: Config, start: int, es: seq<Event>)
    requires Clocked(start, es)
    ensures var o := Openings(cfg, start, es);
            && (forall i :: 0 <= i < |o| ==> start <= o[i])
            && (forall i, j :: 0 <= i < j < |o| ==> o[i] <= o[j])
            && Apart(o, cfg.timeoutDuration)
  {
    if es != [] {
      var init := es[..|es| - 1];
      OpeningsApart(cfg, start, init);
      OpeningsTracked(cfg, start, init);
    }
  }

  /** No call is admitted before the timeout has passed since every opening. */
  lemma {:induction false} NoAdmissionBeforeTimeout(cfg: Config, start: int, es: seq<Event>, now: int)
    requires Clocked(start, es) && (es != [] ==> es[|es| - 1].at <= now)
    requires Admits(cfg, Run(cfg, start, es), now)
    ensures forall i :: 0 <= i < |Openings(cfg, start, es)| ==> now - Openings(cfg, start, es)[i] >= cfg.timeoutDuration
  {
    OpeningsTracked(cfg, start, es);
    OpeningsApart(cfg, start, es);
  }

  /** In every interleaving: an open breaker admits a call if and only if the timeout has passed since the last opening. */
  lemma {:induction false} AdmissionExactly(cfg: Config, start: int, es: seq<Event>, now: int)
    requires Clocked(start, es) && (es != [] ==> es[|es| - 1].at <= now)
    ensures Admits(cfg, Run(cfg, start, es), now) <==>
            !Run(cfg, start, es).state.OPEN? ||
            var o := Openings(cfg, start, es); o != [] && now - o[|o| - 1] >= cfg.timeoutDuration
    ensures Run(cfg, start, es).state.OPEN? ==> Openings(cfg, start, es) != []
  {
    OpeningsTracked(cfg, start, es);
  }

  /** It goes half-open exactly when a call comes that long after the last opening of an open breaker. */
  lemma HalfOpensExactly(cfg: Config, start: int, es: seq<Event>, e: Event)
    requires Clocked(start, es + [e])
    ensures var b, b' := Run(cfg, start, es), Run(cfg, start, es + [e]);
            !b.state.HALF_OPEN? && b'.state.HALF_OPEN? <==>
            b.state.OPEN? && e.Enter? &&
            var o := Openings(cfg, start, es); o != [] && e.at - o[|o| - 1] >= cfg.timeoutDuration
  {
    ClockedPrefix(start, es, e);
    RunAppend(cfg, start, es, e);
    AdmissionExactly(cfg, start, es, e.at);
    HalfOpensOnEntry(cfg, Run(cfg, start, es), e);
  }

  lemma ClockedPrefix(start: int, es: seq<Event>, e: Event)
    requires Clocked(start, es + [e])
    ensures Clocked(start, es) && (es != [] ==> es[|es| - 1].at <= e.at)
  {
    var all := es + [e];
    assert all[|es|] == e && forall i :: 0 <= i < |es| ==> all[i] == es[i];
  }

  lemma HalfOpensOnEntry(cfg: Config, b: Breaker, e: Event)
    ensures !b.state.HALF_OPEN? && Step(cfg, b, e).state.HALF_OPEN?
            <==> b.state.OPEN? && e.Enter? && Admits(cfg, b, e.at)
  {
  }

  /** A call that is rejected, or enters a breaker that is not open, changes nothing, and neither does any other exception. */
  lemma NothingElseChanges(cfg: Config, b: Breaker, e: Event)
    ensures e.Enter? && !(b.state.OPEN? && e.at - b.stats.changedAt >= cfg.timeoutDuration) ==> Step(cfg, b, e) == b
    ensures e.Exit? && e.outcome.Ignored? ==> Step(cfg, b, e) == b
  {
  }

  /** Success and trigger failure are recorded as they come, and nothing else is. */
  lemma RecordedExactly(es: seq<Event>, e: Event)
    ensures Recorded(es + [e]) ==
            if e.Exit? && e.outcome.Succeeded? then Recorded(es) + [true]
            else if e.Exit? && e.outcome.Triggered? then Recorded(es) + [false] else Recorded(es)
  {
    assert (es + [e])[..|es|] == es;
  }

  lemma {:induction false} SpreadOf(o: seq<int>, gap: int)
    requires o != [] && Apart(o, gap)
    ensures o[|o| - 1] - o[0] >= (|o| - 1) * gap
  {
    if |o| > 1 {
      assert o[|o| - 1] - o[|o| - 2] >= gap;
      SpreadOf(o[..|o| - 1], gap);
    }
  }

  lemma OpeningSpan(cfg: Config, start: int, end: int, es: seq<Event>)
    requires Clocked(start, es) && Openings(cfg, start, es) != [] && es[|es| - 1].at <= end
    ensures (|Openings(cfg, start, es)| - 1) * cfg.timeoutDuration <= end - start
  {
    OpeningsApart(cfg, start, es);
    OpeningsTracked(cfg, start, es);
    SpreadOf(Openings(cfg, start, es), cfg.timeoutDuration);
  }

  /** A run of length T opens at most 1 + T / timeout times. */
  lemma OpeningRateBound(cfg: Config, start: int, end: int, es: seq<Event>)
    requires Clocked(start, es) && cfg.timeoutDuration > 0
    requires start <= end && (es != [] ==> es[|es| - 1].at <= end)
    ensures |Openings(cfg, start, es)| <= 1 + (end - start) / cfg.timeoutDuration
  {
    if Openings(cfg, start, es) != [] {
      OpeningSpan(cfg, start, end, es);
      QuotientBound(|Openings(cfg, start, es)| - 1, cfg.timeoutDuration, end - start);
    }
  }

  lemma QuotientBound(n: int, t: int, total: int)
    requires t > 0 && n * t <= total
    ensures n <= total / t
  {
    assert n * t < (total / t + 1) * t;
    Cancel(n, total / t + 1, t);
  }

  lemma Cancel(a: int, b: int, t: int)
    requires t > 0 && a * t < b * t
    ensures a < b
  {
    assert (b - a) * t > 0;
  }

  // ---------- Calls ----------

  /** The calls inside the protected block. */
  function InFlight(cfg: Config, start: int, es: seq<Event>): set<nat> {
    if es == [] then {}
    else
      var init, e := es[..|es| - 1], es[|es| - 1];
      var before := InFlight(cfg, start, init);
      match e
      case Enter(id, at) => if Admits(cfg, Run(cfg, start, init), at) then before + {id} else before
      case Exit(id, _, _) => before - {id}
  }

  function Entered(es: seq<Event>): set<nat> {
    if es == [] then {}
    else Entered(es[..|es| - 1]) + if es[|es| - 1].Enter? then {es[|es| - 1].id} else {}
  }

  /** Each call enters once, and only a call inside the block leaves it. */
  predicate WellFormed(cfg: Config, start: int, es: seq<Event>) {
    es == [] ||
    var init, e := es[..|es| - 1], es[|es| - 1];
    && WellFormed(cfg, start, init)
    && if e.Enter? then e.id !in Entered(init) else e.id in InFlight(cfg, start, init)
  }

  function RecordedIds(es: seq<Event>): seq<nat> {
    if es == [] then []
    else RecordedIds(es[..|es| - 1]) + if Records(es[|es| - 1]) then [es[|es| - 1].id] else []
  }

  /** However calls overlap, each admitted call records at most one outcome and a rejected call none. */
  lemma {:induction false} OneOutcomePerCall(cfg: Config, start: int, es: seq<Event>)
    requires WellFormed(cfg, start, es)
    ensures NoDup(RecordedIds(es)) && |RecordedIds(es)| == |Recorded(es)|
    ensures InFlight(cfg, start, es) <= Entered(es)
    ensures forall id :: id in RecordedIds(es) ==> id in Entered(es) && id !in InFlight(cfg, start, es)
  {
    if es != [] {
      OneOutcomePerCall(cfg, start, es[..|es| - 1]);
    }
  }

  // ---------- Recovery when calls do not overlap ----------

  predicate Sequential(cfg: Config, start: int, es: seq<Event>) {
    es == [] ||
    var init, e := es[..|es| - 1], es[|es| - 1];
    && Sequential(cfg, start, init)
    && if e.Enter? then InFlight(cfg, start, init) == {} else e.id in InFlight(cfg, start, init)
  }

  /** The outcomes recorded since the breaker last went from OPEN to HALF_OPEN. */
  function Episode(cfg: Config, start: int, es: seq<Event>): seq<bool> {
    if es == [] then []
    else
      var init, e := es[..|es| - 1], es[|es| - 1];
      if Run(cfg, start, init).state.OPEN? && Run(cfg, start, es).state.HALF_OPEN? then []
      else if Records(e) then Episode(cfg, start, init) + [e.outcome.Succeeded?]
      else Episode(cfg, start, init)
  }

  ghost predicate EpisodeCounts(cfg: Config, start: int, es: seq<Event>) {
    var b, ep := Run(cfg, start, es), Episode(cfg, start, es);
    && (b.state.OPEN? ==> InFlight(cfg, start, es) == {} && b.stats.consecutiveSuccesses == 0
                          && b.stats.consecutiveFailures >= cfg.failureThreshold)
    && (b.state.HALF_OPEN? ==> b.stats.consecutiveSuccesses == Trail(ep, true)
                               && (ep == [] ==> b.stats.consecutiveFailures >= cfg.failureThreshold))
  }

  lemma {:induction false} AtMostOneInFlight(cfg: Config, start: int, es: seq<Event>)
    requires Sequential(cfg, start, es)
    ensures forall i, j :: i in InFlight(cfg, start, es) && j in InFlight(cfg, start, es) ==> i == j
  {
    if es != [] {
      AtMostOneInFlight(cfg, start, es[..|es| - 1]);
    }
  }

  lemma {:induction false} SequentialEpisodes(cfg: Config, start: int, es: seq<Event>)
    requires Sequential(cfg, start, es)
    ensures EpisodeCounts(cfg, start, es)
  {
    if es != [] {
      var init, e := es[..|es| - 1], es[|es| - 1];
      SequentialEpisodes(cfg, start, init);
      AtMostOneInFlight(cfg, start, init);
      if Records(e) {
        HistoryAppend(Episode(cfg, start, init), e.outcome.Succeeded?);
      }
    }
  }

  /** Without overlap, the successes that close the breaker all belong to the current episode. */
  lemma SequentialRecovery(cfg: Config, start: int, es: seq<Event>, e: Event)
    requires Sequential(cfg, start, es + [e])
    requires !Run(cfg, start, es).state.CLOSED? && Run(cfg, start, es + [e]).state.CLOSED?
    ensures Trail(Episode(cfg, start, es + [e]), true) >= cfg.successThreshold
  {
    assert (es + [e])[..|es|] == es;
    SequentialEpisodes(cfg, start, es);
    HistoryAppend(Episode(cfg, start, es), true);
  }

  /** Without overlap, a failure as the first recorded outcome of an episode reopens at once. */
  lemma FirstFailureReopens(cfg: Config, start: int, es: seq<Event>, id: nat, now: int)
    requires Sequential(cfg, start, es) && Run(cfg, start, es).state.HALF_OPEN? && Episode(cfg, start, es) == []
    ensures Run(cfg, start, es + [Exit(id, now, Triggered)]).state.OPEN?
  {
    SequentialEpisodes(cfg, start, es);
    RunAppend(cfg, start, es, Exit(id, now, Triggered));
  }

  /** One more event: every observation of the run moves by one step. */
  lemma Extend(cfg: Config, start: int, es: seq<Event>, e: Event)
    ensures var b, b' := Run(cfg, start, es), Run(cfg, start, es + [e]);
            && b' == Step(cfg, b, e)
            && InFlight(cfg, start, es + [e]) ==
                 (if e.Exit? then InFlight(cfg, start, es) - {e.id}
                  else if Admits(cfg, b, e.at) then InFlight(cfg, start, es) + {e.id} else InFlight(cfg, start, es))
            && Entered(es + [e]) == Entered(es) + (if e.Enter? then {e.id} else {})
            && WellFormed(cfg, start, es + [e]) ==
                 (WellFormed(cfg, start, es) && if e.Enter? then e.id !in Entered(es) else e.id in InFlight(cfg, start, es))
            && Episode(cfg, start, es + [e]) ==
                 (if b.state.OPEN? && b'.state.HALF_OPEN? then []
                  else if Records(e) then Episode(cfg, start, es) + [e.outcome.Succeeded?] else Episode(cfg, start, es))
  {
    assert (es + [e])[..|es|] == es;
  }

  // ---------- Recovery when calls overlap ----------

  /** What had been recorded when the current episode began. */
  function Before(cfg: Config, start: int, es: seq<Event>): seq<bool> {
    if es == [] then []
    else
      var init := es[..|es| - 1];
      if Run(cfg, start, init).state.OPEN? && Run(cfg, start, es).state.HALF_OPEN? then Recorded(es)
      else Before(cfg, start, init)
  }

  /** The successes at the end of the history that an episode begins with. */
  function Carried(cfg: Config, start: int, es: seq<Event>): nat {
    Trail(Before(cfg, start, es), true)
  }

  lemma {:induction false} RecordedSplits(cfg: Config, start: int, es: seq<Event>)
    ensures Recorded(es) == Before(cfg, start, es) + Episode(cfg, start, es)
  {
    if es != [] {
      RecordedSplits(cfg, start, es[..|es| - 1]);
    }
  }

  lemma {:induction false} TrailConcat(a: seq<bool>, b: seq<bool>, x: bool)
    ensures Trail(a + b, x) == if Trail(b, x) == |b| then |b| + Trail(a, x) else Trail(b, x)
  {
    if b == [] {
      assert a + b == a;
    } else {
      assert (a + b)[..|a + b| - 1] == a + b[..|b| - 1];
      TrailIsTheTrailingRun(b, x);
      TrailConcat(a, b[..|b| - 1], x);
    }
  }

  /** It closes before the episode by itself has enough successes. */
  predicate ClosesEarly(cfg: Config, start: int, es: seq<Event>, e: Event) {
    && !Run(cfg, start, es).state.CLOSED? && Run(cfg, start, es + [e]).state.CLOSED?
    && Trail(Episode(cfg, start, es + [e]), true) < cfg.successThreshold
  }

  /**
   * In every interleaving: an early close is exactly a success in an episode of successes only,
   * still too few, to which enough successes from before the episode are added.
   */
  lemma {:induction false} ClosesEarlyExactly(cfg: Config, start: int, es: seq<Event>, e: Event)
    ensures ClosesEarly(cfg, start, es, e) <==>
            var ep := Episode(cfg, start, es);
            && Run(cfg, start, es).state.HALF_OPEN? && e.Exit? && e.outcome.Succeeded?
            && Trail(ep, true) == |ep|
            && |ep| + 1 < cfg.successThreshold <= |ep| + 1 + Carried(cfg, start, es)
  {
    var ep := Episode(cfg, start, es);
    ClosesExactly(cfg, start, es, e);
    Extend(cfg, start, es, e);
    RecordedSplits(cfg, start, es);
    TrailConcat(Before(cfg, start, es), ep, true);
    HistoryAppend(Recorded(es), true);
    HistoryAppend(ep, true);
    assert (es + [e])[..|es|] == es;
  }

  /** The run stays half-open while more happens. */
  predicate Within(cfg: Config, start: int, es: seq<Event>, more: seq<Event>) {
    && Run(cfg, start, es + more).state.HALF_OPEN?
    && (more != [] ==> Within(cfg, start, es, more[..|more| - 1]))
  }

  lemma {:induction false} CarriedStays(cfg: Config, start: int, es: seq<Event>, more: seq<Event>)
    requires Within(cfg, start, es, more)
    ensures Carried(cfg, start, es + more) == Carried(cfg, start, es)
  {
    if more == [] {
      assert es + more == es;
    } else {
      assert (es + more)[..|es + more| - 1] == es + more[..|more| - 1];
      CarriedStays(cfg, start, es, more[..|more| - 1]);
    }
  }

  /** A call id not used so far. */
  function NextId(es: seq<Event>): nat {
    if es == [] then 0
    else
      var n, id := NextId(es[..|es| - 1]), es[|es| - 1].id;
      if id < n then n else id + 1
  }

  lemma {:induction false} EnteredBelow(es: seq<Event>)
    ensures forall id :: id in Entered(es) ==> id < NextId(es)
  {
    if es != [] {
      EnteredBelow(es[..|es| - 1]);
    }
  }

  /** A run that can happen, now half-open. */
  ghost predicate HalfOpenRun(cfg: Config, start: int, es: seq<Event>) {
    WellFormed(cfg, start, es) && Clocked(start, es) && Run(cfg, start, es).state.HALF_OPEN? && es != []
  }

  /** A new call enters a half-open breaker at once and succeeds at once. */
  lemma SuccessCall(cfg: Config, start: int, es: seq<Event>, id: nat, at: int)
    requires HalfOpenRun(cfg, start, es) && id >= NextId(es) && at == es[|es| - 1].at
    ensures var es1, es2 := es + [Enter(id, at)], es + [Enter(id, at)] + [Exit(id, at, Succeeded)];
            && HalfOpenRun(cfg, start, es1) && WellFormed(cfg, start, es2) && Clocked(start, es2)
            && Run(cfg, start, es2) == Succeed(cfg, Run(cfg, start, es), at)
            && Episode(cfg, start, es2) == Episode(cfg, start, es) + [true]
            && NextId(es2) == id + 1
  {
    EnteredBelow(es);
    var es1 := es + [Enter(id, at)];
    Extend(cfg, start, es, Enter(id, at));
    Extend(cfg, start, es1, Exit(id, at, Succeeded));
    assert es1[..|es|] == es && (es1 + [Exit(id, at, Succeeded)])[..|es1|] == es1;
  }

  /** Some continuation of the episode closes it early. */
  ghost predicate CanCloseEarly(cfg: Config, start: int, es: seq<Event>) {
    exists more, e :: Within(cfg, start, es, more) && WellFormed(cfg, start, es + more + [e])
      && Clocked(start, es + more + [e]) && ClosesEarly(cfg, start, es + more, e)
  }

  /** An episode of successes only, about to need fewer of them than the threshold. */
  ghost predicate CountingUp(cfg: Config, start: int, es: seq<Event>, more: seq<Event>, carried: nat, n: nat) {
    && Within(cfg, start, es, more) && HalfOpenRun(cfg, start, es + more)
    && Run(cfg, start, es + more).stats.consecutiveSuccesses == carried + n
    && Trail(Episode(cfg, start, es + more), true) == n
  }

  lemma WithinExtend(cfg: Config, start: int, es: seq<Event>, more: seq<Event>, e: Event)
    requires Within(cfg, start, es, more)
    ensures es + (more + [e]) == es + more + [e]
    ensures Run(cfg, start, es + more + [e]).state.HALF_OPEN? ==> Within(cfg, start, es, more + [e])
  {
    assert es + (more + [e]) == es + more + [e];
    assert (more + [e])[..|more|] == more;
  }

  lemma SuccessCloses(cfg: Config, start: int, es: seq<Event>, e: Event)
    requires Run(cfg, start, es).state.HALF_OPEN? && e.Exit? && e.outcome.Succeeded?
    requires var n := Trail(Episode(cfg, start, es), true);
             n + 1 < cfg.successThreshold <= Run(cfg, start, es).stats.consecutiveSuccesses + 1
    ensures ClosesEarly(cfg, start, es, e)
  {
    Extend(cfg, start, es, e);
    HistoryAppend(Episode(cfg, start, es), true);
  }

  lemma OneMoreSuccess(cfg: Config, start: int, es: seq<Event>, more: seq<Event>, carried: nat, n: nat)
    returns (enter: Event, exit: Event)
    requires CountingUp(cfg, start, es, more, carried, n)
    ensures Within(cfg, start, es, more + [enter])
    ensures WellFormed(cfg, start, es + (more + [enter]) + [exit]) && Clocked(start, es + (more + [enter]) + [exit])
    ensures carried + n + 1 < cfg.successThreshold ==> CountingUp(cfg, start, es, more + [enter] + [exit], carried, n + 1)
    ensures n + 1 < cfg.successThreshold <= carried + n + 1 ==> ClosesEarly(cfg, start, es + (more + [enter]), exit)
  {
    var all := es + more;
    var id, at := NextId(all), all[|all| - 1].at;
    enter, exit := Enter(id, at), Exit(id, at, Succeeded);
    SuccessCall(cfg, start, all, id, at);
    HistoryAppend(Episode(cfg, start, all), true);
    WithinExtend(cfg, start, es, more, enter);
    WithinExtend(cfg, start, es, more + [enter], exit);
    if n + 1 < cfg.successThreshold <= carried + n + 1 {
      Extend(cfg, start, all, enter);
      SuccessCloses(cfg, start, all + [enter], exit);
    }
  }

  lemma SuccessesCloseEarly(cfg: Config, start: int, es: seq<Event>, carried: nat)
    requires HalfOpenRun(cfg, start, es) && Episode(cfg, start, es) == []
    requires Run(cfg, start, es).stats.consecutiveSuccesses == carried >= 1 && cfg.successThreshold >= 2
    ensures CanCloseEarly(cfg, start, es)
  {
    var more, n := [], 0;
    assert es + more == es;
    while carried + n + 1 < cfg.successThreshold
      invariant CountingUp(cfg, start, es, more, carried, n) && n + 1 < cfg.successThreshold
      decreases cfg.successThreshold - n
    {
      var enter, exit := OneMoreSuccess(cfg, start, es, more, carried, n);
      more, n := more + [enter] + [exit], n + 1;
    }
    var enter, exit := OneMoreSuccess(cfg, start, es, more, carried, n);
  }

  /**
   * At the beginning of an episode: some continuation closes it early exactly when the success
   * counter is not 0 and the threshold is above 1.
   */
  lemma {:induction false} EarlyCloseIsExact(cfg: Config, start: int, es: seq<Event>)
    requires HalfOpenRun(cfg, start, es) && Episode(cfg, start, es) == []
    ensures CanCloseEarly(cfg, start, es)
            <==> Run(cfg, start, es).stats.consecutiveSuccesses > 0 && cfg.successThreshold > 1
  {
    var carried := Run(cfg, start, es).stats.consecutiveSuccesses;
    CountersRefineHistory(cfg, start, es);
    RecordedSplits(cfg, start, es);
    assert carried == Carried(cfg, start, es) by {
      assert Before(cfg, start, es) + [] == Before(cfg, start, es);
    }
    if CanCloseEarly(cfg, start, es) {
      var more, e :| Within(cfg, start, es, more) && WellFormed(cfg, start, es + more + [e])
        && Clocked(start, es + more + [e]) && ClosesEarly(cfg, start, es + more, e);
      ClosesEarlyExactly(cfg, start, es + more, e);
      CarriedStays(cfg, start, es, more);
    } else if carried > 0 && cfg.successThreshold > 1 {
      SuccessesCloseEarly(cfg, start, es, carried);
    }
  }

  /** A failure as the first recorded outcome reopens exactly when the failures before it are one short of the threshold. */
  lemma FirstFailureExactly(cfg: Config, start: int, es: seq<Event>, id: nat, now: int)
    requires Run(cfg, start, es).state.HALF_OPEN? && Episode(cfg, start, es) == []
    ensures Run(cfg, start, es + [Exit(id, now, Triggered)]).state.OPEN?
            <==> Trail(Recorded(es), false) >= cfg.failureThreshold - 1
    ensures Trail(Recorded(es), false) == Run(cfg, start, es).stats.consecutiveFailures
  {
    OpensExactly(cfg, start, es, Exit(id, now, Triggered));
    CountersRefineHistory(cfg, start, es);
    assert (es + [Exit(id, now, Triggered)])[..|es|] == es;
    HistoryAppend(Recorded(es), false);
  }

  // ---------- For which thresholds overlap matters ----------

  /** Calls 0 to n are inside, and k of them have failed, at time 0. */
  ghost predicate Failing(cfg: Config, es: seq<Event>, n: nat, k: nat) {
    var b := Run(cfg, 0, es);
    && WellFormed(cfg, 0, es) && (forall i :: 0 <= i < |es| ==> es[i].at == 0)
    && (forall i: nat :: i in Entered(es) <==> i <= n)
    && (forall i: nat :: i in InFlight(cfg, 0, es) <==> k <= i <= n)
    && b.stats.changedAt == 0 && b.stats.consecutiveFailures == k && b.stats.consecutiveSuccesses == 0
    && (if k < n then b.state.CLOSED? else b.state.OPEN?)
  }

  lemma AllEnter(cfg: Config, n: nat) returns (es: seq<Event>)
    requires n >= 1
    ensures Failing(cfg, es, n, 0)
  {
    es := [];
    for k := 0 to n + 1
      invariant WellFormed(cfg, 0, es) && Run(cfg, 0, es) == Init(0)
      invariant forall i: nat :: i in Entered(es) <==> i < k
      invariant InFlight(cfg, 0, es) == Entered(es)
      invariant forall i :: 0 <= i < |es| ==> es[i].at == 0
    {
      Extend(cfg, 0, es, Enter(k, 0));
      es := es + [Enter(k, 0)];
    }
  }

  lemma OneFails(cfg: Config, es: seq<Event>, n: nat, k: nat)
    requires Failing(cfg, es, n, k) && k < n && cfg.failureThreshold <= n && (n == 1 || n == cfg.failureThreshold)
    ensures Failing(cfg, es + [Exit(k, 0, Triggered)], n, k + 1)
  {
    Extend(cfg, 0, es, Exit(k, 0, Triggered));
  }

  /** An episode that begins with one success, recorded while the breaker was open, and no failures. */
  ghost predicate CarriesSuccess(cfg: Config, es: seq<Event>, inside: nat) {
    var b := Run(cfg, 0, es);
    && HalfOpenRun(cfg, 0, es) && Episode(cfg, 0, es) == [] && inside in InFlight(cfg, 0, es)
    && b.stats.consecutiveSuccesses == 1 && b.stats.consecutiveFailures == 0
  }

  lemma OverlapCarries(cfg: Config) returns (es: seq<Event>, inside: nat)
    ensures CarriesSuccess(cfg, es, inside)
  {
    var n := if cfg.failureThreshold > 1 then cfg.failureThreshold else 1;
    es := AllEnter(cfg, n);
    for k := 0 to n
      invariant Failing(cfg, es, n, k)
    {
      OneFails(cfg, es, n, k);
      es := es + [Exit(k, 0, Triggered)];
    }
    inside := n + 1;
    SuccessThenEnter(cfg, es, n);
    es := es + [Exit(n, 0, Succeeded)] + [Enter(inside, if cfg.timeoutDuration > 0 then cfg.timeoutDuration else 0)];
  }

  lemma SuccessThenEnter(cfg: Config, es: seq<Event>, n: nat)
    requires Failing(cfg, es, n, n)
    ensures var at := if cfg.timeoutDuration > 0 then cfg.timeoutDuration else 0;
            CarriesSuccess(cfg, es + [Exit(n, 0, Succeeded)] + [Enter(n + 1, at)], n + 1)
  {
    var at := if cfg.timeoutDuration > 0 then cfg.timeoutDuration else 0;
    var es1 := es + [Exit(n, 0, Succeeded)];
    Extend(cfg, 0, es, Exit(n, 0, Succeeded));
    Extend(cfg, 0, es1, Enter(n + 1, at));
    assert Clocked(0, es1 + [Enter(n + 1, at)]);
  }

  /** With these thresholds no run that can happen closes early. */
  ghost predicate NeverClosesEarly(cfg: Config) {
    forall es, e :: WellFormed(cfg, 0, es + [e]) && Clocked(0, es + [e]) ==> !ClosesEarly(cfg, 0, es, e)
  }

  lemma NeverClosesEarlyExactly(cfg: Config)
    ensures NeverClosesEarly(cfg) <==> cfg.successThreshold <= 1
  {
    if cfg.successThreshold <= 1 {
      forall es, e | WellFormed(cfg, 0, es + [e]) && Clocked(0, es + [e]) ensures !ClosesEarly(cfg, 0, es, e) {
        ClosesEarlyExactly(cfg, 0, es, e);
      }
    } else {
      var es, _ := OverlapCarries(cfg);
      EarlyCloseIsExact(cfg, 0, es);
      var more, e :| Within(cfg, 0, es, more) && WellFormed(cfg, 0, es + more + [e])
        && Clocked(0, es + more + [e]) && ClosesEarly(cfg, 0, es + more, e);
    }
  }

  /** The first recorded outcome of an episode can come from this call now. */
  ghost predicate FirstOutcomeOf(cfg: Config, es: seq<Event>, id: nat, now: int) {
    && HalfOpenRun(cfg, 0, es) && Episode(cfg, 0, es) == []
    && id in InFlight(cfg, 0, es) && es[|es| - 1].at <= now
  }

  /** With these thresholds a failure as the first recorded outcome reopens in every run that can happen. */
  ghost predicate FirstFailureAlwaysReopens(cfg: Config) {
    forall es, id, now :: FirstOutcomeOf(cfg, es, id, now) ==> Run(cfg, 0, es + [Exit(id, now, Triggered)]).state.OPEN?
  }

  lemma FirstFailureAlwaysReopensExactly(cfg: Config)
    ensures FirstFailureAlwaysReopens(cfg) <==> cfg.failureThreshold <= 1
  {
    if cfg.failureThreshold <= 1 {
      forall es, id, now | FirstOutcomeOf(cfg, es, id, now)
        ensures Run(cfg, 0, es + [Exit(id, now, Triggered)]).state.OPEN?
      {
        FirstFailureExactly(cfg, 0, es, id, now);
      }
    } else {
      var es, id := OverlapCarries(cfg);
      var now := es[|es| - 1].at;
      FirstFailureExactly(cfg, 0, es, id, now);
      assert FirstOutcomeOf(cfg, es, id, now) && !Run(cfg, 0, es + [Exit(id, now, Triggered)]).state.OPEN?;
    }
  }

  // ---------- The opening rate is attained ----------

  /** A run without overlap in which nobody is inside. */
  ghost predicate Quiet(cfg: Config, es: seq<Event>) {
    WellFormed(cfg, 0, es) && Sequential(cfg, 0, es) && InFlight(cfg, 0, es) == {}
  }

  lemma FailingCall(cfg: Config, es: seq<Event>, id: nat, at: int)
    requires Quiet(cfg, es) && Admits(cfg, Run(cfg, 0, es), at) && id >= NextId(es)
    ensures var es' := es + [Enter(id, at)] + [Exit(id, at, Triggered)];
            var b' := Fail(cfg, Check(cfg, Run(cfg, 0, es), at), at);
            && Run(cfg, 0, es') == b' && Quiet(cfg, es') && NextId(es') == id + 1
            && Openings(cfg, 0, es') == Openings(cfg, 0, es) + if b'.state.OPEN? then [at] else []
  {
    var mid := es + [Enter(id, at)];
    EnteredBelow(es);
    Extend(cfg, 0, es, Enter(id, at));
    Extend(cfg, 0, mid, Exit(id, at, Triggered));
    var es' := mid + [Exit(id, at, Triggered)];
    assert mid[..|es|] == es && es'[..|mid|] == mid;
  }

  /** Enough failures at time 0, then one failing call each time the timeout has passed. */
  lemma FirstOpening(cfg: Config) returns (es: seq<Event>)
    requires cfg.failureThreshold >= 1
    ensures Quiet(cfg, es)
    ensures es != [] && forall i :: 0 <= i < |es| ==> es[i].at == 0
    ensures var b := Run(cfg, 0, es);
            b.state.OPEN? && b.stats.changedAt == 0 && b.stats.consecutiveFailures >= cfg.failureThreshold
    ensures |Openings(cfg, 0, es)| == 1
  {
    es := [];
    for k := 0 to cfg.failureThreshold
      invariant Quiet(cfg, es) && NextId(es) == k
      invariant k > 0 ==> es != []
      invariant forall i :: 0 <= i < |es| ==> es[i].at == 0
      invariant var b := Run(cfg, 0, es);
                && b.stats.consecutiveFailures == k && b.stats.changedAt == 0
                && if k < cfg.failureThreshold then b.state.CLOSED? && Openings(cfg, 0, es) == []
                   else b.state.OPEN? && |Openings(cfg, 0, es)| == 1
    {
      FailingCall(cfg, es, k, 0);
      es := es + [Enter(k, 0)] + [Exit(k, 0, Triggered)];
    }
  }

  /** For every timeout and every n there is a run of length (n - 1) * timeout that opens n times. */
  lemma {:induction false} OpeningRateIsAttained(cfg: Config, n: nat) returns (es: seq<Event>)
    requires cfg.failureThreshold >= 1 && cfg.timeoutDuration > 0 && n >= 1
    ensures WellFormed(cfg, 0, es) && Sequential(cfg, 0, es) && Clocked(0, es)
    ensures es != [] && es[|es| - 1].at == (n - 1) * cfg.timeoutDuration
    ensures |Openings(cfg, 0, es)| == n
  {
    var t := cfg.timeoutDuration;
    es := FirstOpening(cfg);
    var now := 0;
    for k := 1 to n
      invariant now == (k - 1) * t && now >= 0
      invariant Quiet(cfg, es)
      invariant Clocked(0, es) && es != [] && es[|es| - 1].at == now
      invariant var b := Run(cfg, 0, es);
                b.state.OPEN? && b.stats.changedAt == now && b.stats.consecutiveFailures >= cfg.failureThreshold
      invariant |Openings(cfg, 0, es)| == k
    {
      now := now + t;
      var id := NextId(es);
      FailingCall(cfg, es, id, now);
      ClockedExtend(es, [Enter(id, now)] + [Exit(id, now, Triggered)], now);
      assert es + [Enter(id, now)] + [Exit(id, now, Triggered)] == es + ([Enter(id, now)] + [Exit(id, now, Triggered)]);
      es := es + [Enter(id, now)] + [Exit(id, now, Triggered)];
    }
  }

  lemma ClockedExtend(es: seq<Event>, more: seq<Event>, now: int)
    requires Clocked(0, es) && es != [] && es[|es| - 1].at <= now
    requires forall i :: 0 <= i < |more| ==> more[i].at == now
    ensures Clocked(0, es + more)
  {
  }

  // ---------- The class ----------

  /** What a call of the wrapped function does: return, raise a trigger exception, or raise another. */
  datatype Attempt = Returned(value: int) | TriggerError(error: int) | OtherError(error: int)

  /** What the caller of `call` sees; the function may never have run. */
  datatype CallResult = Rejected | Value(value: int) | NoValue | Raised(error: int)

  /** The delays before retries 1 to n. */
  function Delays(factor: real, n: nat): real {
    if n == 0 then 0.0 else Delays(factor, n - 1) + Power(factor, n - 1)
  }

  /** The geometric sum; at factor 2 the total is 2^n - 1. */
  lemma {:induction false} TotalDelay(factor: real, n: nat)
    ensures Delays(factor, n) * (factor - 1.0) == Power(factor, n) - 1.0
    ensures factor == 2.0 ==> Delays(factor, n) == Power(2.0, n) - 1.0
  {
    if n > 0 {
      TotalDelay(factor, n - 1);
    }
  }

  /** Attempts 0 to k - 1 all raised trigger exceptions. */
  ghost predicate AllTrigger(attempts: nat -> Attempt, k: nat) {
    forall i :: 0 <= i < k ==> attempts(i).TriggerError?
  }

  /**
   * What the retry loop does with n permitted attempts: stop at the first attempt that is not a
   * trigger failure, or after the last; n <= 0 leaves without running the function.
   */
  ghost predicate LoopMeaning(attempts: nat -> Attempt, n: int, factor: real,
                              outcome: Outcome, result: CallResult, invoked: nat, slept: real) {
    if n <= 0 then
      outcome.Succeeded? && result.NoValue? && invoked == 0 && slept == 0.0
    else
      && 1 <= invoked <= n && AllTrigger(attempts, invoked - 1) && slept == Delays(factor, invoked - 1)
      && match attempts(invoked - 1)
         case Returned(v) => outcome.Succeeded? && result == Value(v)
         case OtherError(e) => outcome.Ignored? && result == Raised(e)
         case TriggerError(e) => invoked == n && outcome.Triggered? && result == Raised(e)
  }

  class CircuitBreaker {
    const config: Config
    const maxRetryAttempts: int
    const backoffFactor: real
    var state: BreakerState
    var stats: Stats

    function State(): Breaker
      reads this
    {
      Breaker(state, stats)
    }

    constructor (config: Config, maxRetryAttempts: int, backoffFactor: real, now: int)
      ensures State() == Init(now)
      ensures this.config == config && this.maxRetryAttempts == maxRetryAttempts && this.backoffFactor == backoffFactor
    {
      this.config := config;
      this.maxRetryAttempts := maxRetryAttempts;
      this.backoffFactor := backoffFactor;
      state := CLOSED;
      stats := Stats(0, 0, 0, 0, 0, None, None, now, 0);
    }

    method ChangeState(newState: BreakerState, now: int)
      modifies this
      ensures State() == Change(old(State()), newState, now)
    {
      state := newState;
      stats := stats.(changedAt := now, changes := stats.changes + 1);
    }

    method CheckState(now: int) returns (admitted: bool)
      modifies this
      ensures State() == Check(config, old(State()), now)
      ensures admitted <==> old(state) != OPEN || now - old(stats.changedAt) >= config.timeoutDuration
      ensures old(state) == OPEN && admitted ==> state == HALF_OPEN && stats.changedAt == now
      ensures !(old(state) == OPEN && admitted) ==> state == old(state) && stats == old(stats)
    {
      if state == OPEN {
        if now - stats.changedAt >= config.timeoutDuration {
          ChangeState(HALF_OPEN, now);
        } else {
          return false;
        }
      }
      return true;
    }

    method RecordSuccess(now: int)
      modifies this
      ensures State() == Succeed(config, old(State()), now)
    {
      stats := stats.(total := stats.total + 1, successful := stats.successful + 1,
                      consecutiveSuccesses := stats.consecutiveSuccesses + 1,
                      consecutiveFailures := 0, lastSuccess := Some(now));
      if state == HALF_OPEN && stats.consecutiveSuccesses >= config.successThreshold {
        ChangeState(CLOSED, now);
      }
    }

    method RecordFailure(now: int)
      modifies this
      ensures State() == Fail(config, old(State()), now)
    {
      stats := stats.(total := stats.total + 1, failed := stats.failed + 1,
                      consecutiveFailures := stats.consecutiveFailures + 1,
                      consecutiveSuccesses := 0, lastFailure := Some(now));
      if state in [CLOSED, HALF_OPEN] && stats.consecutiveFailures >= config.failureThreshold {
        ChangeState(OPEN, now);
      }
    }

    /** The retry loop inside `call`; attempt i of the function does what `attempts(i)` says. */
    method Retry(attempts: nat -> Attempt) returns (outcome: Outcome, result: CallResult, invoked: nat, slept: real)
      ensures LoopMeaning(attempts, maxRetryAttempts, backoffFactor, outcome, result, invoked, slept)
    {
      invoked, slept := 0, 0.0;
      while invoked < maxRetryAttempts
        invariant invoked == 0 || invoked < maxRetryAttempts
        invariant AllTrigger(attempts, invoked)
        invariant slept == Delays(backoffFactor, invoked)
        decreases maxRetryAttempts - invoked
      {
        var attempt := attempts(invoked);
        invoked := invoked + 1;
        match attempt {
          case Returned(value) =>
            return Succeeded, Value(value), invoked, slept;
          case TriggerError(error) =>
            if invoked < maxRetryAttempts {
              slept := slept + Power(backoffFactor, invoked - 1);
            } else {
              return Triggered, Raised(error), invoked, slept;
            }
          case OtherError(error) =>
            return Ignored, Raised(error), invoked, slept;
        }
      }
      return Succeeded, NoValue, invoked, slept;
    }

    /** `call`, when nothing else touches the breaker meanwhile. */
    method Call(attempts: nat -> Attempt, enterAt: int, exitAt: int)
      returns (result: CallResult, ghost outcome: Outcome, invoked: nat, slept: real)
      modifies this
      ensures old(state) == OPEN && enterAt - old(stats.changedAt) < config.timeoutDuration ==>
                result.Rejected? && invoked == 0 && State() == old(State())
      ensures old(state) != OPEN || enterAt - old(stats.changedAt) >= config.timeoutDuration ==>
                && LoopMeaning(attempts, maxRetryAttempts, backoffFactor, outcome, result, invoked, slept)
                && State() == Step(config, Check(config, old(State()), enterAt), Exit(0, exitAt, outcome))
    {
      var admitted := CheckState(enterAt);
      if !admitted {
        return Rejected, Ignored, 0, 0.0;
      }
      var how: Outcome;
      how, result, invoked, slept := Retry(attempts);
      outcome := how;
      match how {
        case Succeeded => RecordSuccess(exitAt);
        case Triggered => RecordFailure(exitAt);
        case Ignored =>
      }
    }
  }

  /** An admitted call runs the function at most n times and backs off at most 2^(n-1) - 1 seconds at factor 2. */
  lemma CallIsBounded(attempts: nat -> Attempt, n: int, outcome: Outcome, result: CallResult, invoked: nat, slept: real)
    requires n >= 1 && LoopMeaning(attempts, n, 2.0, outcome, result, invoked, slept)
    ensures 1 <= invoked <= n && slept <= Power(2.0, n - 1) - 1.0
    ensures outcome.Succeeded? <==> exists i :: 0 <= i < n && attempts(i).Returned? && AllTrigger(attempts, i)
    ensures outcome.Triggered? <==> AllTrigger(attempts, n)
  {
    TotalDelay(2.0, invoked - 1);
    PowerMonotone(invoked - 1, n - 1);
    if outcome.Succeeded? {
      assert attempts(invoked - 1).Returned? && AllTrigger(attempts, invoked - 1);
    }
    if outcome.Triggered? {
      assert attempts(n - 1).TriggerError?;
    }
  }
}
