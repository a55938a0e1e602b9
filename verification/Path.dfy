/** The path state of one peer: Unknown, Direct or Relay.

    Time is in nanoseconds since the epoch and is always an argument: each event carries the clock
    readings that the code takes while handling it. */
module Paths {
  import opened Prelude
  import opened Transport

  const MILLISECOND := 1_000_000
  const DIRECT_PROBE_INTERVAL := 5_000 * MILLISECOND
  const DIRECT_FAST_PROBE_INTERVAL := 250 * MILLISECOND
  const DIRECT_FAST_PROBE_BURST_ATTEMPTS: byte := 8
  const DIRECT_PROBE_STALE_AFTER := 15_000 * MILLISECOND
  const DIRECT_PROBE_FAILURE_THRESHOLD := 3

  datatype PathKind = UnknownPath | DirectPath | RelayPath

  datatype PathState = PathState(
    current: PathKind,
    active: Option<Endpoint>,
    lastProbeAt: Option<nat>,
    lastSuccessAt: Option<nat>,
    lastProbeSentMillis: Option<nat>,
    fastProbesLeft: byte,
    failures: u32,
    rttMs: Option<u64>)

  const DEFAULT_PATH :=
    PathState(UnknownPath, None, None, None, None, DIRECT_FAST_PROBE_BURST_ATTEMPTS, 0, None)

  /** The endpoint recorded for a relayed path; it does not depend on the relay. */
  const RELAY_ENDPOINT := Endpoint(EndpointKind.Relay, V4(0, 0, 0, 0), 0, Tcp)

  function SaturatingSucc(n: u32): (r: u32)
    ensures r >= n
  {
    if n == U32_LIMIT - 1 then n else n + 1
  }

  /** At least `interval` has passed since `since`; also true when that moment was never recorded or,
      the clock having been set back, lies in the future. */
  predicate Overdue(since: Option<nat>, now: nat, interval: nat)
  {
    since.None? || now < since.value || now - since.value >= interval
  }

  predicate Fast(s: PathState)
  {
    !s.current.DirectPath? && s.fastProbesLeft > 0
  }

  predicate ProbeDue(s: PathState, now: nat)
  {
    Overdue(s.lastProbeAt, now, if Fast(s) then DIRECT_FAST_PROBE_INTERVAL else DIRECT_PROBE_INTERVAL)
  }

  /** A completed probe round. */
  function Probed(s: PathState, sentMillis: nat, finishedAt: nat): (s': PathState)
  {
    s.(lastProbeAt := Some(finishedAt),
       lastProbeSentMillis := Some(sentMillis),
       fastProbesLeft := if s.fastProbesLeft > 0 then s.fastProbesLeft - 1 else 0,
       failures := if s.current.DirectPath? then s.failures else SaturatingSucc(s.failures))
  }

  function MarkedDirect(s: PathState, now: nat, endpoint: Endpoint, rttMs: Option<u64>): (s': PathState)
  {
    s.(current := DirectPath, active := Some(endpoint), lastSuccessAt := Some(now),
       failures := 0, rttMs := rttMs, fastProbesLeft := 0)
  }

  predicate Stale(s: PathState, now: nat)
  {
    Overdue(s.lastSuccessAt, now, DIRECT_PROBE_STALE_AFTER)
  }

  function Expired(s: PathState, now: nat, haveRelays: bool): (s': PathState)
  {
    if !s.current.DirectPath? then s else
    var failures := if Stale(s, now) then SaturatingSucc(s.failures) else s.failures;
    if failures < DIRECT_PROBE_FAILURE_THRESHOLD then s.(failures := failures)
    else s.(current := if haveRelays then RelayPath else UnknownPath,
            active := if haveRelays then Some(RELAY_ENDPOINT) else None,
            failures := failures, rttMs := None,
            fastProbesLeft := DIRECT_FAST_PROBE_BURST_ATTEMPTS)
  }

  // ---------------------------------------------------------------- invariant

  predicate PathOk(s: PathState)
  {
    && (s.current.DirectPath? ==>
          && s.failures < DIRECT_PROBE_FAILURE_THRESHOLD && s.fastProbesLeft == 0
          && s.lastSuccessAt.Some? && s.active.Some? && s.active.value.protocol.Udp?)
    && (s.current.RelayPath? ==>
          && s.failures >= DIRECT_PROBE_FAILURE_THRESHOLD && s.lastSuccessAt.Some?
          && s.active == Some(RELAY_ENDPOINT))
    && (s.current.UnknownPath? ==> s.active.None?)
    && (s.rttMs.Some? ==> s.current.DirectPath?)
    && s.fastProbesLeft <= DIRECT_FAST_PROBE_BURST_ATTEMPTS
  }

  // ---------------------------------------------------------------- runs of one peer's path

  /** What can happen to one peer's path: an expiry pass, a probe that is completed if it is due when
      checked, and an authenticated answer. */
  datatype PathEvent =
    | Expire(now: nat, haveRelays: bool)
    | Probe(checkedAt: nat, sentMillis: nat, finishedAt: nat)
    | Answer(now: nat, endpoint: Endpoint, rttMs: Option<u64>)

  function Apply(s: PathState, e: PathEvent): (s': PathState)
  {
    match e
    case Expire(now, haveRelays) => Expired(s, now, haveRelays)
    case Probe(checkedAt, sentMillis, finishedAt) =>
      if ProbeDue(s, checkedAt) then Probed(s, sentMillis, finishedAt) else s
    case Answer(now, endpoint, rttMs) => MarkedDirect(s, now, endpoint, rttMs)
  }

  function Run(s: PathState, events: seq<PathEvent>): (s': PathState)
    decreases |events|
  {
    if events == [] then s else Run(Apply(s, events[0]), events[1..])
  }

  lemma {:induction false} RunConcat(s: PathState, a: seq<PathEvent>, b: seq<PathEvent>)
    ensures Run(s, a + b) == Run(Run(s, a), b)
    decreases |a|
  {
    if a == [] {
      assert a + b == b;
    } else {
      RunConcat(Apply(s, a[0]), a[1..], b);
      assert (a + b)[1..] == a[1..] + b;
    }
  }

  ghost predicate UdpAnswers(events: seq<PathEvent>)
  {
    forall e :: e in events && e.Answer? ==> e.endpoint.protocol.Udp?
  }

  // ---------------------------------------------------------------- probe budget

  /** A completed round: when it was finished, and whether it was due by the fast interval. */
  datatype Round = Round(finishedAt: nat, fast: bool)

  /** The completed rounds, in order. */
  function Rounds(s: PathState, events: seq<PathEvent>): (rounds: seq<Round>)
    decreases |events|
  {
    if events == [] then []
    else
      var rest := Rounds(Apply(s, events[0]), events[1..]);
      if events[0].Probe? && ProbeDue(s, events[0].checkedAt) then [Round(events[0].finishedAt, Fast(s))] + rest
      else rest
  }

  ghost predicate NeverAnswers(events: seq<PathEvent>)
  {
    forall e :: e in events ==> !e.Answer?
  }

  function Begins(e: PathEvent): (t: nat)
  {
    if e.Probe? then e.checkedAt else e.now
  }

  function Ends(e: PathEvent): (t: nat)
  {
    if e.Probe? then e.finishedAt else e.now
  }

  /** Clock readings never go back, from `start` on. */
  ghost predicate ClockForward(start: nat, events: seq<PathEvent>)
    decreases |events|
  {
    events == [] || (start <= Begins(events[0]) <= Ends(events[0]) && ClockForward(Ends(events[0]), events[1..]))
  }

  lemma {:induction false} ClockFromEarlier(start: nat, later: nat, events: seq<PathEvent>)
    requires ClockForward(later, events) && start <= later
    ensures ClockForward(start, events)
  {
  }

  /** The least time between the first and the n-th round. */
  function Budget(n: nat): (t: int)
    requires n >= 1
  {
    250_000_000 * Min(n - 1, 7) + 5_000_000_000 * Max(0, n - 8)
  }

  lemma {:induction false} BudgetFrom(s: PathState, events: seq<PathEvent>, done: nat, first: nat, i: nat)
    requires NeverAnswers(events) && !s.current.DirectPath? && done >= 1
    requires s.fastProbesLeft <= Max(0, 8 - done)
    requires s.lastProbeAt.Some? && s.lastProbeAt.value >= first + Budget(done)
    requires ClockForward(s.lastProbeAt.value, events) && i < |Rounds(s, events)|
    ensures Rounds(s, events)[i].finishedAt >= first + Budget(done + i + 1)
    decreases |events|
  {
    var e, s' := events[0], Apply(s, events[0]);
    var last := s.lastProbeAt.value;
    assert e in events;
    if e.Probe? && ProbeDue(s, e.checkedAt) {
      assert e.finishedAt >= first + Budget(done + 1);
      if i > 0 {
        BudgetFrom(s', events[1..], done + 1, first, i - 1);
      }
    } else {
      assert s' == s;
      ClockFromEarlier(last, Ends(e), events[1..]);
      BudgetFrom(s, events[1..], done, first, i);
    }
  }

  /** Probe budget. A peer that is not on a direct path and never answers is probed by rounds of which
      the n-th is finished at least 250 ms * min(n-1, 7) + 5 s * max(0, n-8) after the first. */
  lemma {:induction false} ProbeBudget(s: PathState, events: seq<PathEvent>, start: nat, n: nat)
    requires !s.current.DirectPath? && s.fastProbesLeft <= 8
    requires NeverAnswers(events) && ClockForward(start, events)
    requires 1 <= n <= |Rounds(s, events)|
    ensures Rounds(s, events)[n - 1].finishedAt >= Rounds(s, events)[0].finishedAt + Budget(n)
    decreases |events|
  {
    var e := events[0];
    assert e in events;
    if e.Probe? && ProbeDue(s, e.checkedAt) {
      if n > 1 {
        BudgetFrom(Apply(s, e), events[1..], 1, e.finishedAt, n - 2);
      }
    } else {
      ProbeBudget(s, events[1..], Ends(e), n);
    }
  }

  /** How many of the rounds used the fast interval. */
  function FastRounds(rounds: seq<Round>): (n: nat)
  {
    if rounds == [] then 0 else (if rounds[0].fast then 1 else 0) + FastRounds(rounds[1..])
  }

  /** Expiry passes that took the path away from Direct. */
  function Downgrades(s: PathState, events: seq<PathEvent>): (n: nat)
    decreases |events|
  {
    if events == [] then 0
    else
      var s' := Apply(s, events[0]);
      (if s.current.DirectPath? && !s'.current.DirectPath? then 1 else 0) + Downgrades(s', events[1..])
  }

  /** Over any run, whatever the clock does, fast rounds are paid for by the first burst and by
      downgrades: at most eight each. */
  lemma {:induction false} FastRoundsArePaid(s: PathState, events: seq<PathEvent>)
    ensures FastRounds(Rounds(s, events)) <= s.fastProbesLeft + 8 * Downgrades(s, events)
    ensures s == DEFAULT_PATH ==> FastRounds(Rounds(s, events)) <= 8 * (1 + Downgrades(s, events))
    decreases |events|
  {
    if events != [] {
      var s' := Apply(s, events[0]);
      FastRoundsArePaid(s', events[1..]);
      var rest := Rounds(s', events[1..]);
      assert ([Round(Ends(events[0]), Fast(s))] + rest)[1..] == rest;
    }
  }

  lemma {:induction false} RoundsConcat(s: PathState, a: seq<PathEvent>, b: seq<PathEvent>)
    ensures Rounds(s, a + b) == Rounds(s, a) + Rounds(Run(s, a), b)
    ensures Downgrades(s, a + b) == Downgrades(s, a) + Downgrades(Run(s, a), b)
    decreases |a|
  {
    if a == [] {
      assert a + b == b;
    } else {
      RoundsConcat(Apply(s, a[0]), a[1..], b);
      assert (a + b)[1..] == a[1..] + b;
    }
  }

  /** Probing alone leaves the kind of path as it is. */
  lemma {:induction false} ProbesKeepKind(s: PathState, events: seq<PathEvent>)
    requires forall e :: e in events ==> e.Probe?
    ensures Run(s, events).current == s.current && Downgrades(s, events) == 0
    decreases |events|
  {
    if events != [] {
      assert events[0] in events;
      ProbesKeepKind(Apply(s, events[0]), events[1..]);
    }
  }

  // ---------------------------------------------------------------- expiry in closed form

  /** An expiry pass that finds a success at `since` stale: 15 s or more have passed, or the clock now
      reads earlier than it did then. */
  predicate StalePass(since: nat, e: PathEvent)
  {
    e.Expire? && Overdue(Some(since), e.now, DIRECT_PROBE_STALE_AFTER)
  }

  function StalePasses(since: nat, events: seq<PathEvent>): (n: nat)
  {
    if events == [] then 0
    else (if StalePass(since, events[0]) then 1 else 0) + StalePasses(since, events[1..])
  }

  /** Whether relays were known at the n-th stale pass. */
  function RelaysAtStalePass(since: nat, events: seq<PathEvent>, n: nat): (haveRelays: bool)
    requires 1 <= n <= StalePasses(since, events)
  {
    if !StalePass(since, events[0]) then RelaysAtStalePass(since, events[1..], n)
    else if n == 1 then events[0].haveRelays
    else RelaysAtStalePass(since, events[1..], n - 1)
  }

  lemma {:induction false} NotDirectStays(s: PathState, events: seq<PathEvent>)
    requires NeverAnswers(events) && !s.current.DirectPath?
    ensures Run(s, events).current == s.current && Run(s, events).active == s.active
    decreases |events|
  {
    if events != [] {
      assert events[0] in events;
      NotDirectStays(Apply(s, events[0]), events[1..]);
    }
  }

  lemma {:induction false} ExpiryFrom(s: PathState, since: nat, events: seq<PathEvent>)
    requires NeverAnswers(events)
    requires s.current.DirectPath? && s.lastSuccessAt == Some(since) && s.failures < 3
    ensures var s', left, k := Run(s, events), 3 - s.failures, StalePasses(since, events);
            && (k < left ==> s'.current.DirectPath? && s'.failures == s.failures + k && s'.active == s.active)
            && (k < left ==> s'.rttMs == s.rttMs && s'.lastSuccessAt == s.lastSuccessAt)
            && (k >= left ==>
                  s'.current == (if RelaysAtStalePass(since, events, left) then RelayPath else UnknownPath))
    decreases |events|
  {
    if events != [] {
      var s' := Apply(s, events[0]);
      assert events[0] in events;
      if s'.current.DirectPath? {
        ExpiryFrom(s', since, events[1..]);
      } else {
        NotDirectStays(s', events[1..]);
      }
    }
  }

  /** Expiry in closed form. After an answer at `since` and until the next one, the path is Direct
      exactly while fewer than three stale passes have run, and its failure count is their number;
      the third one moves it to Relay if relays are known at that pass and to Unknown otherwise, and
      there it stays. */
  lemma ExpiryClosedForm(s: PathState, since: nat, endpoint: Endpoint, rttMs: Option<u64>, events: seq<PathEvent>)
    requires NeverAnswers(events)
    ensures var s', k := Run(MarkedDirect(s, since, endpoint, rttMs), events), StalePasses(since, events);
            && (s'.current.DirectPath? <==> k < 3)
            && (k < 3 ==> s'.failures == k && s'.active == Some(endpoint))
            && (k >= 3 ==>
                  s'.current == (if RelaysAtStalePass(since, events, 3) then RelayPath else UnknownPath))
            && (k < 3 ==> s'.rttMs == rttMs && s'.lastSuccessAt == Some(since))
  {
    ExpiryFrom(MarkedDirect(s, since, endpoint, rttMs), since, events);
  }

  /** A pass is stale exactly when it runs 15 s or more after the answer, if and only if the clock has
      not been set back before the answer. */
  lemma StaleMeansFifteenSecondsExactlyWhen(since: nat, e: PathEvent)
    requires e.Expire?
    ensures (StalePass(since, e) <==> e.now >= since + 15_000_000_000) <==> e.now >= since
  {
  }

  /** Three passes right after an answer, by a clock that was set back, take the path away from Direct
      although no time has passed. */
  lemma SetBackClockExpires(s: PathState, since: nat, endpoint: Endpoint, rttMs: Option<u64>, now: nat,
                            haveRelays: bool)
    requires now < since
    ensures var pass := Expire(now, haveRelays);
            var s' := Run(MarkedDirect(s, since, endpoint, rttMs), [pass, pass, pass]);
            && pass.now < since + 15_000_000_000
            && s'.current == if haveRelays then RelayPath else UnknownPath
  {
    var pass := Expire(now, haveRelays);
    var passes := [pass, pass, pass];
    assert passes[1..] == [pass, pass] && [pass, pass][1..] == [pass] && [pass][1..] == [];
    assert StalePasses(since, [pass]) == 1 && StalePasses(since, [pass, pass]) == 2;
    assert StalePasses(since, passes) == 3 && RelaysAtStalePass(since, [pass], 1) == haveRelays;
    assert RelaysAtStalePass(since, [pass, pass], 2) == haveRelays;
    ExpiryClosedForm(s, since, endpoint, rttMs, passes);
  }

  /** So throughout a run whose clock goes forward, stale means 15 s. */
  lemma {:induction false} StaleMeansFifteenSeconds(since: nat, events: seq<PathEvent>, i: nat)
    requires ClockForward(since, events) && i < |events| && events[i].Expire?
    ensures StalePass(since, events[i]) <==> events[i].now >= since + 15_000_000_000
    decreases |events|
  {
    if i > 0 {
      ClockFromEarlier(since, Ends(events[0]), events[1..]);
      StaleMeansFifteenSeconds(since, events[1..], i - 1);
    } else {
      StaleMeansFifteenSecondsExactlyWhen(since, events[0]);
    }
  }

  /** Expiry passes that ran 15 s or more after the answer. */
  predicate LatePass(since: nat, e: PathEvent)
  {
    e.Expire? && e.now >= since + 15_000_000_000
  }

  function LatePasses(since: nat, events: seq<PathEvent>): (n: nat)
  {
    if events == [] then 0
    else (if LatePass(since, events[0]) then 1 else 0) + LatePasses(since, events[1..])
  }

  /** Whether relays were known at the n-th late pass. */
  function RelaysAtLatePass(since: nat, events: seq<PathEvent>, n: nat): (haveRelays: bool)
    requires 1 <= n <= LatePasses(since, events)
  {
    if !LatePass(since, events[0]) then RelaysAtLatePass(since, events[1..], n)
    else if n == 1 then events[0].haveRelays
    else RelaysAtLatePass(since, events[1..], n - 1)
  }

  /** While the clock goes forward, the stale passes are the late ones. */
  lemma {:induction false} StalePassesAreLate(since: nat, events: seq<PathEvent>, n: nat)
    requires ClockForward(since, events)
    ensures StalePasses(since, events) == LatePasses(since, events)
    ensures 1 <= n <= StalePasses(since, events) ==>
              RelaysAtStalePass(since, events, n) == RelaysAtLatePass(since, events, n)
    decreases |events|
  {
    if events != [] {
      var e := events[0];
      if e.Expire? {
        StaleMeansFifteenSecondsExactlyWhen(since, e);
      }
      ClockFromEarlier(since, Ends(e), events[1..]);
      StalePassesAreLate(since, events[1..], if StalePass(since, e) && n > 0 then n - 1 else n);
    }
  }

  // ---------------------------------------------------------------- what rounds leave behind

  /** The rounds since the start or the last downgrade, when k came before. */
  function BurstRounds(s: PathState, events: seq<PathEvent>, k: nat): (n: nat)
    decreases |events|
  {
    if events == [] then k
    else
      var s' := Apply(s, events[0]);
      var k' := if s.current.DirectPath? && !s'.current.DirectPath? then 0 else k + |Rounds(s, [events[0]])|;
      BurstRounds(s', events[1..], k')
  }

  lemma OneEvent(s: PathState, e: PathEvent)
    ensures Run(s, [e]) == Apply(s, e)
    ensures Rounds(s, [e]) == if e.Probe? && ProbeDue(s, e.checkedAt) then [Round(e.finishedAt, Fast(s))] else []
  {
    var s' := Apply(s, e);
    assert [e][1..] == [] && Run(s', []) == s' && Rounds(s', []) == [];
  }

  /** A completed round leaves its time stamp behind, and nothing else does. */
  lemma StampIsRecorded(s: PathState, e: PathEvent)
    ensures Rounds(s, [e]) == [] ==> Run(s, [e]).lastProbeSentMillis == s.lastProbeSentMillis
    ensures Rounds(s, [e]) != [] ==> e.Probe? && Run(s, [e]).lastProbeSentMillis == Some(e.sentMillis)
  {
    OneEvent(s, e);
  }

  /** Off the direct path, the fast probes left are eight less the rounds of the burst. */
  lemma {:induction false} FastLeft(s: PathState, events: seq<PathEvent>, k: nat)
    requires !s.current.DirectPath? ==> s.fastProbesLeft == Max(0, 8 - k)
    ensures var s' := Run(s, events);
            !s'.current.DirectPath? ==> s'.fastProbesLeft == Max(0, 8 - BurstRounds(s, events, k))
    decreases |events|
  {
    if events != [] {
      var e, s' := events[0], Apply(s, events[0]);
      OneEvent(s, e);
      var k' := if s.current.DirectPath? && !s'.current.DirectPath? then 0 else k + |Rounds(s, [e])|;
      FastLeft(s', events[1..], k');
    }
  }

  /** The time of the latest round is on record. */
  lemma {:induction false} LastRound(s: PathState, events: seq<PathEvent>)
    ensures var rounds := Rounds(s, events);
            Run(s, events).lastProbeAt
            == if rounds == [] then s.lastProbeAt else Some(rounds[|rounds| - 1].finishedAt)
    decreases |events|
  {
    if events != [] {
      LastRound(Apply(s, events[0]), events[1..]);
    }
  }

  /** Off the direct path and without an answer, every round is a failure more, up to 2^32 - 1. */
  lemma {:induction false} FailuresCountRounds(s: PathState, events: seq<PathEvent>)
    requires NeverAnswers(events) && !s.current.DirectPath?
    ensures Run(s, events).failures == Min(0xFFFF_FFFF, s.failures + |Rounds(s, events)|)
    decreases |events|
  {
    if events != [] {
      assert events[0] in events;
      FailuresCountRounds(Apply(s, events[0]), events[1..]);
    }
  }

  lemma {:induction false} BurstConcat(s: PathState, a: seq<PathEvent>, b: seq<PathEvent>, k: nat)
    ensures BurstRounds(s, a + b, k) == BurstRounds(Run(s, a), b, BurstRounds(s, a, k))
    decreases |a|
  {
    if a == [] {
      assert a + b == b;
    } else {
      var s' := Apply(s, a[0]);
      var k' := if s.current.DirectPath? && !s'.current.DirectPath? then 0 else k + |Rounds(s, [a[0]])|;
      BurstConcat(s', a[1..], b, k');
      assert (a + b)[1..] == a[1..] + b;
    }
  }

  lemma {:induction false} ProbesAddToBurst(s: PathState, events: seq<PathEvent>, k: nat)
    requires forall e :: e in events ==> e.Probe?
    ensures BurstRounds(s, events, k) == k + |Rounds(s, events)|
    decreases |events|
  {
    if events != [] {
      assert events[0] in events;
      OneEvent(s, events[0]);
      ProbesAddToBurst(Apply(s, events[0]), events[1..], k + |Rounds(s, [events[0]])|);
    }
  }
}
