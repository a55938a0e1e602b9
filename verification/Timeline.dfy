/** The path of each peer, read off the runs of a runtime: which received frames move it, and which probe
    rounds the runtime completes. */
module Timelines {
  import opened Prelude
  import opened Nonces
  import opened Frames
  import opened Crypto
  import opened Transport
  import opened Paths
  import opened Runtimes
  import opened RuntimeRuns

  // ---------------------------------------------------------------- the answer a frame gives

  /** The event an opened message is for the path of the device that sent it, if it marks it Direct:
      a probe whose response goes out, or a response, received over UDP. */
  function DispatchAnswer(platform: Platform, rt: Runtime, device: DeviceId, message: OpenFrame,
                          source: Option<SocketAddr>,
                          clock: Clock, sendOk: bool): (a: Option<PathEvent>)
    requires device in rt.sessions
  {
    if source.None? then None
    else if message.messageType == FRAME_TYPE_PROBE then
      var payload := Probes.ProbeResponsePayload(message.plaintext, clock.millis);
      if SealMessage(platform.suite, rt.sessions[device].crypto, payload, FRAME_TYPE_PROBE_RESPONSE).1.Ok?
         && rt.transportBound && sendOk
      then Some(Answer(clock.now, DirectEndpoint(source.value), None)) else None
    else if message.messageType != FRAME_TYPE_PROBE_RESPONSE then None
    else
      Some(Answer(clock.now, DirectEndpoint(source.value), Probes.ProbeResponseRttMs(message.plaintext, clock.millis)))
  }

  /** The peer whose path a received frame marks Direct, with the event it is for that path. */
  function Answered(platform: Platform, rt: Runtime, frame: Bytes, source: Option<SocketAddr>, clock: Clock,
                    sendOk: bool)
    : (a: Option<(DeviceId, PathEvent)>)
  {
    match DecodeFrame(frame)
    case Err(_) => None
    case Ok(decoded) =>
      if decoded.header.source !in rt.deviceByFrameId then None else
      var device := rt.deviceByFrameId[decoded.header.source];
      if device !in rt.sessions then None else
      var (crypto, result) := OpenMessage(platform.suite, rt.sessions[device].crypto, frame);
      if result.Err? then None else
      match DispatchAnswer(platform, WithCrypto(rt, device, crypto), device, result.value, source, clock, sendOk)
      case None => None
      case Some(answer) => Some((device, answer))
  }

  /** The device whose session opens the frame. */
  function OpenedBy(platform: Platform, rt: Runtime, frame: Bytes): (device: Option<DeviceId>)
  {
    match DecodeFrame(frame)
    case Err(_) => None
    case Ok(decoded) =>
      if decoded.header.source !in rt.deviceByFrameId then None else
      var device := rt.deviceByFrameId[decoded.header.source];
      if device in rt.sessions && OpenMessage(platform.suite, rt.sessions[device].crypto, frame).1.Ok? then Some(device)
      else None
  }

  lemma DispatchPaths(platform: Platform, rt: Runtime, device: DeviceId, message: OpenFrame, source: Option<SocketAddr>,
                      clock: Clock, sendOk: bool)
    requires device in rt.sessions
    ensures var (rt', r, _) := Dispatch(platform, rt, device, message, source, clock, sendOk);
            match DispatchAnswer(platform, rt, device, message, source, clock, sendOk)
            case None => rt'.paths == rt.paths
            case Some(answer) =>
              && rt'.paths == rt.paths[device := Apply(PathOf(rt, device), answer)]
              && r == Ok(None) && source.Some?
              && (message.messageType == FRAME_TYPE_PROBE || message.messageType == FRAME_TYPE_PROBE_RESPONSE)
              && answer.Answer? && answer.endpoint.protocol.Udp?
  {
    hide SealMessage, MarkedDirect, Probes.ProbeResponsePayload, Probes.ProbeResponseRttMs;
  }

  lemma OpenKeepsType(suite: Suite, s: Session, frame: Bytes)
    requires OpenMessage(suite, s, frame).1.Ok?
    ensures DecodeFrame(frame).Ok?
    ensures OpenMessage(suite, s, frame).1.value.messageType == DecodeFrame(frame).value.header.messageType
  {
    OpenEffect(suite, s, frame);
  }

  /** A received frame changes path state only by such an answer: a probe or a response that was received
      over UDP and opened by the session of the device its source id belongs to, and it changes that
      device's path alone. So data frames, frames that came through the relay and rejected frames
      change none. */
  lemma PathsChangeOnlyByAnswers(platform: Platform, rt: Runtime, frame: Bytes, source: Option<SocketAddr>,
                                 clock: Clock, sendOk: bool)
    ensures var (rt', r, _) := OpenReceivedFrame(platform, rt, frame, source, clock, sendOk);
            match Answered(platform, rt, frame, source, clock, sendOk)
            case None => rt'.paths == rt.paths
            case Some((device, answer)) =>
              && rt'.paths == rt.paths[device := Apply(PathOf(rt, device), answer)]
              && r == Ok(None) && source.Some? && DecodeFrame(frame).Ok?
              && OpenedBy(platform, rt, frame) == Some(device)
              && answer.Answer? && answer.endpoint.protocol.Udp?
              && var header := DecodeFrame(frame).value.header;
                 && header.source in rt.deviceByFrameId && rt.deviceByFrameId[header.source] == device
                 && (header.messageType == FRAME_TYPE_PROBE || header.messageType == FRAME_TYPE_PROBE_RESPONSE)
  {
    hide OpenMessage, DecodeFrame, Dispatch, DispatchAnswer, Apply, AcceptCounter, HeaderBytes;
    if DecodeFrame(frame).Ok? && DecodeFrame(frame).value.header.source in rt.deviceByFrameId {
      var device := rt.deviceByFrameId[DecodeFrame(frame).value.header.source];
      if device in rt.sessions {
        var (crypto, r) := OpenMessage(platform.suite, rt.sessions[device].crypto, frame);
        if r.Ok? {
          OpenKeepsType(platform.suite, rt.sessions[device].crypto, frame);
          DispatchPaths(platform, WithCrypto(rt, device, crypto), device, r.value, source, clock, sendOk);
        }
      }
    }
  }

  // ---------------------------------------------------------------- one peer's timeline

  function ProbeEvents(platform: Platform, rt: Runtime, i: nat, readings: Readings, device: DeviceId)
    : (events: seq<PathEvent>)
    requires i <= |rt.persisted.peers|
    decreases |rt.persisted.peers| - i
  {
    if i == |rt.persisted.peers| then []
    else
      var rt' := AfterVisit(platform, rt, i, readings);
      match VisitPeer(platform, rt, i, readings)
      case Skipped => ProbeEvents(platform, rt', i + 1, readings, device)
      case CutShort(_, _, _) => []
      case Completed(_, _) =>
        (if rt.persisted.peers[i].deviceId == device
         then [Probe(readings.checkedAt(i), readings.sentMillis(i), readings.finishedAt(i))] else [])
        + ProbeEvents(platform, rt', i + 1, readings, device)
  }

  function AnswerEvents(a: Option<(DeviceId, PathEvent)>, device: DeviceId): (events: seq<PathEvent>)
  {
    if a.Some? && a.value.0 == device then [a.value.1] else []
  }

  /** What one step of the runtime is for one peer's path. */
  function EventsOf(platform: Platform, rt: Runtime, step: Step, device: DeviceId): (events: seq<PathEvent>)
  {
    match step
    case ProbeAll(readings) =>
      var rt' := rt.(paths := ExpireAll(rt.paths, readings.start, rt.relays != []));
      [Expire(readings.start, rt.relays != [])]
      + (if rt.transportBound then ProbeEvents(platform, rt', 0, readings, device) else [])
    case Receive(frame, source, clock, sendOk) =>
      AnswerEvents(Answered(platform, rt, frame, Some(source), clock, sendOk), device)
    case _ => []
  }

  function Timeline(platform: Platform, rt: Runtime, steps: seq<Step>, device: DeviceId): (events: seq<PathEvent>)
    decreases |steps|
  {
    if steps == [] then []
    else EventsOf(platform, rt, steps[0], device) + Timeline(platform, Next(platform, rt, steps[0]), steps[1..], device)
  }

  lemma {:induction false} ProbeFollowsEvents(platform: Platform, rt: Runtime, i: nat, readings: Readings, sent: nat,
                                              device: DeviceId)
    requires Inv(rt) && device in rt.paths && i <= |rt.persisted.peers|
    ensures var rt' := ProbeFrom(platform, rt, i, readings, sent).0;
            && device in rt'.paths
            && rt'.paths[device] == Run(rt.paths[device], ProbeEvents(platform, rt, i, readings, device))
    ensures forall e :: e in ProbeEvents(platform, rt, i, readings, device) ==> e.Probe?
    decreases |rt.persisted.peers| - i
  {
    hide VisitPeer, AfterVisit, Probed, Inv, Expired;
    if i < |rt.persisted.peers| {
      var visited := rt.persisted.peers[i].deviceId;
      PeersHavePaths(rt, i);
      VisitEffect(platform, rt, i, readings);
      VisitInv(platform, rt, i, readings);
      var rt' := AfterVisit(platform, rt, i, readings);
      match VisitPeer(platform, rt, i, readings)
      case Skipped =>
        ProbeFollowsEvents(platform, rt', i + 1, readings, sent, device);
      case CutShort(_, _, _) =>
      case Completed(_, out) =>
        ProbeFollowsEvents(platform, rt', i + 1, readings, sent + |out|, device);
        if visited == device {
          RunConcat(rt.paths[device], [Probe(readings.checkedAt(i), readings.sentMillis(i), readings.finishedAt(i))],
                    ProbeEvents(platform, rt', i + 1, readings, device));
        } else {
          assert [] + ProbeEvents(platform, rt', i + 1, readings, device)
            == ProbeEvents(platform, rt', i + 1, readings, device);
        }
    }
  }

  lemma StepFollowsEvents(platform: Platform, rt: Runtime, step: Step, device: DeviceId)
    requires Inv(rt) && device in rt.paths
    ensures var rt' := Next(platform, rt, step);
            device in rt'.paths && rt'.paths[device] == Run(rt.paths[device], EventsOf(platform, rt, step, device))
    ensures UdpAnswers(EventsOf(platform, rt, step, device))
  {
    hide SendOverlayPacket, ProbeFrom, OpenReceivedFrame, PeerOk, SessionOk, ProbeEvents, Answered, Probed;
    hide MarkedDirect;
    match step
    case Send(packet, writeOk) => SendIsCryptoOnly(platform, rt, packet, writeOk);
    case ProbeAll(readings) =>
      ExpireInv(rt, readings.start);
      var rt' := rt.(paths := ExpireAll(rt.paths, readings.start, rt.relays != []));
      var expiry := [Expire(readings.start, rt.relays != [])];
      assert Run(rt.paths[device], expiry) == rt'.paths[device];
      if rt.transportBound {
        ProbeFollowsEvents(platform, rt', 0, readings, 0, device);
        RunConcat(rt.paths[device], expiry, ProbeEvents(platform, rt', 0, readings, device));
      } else {
        assert expiry + [] == expiry;
      }
    case Receive(frame, source, clock, sendOk) =>
      PathsChangeOnlyByAnswers(platform, rt, frame, Some(source), clock, sendOk);
    case ReceiveRelayed(message, clock) =>
      if message.FrameMessage? && platform.suite.decodeBase64(message.payload).Some? {
        PathsChangeOnlyByAnswers(platform, rt, platform.suite.decodeBase64(message.payload).value, None, clock, false);
      }
    case SetRelays(_) =>
    case BindTransport(_) =>
  }

  /** The path state of a peer after any run is what its own timeline of expiry passes, completed
      rounds and answers makes of it; so what is proved of timelines holds of the runtime. */
  lemma {:induction false} PathFollowsTimeline(platform: Platform, rt: Runtime, steps: seq<Step>, device: DeviceId)
    requires Inv(rt) && device in rt.paths
    ensures var rt' := Exec(platform, rt, steps);
            device in rt'.paths && rt'.paths[device] == Run(rt.paths[device], Timeline(platform, rt, steps, device))
    ensures UdpAnswers(Timeline(platform, rt, steps, device))
    decreases |steps|
  {
    if steps != [] {
      StepFollowsEvents(platform, rt, steps[0], device);
      NextInv(platform, rt, steps[0]);
      var rt' := Next(platform, rt, steps[0]);
      PathFollowsTimeline(platform, rt', steps[1..], device);
      RunConcat(rt.paths[device], EventsOf(platform, rt, steps[0], device),
                Timeline(platform, rt', steps[1..], device));
    }
  }

  // ---------------------------------------------------------------- the rounds the runtime completes

  /** The rounds that one probing pass completes with a device, from the i-th peer on. */
  function CompletedFrom(platform: Platform, rt: Runtime, i: nat, readings: Readings, device: DeviceId)
    : (rounds: seq<Round>)
    requires i <= |rt.persisted.peers|
    decreases |rt.persisted.peers| - i
  {
    if i == |rt.persisted.peers| then []
    else
      var rt' := AfterVisit(platform, rt, i, readings);
      match VisitPeer(platform, rt, i, readings)
      case Skipped => CompletedFrom(platform, rt', i + 1, readings, device)
      case CutShort(_, _, _) => []
      case Completed(_, _) =>
        (if rt.persisted.peers[i].deviceId == device
         then [Round(readings.finishedAt(i), Fast(PathOf(rt, device)))] else [])
        + CompletedFrom(platform, rt', i + 1, readings, device)
  }

  function CompletedIn(platform: Platform, rt: Runtime, step: Step, device: DeviceId): (rounds: seq<Round>)
  {
    if !step.ProbeAll? || !rt.transportBound then []
    else
      var expired := rt.(paths := ExpireAll(rt.paths, step.readings.start, rt.relays != []));
      CompletedFrom(platform, expired, 0, step.readings, device)
  }

  /** All rounds a run completes with a device. */
  function CompletedRounds(platform: Platform, rt: Runtime, steps: seq<Step>, device: DeviceId): (rounds: seq<Round>)
    decreases |steps|
  {
    if steps == [] then []
    else
      CompletedIn(platform, rt, steps[0], device)
      + CompletedRounds(platform, Next(platform, rt, steps[0]), steps[1..], device)
  }

  /** How many steps of a run take a device's path away from Direct. */
  function LostDirect(platform: Platform, rt: Runtime, steps: seq<Step>, device: DeviceId): (n: nat)
    decreases |steps|
  {
    if steps == [] then 0
    else
      var rt' := Next(platform, rt, steps[0]);
      (if PathOf(rt, device).current.DirectPath? && !PathOf(rt', device).current.DirectPath? then 1 else 0)
      + LostDirect(platform, rt', steps[1..], device)
  }

  /** No frame received in the run marks the device's path Direct. */
  predicate NeverAnswered(platform: Platform, rt: Runtime, steps: seq<Step>, device: DeviceId)
    decreases |steps|
  {
    steps == []
    || (&& AnswerEvents(StepAnswer(platform, rt, steps[0]), device) == []
        && NeverAnswered(platform, Next(platform, rt, steps[0]), steps[1..], device))
  }

  function StepAnswer(platform: Platform, rt: Runtime, step: Step): (a: Option<(DeviceId, PathEvent)>)
  {
    match step
    case Receive(frame, source, clock, sendOk) => Answered(platform, rt, frame, Some(source), clock, sendOk)
    case _ => None
  }

  /** The rounds a pass completes are due, one after the other, in the path state they find. */
  lemma {:induction false} PassRounds(platform: Platform, rt: Runtime, i: nat, readings: Readings, device: DeviceId)
    requires Inv(rt) && device in rt.paths && i <= |rt.persisted.peers|
    ensures Rounds(rt.paths[device], ProbeEvents(platform, rt, i, readings, device))
            == CompletedFrom(platform, rt, i, readings, device)
    decreases |rt.persisted.peers| - i
  {
    hide VisitPeer, AfterVisit, Probed, Inv, ProbeDue, Fast;
    if i < |rt.persisted.peers| {
      var visited := rt.persisted.peers[i].deviceId;
      PeersHavePaths(rt, i);
      VisitEffect(platform, rt, i, readings);
      VisitInv(platform, rt, i, readings);
      var rt' := AfterVisit(platform, rt, i, readings);
      match VisitPeer(platform, rt, i, readings)
      case Skipped => PassRounds(platform, rt', i + 1, readings, device);
      case CutShort(_, _, _) =>
      case Completed(_, _) =>
        PassRounds(platform, rt', i + 1, readings, device);
        var rest := ProbeEvents(platform, rt', i + 1, readings, device);
        if visited == device {
          OneRound(rt.paths[device], Probe(readings.checkedAt(i), readings.sentMillis(i), readings.finishedAt(i)),
                   rest);
        } else {
          assert [] + rest == rest;
        }
    }
  }

  lemma OneRound(s: PathState, e: PathEvent, rest: seq<PathEvent>)
    requires e.Probe? && ProbeDue(s, e.checkedAt)
    ensures Rounds(s, [e] + rest) == [Round(e.finishedAt, Fast(s))] + Rounds(Apply(s, e), rest)
  {
    assert ([e] + rest)[1..] == rest;
  }

  lemma OneExpiry(s: PathState, e: PathEvent)
    requires e.Expire?
    ensures Run(s, [e]) == Expired(s, e.now, e.haveRelays) && Rounds(s, [e]) == []
    ensures Downgrades(s, [e]) == if s.current.DirectPath? && !Run(s, [e]).current.DirectPath? then 1 else 0
  {
    var s' := Apply(s, e);
    assert [e][1..] == [] && Run(s', []) == s' && Rounds(s', []) == [] && Downgrades(s', []) == 0;
  }

  lemma ProbeAllRounds(platform: Platform, rt: Runtime, readings: Readings, device: DeviceId)
    requires Inv(rt) && device in rt.paths
    ensures var events := EventsOf(platform, rt, ProbeAll(readings), device);
            && Rounds(rt.paths[device], events) == CompletedIn(platform, rt, ProbeAll(readings), device)
            && Downgrades(rt.paths[device], events)
               == if rt.paths[device].current.DirectPath? && !Run(rt.paths[device], events).current.DirectPath? then 1
                  else 0
  {
    hide ProbeEvents, CompletedFrom, Inv, Expired;
    var s, e := rt.paths[device], Expire(readings.start, rt.relays != []);
    var rt' := rt.(paths := ExpireAll(rt.paths, readings.start, rt.relays != []));
    ExpireInv(rt, readings.start);
    OneExpiry(s, e);
    var probes := if rt.transportBound then ProbeEvents(platform, rt', 0, readings, device) else [];
    if rt.transportBound {
      ProbeFollowsEvents(platform, rt', 0, readings, 0, device);
      PassRounds(platform, rt', 0, readings, device);
    }
    ProbesKeepKind(Run(s, [e]), probes);
    RoundsConcat(s, [e], probes);
    RunConcat(s, [e], probes);
  }

  lemma StepRounds(platform: Platform, rt: Runtime, step: Step, device: DeviceId)
    requires Inv(rt) && device in rt.paths
    ensures var events, s' := EventsOf(platform, rt, step, device), PathOf(Next(platform, rt, step), device);
            && Rounds(rt.paths[device], events) == CompletedIn(platform, rt, step, device)
            && Downgrades(rt.paths[device], events)
               == if rt.paths[device].current.DirectPath? && !s'.current.DirectPath? then 1 else 0
  {
    hide Next, Answered, Inv, ExpireAll, CompletedFrom, ProbeEvents;
    StepFollowsEvents(platform, rt, step, device);
    if step.ProbeAll? {
      ProbeAllRounds(platform, rt, step.readings, device);
    } else {
      var s, events := rt.paths[device], EventsOf(platform, rt, step, device);
      if events != [] {
        PathsChangeOnlyByAnswers(platform, rt, step.frame, Some(step.source), step.clock, step.sendOk);
        assert events[1..] == [] && Apply(s, events[0]).current.DirectPath?;
        assert Run(Apply(s, events[0]), []) == Apply(s, events[0]);
        assert Rounds(Apply(s, events[0]), []) == [] && Downgrades(Apply(s, events[0]), []) == 0;
      }
    }
  }

  /** The rounds and downgrades of a peer's timeline are, one for one, those of the run. */
  lemma {:induction false} RoundsAreCompleted(platform: Platform, rt: Runtime, steps: seq<Step>, device: DeviceId)
    requires Inv(rt) && device in rt.paths
    ensures var events := Timeline(platform, rt, steps, device);
            && CompletedRounds(platform, rt, steps, device) == Rounds(rt.paths[device], events)
            && LostDirect(platform, rt, steps, device) == Downgrades(rt.paths[device], events)
    decreases |steps|
  {
    hide Next, Inv, EventsOf, CompletedIn;
    if steps != [] {
      var rt' := Next(platform, rt, steps[0]);
      StepFollowsEvents(platform, rt, steps[0], device);
      StepRounds(platform, rt, steps[0], device);
      NextInv(platform, rt, steps[0]);
      RoundsAreCompleted(platform, rt', steps[1..], device);
      RoundsConcat(rt.paths[device], EventsOf(platform, rt, steps[0], device),
                   Timeline(platform, rt', steps[1..], device));
    }
  }

  lemma ProbeAllNeverAnswers(platform: Platform, rt: Runtime, readings: Readings, device: DeviceId)
    requires Inv(rt) && device in rt.paths
    ensures NeverAnswers(EventsOf(platform, rt, ProbeAll(readings), device))
  {
    hide ProbeEvents;
    ExpireInv(rt, readings.start);
    var rt' := rt.(paths := ExpireAll(rt.paths, readings.start, rt.relays != []));
    ProbeFollowsEvents(platform, rt', 0, readings, 0, device);
  }

  lemma StepNeverAnswers(platform: Platform, rt: Runtime, step: Step, device: DeviceId)
    requires Inv(rt) && device in rt.paths && AnswerEvents(StepAnswer(platform, rt, step), device) == []
    ensures NeverAnswers(EventsOf(platform, rt, step, device))
  {
    hide Answered, Inv, ProbeEvents, ExpireAll;
    if step.ProbeAll? {
      ProbeAllNeverAnswers(platform, rt, step.readings, device);
    }
  }

  lemma {:induction false} TimelineNeverAnswers(platform: Platform, rt: Runtime, steps: seq<Step>, device: DeviceId)
    requires Inv(rt) && device in rt.paths && NeverAnswered(platform, rt, steps, device)
    ensures NeverAnswers(Timeline(platform, rt, steps, device))
    decreases |steps|
  {
    hide Next, Inv, EventsOf, StepAnswer;
    if steps != [] {
      StepNeverAnswers(platform, rt, steps[0], device);
      StepFollowsEvents(platform, rt, steps[0], device);
      NextInv(platform, rt, steps[0]);
      TimelineNeverAnswers(platform, Next(platform, rt, steps[0]), steps[1..], device);
    }
  }

  /** Every peer of a fresh runtime starts at the default path and follows its timeline. */
  lemma FreshTimeline(platform: Platform, persisted: Persisted, salts: nat -> Option<Octets8>, steps: seq<Step>,
                      device: DeviceId)
    requires exists p :: p in persisted.peers && p.deviceId == device
    ensures var rt := FromPersisted(platform, persisted, salts);
            var events := Timeline(platform, rt, steps, device);
            && Inv(rt) && device in rt.paths && rt.paths[device] == DEFAULT_PATH
            && device in Exec(platform, rt, steps).paths
            && Exec(platform, rt, steps).paths[device] == Run(DEFAULT_PATH, events)
  {
    var rt := FromPersisted(platform, persisted, salts);
    InitialInv(platform, persisted, salts);
    InitialPaths(persisted.peers);
    PathFollowsTimeline(platform, rt, steps, device);
  }

  /** Over any run of a fresh runtime, whatever the clock does, the fast rounds it completes with a peer
      are at most eight for the start and eight for each time it lost that peer's direct path. */
  lemma RuntimeFastRounds(platform: Platform, persisted: Persisted, salts: nat -> Option<Octets8>, steps: seq<Step>,
                          device: DeviceId)
    requires exists p :: p in persisted.peers && p.deviceId == device
    ensures var rt := FromPersisted(platform, persisted, salts);
            FastRounds(CompletedRounds(platform, rt, steps, device))
              <= 8 * (1 + LostDirect(platform, rt, steps, device))
  {
    var rt := FromPersisted(platform, persisted, salts);
    FreshTimeline(platform, persisted, salts, steps, device);
    RoundsAreCompleted(platform, rt, steps, device);
    FastRoundsArePaid(DEFAULT_PATH, Timeline(platform, rt, steps, device));
  }

  /** If a peer never answers and the clock goes forward, the n-th round that the runtime completes with
      it is finished no earlier after the first than the budget says. */
  lemma RuntimeProbeBudget(platform: Platform, persisted: Persisted, salts: nat -> Option<Octets8>, steps: seq<Step>,
                           device: DeviceId, start: nat, n: nat)
    requires exists p :: p in persisted.peers && p.deviceId == device
    requires var rt := FromPersisted(platform, persisted, salts);
             && NeverAnswered(platform, rt, steps, device) && ClockForward(start, Timeline(platform, rt, steps, device))
             && 1 <= n <= |CompletedRounds(platform, rt, steps, device)|
    ensures var rounds := CompletedRounds(platform, FromPersisted(platform, persisted, salts), steps, device);
            rounds[n - 1].finishedAt >= rounds[0].finishedAt + Budget(n)
  {
    var rt := FromPersisted(platform, persisted, salts);
    FreshTimeline(platform, persisted, salts, steps, device);
    RoundsAreCompleted(platform, rt, steps, device);
    TimelineNeverAnswers(platform, rt, steps, device);
    ProbeBudget(DEFAULT_PATH, Timeline(platform, rt, steps, device), start, n);
  }

  /** The path of a peer after its latest answer, in closed form, in any run of a fresh runtime. */
  lemma RuntimeExpiry(platform: Platform, persisted: Persisted, salts: nat -> Option<Octets8>, steps: seq<Step>,
                      device: DeviceId,
                      before: seq<PathEvent>, since: nat, endpoint: Endpoint, rttMs: Option<u64>, after: seq<PathEvent>)
    requires exists p :: p in persisted.peers && p.deviceId == device
    requires Timeline(platform, FromPersisted(platform, persisted, salts), steps, device)
             == before + ([Answer(since, endpoint, rttMs)] + after)
    requires NeverAnswers(after)
    ensures var rt := Exec(platform, FromPersisted(platform, persisted, salts), steps);
            && device in rt.paths
            && var s, k := rt.paths[device], StalePasses(since, after);
               && (s.current.DirectPath? <==> k < 3)
               && (k < 3 ==> s.failures == k && s.active == Some(endpoint))
               && (k >= 3 ==>
                     s.current == (if RelaysAtStalePass(since, after, 3) then RelayPath else UnknownPath))
  {
    FreshTimeline(platform, persisted, salts, steps, device);
    var s := Run(DEFAULT_PATH, before);
    RunConcat(DEFAULT_PATH, before, [Answer(since, endpoint, rttMs)] + after);
    RunConcat(s, [Answer(since, endpoint, rttMs)], after);
    assert Run(s, [Answer(since, endpoint, rttMs)]) == MarkedDirect(s, since, endpoint, rttMs);
    ExpiryClosedForm(s, since, endpoint, rttMs, after);
  }

  /** In seconds: while the clock goes forward, the path of a peer is Direct exactly while fewer than three
      expiry passes have run 15 s or more after its latest answer, its failures are their number, and
      the third such pass moves it to Relay if relays are known at that pass, else to Unknown. */
  lemma RuntimeExpiryInSeconds(platform: Platform, persisted: Persisted, salts: nat -> Option<Octets8>,
                               steps: seq<Step>,
                               device: DeviceId, before: seq<PathEvent>, since: nat, endpoint: Endpoint,
                               rttMs: Option<u64>, after: seq<PathEvent>)
    requires exists p :: p in persisted.peers && p.deviceId == device
    requires Timeline(platform, FromPersisted(platform, persisted, salts), steps, device)
             == before + ([Answer(since, endpoint, rttMs)] + after)
    requires NeverAnswers(after) && ClockForward(since, after)
    ensures var rt := Exec(platform, FromPersisted(platform, persisted, salts), steps);
            && device in rt.paths
            && var s, k := rt.paths[device], LatePasses(since, after);
               && (s.current.DirectPath? <==> k < 3)
               && (k < 3 ==> s.failures == k && s.active == Some(endpoint))
               && (k >= 3 ==>
                     s.current == (if RelaysAtLatePass(since, after, 3) then RelayPath else UnknownPath))
  {
    hide Timeline, Exec, FromPersisted;
    RuntimeExpiry(platform, persisted, salts, steps, device, before, since, endpoint, rttMs, after);
    StalePassesAreLate(since, after, 3);
  }
}
