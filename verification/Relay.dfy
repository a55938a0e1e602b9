/** The relay's router. Sessions come and go and frames are routed concurrently: looking up the
    destination's queue, sending into it and moving a counter are separate steps that anything may
    come between. */
module Relay {
  import opened Prelude
  import opened RelayProtocol

  type ConnId = nat

  /** Routings whose send was tried, in order, with the queue the frame went into, if any. */
  type Outcomes = seq<(nat, Option<ConnId>)>

  /** One connection: the device it registered, its queue, what its session loop has written out, and
      whether the receiving end of the queue still exists. */
  datatype Conn = Conn(device: DeviceId, queue: seq<RelayMessage>, written: seq<RelayMessage>, open: bool)

  /** `routings` holds every frame ever given to the router; its positions name the routings.
      `inflight` are those whose look-up is done, with the queue found; `outcomes` those whose send was
      tried; `uncounted` those of them whose counter has not moved yet, with the send's success. */
  datatype Router = Router(
    sessions: map<DeviceId, ConnId>,
    conns: map<ConnId, Conn>,
    routings: seq<RelayMessage>,
    inflight: map<nat, Option<ConnId>>,
    outcomes: Outcomes,
    uncounted: map<nat, bool>,
    routed: u64,
    dropped: u64)

  const EMPTY_ROUTER := Router(map[], map[], [], map[], [], map[], 0, 0)

  datatype Step =
    | Register(conn: ConnId, first: RelayMessage)
    | Unregister(conn: ConnId)
    | Drop(conn: ConnId)
    | LookUp(frame: RelayMessage)
    | SendTo(routing: nat)
    | Count(routing: nat)
    | WriteOut(conn: ConnId)

  function WrappingSucc(n: u64): (r: u64)
  {
    (n + 1) % U64_LIMIT
  }

  function RegisterConn(r: Router, conn: ConnId, device: DeviceId): (r': Router)
  {
    r.(sessions := r.sessions[device := conn], conns := r.conns[conn := Conn(device, [], [], true)])
  }

  function LookUpFrame(r: Router, frame: RelayMessage): (r': Router)
    requires frame.FrameMessage?
  {
    var target := if frame.destination in r.sessions then Some(r.sessions[frame.destination]) else None;
    r.(routings := r.routings + [frame], inflight := r.inflight[|r.routings| := target])
  }

  /** A send fails when no queue was found or its receiver is gone. */
  function Reached(r: Router, routing: nat): (conn: Option<ConnId>)
    requires routing in r.inflight
  {
    var target := r.inflight[routing];
    if target.Some? && target.value in r.conns && r.conns[target.value].open then target else None
  }

  function SendRouting(r: Router, routing: nat): (r': Router)
    requires routing in r.inflight && routing < |r.routings|
  {
    var reached := Reached(r, routing);
    var done := r.(inflight := r.inflight - {routing}, outcomes := r.outcomes + [(routing, reached)],
                   uncounted := r.uncounted[routing := reached.Some?]);
    match reached
    case None => done
    case Some(conn) =>
      done.(conns := r.conns[conn := r.conns[conn].(queue := r.conns[conn].queue + [r.routings[routing]])])
  }

  function CountRouting(r: Router, routing: nat): (r': Router)
    requires routing in r.uncounted
  {
    var r' := r.(uncounted := r.uncounted - {routing});
    if r.uncounted[routing] then r'.(routed := WrappingSucc(r.routed)) else r'.(dropped := WrappingSucc(r.dropped))
  }

  function WriteNext(c: Conn): (c': Conn)
    requires c.queue != []
  {
    c.(queue := c.queue[1..], written := c.written + [c.queue[0]])
  }

  /** A connection is used once, and a first message other than a registration opens nothing. */
  function Next(r: Router, step: Step): (r': Router)
  {
    match step
    case Register(conn, first) =>
      if conn in r.conns || !first.RegisterMessage? then r else RegisterConn(r, conn, first.deviceId)
    case Unregister(conn) => if conn in r.conns then r.(sessions := r.sessions - {r.conns[conn].device}) else r
    case Drop(conn) => if conn in r.conns then r.(conns := r.conns[conn := r.conns[conn].(open := false)]) else r
    case LookUp(frame) => if frame.FrameMessage? then LookUpFrame(r, frame) else r
    case SendTo(routing) => if routing in r.inflight && routing < |r.routings| then SendRouting(r, routing) else r
    case Count(routing) => if routing in r.uncounted then CountRouting(r, routing) else r
    case WriteOut(conn) =>
      if conn in r.conns && r.conns[conn].open && r.conns[conn].queue != []
      then r.(conns := r.conns[conn := WriteNext(r.conns[conn])]) else r
  }

  function Exec(r: Router, steps: seq<Step>): (r': Router)
    decreases |steps|
  {
    if steps == [] then r else Exec(Next(r, steps[0]), steps[1..])
  }

  lemma ExecThree(r: Router, a: Step, b: Step, c: Step)
    ensures Exec(r, [a, b, c]) == Next(Next(Next(r, a), b), c)
  {
    var r1 := Next(r, a);
    var r2 := Next(r1, b);
    assert [a, b, c][1..] == [b, c];
    assert [b, c][1..] == [c];
    assert [c][1..] == [];
    assert Exec(r2, [c]) == Exec(Next(r2, c), []);
    assert Exec(r1, [b, c]) == Exec(r2, [c]);
  }

  // ---------------------------------------------------------------- invariant

  /** The frames that were sent into one queue, in order. */
  ghost function SentInto(routings: seq<RelayMessage>, outcomes: Outcomes, conn: ConnId): (frames: seq<RelayMessage>)
  {
    if outcomes == [] then []
    else
      var rest, last := SentInto(routings, outcomes[..|outcomes| - 1], conn), outcomes[|outcomes| - 1];
      if last.1 == Some(conn) && last.0 < |routings| then rest + [routings[last.0]] else rest
  }

  /** How many sends with this success have been counted. */
  ghost function Tally(outcomes: Outcomes, uncounted: set<nat>, success: bool): (n: nat)
  {
    if outcomes == [] then 0
    else
      var last := outcomes[|outcomes| - 1];
      Tally(outcomes[..|outcomes| - 1], uncounted, success)
      + if last.0 !in uncounted && last.1.Some? == success then 1 else 0
  }

  /** How many routings are completed: sent and counted. */
  ghost function Counted(outcomes: Outcomes, uncounted: set<nat>): (n: nat)
  {
    if outcomes == [] then 0
    else
      Counted(outcomes[..|outcomes| - 1], uncounted) + if outcomes[|outcomes| - 1].0 !in uncounted then 1 else 0
  }

  ghost predicate ConnOk(c: Conn, sent: seq<RelayMessage>)
  {
    && c.written + c.queue == sent
    && forall m :: m in sent ==> m.FrameMessage? && m.destination == c.device
  }

  ghost predicate ConnsOk(r: Router)
  {
    forall c :: c in r.conns ==> ConnOk(r.conns[c], SentInto(r.routings, r.outcomes, c))
  }

  ghost predicate TargetsOk(sessions: map<DeviceId, ConnId>, devices: map<ConnId, DeviceId>,
                            routings: seq<RelayMessage>, inflight: map<nat, Option<ConnId>>)
  {
    && (forall d :: d in sessions ==> sessions[d] in devices && devices[sessions[d]] == d)
    && (forall k :: 0 <= k < |routings| ==> routings[k].FrameMessage?)
    && (forall k :: k in inflight ==> k < |routings|)
    && (forall k :: k in inflight && inflight[k].Some? ==>
          inflight[k].value in devices && devices[inflight[k].value] == routings[k].destination)
  }

  ghost predicate Sent(outcomes: Outcomes, k: nat)
  {
    exists i :: 0 <= i < |outcomes| && outcomes[i].0 == k
  }

  /** Every one of n routings is either in flight or sent, and sent at most once. */
  ghost predicate RoutingsOk(n: nat, inflight: set<nat>, outcomes: Outcomes)
  {
    && (forall i :: 0 <= i < |outcomes| ==> outcomes[i].0 < n && outcomes[i].0 !in inflight)
    && (forall i, j :: 0 <= i < j < |outcomes| ==> outcomes[i].0 != outcomes[j].0)
    && (forall k :: 0 <= k < n && k !in inflight ==> Sent(outcomes, k))
  }

  ghost predicate OutcomeIs(outcomes: Outcomes, k: nat, success: bool)
  {
    exists i :: 0 <= i < |outcomes| && outcomes[i].0 == k && outcomes[i].1.Some? == success
  }

  /** What is not yet counted was sent, with the success noted. */
  ghost predicate UncountedOk(outcomes: Outcomes, uncounted: map<nat, bool>)
  {
    forall k :: k in uncounted ==> OutcomeIs(outcomes, k, uncounted[k])
  }

  ghost predicate OutcomesKnown(outcomes: Outcomes, conns: set<ConnId>)
  {
    forall i :: 0 <= i < |outcomes| && outcomes[i].1.Some? ==> outcomes[i].1.value in conns
  }

  ghost predicate CountersOk(outcomes: Outcomes, uncounted: set<nat>, routed: u64, dropped: u64)
  {
    routed == Tally(outcomes, uncounted, true) % U64_LIMIT && dropped == Tally(outcomes, uncounted, false) % U64_LIMIT
  }

  ghost function Devices(conns: map<ConnId, Conn>): (devices: map<ConnId, DeviceId>)
  {
    map c | c in conns :: conns[c].device
  }

  ghost predicate Inv(r: Router)
  {
    && TargetsOk(r.sessions, Devices(r.conns), r.routings, r.inflight)
    && RoutingsOk(|r.routings|, r.inflight.Keys, r.outcomes)
    && OutcomesKnown(r.outcomes, r.conns.Keys)
    && UncountedOk(r.outcomes, r.uncounted)
    && CountersOk(r.outcomes, r.uncounted.Keys, r.routed, r.dropped)
    && ConnsOk(r)
  }

  lemma {:induction false} SentIntoUnknown(routings: seq<RelayMessage>, outcomes: Outcomes, conn: ConnId)
    requires forall i :: 0 <= i < |outcomes| ==> outcomes[i].1 != Some(conn)
    ensures SentInto(routings, outcomes, conn) == []
  {
    if outcomes != [] {
      SentIntoUnknown(routings, outcomes[..|outcomes| - 1], conn);
    }
  }

  lemma {:induction false} SentIntoGrows(routings: seq<RelayMessage>, frame: RelayMessage, outcomes: Outcomes,
                                         conn: ConnId)
    requires forall i :: 0 <= i < |outcomes| ==> outcomes[i].0 < |routings|
    ensures SentInto(routings + [frame], outcomes, conn) == SentInto(routings, outcomes, conn)
  {
    if outcomes != [] {
      SentIntoGrows(routings, frame, outcomes[..|outcomes| - 1], conn);
    }
  }

  lemma SentIntoAppend(routings: seq<RelayMessage>, outcomes: Outcomes, last: (nat, Option<ConnId>), conn: ConnId)
    requires last.0 < |routings|
    ensures SentInto(routings, outcomes + [last], conn)
            == SentInto(routings, outcomes, conn) + (if last.1 == Some(conn) then [routings[last.0]] else [])
  {
    assert (outcomes + [last])[..|outcomes|] == outcomes;
  }

  lemma RegisterInv(r: Router, conn: ConnId, device: DeviceId)
    requires Inv(r) && conn !in r.conns
    ensures Inv(RegisterConn(r, conn, device))
  {
    hide RoutingsOk, CountersOk, UncountedOk;
    SentIntoUnknown(r.routings, r.outcomes, conn);
  }

  lemma LookUpRoutings(n: nat, inflight: set<nat>, outcomes: Outcomes)
    requires RoutingsOk(n, inflight, outcomes)
    ensures RoutingsOk(n + 1, inflight + {n}, outcomes)
  {
  }

  lemma LookUpInv(r: Router, frame: RelayMessage)
    requires Inv(r) && frame.FrameMessage?
    ensures Inv(LookUpFrame(r, frame))
  {
    hide CountersOk, OutcomesKnown, UncountedOk, ConnsOk, RoutingsOk;
    var r' := LookUpFrame(r, frame);
    LookUpRoutings(|r.routings|, r.inflight.Keys, r.outcomes);
    assert r'.inflight.Keys == r.inflight.Keys + {|r.routings|};
    LookUpConns(r, frame);
  }

  lemma LookUpConns(r: Router, frame: RelayMessage)
    requires frame.FrameMessage? && ConnsOk(r) && RoutingsOk(|r.routings|, r.inflight.Keys, r.outcomes)
    ensures ConnsOk(LookUpFrame(r, frame))
  {
    var r' := LookUpFrame(r, frame);
    forall c | c in r'.conns ensures ConnOk(r'.conns[c], SentInto(r'.routings, r'.outcomes, c)) {
      SentIntoGrows(r.routings, frame, r.outcomes, c);
    }
  }

  lemma SentRoutings(n: nat, inflight: set<nat>, outcomes: Outcomes, last: (nat, Option<ConnId>))
    requires RoutingsOk(n, inflight, outcomes) && last.0 in inflight && last.0 < n
    ensures RoutingsOk(n, inflight - {last.0}, outcomes + [last])
  {
    var after := outcomes + [last];
    forall k: nat | k < n && k !in inflight - {last.0} ensures Sent(after, k) {
      if k == last.0 {
        assert after[|outcomes|].0 == k;
      } else {
        assert Sent(outcomes, k);
        var i :| 0 <= i < |outcomes| && outcomes[i].0 == k;
        assert after[i].0 == k;
      }
    }
  }

  /** Marking a routing that was never sent changes no count. */
  lemma {:induction false} TallyUnsent(outcomes: Outcomes, uncounted: set<nat>, k: nat, success: bool)
    requires forall i :: 0 <= i < |outcomes| ==> outcomes[i].0 != k
    ensures Tally(outcomes, uncounted + {k}, success) == Tally(outcomes, uncounted - {k}, success)
            == Tally(outcomes, uncounted, success)
  {
    if outcomes != [] {
      TallyUnsent(outcomes[..|outcomes| - 1], uncounted, k, success);
    }
  }

  /** Counting one send adds one to the tally of its success and nothing to the other. */
  lemma {:induction false} TallyCount(outcomes: Outcomes, uncounted: set<nat>, i: nat, success: bool)
    requires i < |outcomes| && outcomes[i].0 in uncounted
    requires forall a, b :: 0 <= a < b < |outcomes| ==> outcomes[a].0 != outcomes[b].0
    ensures Tally(outcomes, uncounted - {outcomes[i].0}, success)
            == Tally(outcomes, uncounted, success) + if outcomes[i].1.Some? == success then 1 else 0
  {
    var n := |outcomes| - 1;
    if i == n {
      TallyUnsent(outcomes[..n], uncounted, outcomes[i].0, success);
    } else {
      TallyCount(outcomes[..n], uncounted, i, success);
    }
  }

  lemma {:induction false} CountedIsTally(outcomes: Outcomes, uncounted: set<nat>)
    ensures Counted(outcomes, uncounted) == Tally(outcomes, uncounted, true) + Tally(outcomes, uncounted, false)
  {
    if outcomes != [] {
      CountedIsTally(outcomes[..|outcomes| - 1], uncounted);
    }
  }

  lemma SentCounters(outcomes: Outcomes, uncounted: map<nat, bool>, k: nat, reached: Option<ConnId>, routed: u64,
                     dropped: u64)
    requires CountersOk(outcomes, uncounted.Keys, routed, dropped) && UncountedOk(outcomes, uncounted)
    requires forall i :: 0 <= i < |outcomes| ==> outcomes[i].0 != k
    ensures CountersOk(outcomes + [(k, reached)], uncounted[k := reached.Some?].Keys, routed, dropped)
    ensures UncountedOk(outcomes + [(k, reached)], uncounted[k := reached.Some?])
  {
    var after, pending := outcomes + [(k, reached)], uncounted[k := reached.Some?];
    assert after[..|outcomes|] == outcomes && pending.Keys == uncounted.Keys + {k};
    TallyUnsent(outcomes, uncounted.Keys, k, true);
    TallyUnsent(outcomes, uncounted.Keys, k, false);
    forall j | j in pending ensures OutcomeIs(after, j, pending[j]) {
      if j == k {
        assert after[|outcomes|] == (k, reached);
      } else {
        assert OutcomeIs(outcomes, j, uncounted[j]);
        var i :| 0 <= i < |outcomes| && outcomes[i].0 == j && outcomes[i].1.Some? == uncounted[j];
        assert after[i] == outcomes[i];
      }
    }
  }

  lemma SentConns(r: Router, routing: nat)
    requires TargetsOk(r.sessions, Devices(r.conns), r.routings, r.inflight) && ConnsOk(r)
    requires routing in r.inflight && routing < |r.routings|
    ensures ConnsOk(SendRouting(r, routing))
  {
    var r' := SendRouting(r, routing);
    var reached := Reached(r, routing);
    forall c | c in r'.conns ensures ConnOk(r'.conns[c], SentInto(r'.routings, r'.outcomes, c)) {
      assert ConnOk(r.conns[c], SentInto(r.routings, r.outcomes, c));
      SentIntoAppend(r.routings, r.outcomes, (routing, reached), c);
      assert reached == Some(c) ==> r.routings[routing].destination == Devices(r.conns)[c];
    }
  }

  lemma InflightIsUnsent(n: nat, inflight: set<nat>, outcomes: Outcomes, k: nat)
    requires RoutingsOk(n, inflight, outcomes) && k in inflight
    ensures forall i :: 0 <= i < |outcomes| ==> outcomes[i].0 != k
  {
  }

  lemma SendInv(r: Router, routing: nat)
    requires Inv(r) && routing in r.inflight && routing < |r.routings|
    ensures Inv(SendRouting(r, routing))
  {
    hide RoutingsOk, CountersOk, ConnsOk, UncountedOk;
    var r' := SendRouting(r, routing);
    var reached := Reached(r, routing);
    InflightIsUnsent(|r.routings|, r.inflight.Keys, r.outcomes, routing);
    SentCounters(r.outcomes, r.uncounted, routing, reached, r.routed, r.dropped);
    SentRoutings(|r.routings|, r.inflight.Keys, r.outcomes, (routing, reached));
    SentConns(r, routing);
    assert r'.inflight.Keys == r.inflight.Keys - {routing};
    assert r'.conns.Keys == r.conns.Keys && Devices(r'.conns) == Devices(r.conns);
  }

  lemma OneCounted(outcomes: Outcomes, uncounted: map<nat, bool>, k: nat, n: nat, inflight: set<nat>)
    requires RoutingsOk(n, inflight, outcomes) && UncountedOk(outcomes, uncounted) && k in uncounted
    ensures UncountedOk(outcomes, uncounted - {k})
    ensures forall success: bool :: Tally(outcomes, uncounted.Keys - {k}, success)
                                    == Tally(outcomes, uncounted.Keys, success)
                                       + if uncounted[k] == success then 1 else 0
  {
    assert OutcomeIs(outcomes, k, uncounted[k]);
    var i :| 0 <= i < |outcomes| && outcomes[i].0 == k && outcomes[i].1.Some? == uncounted[k];
    TallyCount(outcomes, uncounted.Keys, i, true);
    TallyCount(outcomes, uncounted.Keys, i, false);
    hide Tally;
  }

  lemma CountInv(r: Router, routing: nat)
    requires Inv(r) && routing in r.uncounted
    ensures Inv(CountRouting(r, routing))
  {
    hide Tally, RoutingsOk, OutcomesKnown, TargetsOk, UncountedOk, ConnOk;
    var r' := CountRouting(r, routing);
    OneCounted(r.outcomes, r.uncounted, routing, |r.routings|, r.inflight.Keys);
    assert r'.uncounted.Keys == r.uncounted.Keys - {routing};
    WrappedSum(Tally(r.outcomes, r.uncounted.Keys, true), 1);
    WrappedSum(Tally(r.outcomes, r.uncounted.Keys, false), 1);
  }

  lemma SetConnInv(r: Router, conn: ConnId, c: Conn)
    requires Inv(r) && conn in r.conns
    requires c.device == r.conns[conn].device && c.written + c.queue == r.conns[conn].written + r.conns[conn].queue
    ensures Inv(r.(conns := r.conns[conn := c]))
  {
    hide RoutingsOk, CountersOk, UncountedOk, TargetsOk, OutcomesKnown;
    var conns := r.conns[conn := c];
    assert conns.Keys == r.conns.Keys && Devices(conns) == Devices(r.conns);
  }

  lemma UnregisterInv(r: Router, device: DeviceId)
    requires Inv(r)
    ensures Inv(r.(sessions := r.sessions - {device}))
  {
    hide RoutingsOk, CountersOk, UncountedOk, OutcomesKnown;
  }

  lemma NextInv(r: Router, step: Step)
    requires Inv(r)
    ensures Inv(Next(r, step))
  {
    hide Inv, RegisterConn, LookUpFrame, SendRouting, CountRouting;
    match step
    case Register(conn, first) =>
      if conn !in r.conns && first.RegisterMessage? {
        RegisterInv(r, conn, first.deviceId);
      }
    case Unregister(conn) =>
      if conn in r.conns {
        UnregisterInv(r, r.conns[conn].device);
      }
    case Drop(conn) =>
      if conn in r.conns {
        SetConnInv(r, conn, r.conns[conn].(open := false));
      }
    case LookUp(frame) =>
      if frame.FrameMessage? {
        LookUpInv(r, frame);
      }
    case SendTo(routing) =>
      if routing in r.inflight && routing < |r.routings| {
        SendInv(r, routing);
      }
    case Count(routing) =>
      if routing in r.uncounted {
        CountInv(r, routing);
      }
    case WriteOut(conn) =>
      if conn in r.conns && r.conns[conn].queue != [] {
        var c := r.conns[conn];
        assert c.written + [c.queue[0]] + c.queue[1..] == c.written + c.queue;
        SetConnInv(r, conn, WriteNext(c));
      }
  }

  lemma {:induction false} ExecInv(r: Router, steps: seq<Step>)
    requires Inv(r)
    ensures Inv(Exec(r, steps))
    decreases |steps|
  {
    if steps != [] {
      NextInv(r, steps[0]);
      ExecInv(Next(r, steps[0]), steps[1..]);
    }
  }

  lemma EmptyInv()
    ensures Inv(EMPTY_ROUTER)
  {
  }

  /** Over all interleavings. What a session has written out, followed by what its queue still holds, is
      exactly the sequence of frames routed into it, in the order of their routing and unmodified, and
      every one is addressed to the device that session registered. */
  lemma QueuesAreFaithful(steps: seq<Step>, conn: ConnId)
    requires conn in Exec(EMPTY_ROUTER, steps).conns
    ensures var r := Exec(EMPTY_ROUTER, steps);
            var c := r.conns[conn];
            && c.written + c.queue == SentInto(r.routings, r.outcomes, conn)
            && (forall m :: m in c.written + c.queue ==>
                  m in r.routings && m.FrameMessage? && m.destination == c.device)
  {
    ExecInv(EMPTY_ROUTER, steps);
    var r := Exec(EMPTY_ROUTER, steps);
    assert ConnOk(r.conns[conn], SentInto(r.routings, r.outcomes, conn));
    SentIntoFrom(r.routings, r.outcomes, conn);
  }

  lemma {:induction false} SentIntoFrom(routings: seq<RelayMessage>, outcomes: Outcomes, conn: ConnId)
    ensures forall m :: m in SentInto(routings, outcomes, conn) ==> m in routings
  {
    if outcomes != [] {
      SentIntoFrom(routings, outcomes[..|outcomes| - 1], conn);
    }
  }

  /** Conservation. Every frame given to the router is in flight or was sent exactly once, into at most
      one queue, and is then uncounted or counted; the two counters together count the completed
      routings, modulo 2^64, and each counts its own kind. */
  lemma RoutingsAreConserved(steps: seq<Step>)
    ensures var r := Exec(EMPTY_ROUTER, steps);
            && (forall k: nat :: k < |r.routings| ==> (k in r.inflight <==> !Sent(r.outcomes, k)))
            && (forall k :: k in r.uncounted ==> Sent(r.outcomes, k))
            && (forall i, j :: 0 <= i < j < |r.outcomes| ==> r.outcomes[i].0 != r.outcomes[j].0)
            && r.routed == Tally(r.outcomes, r.uncounted.Keys, true) % U64_LIMIT
            && (r.routed + r.dropped) % U64_LIMIT == Counted(r.outcomes, r.uncounted.Keys) % U64_LIMIT
  {
    EmptyInv();
    hide Exec, Tally, Counted, ConnsOk, TargetsOk;
    ExecInv(EMPTY_ROUTER, steps);
    var r := Exec(EMPTY_ROUTER, steps);
    WrappedSum(Tally(r.outcomes, r.uncounted.Keys, true), Tally(r.outcomes, r.uncounted.Keys, false));
    CountedIsTally(r.outcomes, r.uncounted.Keys);
    forall k | k in r.uncounted ensures Sent(r.outcomes, k) {
      assert OutcomeIs(r.outcomes, k, r.uncounted[k]);
    }
  }

  lemma WrappedSum(a: nat, b: nat)
    ensures (a % U64_LIMIT + b % U64_LIMIT) % U64_LIMIT == (a + b) % U64_LIMIT
  {
    var l := U64_LIMIT;
    assert a + b == (a % l + b % l) + l * (a / l + b / l);
    WrappedMultiple(a % l + b % l, a / l + b / l);
  }

  lemma {:induction false} WrappedMultiple(a: nat, k: nat)
    ensures (a + U64_LIMIT * k) % U64_LIMIT == a % U64_LIMIT
  {
    if k > 0 {
      WrappedMultiple(a, k - 1);
      assert a + U64_LIMIT * k == (a + U64_LIMIT * (k - 1)) + U64_LIMIT;
    }
  }

  // ---------------------------------------------------------------- who receives what

  /** A device is reached through a connection. */
  ghost predicate Reachable(r: Router, device: DeviceId, conn: ConnId)
  {
    device in r.sessions && r.sessions[device] == conn && conn in r.conns && r.conns[conn].open
  }

  /** The steps that can end this: another registration of the device, leaving by a connection that
      registered it, and the end of the connection's queue. */
  ghost predicate Ends(r: Router, step: Step, device: DeviceId, conn: ConnId)
  {
    match step
    case Register(c, first) => c !in r.conns && first == RegisterMessage(device)
    case Unregister(c) => c in r.conns && r.conns[c].device == device
    case Drop(c) => c == conn
    case _ => false
  }

  ghost predicate NeverEnds(r: Router, steps: seq<Step>, device: DeviceId, conn: ConnId)
    decreases |steps|
  {
    steps == [] || (!Ends(r, steps[0], device, conn) && NeverEnds(Next(r, steps[0]), steps[1..], device, conn))
  }

  lemma {:induction false} StaysReachable(r: Router, steps: seq<Step>, device: DeviceId, conn: ConnId)
    requires Reachable(r, device, conn) && NeverEnds(r, steps, device, conn)
    ensures Reachable(Exec(r, steps), device, conn)
    decreases |steps|
  {
    if steps != [] {
      StaysReachable(Next(r, steps[0]), steps[1..], device, conn);
    }
  }

  /** A routing has found this connection for this frame and is not sent yet. */
  ghost predicate Aimed(r: Router, k: nat, frame: RelayMessage, conn: ConnId)
  {
    && k in r.inflight && r.inflight[k] == Some(conn) && k < |r.routings| && r.routings[k] == frame
    && conn in r.conns && r.conns[conn].open
  }

  lemma {:induction false} StaysAimed(r: Router, steps: seq<Step>, k: nat, frame: RelayMessage, conn: ConnId)
    requires Aimed(r, k, frame, conn) && SendTo(k) !in steps && Drop(conn) !in steps
    ensures Aimed(Exec(r, steps), k, frame, conn)
    decreases |steps|
  {
    if steps != [] {
      assert steps[0] in steps;
      StaysAimed(Next(r, steps[0]), steps[1..], k, frame, conn);
    }
  }

  lemma {:induction false} StaysUncounted(r: Router, steps: seq<Step>, k: nat, success: bool)
    requires k in r.uncounted && r.uncounted[k] == success && k !in r.inflight && Count(k) !in steps
    requires k < |r.routings|
    ensures var r' := Exec(r, steps); k in r'.uncounted && r'.uncounted[k] == success
    decreases |steps|
  {
    if steps != [] {
      assert steps[0] in steps;
      StaysUncounted(Next(r, steps[0]), steps[1..], k, success);
    }
  }

  /** Who registers receives. After any run, a device registers on a new connection. Until it registers again,
      leaves, or that connection's queue ends, every look-up of a frame for it finds that connection; if the
      send comes before the queue ends, whatever else comes between, the frame becomes the last of that
      queue, and when it is counted, one more frame is counted as routed. */
  lemma RegisteredDeviceReceives(before: seq<Step>, conn: ConnId, device: DeviceId, steps: seq<Step>,
                                 frame: RelayMessage,
                                 untilSend: seq<Step>, untilCount: seq<Step>)
    requires conn !in Exec(EMPTY_ROUTER, before).conns && frame.FrameMessage? && frame.destination == device
    requires NeverEnds(Next(Exec(EMPTY_ROUTER, before), Register(conn, RegisterMessage(device))), steps, device, conn)
    requires var k := |Exec(Next(Exec(EMPTY_ROUTER, before), Register(conn, RegisterMessage(device))), steps).routings|;
             SendTo(k) !in untilSend && Drop(conn) !in untilSend && Count(k) !in untilCount
    ensures var r := Exec(Next(Exec(EMPTY_ROUTER, before), Register(conn, RegisterMessage(device))), steps);
            var k := |r.routings|;
            var looked := Next(r, LookUp(frame));
            var r1 := Exec(looked, untilSend);
            var r2 := Next(r1, SendTo(k));
            var r3 := Exec(r2, untilCount);
            var r4 := Next(r3, Count(k));
            && k in looked.inflight && looked.inflight[k] == Some(conn)
            && conn in r1.conns && conn in r2.conns && r2.conns[conn].queue == r1.conns[conn].queue + [frame]
            && r4.routed == (r3.routed + 1) % 0x1_0000_0000_0000_0000 && r4.dropped == r3.dropped
  {
    hide Exec, Next, Aimed, Reachable;
    var r0 := Next(Exec(EMPTY_ROUTER, before), Register(conn, RegisterMessage(device)));
    RegisterReaches(Exec(EMPTY_ROUTER, before), conn, device);
    StaysReachable(r0, steps, device, conn);
    var r := Exec(r0, steps);
    var k, looked := |r.routings|, Next(r, LookUp(frame));
    LookUpAims(r, frame, conn);
    StaysAimed(looked, untilSend, k, frame, conn);
    var r1 := Exec(looked, untilSend);
    AimedIsQueued(r1, k, frame, conn);
    StaysUncounted(Next(r1, SendTo(k)), untilCount, k, true);
    CountMoves(Exec(Next(r1, SendTo(k)), untilCount), k);
  }

  lemma RegisterReaches(r: Router, conn: ConnId, device: DeviceId)
    requires conn !in r.conns
    ensures Reachable(Next(r, Register(conn, RegisterMessage(device))), device, conn)
  {
  }

  lemma LookUpAims(r: Router, frame: RelayMessage, conn: ConnId)
    requires frame.FrameMessage? && Reachable(r, frame.destination, conn)
    ensures var looked, k := Next(r, LookUp(frame)), |r.routings|;
            Aimed(looked, k, frame, conn) && k in looked.inflight && looked.inflight[k] == Some(conn)
  {
  }

  lemma AimedIsQueued(r: Router, k: nat, frame: RelayMessage, conn: ConnId)
    requires Aimed(r, k, frame, conn)
    ensures var r' := Next(r, SendTo(k));
            && conn in r.conns && conn in r'.conns && r'.conns[conn].queue == r.conns[conn].queue + [frame]
            && k in r'.uncounted && r'.uncounted[k] && k !in r'.inflight && k < |r'.routings|
  {
  }

  lemma CountMoves(r: Router, k: nat)
    requires k in r.uncounted
    ensures var r' := Next(r, Count(k));
            if r.uncounted[k]
            then r'.routed == (r.routed + 1) % 0x1_0000_0000_0000_0000 && r'.dropped == r.dropped
            else r'.dropped == (r.dropped + 1) % 0x1_0000_0000_0000_0000 && r'.routed == r.routed
  {
  }

  /** A device that is not registered is not found: after leaving, until somebody registers as it again. */
  ghost predicate NeverRegisters(steps: seq<Step>, device: DeviceId)
  {
    forall s :: s in steps && s.Register? ==> s.first != RegisterMessage(device)
  }

  lemma {:induction false} StaysAway(r: Router, steps: seq<Step>, device: DeviceId)
    requires device !in r.sessions && NeverRegisters(steps, device)
    ensures device !in Exec(r, steps).sessions
    decreases |steps|
  {
    if steps != [] {
      assert steps[0] in steps;
      StaysAway(Next(r, steps[0]), steps[1..], device);
    }
  }

  /** Who leaves receives no more. After a connection is unregistered, until its device registers again, every
      look-up for the device finds nothing, and sending then drops the frame and leaves all queues alone. */
  lemma LeftDeviceReceivesNothing(before: seq<Step>, conn: ConnId, steps: seq<Step>, frame: RelayMessage)
    requires conn in Exec(EMPTY_ROUTER, before).conns && frame.FrameMessage?
    requires frame.destination == Exec(EMPTY_ROUTER, before).conns[conn].device
    requires NeverRegisters(steps, frame.destination)
    ensures var r := Exec(Next(Exec(EMPTY_ROUTER, before), Unregister(conn)), steps);
            var k := |r.routings|;
            var looked := Next(r, LookUp(frame));
            var sent := Next(looked, SendTo(k));
            && k in looked.inflight && looked.inflight[k] == None
            && sent.conns == looked.conns && k in sent.uncounted && !sent.uncounted[k]
            && Next(sent, Count(k)).dropped == (sent.dropped + 1) % 0x1_0000_0000_0000_0000
  {
    var r0 := Next(Exec(EMPTY_ROUTER, before), Unregister(conn));
    StaysAway(r0, steps, frame.destination);
    hide Exec;
  }

  ghost predicate Closed(r: Router, conn: ConnId, queue: seq<RelayMessage>)
  {
    conn in r.conns && !r.conns[conn].open && r.conns[conn].queue == queue
  }

  /** A queue whose receiving end is gone takes nothing in and gives nothing out, for ever. */
  lemma {:induction false} EndedQueueStays(r: Router, steps: seq<Step>, conn: ConnId, queue: seq<RelayMessage>)
    requires Closed(r, conn, queue)
    ensures Closed(Exec(r, steps), conn, queue)
    decreases |steps|
  {
    if steps != [] {
      EndedQueueStays(Next(r, steps[0]), steps[1..], conn, queue);
    }
  }

  lemma DropEndsQueue(r: Router, conn: ConnId, steps: seq<Step>)
    requires conn in r.conns
    ensures Closed(Exec(Next(r, Drop(conn)), steps), conn, r.conns[conn].queue)
  {
    EndedQueueStays(Next(r, Drop(conn)), steps, conn, r.conns[conn].queue);
  }

  /** A session loop writes out the oldest message of its queue. */
  lemma WriteOutTakesOldest(r: Router, conn: ConnId, head: RelayMessage, tail: seq<RelayMessage>)
    requires conn in r.conns && r.conns[conn].open && r.conns[conn].queue == [head] + tail
    ensures var c := Next(r, WriteOut(conn)).conns[conn];
            c.queue == tail && c.written == r.conns[conn].written + [head] && c.device == r.conns[conn].device && c.open
  {
  }

  // ---------------------------------------------------------------- the router as an object

  /** The relay's shared state. The ghost fields record the routings, which the code does not keep. */
  class RelayState {
    var sessions: map<DeviceId, ConnId>
    var conns: map<ConnId, Conn>
    var routed: u64
    var dropped: u64
    ghost var routings: seq<RelayMessage>
    ghost var inflight: map<nat, Option<ConnId>>
    ghost var outcomes: Outcomes
    ghost var uncounted: map<nat, bool>

    ghost function State(): (r: Router)
      reads this
    {
      Router(sessions, conns, routings, inflight, outcomes, uncounted, routed, dropped)
    }

    ghost predicate Valid()
      reads this
    {
      Inv(State())
    }

    constructor ()
      ensures Valid() && State() == EMPTY_ROUTER
    {
      sessions, conns, routed, dropped := map[], map[], 0, 0;
      routings, inflight, outcomes, uncounted := [], map[], [], map[];
    }

    method Register(conn: ConnId, device: DeviceId) returns (replaced: Option<ConnId>)
      requires Valid() && conn !in conns
      modifies this
      ensures Valid() && State() == Next(old(State()), Step.Register(conn, RegisterMessage(device)))
      ensures replaced == if device in old(sessions) then Some(old(sessions)[device]) else None
      ensures device in sessions && sessions[device] == conn
      ensures conn in conns && conns[conn].open && conns[conn].device == device && conns[conn].queue == []
      ensures forall d :: d in old(sessions) && d != device ==> d in sessions && sessions[d] == old(sessions)[d]
    {
      hide Inv;
      NextInv(State(), Step.Register(conn, RegisterMessage(device)));
      replaced := if device in sessions then Some(sessions[device]) else None;
      conns := conns[conn := Conn(device, [], [], true)];
      sessions := sessions[device := conn];
    }

    method Unregister(conn: ConnId)
      requires Valid() && conn in conns
      modifies this
      ensures Valid() && State() == Next(old(State()), Step.Unregister(conn))
      ensures old(conns)[conn].device !in sessions
    {
      hide Inv;
      NextInv(State(), Step.Unregister(conn));
      sessions := sessions - {conns[conn].device};
    }

    /** The first third of `route_frame`: the lock is held for the look-up alone. */
    method LookUp(frame: RelayMessage) returns (target: Option<ConnId>, ghost routing: nat)
      requires Valid() && frame.FrameMessage?
      modifies this
      ensures Valid() && State() == Next(old(State()), Step.LookUp(frame))
      ensures routing == |old(routings)| && inflight[routing] == target && routings[routing] == frame
    {
      hide Inv;
      NextInv(State(), Step.LookUp(frame));
      target := if frame.destination in sessions then Some(sessions[frame.destination]) else None;
      routing := |routings|;
      routings := routings + [frame];
      inflight := inflight[routing := target];
    }

    /** The second third. Anything may have happened since the look-up. */
    method SendTo(frame: RelayMessage, target: Option<ConnId>, ghost routing: nat) returns (delivered: bool)
      requires Valid()
      requires routing in inflight && routing < |routings| && routings[routing] == frame && inflight[routing] == target
      modifies this
      ensures Valid() && State() == Next(old(State()), Step.SendTo(routing))
      ensures delivered <==> Reached(old(State()), routing).Some?
      ensures routing in uncounted && uncounted[routing] == delivered
    {
      hide Inv;
      NextInv(State(), Step.SendTo(routing));
      outcomes := outcomes + [(routing, Reached(State(), routing))];
      inflight := inflight - {routing};
      delivered := target.Some? && target.value in conns && conns[target.value].open;
      if delivered {
        var conn := target.value;
        conns := conns[conn := conns[conn].(queue := conns[conn].queue + [frame])];
      }
      uncounted := uncounted[routing := delivered];
    }

    /** The last third. Anything may have happened since the send. */
    method Count(delivered: bool, ghost routing: nat)
      requires Valid() && routing in uncounted && uncounted[routing] == delivered
      modifies this
      ensures Valid() && State() == Next(old(State()), Step.Count(routing))
    {
      hide Inv;
      NextInv(State(), Step.Count(routing));
      uncounted := uncounted - {routing};
      if delivered {
        routed := WrappingSucc(routed);
      } else {
        dropped := WrappingSucc(dropped);
      }
    }

    method RouteFrame(frame: RelayMessage) returns (delivered: bool)
      requires Valid()
      modifies this
      ensures Valid()
      ensures !frame.FrameMessage? ==> !delivered && State() == old(State())
      ensures frame.FrameMessage? ==>
                var k := |old(routings)|;
                State() == Exec(old(State()), [Step.LookUp(frame), Step.SendTo(k), Step.Count(k)])
      ensures frame.FrameMessage? ==>
                delivered == (frame.destination in sessions && sessions[frame.destination] in conns
                              && conns[sessions[frame.destination]].open)
    {
      hide Inv;
      if !frame.FrameMessage? {
        return false;
      }
      ghost var before := State();
      var target, routing := LookUp(frame);
      delivered := SendTo(frame, target, routing);
      Count(delivered, routing);
      ExecThree(before, Step.LookUp(frame), Step.SendTo(routing), Step.Count(routing));
    }

    /** One outbound turn of a session loop. */
    method WriteOut(conn: ConnId) returns (message: Option<RelayMessage>)
      requires Valid() && conn in conns && conns[conn].open
      modifies this
      ensures Valid() && State() == Next(old(State()), Step.WriteOut(conn))
      ensures message == if old(conns)[conn].queue == [] then None else Some(old(conns)[conn].queue[0])
    {
      hide Inv;
      NextInv(State(), Step.WriteOut(conn));
      if conns[conn].queue == [] {
        return None;
      }
      message := Some(conns[conn].queue[0]);
      conns := conns[conn := WriteNext(conns[conn])];
    }

    /** The receiving end of a session's queue is gone. */
    method DropQueue(conn: ConnId)
      requires Valid() && conn in conns
      modifies this
      ensures Valid() && State() == Next(old(State()), Step.Drop(conn))
      ensures conn in conns && !conns[conn].open && conns[conn].queue == old(conns)[conn].queue
    {
      hide Inv;
      NextInv(State(), Step.Drop(conn));
      conns := conns[conn := conns[conn].(open := false)];
    }
  }
}
