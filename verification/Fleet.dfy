/** Any number of devices, each running its own runtime, over a network that does what it likes. Devices
    join and are configured anew at any time. Whatever one device hands out, another was asked to send,
    and once for each time. */
module Fleets {
  import opened Prelude
  import opened Nonces
  import opened Frames
  import opened Crypto
  import opened Transport
  import opened Runtimes
  import opened RuntimeRuns
  import opened Timelines
  import opened Promotions
  import Routing
  import Paths
  import Probes

  // ---------------------------------------------------------------- what a step of a runtime seals

  function SealingBy(platform: Platform, crypto: Session, plaintext: Bytes, messageType: byte): (s: seq<Sealing>)
  {
    var r := SealMessage(platform.suite, crypto, plaintext, messageType).1;
    if r.Ok? then [Sealing(crypto, messageType, plaintext, r.value)] else []
  }

  function SendSealings(platform: Platform, rt: Runtime, packet: Bytes): (s: seq<Sealing>)
  {
    match Ipv4Destination(packet)
    case None => []
    case Some(destination) =>
      if destination !in rt.deviceByOverlayIp || rt.deviceByOverlayIp[destination] !in rt.sessions then []
      else SealingBy(platform, rt.sessions[rt.deviceByOverlayIp[destination]].crypto, packet, FRAME_TYPE_DATA)
  }

  /** The probes that `SendProbes` seals. */
  function ProbeSealings(platform: Platform, crypto: Session, readings: Readings, i: nat,
                         endpoints: seq<Endpoint>, j: nat)
    : (s: seq<Sealing>)
    requires j <= |endpoints|
    decreases |endpoints| - j
  {
    if j == |endpoints| then []
    else
      var payload := Probes.ProbePayload(readings.sentMillis(i));
      var (crypto', sealed) := SealMessage(platform.suite, crypto, payload, FRAME_TYPE_PROBE);
      SealingBy(platform, crypto, payload, FRAME_TYPE_PROBE)
      + if sealed.Err? || !readings.sendOk(i, j) then []
        else ProbeSealings(platform, crypto', readings, i, endpoints, j + 1)
  }

  function VisitSealings(platform: Platform, rt: Runtime, i: nat, readings: Readings): (s: seq<Sealing>)
    requires i < |rt.persisted.peers|
  {
    var peer := rt.persisted.peers[i];
    if VisitPeer(platform, rt, i, readings).Skipped? then []
    else ProbeSealings(platform, rt.sessions[peer.deviceId].crypto, readings, i, ByRank(UdpOnly(peer.endpoints)), 0)
  }

  /** The probes of a pass from the i-th peer on. */
  function PassSealings(platform: Platform, rt: Runtime, i: nat, readings: Readings): (s: seq<Sealing>)
    requires i <= |rt.persisted.peers|
    decreases |rt.persisted.peers| - i
  {
    if i == |rt.persisted.peers| then []
    else
      VisitSealings(platform, rt, i, readings)
      + if VisitPeer(platform, rt, i, readings).CutShort? then []
        else PassSealings(platform, AfterVisit(platform, rt, i, readings), i + 1, readings)
  }

  /** The response to a probe that was received over UDP. */
  function ResponseSealings(platform: Platform, rt: Runtime, frame: Bytes, clock: Clock): (s: seq<Sealing>)
  {
    match OpenedBy(platform, rt, frame)
    case None => []
    case Some(device) =>
      var (crypto, message) := OpenMessage(platform.suite, rt.sessions[device].crypto, frame);
      if message.value.messageType != FRAME_TYPE_PROBE then []
      else SealingBy(platform, crypto, Probes.ProbeResponsePayload(message.value.plaintext, clock.millis),
                     FRAME_TYPE_PROBE_RESPONSE)
  }

  function SealingsOf(platform: Platform, rt: Runtime, step: Step): (s: seq<Sealing>)
  {
    match step
    case Send(packet, _) => SendSealings(platform, rt, packet)
    case ProbeAll(readings) =>
      if !rt.transportBound then []
      else PassSealings(platform, rt.(paths := ExpireAll(rt.paths, readings.start, rt.relays != [])), 0, readings)
    case Receive(frame, _, clock, _) => ResponseSealings(platform, rt, frame, clock)
    case _ => []
  }

  /** Sealed by a session of this device. */
  ghost predicate SealedAt(platform: Platform, device: DeviceId, e: Sealing)
  {
    && SealedBy(platform.suite, e.session, e.plaintext, e.messageType, e.frame)
    && platform.frameId(device) == Some(e.session.localId)
  }

  /** Every session of the runtime speaks for this device. */
  ghost predicate SpeaksFor(platform: Platform, device: DeviceId, sessions: map<DeviceId, TransportSession>)
  {
    forall d :: d in sessions ==> platform.frameId(device) == Some(sessions[d].crypto.localId)
  }

  lemma SpeaksForEvolves(platform: Platform, device: DeviceId, m: map<DeviceId, TransportSession>,
                         m': map<DeviceId, TransportSession>, moved: Option<DeviceId>)
    requires SpeaksFor(platform, device, m) && SessionsEvolve(m, m', moved)
    ensures SpeaksFor(platform, device, m')
  {
    forall d | d in m' ensures platform.frameId(device) == Some(m'[d].crypto.localId) {
      assert SameCore(m[d].crypto, m'[d].crypto);
    }
  }

  lemma SealingBySealed(platform: Platform, device: DeviceId, crypto: Session, plaintext: Bytes, messageType: byte)
    requires platform.frameId(device) == Some(crypto.localId)
    ensures forall e :: e in SealingBy(platform, crypto, plaintext, messageType) ==>
              SealedAt(platform, device, e) && e.messageType == messageType && e.plaintext == plaintext
    ensures SealMessage(platform.suite, crypto, plaintext, messageType).0.localId == crypto.localId
  {
    SealEffect(platform.suite, crypto, plaintext, messageType);
  }

  lemma {:induction false} ProbesSealed(platform: Platform, device: DeviceId, crypto: Session, readings: Readings,
                                        i: nat, endpoints: seq<Endpoint>, j: nat)
    requires j <= |endpoints| && platform.frameId(device) == Some(crypto.localId)
    ensures forall e :: e in ProbeSealings(platform, crypto, readings, i, endpoints, j) ==>
              SealedAt(platform, device, e) && e.messageType == FRAME_TYPE_PROBE
    decreases |endpoints| - j
  {
    hide SealedAt, SealingBy, SealMessage, Probes.ProbePayload;
    if j < |endpoints| {
      var payload := Probes.ProbePayload(readings.sentMillis(i));
      SealingBySealed(platform, device, crypto, payload, FRAME_TYPE_PROBE);
      ProbesSealed(platform, device, SealMessage(platform.suite, crypto, payload, FRAME_TYPE_PROBE).0, readings, i,
                   endpoints, j + 1);
    }
  }

  lemma {:induction false} PassSealed(platform: Platform, device: DeviceId, rt: Runtime, i: nat, readings: Readings)
    requires i <= |rt.persisted.peers| && SpeaksFor(platform, device, rt.sessions)
    ensures forall e :: e in PassSealings(platform, rt, i, readings) ==>
              SealedAt(platform, device, e) && e.messageType == FRAME_TYPE_PROBE
    decreases |rt.persisted.peers| - i
  {
    hide SealedAt, VisitPeer, AfterVisit, ByRank, UdpOnly, SessionsEvolve, ProbeSealings;
    if i < |rt.persisted.peers| {
      var peer := rt.persisted.peers[i];
      if !VisitPeer(platform, rt, i, readings).Skipped? {
        ProbesSealed(platform, device, rt.sessions[peer.deviceId].crypto, readings, i,
                     ByRank(UdpOnly(peer.endpoints)), 0);
      }
      var rt' := AfterVisit(platform, rt, i, readings);
      VisitKeepsWindows(platform, rt, i, readings);
      SpeaksForEvolves(platform, device, rt.sessions, rt'.sessions, None);
      PassSealed(platform, device, rt', i + 1, readings);
    }
  }

  lemma ResponseSealed(platform: Platform, device: DeviceId, rt: Runtime, frame: Bytes, clock: Clock)
    requires SpeaksFor(platform, device, rt.sessions)
    ensures forall e :: e in ResponseSealings(platform, rt, frame, clock) ==>
              SealedAt(platform, device, e) && e.messageType == FRAME_TYPE_PROBE_RESPONSE
  {
    hide SealedAt, SealingBy, OpenMessage, Probes.ProbeResponsePayload, AcceptCounter, HeaderBytes, DecodeFrame;
    var opener := OpenedBy(platform, rt, frame);
    if opener.Some? {
      OpenEffect(platform.suite, rt.sessions[opener.value].crypto, frame);
      var (crypto, message) := OpenMessage(platform.suite, rt.sessions[opener.value].crypto, frame);
      SealingBySealed(platform, device, crypto, Probes.ProbeResponsePayload(message.value.plaintext, clock.millis),
                      FRAME_TYPE_PROBE_RESPONSE);
    }
  }

  /** Whatever a step seals is sealed for its device; data only by sending, at most once, and exactly the
      packet that was to be sent. */
  lemma SealingsAreOwn(platform: Platform, device: DeviceId, rt: Runtime, step: Step)
    requires SpeaksFor(platform, device, rt.sessions)
    ensures forall e :: e in SealingsOf(platform, rt, step) ==>
              SealedAt(platform, device, e)
              && (e.messageType == FRAME_TYPE_DATA ==> step.Send? && e.plaintext == step.packet)
    ensures step.Send? ==> |SealingsOf(platform, rt, step)| <= 1
  {
    hide SealedAt, SealMessage, PassSealings, ResponseSealings, ExpireAll;
    match step
    case Send(packet, _) =>
      if SendSealings(platform, rt, packet) != [] {
        var owner := rt.deviceByOverlayIp[Ipv4Destination(packet).value];
        SealingBySealed(platform, device, rt.sessions[owner].crypto, packet, FRAME_TYPE_DATA);
      }
    case ProbeAll(readings) =>
      if rt.transportBound {
        PassSealed(platform, device, rt.(paths := ExpireAll(rt.paths, readings.start, rt.relays != [])), 0, readings);
      }
    case Receive(frame, _, clock, _) => ResponseSealed(platform, device, rt, frame, clock);
    case _ =>
  }

  /** What goes out for a packet is what is on the log. */
  lemma SentIsSealed(platform: Platform, rt: Runtime, packet: Bytes, writeOk: bool)
    requires Lawful(platform.suite) && SendOverlayPacket(platform, rt, packet, writeOk).1.Ok?
    ensures var out := SendOverlayPacket(platform, rt, packet, writeOk).1.value;
            var sealings := SendSealings(platform, rt, packet);
            && |sealings| == 1 && sealings[0].plaintext == packet
            && (out.OverUdp? ==> out.frame == sealings[0].frame)
            && (out.OverRelay? ==> out.message.FrameMessage?
                                   && platform.suite.decodeBase64(out.message.payload) == Some(sealings[0].frame))
  {
    hide SealMessage;
  }

  /** The frame is one of those sealed. */
  ghost predicate IsSealing(platform: Platform, o: Outgoing, sealings: seq<Sealing>)
  {
    exists e :: e in sealings && Routing.FrameOf(platform, o) == Some(e.frame)
  }

  lemma IsSealingGrows(platform: Platform, o: Outgoing, a: seq<Sealing>, b: seq<Sealing>)
    requires IsSealing(platform, o, a) || IsSealing(platform, o, b)
    ensures IsSealing(platform, o, a + b)
  {
    if IsSealing(platform, o, a) {
      var e :| e in a && Routing.FrameOf(platform, o) == Some(e.frame);
      assert e in a + b;
    } else {
      var e :| e in b && Routing.FrameOf(platform, o) == Some(e.frame);
      assert e in a + b;
    }
  }

  lemma {:induction false} ProbesOut(platform: Platform, crypto: Session, readings: Readings, i: nat,
                                     endpoints: seq<Endpoint>, j: nat)
    requires j <= |endpoints|
    ensures forall o :: o in SendProbes(platform, crypto, readings, i, endpoints, j).2 ==>
              IsSealing(platform, o, ProbeSealings(platform, crypto, readings, i, endpoints, j))
    decreases |endpoints| - j
  {
    hide IsSealing, SealMessage, Probes.ProbePayload;
    if j < |endpoints| {
      var payload := Probes.ProbePayload(readings.sentMillis(i));
      var (crypto', sealed) := SealMessage(platform.suite, crypto, payload, FRAME_TYPE_PROBE);
      if sealed.Ok? && readings.sendOk(i, j) {
        ProbesOut(platform, crypto', readings, i, endpoints, j + 1);
        var first := SealingBy(platform, crypto, payload, FRAME_TYPE_PROBE);
        var rest := ProbeSealings(platform, crypto', readings, i, endpoints, j + 1);
        forall o | o in SendProbes(platform, crypto, readings, i, endpoints, j).2
          ensures IsSealing(platform, o, first + rest)
        {
          if o == OverUdp(endpoints[j], sealed.value) {
            SealingIs(platform, o, first);
          }
          IsSealingGrows(platform, o, first, rest);
        }
      }
    }
  }

  lemma SealingIs(platform: Platform, o: Outgoing, sealings: seq<Sealing>)
    requires |sealings| == 1 && Routing.FrameOf(platform, o) == Some(sealings[0].frame)
    ensures IsSealing(platform, o, sealings)
  {
    assert sealings[0] in sealings;
  }

  lemma VisitOut(platform: Platform, rt: Runtime, i: nat, readings: Readings)
    requires i < |rt.persisted.peers| && !VisitPeer(platform, rt, i, readings).Skipped?
    ensures forall o :: o in VisitPeer(platform, rt, i, readings).out ==>
              IsSealing(platform, o, VisitSealings(platform, rt, i, readings))
  {
    hide IsSealing, SendProbes, ProbeSealings, ByRank, UdpOnly, Paths.ProbeDue;
    var peer := rt.persisted.peers[i];
    ProbesOut(platform, rt.sessions[peer.deviceId].crypto, readings, i, ByRank(UdpOnly(peer.endpoints)), 0);
  }

  lemma {:induction false} PassOut(platform: Platform, rt: Runtime, i: nat, readings: Readings, sent: nat)
    requires i <= |rt.persisted.peers|
    ensures forall o :: o in ProbeFrom(platform, rt, i, readings, sent).2 ==>
              IsSealing(platform, o, PassSealings(platform, rt, i, readings))
    decreases |rt.persisted.peers| - i
  {
    hide IsSealing, VisitPeer, VisitSealings, Paths.Probed;
    if i < |rt.persisted.peers| {
      var rt', visit := AfterVisit(platform, rt, i, readings), VisitPeer(platform, rt, i, readings);
      var mine := VisitSealings(platform, rt, i, readings);
      var rest := if visit.CutShort? then [] else PassSealings(platform, rt', i + 1, readings);
      if !visit.Skipped? {
        VisitOut(platform, rt, i, readings);
      }
      PassOut(platform, rt', i + 1, readings, if visit.Completed? then sent + |visit.out| else sent);
      forall o | o in ProbeFrom(platform, rt, i, readings, sent).2 ensures IsSealing(platform, o, mine + rest) {
        IsSealingGrows(platform, o, mine, rest);
      }
    }
  }

  lemma ResponseOut(platform: Platform, rt: Runtime, frame: Bytes, source: SocketAddr, clock: Clock, sendOk: bool)
    ensures forall o :: o in OpenReceivedFrame(platform, rt, frame, Some(source), clock, sendOk).2 ==>
              IsSealing(platform, o, ResponseSealings(platform, rt, frame, clock))
  {
    hide IsSealing, OpenMessage, SealMessage, DecodeFrame, Probes.ProbeResponsePayload, MarkPeerDirect;
    forall o | o in OpenReceivedFrame(platform, rt, frame, Some(source), clock, sendOk).2
      ensures IsSealing(platform, o, ResponseSealings(platform, rt, frame, clock))
    {
      SealingIs(platform, o, ResponseSealings(platform, rt, frame, clock));
    }
  }

  /** Nothing goes out that is not on the log: whatever a step hands to the network is one of the frames it is
      said to seal. */
  lemma OutputIsSealed(platform: Platform, rt: Runtime, step: Step)
    requires Lawful(platform.suite)
    ensures forall o :: o in Output(platform, rt, step) ==> IsSealing(platform, o, SealingsOf(platform, rt, step))
  {
    hide IsSealing, ProbeFrom, PassSealings, OpenReceivedFrame, ResponseSealings, SendSealings;
    hide SendOverlayPacket, ExpireAll;
    match step
    case Send(packet, writeOk) =>
      var r := SendOverlayPacket(platform, rt, packet, writeOk).1;
      if r.Ok? {
        SentIsSealed(platform, rt, packet, writeOk);
        SealingIs(platform, r.value, SendSealings(platform, rt, packet));
      }
    case ProbeAll(readings) =>
      PassOut(platform, rt.(paths := ExpireAll(rt.paths, readings.start, rt.relays != [])), 0, readings, 0);
    case Receive(frame, source, clock, sendOk) => ResponseOut(platform, rt, frame, source, clock, sendOk);
    case ReceiveRelayed(message, clock) => Routing.RelayedExactly(platform, rt, message, clock);
    case _ =>
  }

  // ---------------------------------------------------------------- runs of many devices

  datatype Config = Config(persisted: Persisted, salts: nat -> Option<Octets8>)

  /** A device takes a step of its runtime, or its runtime is built, for the first time or anew. */
  datatype FleetStep =
    | Takes(device: DeviceId, step: Step)
    | Builds(device: DeviceId, config: Config)

  /** A frame that was sealed, by which device and at which step. */
  datatype Entry = Entry(owner: DeviceId, at: nat, sealing: Sealing)

  datatype Fleet = Fleet(runtimes: map<DeviceId, Runtime>, log: seq<Entry>, done: seq<FleetStep>)

  const EMPTY_FLEET := Fleet(map[], [], [])

  function Tag(owner: DeviceId, at: nat, sealings: seq<Sealing>): (entries: seq<Entry>)
    ensures |entries| == |sealings|
  {
    seq(|sealings|, i requires 0 <= i < |sealings| => Entry(owner, at, sealings[i]))
  }

  function Untag(log: seq<Entry>): (sealings: seq<Sealing>)
    ensures |sealings| == |log|
  {
    seq(|log|, i requires 0 <= i < |log| => log[i].sealing)
  }

  predicate Bound(f: Fleet, device: DeviceId)
  {
    device in f.runtimes && f.runtimes[device].transportBound
  }

  /** What a step seals. Building a runtime seals nothing. */
  function SealedIn(platform: Platform, f: Fleet, s: FleetStep): (sealings: seq<Sealing>)
  {
    if s.Builds? || s.device !in f.runtimes then [] else SealingsOf(platform, f.runtimes[s.device], s.step)
  }

  /** `replace_state` carries the transport over and builds everything else anew. */
  function NextRuntimes(platform: Platform, f: Fleet, s: FleetStep): (runtimes: map<DeviceId, Runtime>)
  {
    match s
    case Builds(device, config) =>
      f.runtimes[device := NewWorld(platform, config.persisted, config.salts, Bound(f, device), []).rt]
    case Takes(device, step) =>
      if device in f.runtimes then f.runtimes[device := Next(platform, f.runtimes[device], step)] else f.runtimes
  }

  function NextFleet(platform: Platform, f: Fleet, s: FleetStep): (f': Fleet)
  {
    Fleet(NextRuntimes(platform, f, s), f.log + Tag(s.device, |f.done|, SealedIn(platform, f, s)), f.done + [s])
  }

  function ExecFleet(platform: Platform, f: Fleet, steps: seq<FleetStep>): (f': Fleet)
    decreases |steps|
  {
    if steps == [] then f else ExecFleet(platform, NextFleet(platform, f, steps[0]), steps[1..])
  }

  /** A device is always configured under its own name. The network may present anything to anyone, except
      a ciphertext that authenticates under a session key though no device sealed it. */
  ghost predicate FleetEnabled(platform: Platform, f: Fleet, s: FleetStep)
  {
    match s
    case Builds(device, config) => config.persisted.localDeviceId == Some(device)
    case Takes(device, step) =>
      device in f.runtimes ==> Enabled(platform, World(f.runtimes[device], Untag(f.log), []), Runs(step))
  }

  ghost predicate FleetAllowed(platform: Platform, f: Fleet, steps: seq<FleetStep>)
    decreases |steps|
  {
    steps == []
    || (FleetEnabled(platform, f, steps[0]) && FleetAllowed(platform, NextFleet(platform, f, steps[0]), steps[1..]))
  }

  /** The packets one device hands out over a run, in order. */
  function DeliveredAt(platform: Platform, f: Fleet, steps: seq<FleetStep>, device: DeviceId): (d: seq<Delivery>)
    decreases |steps|
  {
    if steps == [] then []
    else
      (if steps[0].Takes? && steps[0].device == device && device in f.runtimes
       then DeliveriesOf(platform, f.runtimes[device], Runs(steps[0].step)) else [])
      + DeliveredAt(platform, NextFleet(platform, f, steps[0]), steps[1..], device)
  }

  // ---------------------------------------------------------------- invariant

  predicate IsData(x: Entry)
  {
    x.sealing.messageType == FRAME_TYPE_DATA
  }

  predicate IsSend(s: FleetStep, packet: Bytes)
  {
    s.Takes? && s.step.Send? && s.step.packet == packet
  }

  /** Each sealed frame is its owner's; sealed data was sent, at that step, by that owner. */
  ghost predicate EntryOk(platform: Platform, done: seq<FleetStep>, x: Entry)
  {
    && SealedAt(platform, x.owner, x.sealing)
    && x.at < |done| && done[x.at].device == x.owner
    && (IsData(x) ==> IsSend(done[x.at], x.sealing.plaintext))
  }

  ghost predicate LogOk(platform: Platform, log: seq<Entry>, done: seq<FleetStep>)
  {
    && (forall x :: x in log ==> EntryOk(platform, done, x))
    && (forall i, j :: 0 <= i < j < |log| && IsData(log[i]) && IsData(log[j]) ==> log[i].at != log[j].at)
  }

  ghost predicate FleetInv(platform: Platform, f: Fleet)
  {
    && LogOk(platform, f.log, f.done)
    && forall d :: d in f.runtimes ==> SpeaksFor(platform, d, f.runtimes[d].sessions)
  }

  lemma BuiltSpeaks(platform: Platform, config: Config, device: DeviceId)
    requires config.persisted.localDeviceId == Some(device)
    ensures SpeaksFor(platform, device, FromPersisted(platform, config.persisted, config.salts).sessions)
  {
    var sessions := FromPersisted(platform, config.persisted, config.salts).sessions;
    forall d | d in sessions ensures platform.frameId(device) == Some(sessions[d].crypto.localId) {
      var i := SessionOrigin(platform, config.persisted, config.salts, d);
    }
  }

  lemma LogGrows(platform: Platform, log: seq<Entry>, done: seq<FleetStep>, s: FleetStep, sealings: seq<Sealing>)
    requires LogOk(platform, log, done)
    requires forall e :: e in sealings ==>
               SealedAt(platform, s.device, e)
               && (e.messageType == FRAME_TYPE_DATA ==> IsSend(s, e.plaintext))
    requires s.Takes? && s.step.Send? ==> |sealings| <= 1
    ensures LogOk(platform, log + Tag(s.device, |done|, sealings), done + [s])
  {
    hide SealedAt;
    var more := Tag(s.device, |done|, sealings);
    forall x | x in log + more ensures EntryOk(platform, done + [s], x) {
      if x in log {
        assert EntryOk(platform, done, x);
      }
    }
    forall i | 0 <= i < |log| ensures log[i].at < |done| {
      assert EntryOk(platform, done, log[i]);
    }
    forall k | 0 <= k < |more| ensures more[k].sealing in sealings && more[k].at == |done| {
    }
  }

  lemma NextFleetInv(platform: Platform, f: Fleet, s: FleetStep)
    requires FleetInv(platform, f) && FleetEnabled(platform, f, s)
    ensures FleetInv(platform, NextFleet(platform, f, s))
  {
    hide Next, SealingsOf, SealedAt, SessionsEvolve, SpeaksFor, LogOk, FromPersisted, Enabled;
    var sealings := SealedIn(platform, f, s);
    match s {
      case Builds(device, config) => BuiltSpeaks(platform, config, device);
      case Takes(device, step) =>
        if device in f.runtimes {
          SealingsAreOwn(platform, device, f.runtimes[device], step);
          NextSpeaks(platform, device, f.runtimes[device], step);
        }
    }
    LogGrows(platform, f.log, f.done, s, sealings);
  }

  lemma NextSpeaks(platform: Platform, device: DeviceId, rt: Runtime, step: Step)
    requires SpeaksFor(platform, device, rt.sessions)
    ensures SpeaksFor(platform, device, Next(platform, rt, step).sessions)
  {
    hide Next, SessionsEvolve, OpenedBy, AcceptCounter, SpeaksFor;
    StepMovesOneWindow(platform, rt, step);
    var incoming := Incoming(platform, step);
    SpeaksForEvolves(platform, device, rt.sessions, Next(platform, rt, step).sessions,
                     if incoming.Some? then OpenedBy(platform, rt, incoming.value) else None);
  }

  lemma {:induction false} ExecFleetInv(platform: Platform, f: Fleet, steps: seq<FleetStep>)
    requires FleetInv(platform, f) && FleetAllowed(platform, f, steps)
    ensures FleetInv(platform, ExecFleet(platform, f, steps))
    ensures ExecFleet(platform, f, steps).done == f.done + steps
    decreases |steps|
  {
    hide FleetInv, NextRuntimes, SealedIn, FleetEnabled;
    if steps != [] {
      NextFleetInv(platform, f, steps[0]);
      ExecFleetInv(platform, NextFleet(platform, f, steps[0]), steps[1..]);
      assert f.done + [steps[0]] + steps[1..] == f.done + steps;
    }
  }

  lemma {:induction false} FleetConcat(platform: Platform, f: Fleet, a: seq<FleetStep>, b: seq<FleetStep>)
    ensures ExecFleet(platform, f, a + b) == ExecFleet(platform, ExecFleet(platform, f, a), b)
    ensures FleetAllowed(platform, f, a + b) <==>
            FleetAllowed(platform, f, a) && FleetAllowed(platform, ExecFleet(platform, f, a), b)
    decreases |a|
  {
    hide NextFleet, FleetEnabled;
    if a == [] {
      assert a + b == b;
    } else {
      FleetConcat(platform, NextFleet(platform, f, a[0]), a[1..], b);
      assert (a + b)[1..] == a[1..] + b;
    }
  }

  // ---------------------------------------------------------------- what one device sees of it

  function AllSeals(sealings: seq<Sealing>): (steps: seq<WorldStep>)
  {
    if sealings == [] then [] else [Seals(sealings[0])] + AllSeals(sealings[1..])
  }

  /** One step of the fleet as one device's world sees it. */
  function SeenStep(platform: Platform, f: Fleet, s: FleetStep, device: DeviceId): (steps: seq<WorldStep>)
  {
    (if s.Takes? && s.device == device then [Runs(s.step)] else []) + AllSeals(SealedIn(platform, f, s))
  }

  function Seen(platform: Platform, f: Fleet, steps: seq<FleetStep>, device: DeviceId): (seen: seq<WorldStep>)
    decreases |steps|
  {
    if steps == [] then []
    else SeenStep(platform, f, steps[0], device) + Seen(platform, NextFleet(platform, f, steps[0]), steps[1..], device)
  }

  ghost predicate NeverBuilt(steps: seq<FleetStep>, device: DeviceId)
  {
    forall i :: 0 <= i < |steps| && steps[i].Builds? ==> steps[i].device != device
  }

  /** The world of one device shows its own runtime and everybody's frames. */
  ghost predicate Shows(w: World, f: Fleet, device: DeviceId)
  {
    device in f.runtimes && w.rt == f.runtimes[device] && w.log == Untag(f.log)
  }

  lemma {:induction false} WorldConcat(platform: Platform, w: World, a: seq<WorldStep>, b: seq<WorldStep>)
    ensures ExecWorld(platform, w, a + b) == ExecWorld(platform, ExecWorld(platform, w, a), b)
    ensures Allowed(platform, w, a + b) <==> Allowed(platform, w, a) && Allowed(platform, ExecWorld(platform, w, a), b)
    ensures Deliveries(platform, w, a + b)
            == Deliveries(platform, w, a) + Deliveries(platform, ExecWorld(platform, w, a), b)
    decreases |a|
  {
    hide NextWorld, Enabled, DeliveriesOf;
    if a == [] {
      assert a + b == b;
    } else {
      WorldConcat(platform, NextWorld(platform, w, a[0]), a[1..], b);
      assert (a + b)[1..] == a[1..] + b;
    }
  }

  lemma {:induction false} AllSealsRun(platform: Platform, w: World, sealings: seq<Sealing>)
    requires forall e :: e in sealings ==> SealedBy(platform.suite, e.session, e.plaintext, e.messageType, e.frame)
    ensures ExecWorld(platform, w, AllSeals(sealings)) == w.(log := w.log + sealings)
    ensures Allowed(platform, w, AllSeals(sealings)) && Deliveries(platform, w, AllSeals(sealings)) == []
    decreases |sealings|
  {
    hide SealedBy, Next;
    if sealings == [] {
      assert w.log + sealings == w.log;
    } else {
      assert sealings[0] in sealings;
      var w' := NextWorld(platform, w, Seals(sealings[0]));
      AllSealsRun(platform, w', sealings[1..]);
      assert w.log + [sealings[0]] + sealings[1..] == w.log + sealings;
      assert AllSeals(sealings)[1..] == AllSeals(sealings[1..]);
    }
  }

  lemma OneRun(platform: Platform, w: World, step: Step)
    ensures ExecWorld(platform, w, [Runs(step)]) == NextWorld(platform, w, Runs(step))
    ensures Allowed(platform, w, [Runs(step)]) <==> Enabled(platform, w, Runs(step))
    ensures Deliveries(platform, w, [Runs(step)]) == DeliveriesOf(platform, w.rt, Runs(step))
  {
    hide NextWorld, Enabled, DeliveriesOf;
    var w' := NextWorld(platform, w, Runs(step));
    assert [Runs(step)][1..] == [] && ExecWorld(platform, w', []) == w' && Allowed(platform, w', []);
    assert Deliveries(platform, w', []) == [];
  }

  lemma EnabledAnyHistory(platform: Platform, w: World, v: World, step: WorldStep)
    requires Enabled(platform, w, step) && v.rt == w.rt && v.log == w.log
    ensures Enabled(platform, v, step)
  {
    hide SealedBy, DecodeFrame;
  }

  lemma UntagConcat(log: seq<Entry>, owner: DeviceId, at: nat, sealings: seq<Sealing>)
    ensures Untag(log + Tag(owner, at, sealings)) == Untag(log) + sealings
  {
  }

  lemma SeenStepShows(platform: Platform, f: Fleet, s: FleetStep, device: DeviceId, w: World)
    requires FleetInv(platform, f) && Shows(w, f, device) && FleetEnabled(platform, f, s)
    requires s.Builds? ==> s.device != device
    ensures var seen := SeenStep(platform, f, s, device);
            && Allowed(platform, w, seen)
            && Shows(ExecWorld(platform, w, seen), NextFleet(platform, f, s), device)
            && Deliveries(platform, w, seen)
               == if s.Takes? && s.device == device then DeliveriesOf(platform, w.rt, Runs(s.step)) else []
  {
    hide Next, SealingsOf, SealedBy, Enabled, DeliveriesOf, Untag, Tag, AllSeals, Allowed, ExecWorld, Deliveries;
    hide SpeaksFor, LogOk, FromPersisted;
    var sealings := SealedIn(platform, f, s);
    if s.Takes? && s.device in f.runtimes {
      SealingsAreOwn(platform, s.device, f.runtimes[s.device], s.step);
    }
    UntagConcat(f.log, s.device, |f.done|, sealings);
    if s.Takes? && s.device == device {
      EnabledAnyHistory(platform, World(w.rt, w.log, []), w, Runs(s.step));
      OneRun(platform, w, s.step);
      AllSealsRun(platform, NextWorld(platform, w, Runs(s.step)), sealings);
      WorldConcat(platform, w, [Runs(s.step)], AllSeals(sealings));
    } else {
      AllSealsRun(platform, w, sealings);
      assert [] + AllSeals(sealings) == AllSeals(sealings);
    }
  }

  lemma NothingSeen(platform: Platform, w: World)
    ensures Allowed(platform, w, []) && ExecWorld(platform, w, []) == w && Deliveries(platform, w, []) == []
  {
  }

  /** A run of the fleet is, for each device that it does not configure anew, a run of its world, with the
      same packets handed out. */
  lemma {:induction false} SeenShows(platform: Platform, f: Fleet, steps: seq<FleetStep>, device: DeviceId, w: World)
    requires FleetInv(platform, f) && Shows(w, f, device) && FleetAllowed(platform, f, steps)
             && NeverBuilt(steps, device)
    ensures var seen := Seen(platform, f, steps, device);
            && Allowed(platform, w, seen)
            && Shows(ExecWorld(platform, w, seen), ExecFleet(platform, f, steps), device)
            && Deliveries(platform, w, seen) == DeliveredAt(platform, f, steps, device)
    decreases |steps|
  {
    hide FleetInv, NextFleet, SeenStep, FleetEnabled, DeliveriesOf, Allowed, ExecWorld, Deliveries, Untag;
    if steps == [] {
      NothingSeen(platform, w);
    } else {
      var first := SeenStep(platform, f, steps[0], device);
      SeenStepShows(platform, f, steps[0], device, w);
      NextFleetInv(platform, f, steps[0]);
      var f', w' := NextFleet(platform, f, steps[0]), ExecWorld(platform, w, first);
      SeenShows(platform, f', steps[1..], device, w');
      WorldConcat(platform, w, first, Seen(platform, f', steps[1..], device));
    }
  }

  // ---------------------------------------------------------------- every packet was sent

  /** The step is some device's sending of this packet, and that device has the frame id of the one the
      packet is said to be from. */
  ghost predicate SentAt(platform: Platform, steps: seq<FleetStep>, k: nat, d: Delivery)
  {
    && k < |steps| && IsSend(steps[k], d.packet)
    && platform.frameId(d.from).Some? && platform.frameId(steps[k].device) == platform.frameId(d.from)
  }

  /** The world of a device at the moment it is built. */
  function BuiltWorld(platform: Platform, before: seq<FleetStep>, device: DeviceId, config: Config): (w: World)
  {
    var f := ExecFleet(platform, EMPTY_FLEET, before);
    NewWorld(platform, config.persisted, config.salts, Bound(f, device), Untag(f.log))
  }

  function FleetAtBuild(platform: Platform, before: seq<FleetStep>, device: DeviceId, config: Config): (f: Fleet)
  {
    ExecFleet(platform, EMPTY_FLEET, before + [Builds(device, config)])
  }

  lemma EmptyFleetInv(platform: Platform)
    ensures FleetInv(platform, EMPTY_FLEET)
  {
  }

  lemma BuiltShows(platform: Platform, before: seq<FleetStep>, device: DeviceId, config: Config)
    requires FleetAllowed(platform, EMPTY_FLEET, before + [Builds(device, config)])
    ensures var f := FleetAtBuild(platform, before, device, config);
            && FleetInv(platform, f) && f.done == before + [Builds(device, config)]
            && Shows(BuiltWorld(platform, before, device, config), f, device)
            && AllSealed(platform, Untag(f.log))
  {
    EmptyFleetInv(platform);
    hide FromPersisted, SpeaksFor, AllSealed, LogOk, Next, SealingsOf;
    var f, s := ExecFleet(platform, EMPTY_FLEET, before), Builds(device, config);
    FleetConcat(platform, EMPTY_FLEET, before, [s]);
    assert [s][1..] == [] && ExecFleet(platform, f, [s]) == ExecFleet(platform, NextFleet(platform, f, s), []);
    ExecFleetInv(platform, EMPTY_FLEET, before + [s]);
    assert f.log + Tag(device, |f.done|, []) == f.log;
    LogIsSealed(platform, f.log, NextFleet(platform, f, s).done);
  }

  lemma LogIsSealed(platform: Platform, log: seq<Entry>, done: seq<FleetStep>)
    requires LogOk(platform, log, done)
    ensures AllSealed(platform, Untag(log))
  {
    hide SealedBy;
    forall e | e in Untag(log) ensures SealedBy(platform.suite, e.session, e.plaintext, e.messageType, e.frame) {
      var i :| 0 <= i < |log| && Untag(log)[i] == e;
      assert EntryOk(platform, done, log[i]);
    }
  }

  /** End to end, at most once and unaltered. Over every run of any number of devices, which join and are
      configured anew at any time, with a network that drops, repeats, reorders, redirects and invents
      frames, and relays them or not: the packets that a device hands out between being built and being
      built again can be charged to pairwise different steps of the whole run at which the device they
      came from was given exactly that packet to send. */
  lemma PacketsWereSent(platform: Platform, before: seq<FleetStep>, device: DeviceId, config: Config,
                        steps: seq<FleetStep>)
    returns (sends: seq<nat>)
    requires Lawful(platform.suite) && NeverBuilt(steps, device)
    requires FleetAllowed(platform, EMPTY_FLEET, before + [Builds(device, config)] + steps)
    ensures var delivered := DeliveredAt(platform, FleetAtBuild(platform, before, device, config), steps, device);
            && |sends| == |delivered|
            && (forall i :: 0 <= i < |sends| ==>
                  SentAt(platform, before + [Builds(device, config)] + steps, sends[i], delivered[i]))
            && (forall i, j :: 0 <= i < j < |sends| ==> sends[i] != sends[j])
  {
    hide FromPersisted, ExecFleet, ExecWorld, Allowed, FleetAllowed, Deliveries, DeliveredAt, Seen, Lawful;
    hide SpeaksFor, AllSealed;
    var w, f := BuiltWorld(platform, before, device, config), FleetAtBuild(platform, before, device, config);
    FleetConcat(platform, EMPTY_FLEET, before + [Builds(device, config)], steps);
    BuiltShows(platform, before, device, config);
    SeenShows(platform, f, steps, device, w);
    ExecFleetInv(platform, f, steps);
    var f' := ExecFleet(platform, f, steps);
    var payment := PacketsArePaid(platform, config.persisted, config.salts, w.rt.transportBound, w.log,
                                  Seen(platform, f, steps, device));
    sends := PaymentSteps(platform, f', payment, DeliveredAt(platform, f, steps, device));
  }

  lemma PaymentSteps(platform: Platform, f: Fleet, payment: seq<nat>, delivered: seq<Delivery>)
    returns (sends: seq<nat>)
    requires LogOk(platform, f.log, f.done) && |payment| == |delivered|
    requires forall i :: 0 <= i < |payment| ==>
               payment[i] < |f.log| && PaysFor(platform, Untag(f.log)[payment[i]], delivered[i])
    requires forall i, j :: 0 <= i < j < |payment| ==> payment[i] != payment[j]
    ensures |sends| == |delivered|
    ensures forall i :: 0 <= i < |sends| ==> SentAt(platform, f.done, sends[i], delivered[i])
    ensures forall i, j :: 0 <= i < j < |sends| ==> sends[i] != sends[j]
  {
    hide SealedBy;
    sends := seq(|payment|, i requires 0 <= i < |payment| => f.log[payment[i]].at);
    forall i | 0 <= i < |sends| ensures SentAt(platform, f.done, sends[i], delivered[i]) {
      assert EntryOk(platform, f.done, f.log[payment[i]]);
      assert PaysFor(platform, Untag(f.log)[payment[i]], delivered[i]);
    }
    forall i, j | 0 <= i < j < |sends| ensures sends[i] != sends[j] {
      assert PaysFor(platform, Untag(f.log)[payment[i]], delivered[i]);
      assert PaysFor(platform, Untag(f.log)[payment[j]], delivered[j]);
    }
  }

  /** The entry was sealed at a step of a device with this device's frame id. */
  ghost predicate OwnedBy(platform: Platform, steps: seq<FleetStep>, x: Entry, device: DeviceId)
  {
    x.at < |steps| && steps[x.at].device == x.owner && platform.frameId(x.owner) == platform.frameId(device)
  }

  /** The same for everything a device opens, and so for every path it turns Direct: each opened frame is
      charged to a sealing of its own, made by the runtime of a device with the frame id of the one it
      was opened from, at a step of that device. */
  lemma OpeningsAreOwned(platform: Platform, before: seq<FleetStep>, device: DeviceId, config: Config,
                         steps: seq<FleetStep>)
    returns (payment: seq<nat>)
    requires Lawful(platform.suite) && NeverBuilt(steps, device)
    requires FleetAllowed(platform, EMPTY_FLEET, before + [Builds(device, config)] + steps)
    ensures var f := FleetAtBuild(platform, before, device, config);
            var log := ExecFleet(platform, f, steps).log;
            var w := ExecWorld(platform, BuiltWorld(platform, before, device, config),
                               Seen(platform, f, steps, device));
            && |payment| == |w.history|
            && (forall i :: 0 <= i < |payment| ==>
                  && payment[i] < |log| && Pays(platform, w.rt.sessions, log[payment[i]].sealing, w.history[i])
                  && OwnedBy(platform, before + [Builds(device, config)] + steps, log[payment[i]], w.history[i].device))
            && (forall i, j :: 0 <= i < j < |payment| ==> payment[i] != payment[j])
  {
    hide FromPersisted, ExecFleet, ExecWorld, Allowed, FleetAllowed, Deliveries, Seen, Lawful, SpeaksFor;
    hide SealedBy, AllSealed;
    var w, f := BuiltWorld(platform, before, device, config), FleetAtBuild(platform, before, device, config);
    FleetConcat(platform, EMPTY_FLEET, before + [Builds(device, config)], steps);
    BuiltShows(platform, before, device, config);
    SeenShows(platform, f, steps, device, w);
    ExecFleetInv(platform, f, steps);
    var f' := ExecFleet(platform, f, steps);
    payment := PromotionsArePaid(platform, config.persisted, config.salts, w.rt.transportBound, w.log,
                                 Seen(platform, f, steps, device));
    forall i | 0 <= i < |payment| ensures EntryOk(platform, f'.done, f'.log[payment[i]]) {
      assert f'.log[payment[i]] in f'.log;
    }
  }
}
