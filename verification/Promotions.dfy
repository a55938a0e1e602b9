/** What a runtime owes to its peers: every frame it opens, and with it every packet it hands out and
    every path that becomes Direct, is paid for by a frame of that peer, used once. */
module Promotions {
  import opened Prelude
  import opened Nonces
  import opened Frames
  import opened Crypto
  import opened Transport
  import opened Paths
  import opened Runtimes
  import opened RuntimeRuns
  import opened Timelines
  import Channels

  // ---------------------------------------------------------------- payment

  /** Some key holder's sealing of one frame. */
  datatype Sealing = Sealing(session: Session, messageType: byte, plaintext: Bytes, frame: Bytes)

  /** A frame the runtime opened, from which device, whether it marked that device's path Direct, and the
      packet it handed out. */
  datatype Opening = Opening(device: DeviceId, frame: Bytes, promoted: bool, packet: Option<Bytes>)

  /** `log` holds every frame sealed under any key so far, by the peers or by this device itself;
      `history` every frame this runtime has opened. */
  datatype World = World(rt: Runtime, log: seq<Sealing>, history: seq<Opening>)

  datatype WorldStep = Seals(sealing: Sealing) | Runs(step: Step)

  function Incoming(platform: Platform, step: Step): (frame: Option<Bytes>)
  {
    match step
    case Receive(frame, _, _, _) => Some(frame)
    case ReceiveRelayed(message, _) =>
      if message.FrameMessage? then platform.suite.decodeBase64(message.payload) else None
    case _ => None
  }

  function Promotes(platform: Platform, rt: Runtime, step: Step): (p: bool)
  {
    step.Receive? && Answered(platform, rt, step.frame, Some(step.source), step.clock, step.sendOk).Some?
  }

  /** The packet a step hands to the overlay interface. */
  function HandedOut(platform: Platform, rt: Runtime, step: Step): (packet: Option<Bytes>)
  {
    var r := match step
      case Receive(frame, source, clock, sendOk) =>
        OpenReceivedFrame(platform, rt, frame, Some(source), clock, sendOk).1
      case ReceiveRelayed(message, clock) => OpenRelayFrame(platform, rt, message, clock).1
      case _ => Ok(None);
    if r.Ok? then r.value else None
  }

  function NextWorld(platform: Platform, w: World, step: WorldStep): (w': World)
  {
    match step
    case Seals(sealing) => w.(log := w.log + [sealing])
    case Runs(s) =>
      var incoming := Incoming(platform, s);
      var device := if incoming.Some? then OpenedBy(platform, w.rt, incoming.value) else None;
      w.(rt := Next(platform, w.rt, s),
         history := if device.None? then w.history
                   else w.history + [Opening(device.value, incoming.value, Promotes(platform, w.rt, s),
                                         HandedOut(platform, w.rt, s))])
  }

  /** Authenticity: what decrypts under a session key was sealed by a holder of that key. */
  ghost predicate Genuine(platform: Platform, w: World, frame: Bytes)
  {
    forall device :: device in w.rt.sessions && DecodeFrame(frame).Ok? ==>
      var f, key := DecodeFrame(frame).value, w.rt.sessions[device].crypto.key;
      platform.suite.decrypt(key, f.header.nonce, HeaderBytes(f.header), f.ciphertext).Some? ==>
        exists e :: e in w.log && e.session.key == key && e.frame == frame
  }

  ghost predicate Enabled(platform: Platform, w: World, step: WorldStep)
  {
    match step
    case Seals(e) => SealedBy(platform.suite, e.session, e.plaintext, e.messageType, e.frame)
    case Runs(s) => Incoming(platform, s).Some? ==> Genuine(platform, w, Incoming(platform, s).value)
  }

  ghost predicate Allowed(platform: Platform, w: World, steps: seq<WorldStep>)
    decreases |steps|
  {
    steps == [] || (Enabled(platform, w, steps[0]) && Allowed(platform, NextWorld(platform, w, steps[0]), steps[1..]))
  }

  function ExecWorld(platform: Platform, w: World, steps: seq<WorldStep>): (w': World)
    decreases |steps|
  {
    if steps == [] then w else ExecWorld(platform, NextWorld(platform, w, steps[0]), steps[1..])
  }

  ghost function CountersFrom(history: seq<Opening>, device: DeviceId): (s: set<u64>)
  {
    set o | o in history && o.device == device :: Channels.FrameCounter(o.frame)
  }

  /** The log entry is the very frame opened, sealed by the device it was opened from, for this one and
      under the key of their session; a packet is handed out exactly for data, and is what was sealed. */
  ghost predicate Pays(platform: Platform, sessions: map<DeviceId, TransportSession>, e: Sealing, o: Opening)
  {
    && e.frame == o.frame
    && SealedBy(platform.suite, e.session, e.plaintext, e.messageType, e.frame)
    && platform.frameId(o.device) == Some(e.session.localId)
    && o.device in sessions && e.session.key == sessions[o.device].crypto.key
    && e.session.peerId == sessions[o.device].crypto.localId
    && (o.promoted ==> e.messageType == FRAME_TYPE_PROBE || e.messageType == FRAME_TYPE_PROBE_RESPONSE)
    && (o.packet.Some? <==> e.messageType == FRAME_TYPE_DATA)
    && (o.packet.Some? ==> o.packet.value == e.plaintext)
  }

  ghost predicate Paid(platform: Platform, sessions: map<DeviceId, TransportSession>, log: seq<Sealing>, o: Opening)
  {
    exists e :: e in log && Pays(platform, sessions, e, o)
  }

  /** Frames opened for one device have different counters, and that device's window stands for them. */
  ghost predicate WindowsOk(sessions: map<DeviceId, TransportSession>, history: seq<Opening>)
  {
    && (forall d :: d in sessions ==> Tracks(sessions[d].crypto.window, CountersFrom(history, d)))
    && (forall i, j :: 0 <= i < j < |history| && history[i].device == history[j].device ==>
          Channels.FrameCounter(history[i].frame) != Channels.FrameCounter(history[j].frame))
  }

  /** The index from frame ids to devices is right, and a frame was opened for the device it names. */
  ghost predicate IndexOk(platform: Platform, index: map<FrameId, DeviceId>, history: seq<Opening>)
  {
    && (forall f :: f in index ==> platform.frameId(index[f]) == Some(f))
    && (forall o :: o in history ==>
          && DecodeFrame(o.frame).Ok? && DecodeFrame(o.frame).value.header.source in index
          && index[DecodeFrame(o.frame).value.header.source] == o.device)
  }

  ghost predicate WorldInv(platform: Platform, w: World)
  {
    && WindowsOk(w.rt.sessions, w.history)
    && IndexOk(platform, w.rt.deviceByFrameId, w.history)
    && (forall e :: e in w.log ==> SealedBy(platform.suite, e.session, e.plaintext, e.messageType, e.frame))
    && (forall o :: o in w.history ==> Paid(platform, w.rt.sessions, w.log, o))
  }

  // ---------------------------------------------------------------- steps keep the windows

  /** Only the counter and the window may differ. */
  predicate SameCore(a: Session, b: Session)
  {
    b == a.(counter := b.counter, window := b.window)
  }

  /** The same devices with the same keys and ids; the replay windows are the same except possibly at
      `device`. */
  ghost predicate SessionsEvolve(m: map<DeviceId, TransportSession>, m': map<DeviceId, TransportSession>,
                                 device: Option<DeviceId>)
  {
    && m'.Keys == m.Keys
    && forall d :: d in m ==>
         SameCore(m[d].crypto, m'[d].crypto) && (device != Some(d) ==> m'[d].crypto.window == m[d].crypto.window)
  }

  lemma NoWindowMoves(m: map<DeviceId, TransportSession>)
    ensures SessionsEvolve(m, m, None)
  {
  }

  lemma WindowMovesCompose(m: map<DeviceId, TransportSession>, m': map<DeviceId, TransportSession>,
                           m'': map<DeviceId, TransportSession>, device: Option<DeviceId>)
    requires SessionsEvolve(m, m', device) && SessionsEvolve(m', m'', None)
    ensures SessionsEvolve(m, m'', device)
  {
  }

  lemma OneWindowMoves(m: map<DeviceId, TransportSession>, device: DeviceId, s: TransportSession)
    requires device in m && SameCore(m[device].crypto, s.crypto)
    ensures SessionsEvolve(m, m[device := s], Some(device))
  {
  }

  lemma WindowStays(m: map<DeviceId, TransportSession>, m': map<DeviceId, TransportSession>, device: DeviceId)
    requires SessionsEvolve(m, m', None) && device in m
    ensures device in m' && m'[device].crypto.window == m[device].crypto.window
  {
  }

  lemma SetCryptoKeepsWindows(m: map<DeviceId, TransportSession>, device: DeviceId, s: TransportSession)
    requires device in m && SameCore(m[device].crypto, s.crypto) && s.crypto.window == m[device].crypto.window
    ensures SessionsEvolve(m, m[device := s], None)
  {
  }

  lemma {:induction false} ProbesKeepWindow(platform: Platform, crypto: Session, readings: Readings, i: nat,
                                            endpoints: seq<Endpoint>, j: nat)
    requires j <= |endpoints|
    ensures var crypto' := SendProbes(platform, crypto, readings, i, endpoints, j).0;
            SameCore(crypto, crypto') && crypto'.window == crypto.window
    decreases |endpoints| - j
  {
    if j < |endpoints| {
      var payload := Probes.ProbePayload(readings.sentMillis(i));
      SealEffect(platform.suite, crypto, payload, FRAME_TYPE_PROBE);
      var crypto' := SealMessage(platform.suite, crypto, payload, FRAME_TYPE_PROBE).0;
      ProbesKeepWindow(platform, crypto', readings, i, endpoints, j + 1);
    }
  }

  lemma VisitSeals(platform: Platform, rt: Runtime, i: nat, readings: Readings)
    requires i < |rt.persisted.peers| && !VisitPeer(platform, rt, i, readings).Skipped?
    ensures var peer := rt.persisted.peers[i];
            VisitPeer(platform, rt, i, readings).crypto
            == SendProbes(platform, rt.sessions[peer.deviceId].crypto, readings, i, ByRank(UdpOnly(peer.endpoints)),
                          0).0
  {
    hide SendProbes, ByRank, UdpOnly, ProbeDue;
  }

  lemma VisitKeepsWindows(platform: Platform, rt: Runtime, i: nat, readings: Readings)
    requires i < |rt.persisted.peers|
    ensures var rt' := AfterVisit(platform, rt, i, readings);
            SessionsEvolve(rt.sessions, rt'.sessions, None) && rt'.deviceByFrameId == rt.deviceByFrameId
            && rt'.persisted == rt.persisted
  {
    hide SendProbes, ByRank, UdpOnly, SessionsEvolve, VisitPeer, Probed, ProbeDue;
    var peer := rt.persisted.peers[i];
    NoWindowMoves(rt.sessions);
    if !VisitPeer(platform, rt, i, readings).Skipped? {
      VisitSeals(platform, rt, i, readings);
      var session, endpoints := rt.sessions[peer.deviceId], ByRank(UdpOnly(peer.endpoints));
      ProbesKeepWindow(platform, session.crypto, readings, i, endpoints, 0);
      var crypto := SendProbes(platform, session.crypto, readings, i, endpoints, 0).0;
      SetCryptoKeepsWindows(rt.sessions, peer.deviceId, session.(crypto := crypto));
    }
  }

  lemma {:induction false} ProbeKeepsWindows(platform: Platform, rt: Runtime, i: nat, readings: Readings, sent: nat)
    requires i <= |rt.persisted.peers|
    ensures var rt' := ProbeFrom(platform, rt, i, readings, sent).0;
            SessionsEvolve(rt.sessions, rt'.sessions, None) && rt'.deviceByFrameId == rt.deviceByFrameId
    decreases |rt.persisted.peers| - i
  {
    hide SessionsEvolve, AfterVisit, VisitPeer;
    NoWindowMoves(rt.sessions);
    if i < |rt.persisted.peers| {
      VisitKeepsWindows(platform, rt, i, readings);
      var rt' := AfterVisit(platform, rt, i, readings);
      match VisitPeer(platform, rt, i, readings)
      case Skipped =>
        ProbeKeepsWindows(platform, rt', i + 1, readings, sent);
        WindowMovesCompose(rt.sessions, rt'.sessions, ProbeFrom(platform, rt', i + 1, readings, sent).0.sessions, None);
      case CutShort(_, _, _) =>
      case Completed(_, out) =>
        ProbeKeepsWindows(platform, rt', i + 1, readings, sent + |out|);
        WindowMovesCompose(rt.sessions, rt'.sessions,
                           ProbeFrom(platform, rt', i + 1, readings, sent + |out|).0.sessions, None);
    }
  }

  lemma MarkKeepsWindows(rt: Runtime, device: DeviceId, endpoint: Endpoint, rttMs: Option<u64>, now: nat)
    requires device in rt.sessions
    ensures var rt' := MarkPeerDirect(rt, device, endpoint, rttMs, now);
            SessionsEvolve(rt.sessions, rt'.sessions, None) && rt'.deviceByFrameId == rt.deviceByFrameId
  {
    hide SessionsEvolve, MarkedDirect;
    SetCryptoKeepsWindows(rt.sessions, device, rt.sessions[device].(endpoint := endpoint));
  }

  lemma DispatchKeepsWindows(platform: Platform, rt: Runtime, device: DeviceId, message: OpenFrame,
                             source: Option<SocketAddr>,
                             clock: Clock, sendOk: bool)
    requires device in rt.sessions
    ensures var rt' := Dispatch(platform, rt, device, message, source, clock, sendOk).0;
            SessionsEvolve(rt.sessions, rt'.sessions, None) && rt'.deviceByFrameId == rt.deviceByFrameId
  {
    hide SealMessage, SealedBy, SessionsEvolve, MarkPeerDirect, Probes.ProbeResponsePayload, Probes.ProbeResponseRttMs;
    NoWindowMoves(rt.sessions);
    if message.messageType != FRAME_TYPE_DATA && source.Some? {
      var endpoint := DirectEndpoint(source.value);
      if message.messageType == FRAME_TYPE_PROBE {
        var payload, session := Probes.ProbeResponsePayload(message.plaintext, clock.millis), rt.sessions[device];
        SealEffect(platform.suite, session.crypto, payload, FRAME_TYPE_PROBE_RESPONSE);
        var crypto := SealMessage(platform.suite, session.crypto, payload, FRAME_TYPE_PROBE_RESPONSE).0;
        var rt1 := WithCrypto(rt, device, crypto);
        SetCryptoKeepsWindows(rt.sessions, device, session.(crypto := crypto));
        MarkKeepsWindows(rt1, device, endpoint, None, clock.now);
        WindowMovesCompose(rt.sessions, rt1.sessions, MarkPeerDirect(rt1, device, endpoint, None, clock.now).sessions,
                           None);
      } else if message.messageType == FRAME_TYPE_PROBE_RESPONSE {
        MarkKeepsWindows(rt, device, endpoint, Probes.ProbeResponseRttMs(message.plaintext, clock.millis), clock.now);
      }
    }
  }

  /** An opened frame moves the window of the device that opened it, by its counter; a frame that is
      not opened moves none. */
  lemma ReceiveMovesOneWindow(platform: Platform, rt: Runtime, frame: Bytes, source: Option<SocketAddr>, clock: Clock,
                              sendOk: bool)
    ensures var rt' := OpenReceivedFrame(platform, rt, frame, source, clock, sendOk).0;
            && SessionsEvolve(rt.sessions, rt'.sessions, OpenedBy(platform, rt, frame))
            && rt'.deviceByFrameId == rt.deviceByFrameId
            && match OpenedBy(platform, rt, frame)
               case None => true
               case Some(device) =>
                 AcceptCounter(rt.sessions[device].crypto.window, Channels.FrameCounter(frame))
                 == Ok(rt'.sessions[device].crypto.window)
  {
    hide OpenMessage, SealMessage, DecodeFrame, AcceptCounter, Dispatch, SessionsEvolve;
    NoWindowMoves(rt.sessions);
    if DecodeFrame(frame).Ok? && DecodeFrame(frame).value.header.source in rt.deviceByFrameId {
      var device := rt.deviceByFrameId[DecodeFrame(frame).value.header.source];
      if device in rt.sessions {
        OpenEffect(platform.suite, rt.sessions[device].crypto, frame);
        var (crypto, r) := OpenMessage(platform.suite, rt.sessions[device].crypto, frame);
        if r.Ok? {
          var rt1 := WithCrypto(rt, device, crypto);
          OneWindowMoves(rt.sessions, device, rt.sessions[device].(crypto := crypto));
          DispatchKeepsWindows(platform, rt1, device, r.value, source, clock, sendOk);
          var rt2 := Dispatch(platform, rt1, device, r.value, source, clock, sendOk).0;
          WindowMovesCompose(rt.sessions, rt1.sessions, rt2.sessions, Some(device));
          WindowStays(rt1.sessions, rt2.sessions, device);
        }
      }
    }
  }

  lemma SendKeepsWindows(platform: Platform, rt: Runtime, packet: Bytes, writeOk: bool)
    ensures var rt' := SendOverlayPacket(platform, rt, packet, writeOk).0;
            SessionsEvolve(rt.sessions, rt'.sessions, None) && rt'.deviceByFrameId == rt.deviceByFrameId
  {
    hide SealMessage, SealedBy, SessionsEvolve;
    var destination := Ipv4Destination(packet);
    assert SessionsEvolve(rt.sessions, rt.sessions, None) by { NoWindowMoves(rt.sessions); }
    if destination.Some? && destination.value in rt.deviceByOverlayIp
      && rt.deviceByOverlayIp[destination.value] in rt.sessions {
      var device := rt.deviceByOverlayIp[destination.value];
      var session := rt.sessions[device];
      SealEffect(platform.suite, session.crypto, packet, FRAME_TYPE_DATA);
      var crypto := SealMessage(platform.suite, session.crypto, packet, FRAME_TYPE_DATA).0;
      SetCryptoKeepsWindows(rt.sessions, device, session.(crypto := crypto));
    }
  }

  lemma StepMovesOneWindow(platform: Platform, rt: Runtime, step: Step)
    ensures var rt' := Next(platform, rt, step);
            var incoming := Incoming(platform, step);
            var device := if incoming.Some? then OpenedBy(platform, rt, incoming.value) else None;
            && SessionsEvolve(rt.sessions, rt'.sessions, device)
            && rt'.deviceByFrameId == rt.deviceByFrameId
            && (device.Some? ==>
                  AcceptCounter(rt.sessions[device.value].crypto.window, Channels.FrameCounter(incoming.value))
                  == Ok(rt'.sessions[device.value].crypto.window))
  {
    match step
    case Send(packet, writeOk) => SendKeepsWindows(platform, rt, packet, writeOk);
    case ProbeAll(readings) =>
      var rt' := rt.(paths := ExpireAll(rt.paths, readings.start, rt.relays != []));
      ProbeKeepsWindows(platform, rt', 0, readings, 0);
    case Receive(frame, source, clock, sendOk) =>
      ReceiveMovesOneWindow(platform, rt, frame, Some(source), clock, sendOk);
    case ReceiveRelayed(message, clock) =>
      if message.FrameMessage? && platform.suite.decodeBase64(message.payload).Some? {
        ReceiveMovesOneWindow(platform, rt, platform.suite.decodeBase64(message.payload).value, None, clock, false);
      }
    case SetRelays(_) =>
    case BindTransport(_) =>
  }

  lemma CountersFromAppend(history: seq<Opening>, o: Opening, device: DeviceId)
    ensures CountersFrom(history + [o], device)
            == CountersFrom(history, device) + (if o.device == device then {Channels.FrameCounter(o.frame)} else {})
  {
    assert forall x :: x in history + [o] <==> x in history || x == o;
  }

  lemma WindowsAfterOpening(m: map<DeviceId, TransportSession>, m': map<DeviceId, TransportSession>,
                            history: seq<Opening>, o: Opening)
    requires WindowsOk(m, history) && SessionsEvolve(m, m', Some(o.device)) && o.device in m
    requires AcceptCounter(m[o.device].crypto.window, Channels.FrameCounter(o.frame)) == Ok(m'[o.device].crypto.window)
    ensures WindowsOk(m', history + [o])
  {
    hide Tracks, AcceptCounter, Channels.FrameCounter;
    AcceptRefinesSet(m[o.device].crypto.window, CountersFrom(history, o.device), Channels.FrameCounter(o.frame));
    forall d | d in m' ensures Tracks(m'[d].crypto.window, CountersFrom(history + [o], d)) {
      CountersFromAppend(history, o, d);
      assert d != o.device ==> CountersFrom(history + [o], d) == CountersFrom(history, d);
    }
    forall x | x in history && x.device == o.device
      ensures Channels.FrameCounter(x.frame) in CountersFrom(history, o.device)
    {
    }
  }

  // ---------------------------------------------------------------- payment of one opening

  /** What opening a frame gives: its packet if it is data, else none. */
  ghost predicate PacketOf(platform: Platform, rt: Runtime, frame: Bytes, packet: Option<Bytes>)
    requires OpenedBy(platform, rt, frame).Some?
  {
    var message := OpenMessage(platform.suite, rt.sessions[OpenedBy(platform, rt, frame).value].crypto, frame).1.value;
    packet == if message.messageType == FRAME_TYPE_DATA then Some(message.plaintext) else None
  }

  lemma ReceivedPacket(platform: Platform, rt: Runtime, frame: Bytes, source: Option<SocketAddr>, clock: Clock,
                       sendOk: bool)
    ensures var r := OpenReceivedFrame(platform, rt, frame, source, clock, sendOk).1;
            var packet := if r.Ok? then r.value else None;
            if OpenedBy(platform, rt, frame).None? then packet == None else PacketOf(platform, rt, frame, packet)
  {
    hide OpenMessage, DecodeFrame, SealMessage, MarkPeerDirect, Probes.ProbeResponsePayload, Probes.ProbeResponseRttMs;
  }

  lemma HandedOutPacket(platform: Platform, rt: Runtime, step: Step)
    ensures var incoming, packet := Incoming(platform, step), HandedOut(platform, rt, step);
            if incoming.None? || OpenedBy(platform, rt, incoming.value).None? then packet == None
            else PacketOf(platform, rt, incoming.value, packet)
  {
    hide OpenReceivedFrame, OpenedBy, PacketOf;
    match step
    case Receive(frame, source, clock, sendOk) => ReceivedPacket(platform, rt, frame, Some(source), clock, sendOk);
    case ReceiveRelayed(message, clock) =>
      if Incoming(platform, step).Some? {
        ReceivedPacket(platform, rt, Incoming(platform, step).value, None, clock, false);
      }
    case _ =>
  }

  lemma OpeningIsPaid(platform: Platform, w: World, frame: Bytes, promoted: bool, packet: Option<Bytes>)
    requires Lawful(platform.suite) && WorldInv(platform, w) && Genuine(platform, w, frame)
    requires OpenedBy(platform, w.rt, frame).Some? && PacketOf(platform, w.rt, frame, packet)
    requires promoted ==> DecodeFrame(frame).value.header.messageType != FRAME_TYPE_DATA
    ensures Paid(platform, w.rt.sessions, w.log,
                 Opening(OpenedBy(platform, w.rt, frame).value, frame, promoted, packet))
  {
    var device := OpenedBy(platform, w.rt, frame).value;
    var session := w.rt.sessions[device].crypto;
    OpenEffect(platform.suite, session, frame);
    var e :| e in w.log && e.session.key == session.key && e.frame == frame;
    SealedFrameDecodes(platform.suite, e.session, e.plaintext, e.messageType, e.frame);
    assert Pays(platform, w.rt.sessions, e, Opening(device, frame, promoted, packet));
  }

  lemma PaidStays(platform: Platform, m: map<DeviceId, TransportSession>, m': map<DeviceId, TransportSession>,
                  device: Option<DeviceId>, log: seq<Sealing>, o: Opening)
    requires Paid(platform, m, log, o) && SessionsEvolve(m, m', device)
    ensures Paid(platform, m', log, o)
  {
    hide SealedBy;
    var e :| e in log && Pays(platform, m, e, o);
    assert SameCore(m[o.device].crypto, m'[o.device].crypto);
    assert Pays(platform, m', e, o);
  }

  lemma PaidGrows(platform: Platform, m: map<DeviceId, TransportSession>, log: seq<Sealing>, e: Sealing, o: Opening)
    requires Paid(platform, m, log, o)
    ensures Paid(platform, m, log + [e], o)
  {
    var x :| x in log && Pays(platform, m, x, o);
    assert x in log + [e];
  }

  lemma WindowsUnmoved(m: map<DeviceId, TransportSession>, m': map<DeviceId, TransportSession>, history: seq<Opening>)
    requires WindowsOk(m, history) && SessionsEvolve(m, m', None)
    ensures WindowsOk(m', history)
  {
    hide Tracks, Channels.FrameCounter;
  }

  lemma IndexAfterOpening(platform: Platform, rt: Runtime, history: seq<Opening>, o: Opening)
    requires IndexOk(platform, rt.deviceByFrameId, history) && OpenedBy(platform, rt, o.frame) == Some(o.device)
    ensures IndexOk(platform, rt.deviceByFrameId, history + [o])
    ensures o.device in rt.sessions
  {
    hide OpenMessage, DecodeFrame;
  }

  lemma RunsInv(platform: Platform, w: World, s: Step)
    requires Lawful(platform.suite) && WorldInv(platform, w) && Enabled(platform, w, Runs(s))
    ensures WorldInv(platform, NextWorld(platform, w, Runs(s)))
  {
    hide Next, SealedBy, WindowsOk, SessionsEvolve, AcceptCounter, OpenedBy, Answered, IndexOk, DecodeFrame;
    hide Pays, Genuine;
    hide HandedOut, PacketOf;
    var w' := NextWorld(platform, w, Runs(s));
    StepMovesOneWindow(platform, w.rt, s);
    var incoming := Incoming(platform, s);
    if incoming.Some? && OpenedBy(platform, w.rt, incoming.value).Some? {
      var promoted := Promotes(platform, w.rt, s);
      if promoted {
        PathsChangeOnlyByAnswers(platform, w.rt, s.frame, Some(s.source), s.clock, s.sendOk);
      }
      var packet := HandedOut(platform, w.rt, s);
      var o := Opening(OpenedBy(platform, w.rt, incoming.value).value, incoming.value, promoted, packet);
      HandedOutPacket(platform, w.rt, s);
      OpeningIsPaid(platform, w, incoming.value, promoted, packet);
      IndexAfterOpening(platform, w.rt, w.history, o);
      WindowsAfterOpening(w.rt.sessions, w'.rt.sessions, w.history, o);
      assert forall x :: x in w'.history ==> x in w.history || x == o;
      forall x | x in w'.history ensures Paid(platform, w'.rt.sessions, w'.log, x) {
        PaidStays(platform, w.rt.sessions, w'.rt.sessions, Some(o.device), w.log, x);
      }
    } else {
      WindowsUnmoved(w.rt.sessions, w'.rt.sessions, w.history);
      forall x | x in w'.history ensures Paid(platform, w'.rt.sessions, w'.log, x) {
        PaidStays(platform, w.rt.sessions, w'.rt.sessions, None, w.log, x);
      }
    }
  }

  lemma NextWorldInv(platform: Platform, w: World, step: WorldStep)
    requires Lawful(platform.suite) && WorldInv(platform, w) && Enabled(platform, w, step)
    ensures WorldInv(platform, NextWorld(platform, w, step))
  {
    hide Next, SealedBy, WindowsOk, IndexOk;
    match step
    case Seals(sealing) =>
      forall o | o in w.history ensures Paid(platform, w.rt.sessions, w.log + [sealing], o) {
        PaidGrows(platform, w.rt.sessions, w.log, sealing, o);
      }
    case Runs(s) => RunsInv(platform, w, s);
  }

  lemma {:induction false} ExecWorldInv(platform: Platform, w: World, steps: seq<WorldStep>)
    requires Lawful(platform.suite) && WorldInv(platform, w) && Allowed(platform, w, steps)
    ensures WorldInv(platform, ExecWorld(platform, w, steps))
    decreases |steps|
  {
    if steps != [] {
      NextWorldInv(platform, w, steps[0]);
      ExecWorldInv(platform, NextWorld(platform, w, steps[0]), steps[1..]);
    }
  }

  /** A runtime just built, in a world where frames may have been sealed before; a transport that was
      bound stays bound. */
  function NewWorld(platform: Platform, persisted: Persisted, salts: nat -> Option<Octets8>, bound: bool,
                    log: seq<Sealing>): (w: World)
  {
    World(FromPersisted(platform, persisted, salts).(transportBound := bound), log, [])
  }

  ghost predicate AllSealed(platform: Platform, log: seq<Sealing>)
  {
    forall e :: e in log ==> SealedBy(platform.suite, e.session, e.plaintext, e.messageType, e.frame)
  }

  lemma InitialWorldInv(platform: Platform, persisted: Persisted, salts: nat -> Option<Octets8>, bound: bool,
                        log: seq<Sealing>)
    requires AllSealed(platform, log)
    ensures WorldInv(platform, NewWorld(platform, persisted, salts, bound, log))
  {
    var rt := FromPersisted(platform, persisted, salts);
    forall d | d in rt.sessions ensures Tracks(rt.sessions[d].crypto.window, CountersFrom([], d)) {
      var i := SessionOrigin(platform, persisted, salts, d);
      assert CountersFrom([], d) == {};
    }
    forall f | f in rt.deviceByFrameId ensures platform.frameId(rt.deviceByFrameId[f]) == Some(f) {
      FrameIndexNamesPeers(platform, persisted.peers, f);
    }
  }

  lemma {:induction false} Payment(platform: Platform, m: map<DeviceId, TransportSession>, log: seq<Sealing>,
                                   history: seq<Opening>)
    returns (payment: seq<nat>)
    requires forall o :: o in history ==> Paid(platform, m, log, o)
    ensures |payment| == |history|
    ensures forall i :: 0 <= i < |payment| ==> payment[i] < |log| && Pays(platform, m, log[payment[i]], history[i])
  {
    if history == [] {
      payment := [];
    } else {
      var n := |history| - 1;
      payment := Payment(platform, m, log, history[..n]);
      assert history[n] in history;
      var e :| e in log && Pays(platform, m, e, history[n]);
      var k :| 0 <= k < |log| && log[k] == e;
      payment := payment + [k];
    }
  }

  /** Path changes are authenticated and used once. Over any run of a fresh runtime, the frames it
      opened, and with them all promotions to Direct, can be charged to pairwise different sealings;
      each is a sealing of the very frame by the device concerned, and for a promotion it is a probe
      or a probe response. */
  lemma PromotionsArePaid(platform: Platform, persisted: Persisted, salts: nat -> Option<Octets8>, bound: bool,
                  log: seq<Sealing>, steps: seq<WorldStep>) returns (payment: seq<nat>)
    requires Lawful(platform.suite) && AllSealed(platform, log)
    requires Allowed(platform, NewWorld(platform, persisted, salts, bound, log), steps)
    ensures var w := ExecWorld(platform, NewWorld(platform, persisted, salts, bound, log), steps);
            && |payment| == |w.history|
            && (forall i :: 0 <= i < |payment| ==>
                  payment[i] < |w.log| && Pays(platform, w.rt.sessions, w.log[payment[i]], w.history[i]))
            && (forall i, j :: 0 <= i < j < |payment| ==> payment[i] != payment[j])
  {
    var start := NewWorld(platform, persisted, salts, bound, log);
    InitialWorldInv(platform, persisted, salts, bound, log);
    ExecWorldInv(platform, start, steps);
    var w := ExecWorld(platform, start, steps);
    payment := Payment(platform, w.rt.sessions, w.log, w.history);
    forall i, j | 0 <= i < j < |payment| ensures payment[i] != payment[j] {
      assert w.history[i] in w.history && w.history[j] in w.history;
      assert w.history[i].frame == w.log[payment[i]].frame && w.history[j].frame == w.log[payment[j]].frame;
    }
  }

  // ---------------------------------------------------------------- promotions are openings

  /** How often a peer's path became Direct that was not. */
  function DirectTurns(platform: Platform, w: World, steps: seq<WorldStep>, device: DeviceId): (n: nat)
    decreases |steps|
  {
    if steps == [] then 0
    else
      var w' := NextWorld(platform, w, steps[0]);
      (if !PathOf(w.rt, device).current.DirectPath? && PathOf(w'.rt, device).current.DirectPath? then 1 else 0)
      + DirectTurns(platform, w', steps[1..], device)
  }

  function PromotingOpenings(history: seq<Opening>, device: DeviceId): (n: nat)
  {
    if history == [] then 0
    else
      var last := history[|history| - 1];
      PromotingOpenings(history[..|history| - 1], device) + if last.device == device && last.promoted then 1 else 0
  }

  lemma {:induction false} ProbesNeverPromote(s: PathState, events: seq<PathEvent>)
    requires NeverAnswers(events) && !s.current.DirectPath?
    ensures !Run(s, events).current.DirectPath?
  {
    NotDirectStays(s, events);
  }

  lemma AnsweredIsOpened(platform: Platform, rt: Runtime, frame: Bytes, source: Option<SocketAddr>, clock: Clock,
                         sendOk: bool)
    requires Answered(platform, rt, frame, source, clock, sendOk).Some?
    ensures OpenedBy(platform, rt, frame) == Some(Answered(platform, rt, frame, source, clock, sendOk).value.0)
  {
    hide OpenMessage, DecodeFrame, DispatchAnswer;
  }

  lemma TurnIsPromotion(platform: Platform, rt: Runtime, step: Step, device: DeviceId)
    requires Inv(rt) && device in rt.paths && !rt.paths[device].current.DirectPath?
    requires PathOf(Next(platform, rt, step), device).current.DirectPath?
    ensures step.Receive? && Promotes(platform, rt, step) && OpenedBy(platform, rt, step.frame) == Some(device)
  {
    hide Next, Answered, Inv, OpenedBy, ExpireAll;
    StepFollowsEvents(platform, rt, step, device);
    var events := EventsOf(platform, rt, step, device);
    if NeverAnswers(events) {
      ProbesNeverPromote(rt.paths[device], events);
    } else if step.ProbeAll? {
      ProbeAllNeverAnswers(platform, rt, step.readings, device);
    } else {
      AnsweredIsOpened(platform, rt, step.frame, Some(step.source), step.clock, step.sendOk);
    }
  }

  /** Every turn of a path to Direct is recorded as a promoting opening of a frame from that device, so
      there are no more turns than such openings, each of which `PromotionsArePaid` charges to a probe
      or response of its own. */
  lemma {:induction false} TurnsAreOpenings(platform: Platform, w: World, steps: seq<WorldStep>, device: DeviceId)
    requires Inv(w.rt) && device in w.rt.paths
    ensures PromotingOpenings(w.history, device) + DirectTurns(platform, w, steps, device)
            <= PromotingOpenings(ExecWorld(platform, w, steps).history, device)
    decreases |steps|
  {
    hide Next, Inv, OpenedBy, Promotes;
    if steps != [] {
      var w' := NextWorld(platform, w, steps[0]);
      match steps[0] {
      case Seals(_) =>
      case Runs(s) =>
        NextInv(platform, w.rt, s);
        StepFollowsEvents(platform, w.rt, s, device);
        if !w.rt.paths[device].current.DirectPath? && w'.rt.paths[device].current.DirectPath? {
          TurnIsPromotion(platform, w.rt, s, device);
        }
        assert w'.history == w.history || w'.history[..|w'.history| - 1] == w.history;
      }
      TurnsAreOpenings(platform, w', steps[1..], device);
    }
  }

  /** From a fresh runtime on: a path turns Direct at most as often as frames of its peer were opened
      that promoted it. */
  lemma FreshTurnsAreOpenings(platform: Platform, persisted: Persisted, salts: nat -> Option<Octets8>, bound: bool,
                              log: seq<Sealing>, steps: seq<WorldStep>, device: DeviceId)
    requires exists p :: p in persisted.peers && p.deviceId == device
    ensures var w := NewWorld(platform, persisted, salts, bound, log);
            DirectTurns(platform, w, steps, device) <= PromotingOpenings(ExecWorld(platform, w, steps).history, device)
  {
    InitialInv(platform, persisted, salts);
    InitialPaths(persisted.peers);
    NextInv(platform, FromPersisted(platform, persisted, salts), BindTransport(bound));
    TurnsAreOpenings(platform, NewWorld(platform, persisted, salts, bound, log), steps, device);
  }

  // ---------------------------------------------------------------- packets are openings

  /** A packet handed out, with the device it is from. */
  datatype Delivery = Delivery(from: DeviceId, packet: Bytes)

  /** The packets a run hands out, in order. */
  function Deliveries(platform: Platform, w: World, steps: seq<WorldStep>): (d: seq<Delivery>)
    decreases |steps|
  {
    if steps == [] then []
    else DeliveriesOf(platform, w.rt, steps[0]) + Deliveries(platform, NextWorld(platform, w, steps[0]), steps[1..])
  }

  function DeliveriesOf(platform: Platform, rt: Runtime, step: WorldStep): (d: seq<Delivery>)
  {
    if step.Seals? || HandedOut(platform, rt, step.step).None? then []
    else
      HandedOutPacket(platform, rt, step.step);
      [Delivery(OpenedBy(platform, rt, Incoming(platform, step.step).value).value,
                HandedOut(platform, rt, step.step).value)]
  }

  function Recorded(history: seq<Opening>): (d: seq<Delivery>)
  {
    if history == [] then []
    else
      var last := history[|history| - 1];
      Recorded(history[..|history| - 1]) + if last.packet.Some? then [Delivery(last.device, last.packet.value)] else []
  }

  lemma RecordedNothing()
    ensures Recorded([]) == []
  {
  }

  lemma RecordedAppend(history: seq<Opening>, o: Opening)
    ensures Recorded(history + [o])
            == Recorded(history) + if o.packet.Some? then [Delivery(o.device, o.packet.value)] else []
  {
    assert (history + [o])[..|history|] == history;
  }

  lemma StepDeliveries(platform: Platform, w: World, step: WorldStep)
    ensures Recorded(NextWorld(platform, w, step).history) == Recorded(w.history) + DeliveriesOf(platform, w.rt, step)
  {
    hide Next, OpenedBy, Promotes, HandedOut, Incoming, PacketOf, Recorded;
    if step.Runs? {
      HandedOutPacket(platform, w.rt, step.step);
      var incoming := Incoming(platform, step.step);
      if incoming.Some? && OpenedBy(platform, w.rt, incoming.value).Some? {
        RecordedAppend(w.history, Opening(OpenedBy(platform, w.rt, incoming.value).value, incoming.value,
                                          Promotes(platform, w.rt, step.step), HandedOut(platform, w.rt, step.step)));
      }
    }
  }

  /** No packet is handed out that is not on record. */
  lemma {:induction false} DeliveriesAreRecorded(platform: Platform, w: World, steps: seq<WorldStep>)
    ensures Recorded(ExecWorld(platform, w, steps).history) == Recorded(w.history) + Deliveries(platform, w, steps)
    decreases |steps|
  {
    hide NextWorld, DeliveriesOf, Recorded;
    if steps != [] {
      StepDeliveries(platform, w, steps[0]);
      DeliveriesAreRecorded(platform, NextWorld(platform, w, steps[0]), steps[1..]);
    }
  }

  ghost predicate PaysFor(platform: Platform, e: Sealing, d: Delivery)
  {
    && e.messageType == FRAME_TYPE_DATA && e.plaintext == d.packet
    && platform.frameId(d.from) == Some(e.session.localId)
  }

  lemma PaysForPacket(platform: Platform, m: map<DeviceId, TransportSession>, e: Sealing, o: Opening)
    requires Pays(platform, m, e, o) && o.packet.Some?
    ensures PaysFor(platform, e, Delivery(o.device, o.packet.value))
  {
    hide SealedBy;
  }

  lemma {:induction false} PacketPayment(platform: Platform, m: map<DeviceId, TransportSession>, log: seq<Sealing>,
                                         history: seq<Opening>, payment: seq<nat>) returns (packets: seq<nat>)
    requires |payment| == |history|
    requires forall i :: 0 <= i < |payment| ==> payment[i] < |log| && Pays(platform, m, log[payment[i]], history[i])
    requires forall i, j :: 0 <= i < j < |payment| ==> payment[i] != payment[j]
    ensures |packets| == |Recorded(history)| && forall k :: k in packets ==> k in payment
    ensures forall i :: 0 <= i < |packets| ==>
              packets[i] < |log| && PaysFor(platform, log[packets[i]], Recorded(history)[i])
    ensures forall i, j :: 0 <= i < j < |packets| ==> packets[i] != packets[j]
  {
    hide Pays, PaysFor;
    if history == [] {
      packets := [];
    } else {
      var n := |history| - 1;
      packets := PacketPayment(platform, m, log, history[..n], payment[..n]);
      assert history == history[..n] + [history[n]] && payment == payment[..n] + [payment[n]];
      RecordedAppend(history[..n], history[n]);
      assert payment[n] !in payment[..n];
      hide Recorded;
      if history[n].packet.Some? {
        PaysForPacket(platform, m, log[payment[n]], history[n]);
        packets := packets + [payment[n]];
      }
    }
  }

  /** At most once and unaltered. Over any run of a fresh runtime, the packets it hands out can be charged
      to pairwise different sealings of exactly those packets, as data, by the devices they came from. */
  lemma PacketsArePaid(platform: Platform, persisted: Persisted, salts: nat -> Option<Octets8>, bound: bool,
                  log: seq<Sealing>, steps: seq<WorldStep>) returns (payment: seq<nat>)
    requires Lawful(platform.suite) && AllSealed(platform, log)
    requires Allowed(platform, NewWorld(platform, persisted, salts, bound, log), steps)
    ensures var start := NewWorld(platform, persisted, salts, bound, log);
            var all, delivered := ExecWorld(platform, start, steps).log, Deliveries(platform, start, steps);
            && |payment| == |delivered|
            && (forall i :: 0 <= i < |payment| ==>
                  payment[i] < |all| && PaysFor(platform, all[payment[i]], delivered[i]))
            && (forall i, j :: 0 <= i < j < |payment| ==> payment[i] != payment[j])
  {
    RecordedNothing();
    hide FromPersisted, ExecWorld, Allowed, Lawful, Pays, PaysFor, Deliveries, Recorded, AllSealed;
    var start := NewWorld(platform, persisted, salts, bound, log);
    var w := ExecWorld(platform, start, steps);
    var all := PromotionsArePaid(platform, persisted, salts, bound, log, steps);
    payment := PacketPayment(platform, w.rt.sessions, w.log, w.history, all);
    DeliveriesAreRecorded(platform, start, steps);
  }
}
