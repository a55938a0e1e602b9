/** Overlay routing from end to end: a packet handed to one runtime is sealed for the one peer that
    owns its destination address, and that peer's runtime hands out the same bytes. */
module Routing {
  import opened Prelude
  import opened Nonces
  import opened Frames
  import opened Crypto
  import opened Transport
  import opened Runtimes
  import opened RuntimeRuns
  import opened Promotions
  import opened RelayProtocol
  import Timelines
  import Decimal
  import Paths
  import Probes

  // ---------------------------------------------------------------- what runs keep

  ghost predicate SameIndexes(rt: Runtime, rt': Runtime)
  {
    && rt'.persisted == rt.persisted
    && rt'.peersByDevice == rt.peersByDevice
    && rt'.deviceByOverlayIp == rt.deviceByOverlayIp
    && rt'.udpEndpointByDevice == rt.udpEndpointByDevice
    && rt'.deviceByFrameId == rt.deviceByFrameId
  }

  /** A run changes neither the configuration nor the indexes, and of a session only counter, window
      and endpoint. */
  ghost predicate SameNetwork(rt: Runtime, rt': Runtime)
  {
    && SameIndexes(rt, rt')
    && rt'.sessions.Keys == rt.sessions.Keys
    && forall d :: d in rt.sessions ==> SameCore(rt.sessions[d].crypto, rt'.sessions[d].crypto)
  }

  lemma VisitKeepsIndexes(platform: Platform, rt: Runtime, i: nat, readings: Readings)
    requires i < |rt.persisted.peers|
    ensures SameIndexes(rt, AfterVisit(platform, rt, i, readings))
  {
    hide VisitPeer, Paths.Probed, Paths.ProbeDue;
  }

  lemma {:induction false} ProbeKeepsIndexes(platform: Platform, rt: Runtime, i: nat, readings: Readings, sent: nat)
    requires i <= |rt.persisted.peers|
    ensures SameIndexes(rt, ProbeFrom(platform, rt, i, readings, sent).0)
    decreases |rt.persisted.peers| - i
  {
    hide VisitPeer, AfterVisit;
    if i < |rt.persisted.peers| {
      var rt' := AfterVisit(platform, rt, i, readings);
      VisitKeepsIndexes(platform, rt, i, readings);
      match VisitPeer(platform, rt, i, readings)
      case Skipped => ProbeKeepsIndexes(platform, rt', i + 1, readings, sent);
      case CutShort(_, _, _) =>
      case Completed(_, out) => ProbeKeepsIndexes(platform, rt', i + 1, readings, sent + |out|);
    }
  }

  lemma DispatchKeepsIndexes(platform: Platform, rt: Runtime, device: DeviceId, message: OpenFrame,
                             source: Option<SocketAddr>,
                             clock: Clock, sendOk: bool)
    requires device in rt.sessions
    ensures SameIndexes(rt, Dispatch(platform, rt, device, message, source, clock, sendOk).0)
  {
    hide SealMessage, Probes.ProbeResponsePayload, Probes.ProbeResponseRttMs, MarkPeerDirect, SameIndexes;
    assert SameIndexes(rt, rt) by { IndexesKept(rt, rt); }
    if message.messageType != FRAME_TYPE_DATA && source.Some? {
      var endpoint := DirectEndpoint(source.value);
      if message.messageType == FRAME_TYPE_PROBE {
        var payload := Probes.ProbeResponsePayload(message.plaintext, clock.millis);
        var rt' := WithCrypto(rt, device,
                              SealMessage(platform.suite, rt.sessions[device].crypto, payload,
                                          FRAME_TYPE_PROBE_RESPONSE).0);
        IndexesKept(rt, rt');
        MarkKeepsIndexes(rt, rt', device, endpoint, None, clock.now);
      } else if message.messageType == FRAME_TYPE_PROBE_RESPONSE {
        MarkKeepsIndexes(rt, rt, device, endpoint, Probes.ProbeResponseRttMs(message.plaintext, clock.millis),
                         clock.now);
      }
    }
  }

  lemma IndexesKept(rt: Runtime, rt': Runtime)
    requires rt' == rt.(sessions := rt'.sessions, paths := rt'.paths)
    ensures SameIndexes(rt, rt')
  {
  }

  lemma MarkKeepsIndexes(rt: Runtime, rt': Runtime, device: DeviceId, endpoint: Endpoint, rttMs: Option<u64>, now: nat)
    requires SameIndexes(rt, rt')
    ensures SameIndexes(rt, MarkPeerDirect(rt', device, endpoint, rttMs, now))
  {
    hide Paths.MarkedDirect;
  }

  lemma ReceiveKeepsIndexes(platform: Platform, rt: Runtime, frame: Bytes, source: Option<SocketAddr>, clock: Clock,
                            sendOk: bool)
    ensures SameIndexes(rt, OpenReceivedFrame(platform, rt, frame, source, clock, sendOk).0)
  {
    hide OpenMessage, DecodeFrame, Dispatch;
    if DecodeFrame(frame).Ok? && DecodeFrame(frame).value.header.source in rt.deviceByFrameId {
      var device := rt.deviceByFrameId[DecodeFrame(frame).value.header.source];
      if device in rt.sessions {
        var (crypto, r) := OpenMessage(platform.suite, rt.sessions[device].crypto, frame);
        if r.Ok? {
          DispatchKeepsIndexes(platform, WithCrypto(rt, device, crypto), device, r.value, source, clock, sendOk);
        }
      }
    }
  }

  lemma NextKeepsNetwork(platform: Platform, rt: Runtime, step: Step)
    ensures SameNetwork(rt, Next(platform, rt, step))
  {
    hide Next, SameIndexes, Timelines.OpenedBy, AcceptCounter, SameCore;
    StepMovesOneWindow(platform, rt, step);
    NextKeepsIndexes(platform, rt, step);
  }

  lemma NextKeepsIndexes(platform: Platform, rt: Runtime, step: Step)
    ensures SameIndexes(rt, Next(platform, rt, step))
  {
    hide ProbeFrom, OpenReceivedFrame, SendOverlayPacket, ExpireAll;
    match step
    case Send(packet, writeOk) => SendIsCryptoOnly(platform, rt, packet, writeOk);
    case ProbeAll(readings) =>
      ProbeKeepsIndexes(platform, rt.(paths := ExpireAll(rt.paths, readings.start, rt.relays != [])), 0, readings, 0);
    case Receive(frame, source, clock, sendOk) =>
      ReceiveKeepsIndexes(platform, rt, frame, Some(source), clock, sendOk);
    case ReceiveRelayed(message, clock) =>
      if message.FrameMessage? && platform.suite.decodeBase64(message.payload).Some? {
        ReceiveKeepsIndexes(platform, rt, platform.suite.decodeBase64(message.payload).value, None, clock, false);
      }
    case _ =>
  }

  lemma {:induction false} ExecKeepsNetwork(platform: Platform, rt: Runtime, steps: seq<Step>)
    ensures SameNetwork(rt, Exec(platform, rt, steps))
    decreases |steps|
  {
    hide Next;
    if steps != [] {
      NextKeepsNetwork(platform, rt, steps[0]);
      ExecKeepsNetwork(platform, Next(platform, rt, steps[0]), steps[1..]);
    }
  }

  // ---------------------------------------------------------------- the owner of an address

  ghost predicate DistinctAddresses(peers: seq<Peer>)
  {
    forall i, j :: 0 <= i < j < |peers| ==> peers[i].overlayIp != peers[j].overlayIp
  }

  /** With distinct overlay addresses, the overlay index knows an address exactly if some peer owns
      it, and names that peer. */
  lemma AddressOwner(peers: seq<Peer>, address: Ipv4)
    requires DistinctAddresses(peers)
    ensures address in Collect(peers, ByOverlayIp) <==> exists p :: p in peers && p.overlayIp == address
    ensures forall p :: p in peers && p.overlayIp == address ==>
              address in Collect(peers, ByOverlayIp) && Collect(peers, ByOverlayIp)[address] == p.deviceId
  {
    CollectIsLastMatch(peers, ByOverlayIp, address);
    forall p | p in peers && p.overlayIp == address
      ensures address in Collect(peers, ByOverlayIp) && Collect(peers, ByOverlayIp)[address] == p.deviceId
    {
      var i :| 0 <= i < |peers| && peers[i] == p;
      LastMatchIsCollected(peers, ByOverlayIp, i, address, p.deviceId);
    }
    if address in Collect(peers, ByOverlayIp) {
      var i: nat :| LastWithKey(peers, ByOverlayIp, i, address, Collect(peers, ByOverlayIp)[address]);
      assert peers[i] in peers;
    }
  }

  function FrameOf(platform: Platform, out: Outgoing): (frame: Option<Bytes>)
  {
    match out
    case OverUdp(_, frame) => Some(frame)
    case OverRelay(message) => if message.FrameMessage? then platform.suite.decodeBase64(message.payload) else None
  }

  lemma PeersKeepPaths(platform: Platform, persisted: Persisted, salts: nat -> Option<Octets8>, steps: seq<Step>)
    ensures var rt := Exec(platform, FromPersisted(platform, persisted, salts), steps);
            && rt.persisted == persisted && Inv(rt)
            && forall p :: p in persisted.peers ==> p.deviceId in rt.paths
  {
    hide Exec, FromPersisted, PeerOk, SessionOk;
    InitialInv(platform, persisted, salts);
    ExecInv(platform, FromPersisted(platform, persisted, salts), steps);
    ExecKeepsNetwork(platform, FromPersisted(platform, persisted, salts), steps);
    FreshPersisted(platform, persisted, salts);
  }

  lemma FreshPersisted(platform: Platform, persisted: Persisted, salts: nat -> Option<Octets8>)
    ensures var rt := FromPersisted(platform, persisted, salts);
            rt.persisted == persisted && rt.deviceByOverlayIp == Collect(persisted.peers, ByOverlayIp)
  {
    hide Collect, BuildSessions;
  }

  /** Sent exactly when it can be. In every reachable state, with distinct addresses and a cipher that does
      not fail, a packet for a peer's address is sent if and only if there is a session with that peer, a
      counter is left, the write succeeds, and the path is Relay or a transport is bound; a counter is used
      whenever there is one. Through the relay it names this device as its source. */
  lemma PacketIsSentExactlyWhen(platform: Platform, persisted: Persisted, salts: nat -> Option<Octets8>,
                                steps: seq<Step>,
                                packet: Bytes, p: Peer, writeOk: bool)
    requires DistinctAddresses(persisted.peers) && p in persisted.peers && ToAddress(packet, p.overlayIp)
    requires forall k: Key, n: Nonce, a: Bytes, m: Bytes :: platform.suite.encrypt(k, n, a, m).Some?
    ensures var rt := Exec(platform, FromPersisted(platform, persisted, salts), steps);
            var (rt', r) := SendOverlayPacket(platform, rt, packet, writeOk);
            var d := p.deviceId;
            && d in rt.paths
            && (d !in rt.sessions ==> r == Err(SessionNotReady) && rt' == rt)
            && (d in rt.sessions ==>
                  var counter := rt.sessions[d].crypto.counter;
                  && (r.Ok? <==> && counter < 0xFFFF_FFFF_FFFF_FFFF && writeOk
                                 && (rt.paths[d].current.RelayPath? || rt.transportBound))
                  && d in rt'.sessions && rt'.sessions[d].crypto.counter == Min(0xFFFF_FFFF_FFFF_FFFF, counter + 1)
                  && (r.Ok? && rt.paths[d].current.RelayPath? ==>
                        && r.value.OverRelay? && r.value.message.FrameMessage? && r.value.message.destination == d
                        && Some(r.value.message.source) == persisted.localDeviceId))
  {
    hide SealMessage, Exec, SealedBy, Collect, FromPersisted, Inv, ToAddress, Ipv4Destination, SameCore;
    hide DistinctAddresses;
    var start := FromPersisted(platform, persisted, salts);
    var rt := Exec(platform, start, steps);
    ExecKeepsNetwork(platform, start, steps);
    DestinationExactlyWhen(packet, p.overlayIp);
    AddressOwner(persisted.peers, p.overlayIp);
    PeersKeepPaths(platform, persisted, salts, steps);
    FreshPersisted(platform, persisted, salts);
    var d := p.deviceId;
    if d in rt.sessions {
      ReachablePathsAreConsistent(platform, persisted, salts, steps, d);
      SessionNeedsConfig(platform, persisted, salts, d);
      SealEffect(platform.suite, rt.sessions[d].crypto, packet, FRAME_TYPE_DATA);
      SealSucceedsExactlyWhen(platform.suite, rt.sessions[d].crypto, packet, FRAME_TYPE_DATA);
    }
  }

  /** A session that does not send over UDP is not written to, in whatever state. */
  lemma OnlyUdpIsWrittenTo(platform: Platform, rt: Runtime, packet: Bytes, address: Ipv4, device: DeviceId,
                           writeOk: bool)
    requires ToAddress(packet, address) && address in rt.deviceByOverlayIp && rt.deviceByOverlayIp[address] == device
    requires device in rt.sessions && !rt.sessions[device].endpoint.protocol.Udp?
    requires device !in rt.paths || !rt.paths[device].current.RelayPath?
    ensures SendOverlayPacket(platform, rt, packet, writeOk).1.Err?
  {
    DestinationExactlyWhen(packet, address);
    hide SealMessage;
  }

  lemma SessionNeedsConfig(platform: Platform, persisted: Persisted, salts: nat -> Option<Octets8>, d: DeviceId)
    requires d in FromPersisted(platform, persisted, salts).sessions
    ensures persisted.localDeviceId.Some?
  {
    hide Collect, Buildable;
    SessionsExactlyWhen(platform, persisted, salts, d);
  }

  /** A packet for no address at all is refused as such, and one for an address that no peer owns as that. */
  lemma PacketIsNotSent(platform: Platform, persisted: Persisted, salts: nat -> Option<Octets8>, steps: seq<Step>,
                        packet: Bytes, writeOk: bool)
    requires DistinctAddresses(persisted.peers)
    requires forall p :: p in persisted.peers ==> !ToAddress(packet, p.overlayIp)
    ensures var rt := Exec(platform, FromPersisted(platform, persisted, salts), steps);
            SendOverlayPacket(platform, rt, packet, writeOk)
            == (rt, Err(if exists ip :: ToAddress(packet, ip) then NoPeerForDestination else BadPacket))
  {
    hide Exec, Collect, FromPersisted, ToAddress;
    var rt := Exec(platform, FromPersisted(platform, persisted, salts), steps);
    ExecKeepsNetwork(platform, FromPersisted(platform, persisted, salts), steps);
    FreshPersisted(platform, persisted, salts);
    forall ip ensures Ipv4Destination(packet) == Some(ip) <==> ToAddress(packet, ip) {
      DestinationExactlyWhen(packet, ip);
    }
    if Ipv4Destination(packet).Some? {
      AddressOwner(persisted.peers, Ipv4Destination(packet).value);
      assert ToAddress(packet, Ipv4Destination(packet).value);
    }
  }

  /** A packet is sent only if some peer owns its destination; it is then sealed, as data, by the
      session of that peer, and goes through the relay exactly if that peer's path is Relay, and
      otherwise to that session's endpoint. */
  lemma PacketIsSealedForOwner(platform: Platform, persisted: Persisted, salts: nat -> Option<Octets8>,
                               steps: seq<Step>, packet: Bytes)
    requires Lawful(platform.suite) && DistinctAddresses(persisted.peers)
    requires SendOverlayPacket(platform, Exec(platform, FromPersisted(platform, persisted, salts), steps), packet,
                               true).1.Ok?
    ensures var rt := Exec(platform, FromPersisted(platform, persisted, salts), steps);
            var out := SendOverlayPacket(platform, rt, packet, true).1.value;
            exists p ::
                 && p in persisted.peers && ToAddress(packet, p.overlayIp)
                 && p.deviceId in rt.sessions && p.deviceId in rt.paths
                 && FrameOf(platform, out).Some?
                 && SealedBy(platform.suite, rt.sessions[p.deviceId].crypto, packet, FRAME_TYPE_DATA,
                             FrameOf(platform, out).value)
                 && (out.OverRelay? <==> rt.paths[p.deviceId].current.RelayPath?)
                 && (out.OverRelay? ==> out.message.FrameMessage? && out.message.destination == p.deviceId)
                 && (out.OverUdp? ==> out.endpoint == rt.sessions[p.deviceId].endpoint)
  {
    hide SealMessage, Exec, SealedBy, Collect, BuildSessions;
    var start := FromPersisted(platform, persisted, salts);
    var rt := Exec(platform, start, steps);
    ExecKeepsNetwork(platform, start, steps);
    var address := Ipv4Destination(packet).value;
    DestinationExactlyWhen(packet, address);
    AddressOwner(persisted.peers, address);
    PeersKeepPaths(platform, persisted, salts, steps);
    var device := rt.deviceByOverlayIp[address];
    SealEffect(platform.suite, rt.sessions[device].crypto, packet, FRAME_TYPE_DATA);
    var p :| p in persisted.peers && p.overlayIp == address;
    assert p.deviceId == device;
    var frame := SealMessage(platform.suite, rt.sessions[device].crypto, packet, FRAME_TYPE_DATA).1.value;
    assert FrameOf(platform, SendOverlayPacket(platform, rt, packet, true).1.value) == Some(frame);
  }

  // ---------------------------------------------------------------- both ends

  /** The peer list has this device, under this credential only, and no other device with its frame id. */
  ghost predicate Knows(platform: Platform, persisted: Persisted, device: DeviceId, credential: Bytes)
  {
    && (exists p :: p in persisted.peers && p.deviceId == device)
    && (forall p :: p in persisted.peers && p.deviceId == device ==> p.publicKey == credential)
    && (forall p :: p in persisted.peers && platform.frameId(p.deviceId) == platform.frameId(device) ==>
          p.deviceId == device)
  }

  /** A configuration whose stored public credential belongs to its private key. */
  ghost predicate OwnsCredential(platform: Platform, persisted: Persisted)
  {
    && Configured(platform, persisted)
    && var identity := persisted.identity.value;
       DecodeCredential(platform.suite, identity.publicKey)
       == Ok(platform.suite.publicKey(DecodeKey(platform.suite, identity.privateKey).value))
  }

  /** What a fresh runtime's session with a known device is made of. */
  lemma SessionIsNew(platform: Platform, persisted: Persisted, salts: nat -> Option<Octets8>, device: DeviceId,
                     credential: Bytes)
    returns (salt: Octets8)
    requires Knows(platform, persisted, device, credential)
    requires device in FromPersisted(platform, persisted, salts).sessions
    ensures Configured(platform, persisted) && platform.frameId(device).Some?
    ensures NewSession(platform.suite, DecodeKey(platform.suite, persisted.identity.value.privateKey).value,
                       persisted.identity.value.publicKey, credential,
                       platform.frameId(persisted.localDeviceId.value).value, platform.frameId(device).value,
                       Some(salt))
            == Ok(FromPersisted(platform, persisted, salts).sessions[device].crypto)
  {
    var i := SessionOrigin(platform, persisted, salts, device);
    assert persisted.peers[i] in persisted.peers;
    NewSessionNeedsSalt(platform, persisted, salts, device, i);
    hide NewSession;
    salt := salts(i).value;
  }

  lemma NewSessionNeedsSalt(platform: Platform, persisted: Persisted, salts: nat -> Option<Octets8>, device: DeviceId,
                            i: nat)
    requires Configured(platform, persisted) && device in FromPersisted(platform, persisted, salts).sessions
    requires BuiltFrom(platform, persisted.identity.value,
                       DecodeKey(platform.suite, persisted.identity.value.privateKey).value,
                       platform.frameId(persisted.localDeviceId.value).value, persisted.peers, salts,
                       |persisted.peers|, i, device,
                       FromPersisted(platform, persisted, salts).sessions[device])
    ensures salts(i).Some?
  {
    hide FromPersisted;
  }

  lemma SameCoreMatched(a: Session, b: Session, a': Session, b': Session)
    requires Matched(a, b) && SameCore(a, a') && SameCore(b, b')
    ensures Matched(a', b')
  {
  }

  /** Two devices that know each other hold matched sessions, however long each has run. */
  lemma RuntimesMatch(platform: Platform, persistedA: Persisted, saltsA: nat -> Option<Octets8>, stepsA: seq<Step>,
                      persistedB: Persisted, saltsB: nat -> Option<Octets8>, stepsB: seq<Step>)
    requires Lawful(platform.suite) && OwnsCredential(platform, persistedA) && OwnsCredential(platform, persistedB)
    requires Knows(platform, persistedA, persistedB.localDeviceId.value, persistedB.identity.value.publicKey)
    requires Knows(platform, persistedB, persistedA.localDeviceId.value, persistedA.identity.value.publicKey)
    requires persistedB.localDeviceId.value in FromPersisted(platform, persistedA, saltsA).sessions
    requires persistedA.localDeviceId.value in FromPersisted(platform, persistedB, saltsB).sessions
    ensures var a := Exec(platform, FromPersisted(platform, persistedA, saltsA), stepsA);
            var b := Exec(platform, FromPersisted(platform, persistedB, saltsB), stepsB);
            var idA, idB := persistedA.localDeviceId.value, persistedB.localDeviceId.value;
            idB in a.sessions && idA in b.sessions && Matched(a.sessions[idB].crypto, b.sessions[idA].crypto)
  {
    hide FromPersisted, Exec, NewSession, DecodeKey, DecodeCredential, Lawful;
    var startA, startB := FromPersisted(platform, persistedA, saltsA), FromPersisted(platform, persistedB, saltsB);
    var idA, idB := persistedA.localDeviceId.value, persistedB.localDeviceId.value;
    var identityA, identityB := persistedA.identity.value, persistedB.identity.value;
    ExecKeepsNetwork(platform, startA, stepsA);
    ExecKeepsNetwork(platform, startB, stepsB);
    var saltA := SessionIsNew(platform, persistedA, saltsA, idB, identityB.publicKey);
    var saltB := SessionIsNew(platform, persistedB, saltsB, idA, identityA.publicKey);
    SessionsAgree(platform.suite, DecodeKey(platform.suite, identityA.privateKey).value,
                  DecodeKey(platform.suite, identityB.privateKey).value, identityA.publicKey, identityB.publicKey,
                  platform.frameId(idA).value, platform.frameId(idB).value, saltA, saltB);
    SameCoreMatched(startA.sessions[idB].crypto, startB.sessions[idA].crypto,
                    Exec(platform, startA, stepsA).sessions[idB].crypto,
                    Exec(platform, startB, stepsB).sessions[idA].crypto);
  }

  lemma FrameIdOwner(platform: Platform, persisted: Persisted, device: DeviceId, credential: Bytes)
    requires Knows(platform, persisted, device, credential) && platform.frameId(device).Some?
    ensures var index := Collect(persisted.peers, ByFrameId(platform));
            platform.frameId(device).value in index && index[platform.frameId(device).value] == device
  {
    var id := platform.frameId(device).value;
    var p :| p in persisted.peers && p.deviceId == device;
    CollectIsLastMatch(persisted.peers, ByFrameId(platform), id);
    assert ByFrameId(platform)(p) == Some((id, device));
    FrameIndexNamesPeers(platform, persisted.peers, id);
  }

  /** A data frame sealed by the matched session opens to its packet. */
  lemma DataFrameOpens(platform: Platform, rt: Runtime, device: DeviceId, s: Session, packet: Bytes, frame: Bytes,
                       source: Option<SocketAddr>, clock: Clock, sendOk: bool)
    requires Lawful(platform.suite) && SealedBy(platform.suite, s, packet, FRAME_TYPE_DATA, frame)
    requires device in rt.sessions && Matched(s, rt.sessions[device].crypto)
    requires s.localId in rt.deviceByFrameId && rt.deviceByFrameId[s.localId] == device
    ensures OpenReceivedFrame(platform, rt, frame, source, clock, sendOk).1.Ok? <==>
            AcceptCounter(rt.sessions[device].crypto.window, s.counter).Ok?
    ensures AcceptCounter(rt.sessions[device].crypto.window, s.counter).Ok? ==>
            OpenReceivedFrame(platform, rt, frame, source, clock, sendOk).1 == Ok(Some(packet))
  {
    SealedFrameDecodes(platform.suite, s, packet, FRAME_TYPE_DATA, frame);
    OpenAfterSeal(platform.suite, s, rt.sessions[device].crypto, packet, FRAME_TYPE_DATA, frame);
    hide OpenMessage, DecodeFrame, SealedBy, AcceptCounter, Matched;
  }

  /** Overlay routing end to end. A and B know each other, whatever each has done since it was
      configured. If A accepts a packet whose destination address B owns, then what A puts on the
      network, over UDP or through the relay, is for B; and B's runtime, given that frame or that
      relay message, hands out exactly the packet, if and only if its replay window still has room
      for the counter A used. */
  lemma OverlayDelivery(platform: Platform, persistedA: Persisted, saltsA: nat -> Option<Octets8>, stepsA: seq<Step>,
                        persistedB: Persisted, saltsB: nat -> Option<Octets8>, stepsB: seq<Step>,
                        packet: Bytes, source: SocketAddr, clock: Clock, sendOk: bool)
    requires Lawful(platform.suite) && OwnsCredential(platform, persistedA) && OwnsCredential(platform, persistedB)
    requires Knows(platform, persistedA, persistedB.localDeviceId.value, persistedB.identity.value.publicKey)
    requires Knows(platform, persistedB, persistedA.localDeviceId.value, persistedA.identity.value.publicKey)
    requires DistinctAddresses(persistedA.peers)
    requires exists p :: p in persistedA.peers && ToAddress(packet, p.overlayIp)
                         && p.deviceId == persistedB.localDeviceId.value
    requires persistedA.localDeviceId.value in FromPersisted(platform, persistedB, saltsB).sessions
    requires SendOverlayPacket(platform, Exec(platform, FromPersisted(platform, persistedA, saltsA), stepsA), packet,
                               true).1.Ok?
    ensures var a := Exec(platform, FromPersisted(platform, persistedA, saltsA), stepsA);
            var b := Exec(platform, FromPersisted(platform, persistedB, saltsB), stepsB);
            var idA, idB := persistedA.localDeviceId.value, persistedB.localDeviceId.value;
            var out := SendOverlayPacket(platform, a, packet, true).1.value;
            && idB in a.sessions && idA in b.sessions
            && var received := if out.OverUdp?
                               then OpenReceivedFrame(platform, b, out.frame, Some(source), clock, sendOk).1
                               else OpenRelayFrame(platform, b, out.message, clock).1;
               && (received == Ok(Some(packet)) <==>
                   AcceptCounter(b.sessions[idA].crypto.window, a.sessions[idB].crypto.counter).Ok?)
               && (received.Err? || received == Ok(Some(packet)))
               && (out.OverRelay? ==> out.message.FrameMessage? && out.message.destination == idB)
  {
    hide FromPersisted, Exec, SendOverlayPacket, OpenReceivedFrame, AcceptCounter, SealedBy, Collect;
    hide Lawful, SameCore, ToAddress, Matched;
    var startA, startB := FromPersisted(platform, persistedA, saltsA), FromPersisted(platform, persistedB, saltsB);
    var a, b := Exec(platform, startA, stepsA), Exec(platform, startB, stepsB);
    var idA, idB := persistedA.localDeviceId.value, persistedB.localDeviceId.value;
    ExecKeepsNetwork(platform, startA, stepsA);
    ExecKeepsNetwork(platform, startB, stepsB);
    PacketIsSealedForOwner(platform, persistedA, saltsA, stepsA, packet);
    OnlyOneAddress(packet);
    RuntimesMatch(platform, persistedA, saltsA, stepsA, persistedB, saltsB, stepsB);
    FrameIdOwner(platform, persistedB, idA, persistedA.identity.value.publicKey);
    SessionLocalId(platform, persistedA, saltsA, stepsA, idB, persistedB.identity.value.publicKey);
    FreshIndex(platform, persistedB, saltsB);
    var out := SendOverlayPacket(platform, a, packet, true).1.value;
    var frame := FrameOf(platform, out).value;
    DataFrameOpens(platform, b, idA, a.sessions[idB].crypto, packet, frame, if out.OverUdp? then Some(source) else None,
                   clock, if out.OverUdp? then sendOk else false);
  }

  lemma OnlyOneAddress(packet: Bytes)
    ensures forall x, y :: ToAddress(packet, x) && ToAddress(packet, y) ==> x == y
  {
  }

  lemma SessionLocalId(platform: Platform, persisted: Persisted, salts: nat -> Option<Octets8>, steps: seq<Step>,
                       device: DeviceId, credential: Bytes)
    requires Knows(platform, persisted, device, credential)
    requires device in FromPersisted(platform, persisted, salts).sessions
    ensures var rt := Exec(platform, FromPersisted(platform, persisted, salts), steps);
            && Configured(platform, persisted) && device in rt.sessions
            && rt.sessions[device].crypto.localId == platform.frameId(persisted.localDeviceId.value).value
  {
    hide FromPersisted, Exec;
    var salt := SessionIsNew(platform, persisted, salts, device, credential);
    ExecKeepsNetwork(platform, FromPersisted(platform, persisted, salts), steps);
  }

  lemma FreshIndex(platform: Platform, persisted: Persisted, salts: nat -> Option<Octets8>)
    ensures FromPersisted(platform, persisted, salts).deviceByFrameId == Collect(persisted.peers, ByFrameId(platform))
  {
    hide Collect, BuildSessions;
  }

  // ---------------------------------------------------------------- a probe and its answer

  /** The path of a device is Direct to this address since this moment, and its session sends there. */
  ghost predicate DirectTo(rt: Runtime, device: DeviceId, source: SocketAddr, now: nat, rttMs: Option<u64>)
  {
    && device in rt.paths && device in rt.sessions
    && rt.paths[device].current.DirectPath?
    && rt.paths[device].active == Some(Endpoint(Public, source.ip, source.port, Udp))
    && rt.paths[device].lastSuccessAt == Some(now)
    && rt.paths[device].failures == 0 && rt.paths[device].rttMs == rttMs
    && rt.sessions[device].endpoint == Endpoint(Public, source.ip, source.port, Udp)
  }

  lemma MarkingIsDirectTo(rt: Runtime, device: DeviceId, source: SocketAddr, rttMs: Option<u64>, now: nat)
    requires device in rt.sessions
    ensures DirectTo(MarkPeerDirect(rt, device, DirectEndpoint(source), rttMs, now), device, source, now, rttMs)
    ensures MarkPeerDirect(rt, device, DirectEndpoint(source), rttMs, now).sessions[device].crypto
            == rt.sessions[device].crypto
    ensures DirectEndpoint(source) == Endpoint(Public, source.ip, source.port, Udp)
  {
  }

  /** A probe of the matched session is answered, if its counter is accepted: the response goes back to where
      the probe came from, carries its time stamp, and marks the path Direct to there. */
  lemma ProbeIsAnswered(platform: Platform, rt: Runtime, device: DeviceId, s: Session, millis: nat, frame: Bytes,
                        source: SocketAddr, clock: Clock)
    requires Lawful(platform.suite) && millis < U128_LIMIT
    requires SealedBy(platform.suite, s, Probes.ProbePayload(millis), FRAME_TYPE_PROBE, frame)
    requires device in rt.sessions && Matched(s, rt.sessions[device].crypto)
    requires s.localId in rt.deviceByFrameId && rt.deviceByFrameId[s.localId] == device
    requires AcceptCounter(rt.sessions[device].crypto.window, s.counter).Ok?
    requires rt.transportBound && rt.sessions[device].crypto.counter < COUNTER_MAX
    requires forall k: Key, n: Nonce, a: Bytes, m: Bytes :: platform.suite.encrypt(k, n, a, m).Some?
    ensures var (rt', r, out) := OpenReceivedFrame(platform, rt, frame, Some(source), clock, true);
            && r == Ok(None) && |out| == 1 && out[0].OverUdp?
            && out[0].endpoint == Endpoint(Public, source.ip, source.port, Udp)
            && device in rt'.sessions
            && SealedBy(platform.suite,
                        rt.sessions[device].crypto.(window := rt'.sessions[device].crypto.window),
                        Ascii("probe_response " + Decimal.Digits(millis)), FRAME_TYPE_PROBE_RESPONSE, out[0].frame)
            && DirectTo(rt', device, source, clock.now, None)
  {
    SealedFrameDecodes(platform.suite, s, Probes.ProbePayload(millis), FRAME_TYPE_PROBE, frame);
    OpenAfterSeal(platform.suite, s, rt.sessions[device].crypto, Probes.ProbePayload(millis), FRAME_TYPE_PROBE, frame);
    Probes.ProbeText(millis);
    hide OpenMessage, DecodeFrame, SealedBy, AcceptCounter, Matched, SealMessage;
    var (crypto, message) := OpenMessage(platform.suite, rt.sessions[device].crypto, frame);
    var payload := Probes.ProbeResponsePayload(message.value.plaintext, clock.millis);
    assert payload == Ascii("probe_response " + Decimal.Digits(millis));
    hide Probes.ProbeResponsePayload;
    SealEffect(platform.suite, crypto, payload, FRAME_TYPE_PROBE_RESPONSE);
    SealSucceedsExactlyWhen(platform.suite, crypto, payload, FRAME_TYPE_PROBE_RESPONSE);
    var sealed := SealMessage(platform.suite, crypto, payload, FRAME_TYPE_PROBE_RESPONSE).0;
    var rt1 := WithCrypto(WithCrypto(rt, device, crypto), device, sealed);
    MarkingIsDirectTo(rt1, device, source, None, clock.now);
    hide MarkPeerDirect, DirectEndpoint, DirectTo;
  }

  /** A response of the matched session marks the path Direct, if its counter is accepted, with the time since
      the probe was sent by this device's own clock. */
  lemma ResponseMarksDirect(platform: Platform, rt: Runtime, device: DeviceId, s: Session, millis: nat, frame: Bytes,
                            source: SocketAddr, clock: Clock, sendOk: bool)
    requires Lawful(platform.suite) && millis < U128_LIMIT
    requires SealedBy(platform.suite, s, Ascii("probe_response " + Decimal.Digits(millis)), FRAME_TYPE_PROBE_RESPONSE,
                      frame)
    requires device in rt.sessions && Matched(s, rt.sessions[device].crypto)
    requires s.localId in rt.deviceByFrameId && rt.deviceByFrameId[s.localId] == device
    requires AcceptCounter(rt.sessions[device].crypto.window, s.counter).Ok?
    ensures var (rt', r, out) := OpenReceivedFrame(platform, rt, frame, Some(source), clock, sendOk);
            && r == Ok(None) && out == []
            && DirectTo(rt', device, source, clock.now,
                        if millis <= clock.millis && clock.millis - millis < U64_LIMIT then Some(clock.millis - millis)
                        else None)
  {
    var payload := Ascii("probe_response " + Decimal.Digits(millis));
    SealedFrameDecodes(platform.suite, s, payload, FRAME_TYPE_PROBE_RESPONSE, frame);
    OpenAfterSeal(platform.suite, s, rt.sessions[device].crypto, payload, FRAME_TYPE_PROBE_RESPONSE, frame);
    Probes.TimestampOf("probe_response ", millis);
    hide OpenMessage, DecodeFrame, SealedBy, AcceptCounter, Matched, SealMessage, Probes.Timestamp;
    var (crypto, _) := OpenMessage(platform.suite, rt.sessions[device].crypto, frame);
    MarkingIsDirectTo(WithCrypto(rt, device, crypto), device, source, Probes.ProbeResponseRttMs(payload, clock.millis),
                      clock.now);
    hide MarkPeerDirect, DirectEndpoint, DirectTo;
  }

  lemma MatchedEitherWay(a: Session, b: Session)
    requires Matched(a, b)
    ensures Matched(b, a)
  {
  }

  /** A probe and its answer, end to end. A and B know each other, whatever each has done. A probe that A
      sealed in any state reaches B over UDP: B answers to where it came from and its path to A is Direct to
      there. The answer reaches A, whatever A did meanwhile: A's path to B is Direct to where the answer came
      from, and the round-trip time is what A's own clock has advanced since the probe was stamped. Each end
      only needs room in its replay window, and B a bound transport, a counter and a cipher that works. */
  lemma ProbeRoundTrip(platform: Platform, persistedA: Persisted, saltsA: nat -> Option<Octets8>, stepsA: seq<Step>,
                       persistedB: Persisted, saltsB: nat -> Option<Octets8>, stepsB: seq<Step>, laterA: seq<Step>,
                       millis: nat, probe: Bytes, sourceA: SocketAddr, clockB: Clock, sourceB: SocketAddr,
                       clockA: Clock, sendOk: bool)
    requires Lawful(platform.suite) && OwnsCredential(platform, persistedA) && OwnsCredential(platform, persistedB)
    requires Knows(platform, persistedA, persistedB.localDeviceId.value, persistedB.identity.value.publicKey)
    requires Knows(platform, persistedB, persistedA.localDeviceId.value, persistedA.identity.value.publicKey)
    requires persistedB.localDeviceId.value in FromPersisted(platform, persistedA, saltsA).sessions
    requires persistedA.localDeviceId.value in FromPersisted(platform, persistedB, saltsB).sessions
    requires forall k: Key, n: Nonce, a: Bytes, m: Bytes :: platform.suite.encrypt(k, n, a, m).Some?
    requires millis < U128_LIMIT
    requires var a := Exec(platform, FromPersisted(platform, persistedA, saltsA), stepsA);
             var b := Exec(platform, FromPersisted(platform, persistedB, saltsB), stepsB);
             var idA, idB := persistedA.localDeviceId.value, persistedB.localDeviceId.value;
             && idB in a.sessions && idA in b.sessions && b.transportBound
             && SealedBy(platform.suite, a.sessions[idB].crypto, Probes.ProbePayload(millis), FRAME_TYPE_PROBE, probe)
             && AcceptCounter(b.sessions[idA].crypto.window, a.sessions[idB].crypto.counter).Ok?
             && b.sessions[idA].crypto.counter < COUNTER_MAX
    ensures var b := Exec(platform, FromPersisted(platform, persistedB, saltsB), stepsB);
            var a' := Exec(platform, FromPersisted(platform, persistedA, saltsA), laterA);
            var idA, idB := persistedA.localDeviceId.value, persistedB.localDeviceId.value;
            var (b', answered, out) := OpenReceivedFrame(platform, b, probe, Some(sourceA), clockB, true);
            && answered == Ok(None) && DirectTo(b', idA, sourceA, clockB.now, None)
            && |out| == 1 && out[0].OverUdp? && out[0].endpoint == Endpoint(Public, sourceA.ip, sourceA.port, Udp)
            && idB in a'.sessions
            && (AcceptCounter(a'.sessions[idB].crypto.window, b.sessions[idA].crypto.counter).Ok? ==>
                  DirectTo(OpenReceivedFrame(platform, a', out[0].frame, Some(sourceB), clockA, sendOk).0, idB, sourceB,
                           clockA.now,
                           if millis <= clockA.millis && clockA.millis - millis < U64_LIMIT
                           then Some(clockA.millis - millis) else None))
  {
    hide FromPersisted, Exec, OpenReceivedFrame, AcceptCounter, SealedBy, Collect, Lawful, DirectTo, Knows;
    hide DecodeCredential, DecodeKey;
    var startA, startB := FromPersisted(platform, persistedA, saltsA), FromPersisted(platform, persistedB, saltsB);
    var a, b, a' := Exec(platform, startA, stepsA), Exec(platform, startB, stepsB), Exec(platform, startA, laterA);
    var idA, idB := persistedA.localDeviceId.value, persistedB.localDeviceId.value;
    IndexKnows(platform, persistedA, saltsA, stepsA, idB, persistedB.identity.value.publicKey);
    IndexKnows(platform, persistedA, saltsA, laterA, idB, persistedB.identity.value.publicKey);
    IndexKnows(platform, persistedB, saltsB, stepsB, idA, persistedA.identity.value.publicKey);
    RuntimesMatch(platform, persistedA, saltsA, stepsA, persistedB, saltsB, stepsB);
    RuntimesMatch(platform, persistedA, saltsA, laterA, persistedB, saltsB, stepsB);
    ProbeIsAnswered(platform, b, idA, a.sessions[idB].crypto, millis, probe, sourceA, clockB);
    var (b', _, out) := OpenReceivedFrame(platform, b, probe, Some(sourceA), clockB, true);
    var crypto := b.sessions[idA].crypto.(window := b'.sessions[idA].crypto.window);
    MatchedEitherWay(a'.sessions[idB].crypto, b.sessions[idA].crypto);
    SameCoreMatched(b.sessions[idA].crypto, a'.sessions[idB].crypto, crypto, a'.sessions[idB].crypto);
    if AcceptCounter(a'.sessions[idB].crypto.window, b.sessions[idA].crypto.counter).Ok? {
      ResponseMarksDirect(platform, a', idB, crypto, millis, out[0].frame, sourceB, clockA, sendOk);
    }
  }

  /** In every state, a device knows by their frame ids those it knows, and speaks to them under its own. */
  lemma IndexKnows(platform: Platform, persisted: Persisted, salts: nat -> Option<Octets8>, steps: seq<Step>,
                   device: DeviceId, credential: Bytes)
    requires Knows(platform, persisted, device, credential)
    requires device in FromPersisted(platform, persisted, salts).sessions
    ensures var rt := Exec(platform, FromPersisted(platform, persisted, salts), steps);
            && Configured(platform, persisted) && platform.frameId(device).Some? && device in rt.sessions
            && rt.sessions[device].crypto.localId == platform.frameId(persisted.localDeviceId.value).value
            && platform.frameId(device).value in rt.deviceByFrameId
            && rt.deviceByFrameId[platform.frameId(device).value] == device
  {
    hide FromPersisted, Exec, Collect;
    var salt := SessionIsNew(platform, persisted, salts, device, credential);
    ExecKeepsNetwork(platform, FromPersisted(platform, persisted, salts), steps);
    FrameIdOwner(platform, persisted, device, credential);
    FreshIndex(platform, persisted, salts);
  }

  /** A frame is refused, with nothing changed and nothing sent, exactly if it does not decode, comes from no
      known device, from one without a session, or is refused by the session; these are told apart in this
      order. */
  lemma RefusedExactlyWhen(platform: Platform, rt: Runtime, frame: Bytes, source: Option<SocketAddr>, clock: Clock,
                           sendOk: bool)
    ensures var (rt', r, out) := OpenReceivedFrame(platform, rt, frame, source, clock, sendOk);
            && (DecodeFrame(frame).Err? <==> r.Err? && r.error.FrameRejected?)
            && (DecodeFrame(frame).Err? ==> r.error.frame == DecodeFrame(frame).error)
            && (r == Err(UnknownFrameSource) <==> DecodeFrame(frame).Ok? && frame[4..20] !in rt.deviceByFrameId)
            && (r == Err(SessionNotReady) <==> DecodeFrame(frame).Ok? && frame[4..20] in rt.deviceByFrameId
                                               && rt.deviceByFrameId[frame[4..20]] !in rt.sessions)
            && (Timelines.OpenedBy(platform, rt, frame).None? ==> r.Err? && rt' == rt && out == [])
  {
    AcceptedExactlyWhen(frame);
    hide OpenMessage, DecodeFrame, SealMessage, MarkPeerDirect, Probes.ProbeResponsePayload, Probes.ProbeResponseRttMs;
    if DecodeFrame(frame).Ok? {
      assert DecodeFrame(frame).value.header.source == frame[4..20];
    }
  }

  lemma OpenedTypeIsKnown(platform: Platform, rt: Runtime, frame: Bytes)
    ensures var opener := Timelines.OpenedBy(platform, rt, frame);
            opener.Some? ==>
              1 <= OpenMessage(platform.suite, rt.sessions[opener.value].crypto, frame).1.value.messageType <= 3
  {
    var opener := Timelines.OpenedBy(platform, rt, frame);
    if opener.Some? {
      OpenSucceedsExactlyWhen(platform.suite, rt.sessions[opener.value].crypto, frame);
      AcceptedExactlyWhen(frame);
    }
  }

  /** What comes through the relay: anything but a frame is passed over, a frame must be base64, and it is
      accepted exactly if a session opens it; a probe or response that came this way changes no path. */
  lemma RelayedExactly(platform: Platform, rt: Runtime, message: RelayMessage, clock: Clock)
    ensures var (rt', r, out) := OpenRelayFrame(platform, rt, message, clock);
            && (!message.FrameMessage? ==> rt' == rt && r == Ok(None))
            && (message.FrameMessage? && platform.suite.decodeBase64(message.payload).None? ==>
                  rt' == rt && r == Err(BadBase64))
            && (message.FrameMessage? && platform.suite.decodeBase64(message.payload).Some? ==>
                  var frame := platform.suite.decodeBase64(message.payload).value;
                  (r.Ok? <==> Timelines.OpenedBy(platform, rt, frame).Some?))
            && out == [] && rt'.paths == rt.paths
  {
    if message.FrameMessage? && platform.suite.decodeBase64(message.payload).Some? {
      OpenedTypeIsKnown(platform, rt, platform.suite.decodeBase64(message.payload).value);
    }
    hide OpenMessage, DecodeFrame, SealMessage, MarkPeerDirect, Probes.ProbeResponsePayload, Probes.ProbeResponseRttMs;
  }
}
