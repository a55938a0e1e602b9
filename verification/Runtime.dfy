/** The runtime of one device: the indexes derived from its peer list, its peer sessions and the path
    state of each peer. Each public operation is one atomic step; clock readings, random salts and
    the outcome of socket writes are arguments. */
module Runtimes {
  import opened Prelude
  import opened Nonces
  import opened Frames
  import opened Crypto
  import opened Transport
  import opened Paths
  import opened Probes
  import opened RelayProtocol

  datatype Peer = Peer(deviceId: DeviceId, overlayIp: Ipv4, publicKey: Bytes, endpoints: seq<Endpoint>)

  datatype CustomIdentity = CustomIdentity(privateKey: Bytes, publicKey: Bytes)

  datatype Persisted = Persisted(identity: Option<CustomIdentity>, localDeviceId: Option<DeviceId>, peers: seq<Peer>)

  /** Foreign code: the cipher suite, and the UUID parser behind `FrameDeviceId::from_device_id`. */
  datatype Platform = Platform(suite: Suite, frameId: DeviceId -> Option<FrameId>)

  datatype TransportSession = TransportSession(overlayIp: Ipv4, endpoint: Endpoint, crypto: Session)

  datatype Runtime = Runtime(
    persisted: Persisted,
    peersByDevice: map<DeviceId, Peer>,
    deviceByOverlayIp: map<Ipv4, DeviceId>,
    udpEndpointByDevice: map<DeviceId, Endpoint>,
    deviceByFrameId: map<FrameId, DeviceId>,
    sessions: map<DeviceId, TransportSession>,
    paths: map<DeviceId, PathState>,
    relays: seq<string>,
    transportBound: bool)

  datatype RuntimeError =
    | BadPacket
    | NoPeerForDestination
    | SessionNotReady
    | UnknownFrameSource
    | TransportNotBound
    | SendFailed
    | NotUdpEndpoint
    | BadDeviceId
    | BadKey
    | BadBase64
    | UnsupportedOpenedType
    | CryptoFailure(crypto: CryptoError)
    | FrameRejected(frame: FrameError)

  // ---------------------------------------------------------------- building the runtime

  /** `iter().filter_map(entry).collect()` into a hash map: a later entry replaces an earlier one. */
  function Collect<K, V>(peers: seq<Peer>, entry: Peer -> Option<(K, V)>): (index: map<K, V>)
  {
    if peers == [] then map[]
    else
      var index := Collect(peers[..|peers| - 1], entry);
      match entry(peers[|peers| - 1])
      case None => index
      case Some(kv) => index[kv.0 := kv.1]
  }

  function DecodeKey(suite: Suite, encoded: Bytes): (key: Option<Key>)
  {
    match suite.decodeBase64(encoded)
    case None => None
    case Some(bytes) => if |bytes| == 32 then Some(bytes) else None
  }

  function PeerSession(platform: Platform, identity: CustomIdentity, key: Key, localId: FrameId, peer: Peer,
                       salt: Option<Octets8>): (r: Result<Option<TransportSession>, RuntimeError>)
  {
    match platform.frameId(peer.deviceId)
    case None => Err(BadDeviceId)
    case Some(peerId) =>
      match SelectUdpEndpoint(peer.endpoints)
      case None => Ok(None)
      case Some(endpoint) =>
        match NewSession(platform.suite, key, identity.publicKey, peer.publicKey, localId, peerId, salt)
        case Err(e) => Err(CryptoFailure(e))
        case Ok(crypto) => Ok(Some(TransportSession(peer.overlayIp, endpoint, crypto)))
  }

  /** The sessions of the first n peers; the first failure ends it. */
  function SessionsOfFirst(platform: Platform, identity: CustomIdentity, key: Key, localId: FrameId,
                           peers: seq<Peer>, salts: nat -> Option<Octets8>, n: nat)
    : (r: Result<map<DeviceId, TransportSession>, RuntimeError>)
    requires n <= |peers|
  {
    if n == 0 then Ok(map[])
    else
      match SessionsOfFirst(platform, identity, key, localId, peers, salts, n - 1)
      case Err(e) => Err(e)
      case Ok(sessions) =>
        match PeerSession(platform, identity, key, localId, peers[n - 1], salts(n - 1))
        case Err(e) => Err(e)
        case Ok(None) => Ok(sessions)
        case Ok(Some(session)) => Ok(sessions[peers[n - 1].deviceId := session])
  }

  function BuildSessions(platform: Platform, persisted: Persisted, salts: nat -> Option<Octets8>)
    : (r: Result<map<DeviceId, TransportSession>, RuntimeError>)
  {
    if persisted.identity.None? || persisted.localDeviceId.None? then Ok(map[])
    else
      match platform.frameId(persisted.localDeviceId.value)
      case None => Err(BadDeviceId)
      case Some(localId) =>
        match DecodeKey(platform.suite, persisted.identity.value.privateKey)
        case None => Err(BadKey)
        case Some(key) =>
          SessionsOfFirst(platform, persisted.identity.value, key, localId, persisted.peers, salts, |persisted.peers|)
  }

  /** `build_peer_transport_sessions` as it runs. */
  method BuildPeerTransportSessions(platform: Platform, persisted: Persisted, salts: nat -> Option<Octets8>)
    returns (r: Result<map<DeviceId, TransportSession>, RuntimeError>)
    ensures r == BuildSessions(platform, persisted, salts)
  {
    if persisted.identity.None? || persisted.localDeviceId.None? {
      return Ok(map[]);
    }
    var localId := platform.frameId(persisted.localDeviceId.value);
    if localId.None? {
      return Err(BadDeviceId);
    }
    var key := DecodeKey(platform.suite, persisted.identity.value.privateKey);
    if key.None? {
      return Err(BadKey);
    }
    var sessions: map<DeviceId, TransportSession> := map[];
    ghost var whole := BuildSessions(platform, persisted, salts);
    for n := 0 to |persisted.peers|
      invariant SessionsOfFirst(platform, persisted.identity.value, key.value, localId.value, persisted.peers, salts, n)
                == Ok(sessions)
    {
      var peer := persisted.peers[n];
      var session := PeerSession(platform, persisted.identity.value, key.value, localId.value, peer, salts(n));
      if session.Err? {
        FirstFailureEnds(platform, persisted.identity.value, key.value, localId.value, persisted.peers, salts,
                         n + 1, |persisted.peers|);
        return Err(session.error);
      }
      if session.value.Some? {
        sessions := sessions[peer.deviceId := session.value.value];
      }
    }
    r := Ok(sessions);
  }

  lemma {:induction false} FirstFailureEnds(platform: Platform, identity: CustomIdentity, key: Key, localId: FrameId,
                                            peers: seq<Peer>, salts: nat -> Option<Octets8>, m: nat, n: nat)
    requires m <= n <= |peers|
    requires SessionsOfFirst(platform, identity, key, localId, peers, salts, m).Err?
    ensures SessionsOfFirst(platform, identity, key, localId, peers, salts, n)
            == SessionsOfFirst(platform, identity, key, localId, peers, salts, m)
  {
    if m < n {
      FirstFailureEnds(platform, identity, key, localId, peers, salts, m, n - 1);
    }
  }

  function ByDevice(peer: Peer): (e: Option<(DeviceId, Peer)>)
  {
    Some((peer.deviceId, peer))
  }

  function ByOverlayIp(peer: Peer): (e: Option<(Ipv4, DeviceId)>)
  {
    Some((peer.overlayIp, peer.deviceId))
  }

  function ByUdpEndpoint(peer: Peer): (e: Option<(DeviceId, Endpoint)>)
  {
    match SelectUdpEndpoint(peer.endpoints)
    case None => None
    case Some(endpoint) => Some((peer.deviceId, endpoint))
  }

  function ByFrameId(platform: Platform): (entry: Peer -> Option<(FrameId, DeviceId)>)
  {
    (peer: Peer) =>
      match platform.frameId(peer.deviceId)
      case None => None
      case Some(id) => Some((id, peer.deviceId))
  }

  function WithDefaultPath(peer: Peer): (e: Option<(DeviceId, PathState)>)
  {
    Some((peer.deviceId, DEFAULT_PATH))
  }

  function FromPersisted(platform: Platform, persisted: Persisted, salts: nat -> Option<Octets8>): (rt: Runtime)
  {
    var sessions := match BuildSessions(platform, persisted, salts) case Ok(m) => m case Err(_) => map[];
    Runtime(persisted,
            Collect(persisted.peers, ByDevice),
            Collect(persisted.peers, ByOverlayIp),
            Collect(persisted.peers, ByUdpEndpoint),
            Collect(persisted.peers, ByFrameId(platform)),
            sessions,
            Collect(persisted.peers, WithDefaultPath),
            [], false)
  }

  // ---------------------------------------------------------------- sending

  /** The destination address of an IPv4 packet (section 3.1 of RFC 791). */
  function Ipv4Destination(packet: Bytes): (destination: Option<Ipv4>)
  {
    if |packet| < 20 || packet[0] / 16 != 4 then None
    else
      var headerLen := packet[0] % 16 * 4;
      if headerLen < 20 || |packet| < headerLen then None
      else Some(Ipv4(packet[16], packet[17], packet[18], packet[19]))
  }

  /** A packet for an address: version 4, a header of at least five words that fits, and the
      address in bytes 16 to 19. */
  ghost predicate ToAddress(packet: Bytes, address: Ipv4)
  {
    && |packet| >= 20 && packet[0] / 16 == 4 && 5 <= packet[0] % 16 && 4 * (packet[0] % 16) <= |packet|
    && packet[16..20] == [address.a, address.b, address.c, address.d]
  }

  /** The destination is what stands behind the first 16 bytes of a packet with a proper header, and other
      packets have none. */
  lemma DestinationOf(head: Bytes, a: byte, b: byte, c: byte, d: byte, rest: Bytes)
    requires |head| == 16
    ensures var proper := head[0] / 16 == 4 && head[0] % 16 >= 5 && 4 * (head[0] % 16) <= 20 + |rest|;
            Ipv4Destination(head + [a, b, c, d] + rest) == if proper then Some(Ipv4(a, b, c, d)) else None
  {
  }

  lemma ShortPacketsHaveNoDestination(packet: Bytes)
    requires |packet| < 20
    ensures Ipv4Destination(packet) == None
  {
  }

  /** So a packet is for exactly the address in bytes 16 to 19. */
  lemma DestinationExactlyWhen(packet: Bytes, address: Ipv4)
    ensures Ipv4Destination(packet) == Some(address) <==> ToAddress(packet, address)
  {
    if |packet| < 20 {
      ShortPacketsHaveNoDestination(packet);
    } else {
      assert packet == packet[..16] + [packet[16], packet[17], packet[18], packet[19]] + packet[20..];
      DestinationOf(packet[..16], packet[16], packet[17], packet[18], packet[19], packet[20..]);
      assert packet[16..20] == [packet[16], packet[17], packet[18], packet[19]];
    }
  }

  /** What is handed to the network. */
  datatype Outgoing =
    | OverUdp(endpoint: Endpoint, frame: Bytes)
    | OverRelay(message: RelayMessage)

  function WithCrypto(rt: Runtime, device: DeviceId, crypto: Session): (rt': Runtime)
    requires device in rt.sessions
  {
    rt.(sessions := rt.sessions[device := rt.sessions[device].(crypto := crypto)])
  }

  predicate OnRelay(rt: Runtime, device: DeviceId)
  {
    device in rt.paths && rt.paths[device].current.RelayPath?
  }

  /** The packet is sealed for the peer that owns its destination before the path is looked at, so a
      counter is used even when no transport is bound. `writeOk` is the outcome of the write to the
      relay or to the socket. */
  function SendOverlayPacket(platform: Platform, rt: Runtime, packet: Bytes, writeOk: bool)
    : (r: (Runtime, Result<Outgoing, RuntimeError>))
  {
    match Ipv4Destination(packet)
    case None => (rt, Err(BadPacket))
    case Some(destination) =>
      if destination !in rt.deviceByOverlayIp then (rt, Err(NoPeerForDestination)) else
      var device := rt.deviceByOverlayIp[destination];
      if device !in rt.sessions then (rt, Err(SessionNotReady)) else
      var (crypto, sealed) := SealMessage(platform.suite, rt.sessions[device].crypto, packet, FRAME_TYPE_DATA);
      var rt' := WithCrypto(rt, device, crypto);
      if sealed.Err? then (rt', Err(CryptoFailure(sealed.error)))
      else if OnRelay(rt, device) then
        if !writeOk then (rt', Err(SendFailed)) else
        var source := match rt.persisted.localDeviceId case Some(id) => id case None => "";
        (rt', Ok(OverRelay(FrameMessage(source, device, platform.suite.encodeBase64(sealed.value)))))
      else if !rt.transportBound then (rt', Err(TransportNotBound))
      else if EndpointSocketAddr(rt.sessions[device].endpoint).None? then (rt', Err(NotUdpEndpoint))
      else if !writeOk then (rt', Err(SendFailed))
      else (rt', Ok(OverUdp(rt.sessions[device].endpoint, sealed.value)))
  }

  // ---------------------------------------------------------------- probing and expiry

  function ExpireAll(paths: map<DeviceId, PathState>, now: nat, haveRelays: bool): (paths': map<DeviceId, PathState>)
  {
    map d | d in paths :: Expired(paths[d], now, haveRelays)
  }

  /** What the code reads from outside during one probing pass: the clock for the expiry pass, and for
      the i-th peer the clock when it is checked, the millisecond stamp sent to it and the clock when
      its round is finished; and whether the write to its j-th endpoint succeeds. */
  datatype Readings = Readings(
    start: nat, checkedAt: nat -> nat, sentMillis: nat -> nat, finishedAt: nat -> nat, sendOk: (nat, nat) -> bool)

  function PathOf(rt: Runtime, device: DeviceId): (s: PathState)
  {
    if device in rt.paths then rt.paths[device] else DEFAULT_PATH
  }

  /** One probe to each endpoint of the i-th peer in turn, from the j-th on; stops at the first failure.
      What went out comes last. */
  function SendProbes(platform: Platform, crypto: Session, readings: Readings, i: nat, endpoints: seq<Endpoint>, j: nat)
    : (r: (Session, Result<(), RuntimeError>, seq<Outgoing>))
    requires j <= |endpoints|
    decreases |endpoints| - j
  {
    if j == |endpoints| then (crypto, Ok(()), [])
    else
      var (crypto', sealed) := SealMessage(platform.suite, crypto, ProbePayload(readings.sentMillis(i)),
                                           FRAME_TYPE_PROBE);
      if sealed.Err? then (crypto', Err(CryptoFailure(sealed.error)), [])
      else if !readings.sendOk(i, j) then (crypto', Err(SendFailed), [])
      else
        var rest := SendProbes(platform, crypto', readings, i, endpoints, j + 1);
        (rest.0, rest.1, [OverUdp(endpoints[j], sealed.value)] + rest.2)
  }

  /** What becomes of the i-th peer: not due, no session, a round cut short, or a round completed. */
  datatype Visit =
    | Skipped
    | CutShort(crypto: Session, error: RuntimeError, out: seq<Outgoing>)
    | Completed(crypto: Session, out: seq<Outgoing>)

  function VisitPeer(platform: Platform, rt: Runtime, i: nat, readings: Readings): (v: Visit)
    requires i < |rt.persisted.peers|
    ensures !v.Skipped? ==>
              var device := rt.persisted.peers[i].deviceId;
              device in rt.sessions && ProbeDue(PathOf(rt, device), readings.checkedAt(i))
  {
    var peer := rt.persisted.peers[i];
    if !ProbeDue(PathOf(rt, peer.deviceId), readings.checkedAt(i)) || peer.deviceId !in rt.sessions then Skipped
    else
      var (crypto, r, out) := SendProbes(platform, rt.sessions[peer.deviceId].crypto, readings, i,
                                         ByRank(UdpOnly(peer.endpoints)), 0);
      if r.Err? then CutShort(crypto, r.error, out) else Completed(crypto, out)
  }

  function AfterVisit(platform: Platform, rt: Runtime, i: nat, readings: Readings): (rt': Runtime)
    requires i < |rt.persisted.peers|
  {
    var device := rt.persisted.peers[i].deviceId;
    var visit, s := VisitPeer(platform, rt, i, readings), PathOf(rt, device);
    var s' := if visit.Completed? then Probed(s, readings.sentMillis(i), readings.finishedAt(i)) else s;
    var sessions := if visit.Skipped? then rt.sessions
                    else rt.sessions[device := rt.sessions[device].(crypto := visit.crypto)];
    rt.(paths := rt.paths[device := s'], sessions := sessions)
  }

  function ProbeFrom(platform: Platform, rt: Runtime, i: nat, readings: Readings, sent: nat)
    : (r: (Runtime, Result<nat, RuntimeError>, seq<Outgoing>))
    requires i <= |rt.persisted.peers|
    decreases |rt.persisted.peers| - i
  {
    if i == |rt.persisted.peers| then (rt, Ok(sent), [])
    else
      var rt' := AfterVisit(platform, rt, i, readings);
      match VisitPeer(platform, rt, i, readings)
      case Skipped => ProbeFrom(platform, rt', i + 1, readings, sent)
      case CutShort(_, error, out) => (rt', Err(error), out)
      case Completed(_, out) =>
        var rest := ProbeFrom(platform, rt', i + 1, readings, sent + |out|);
        (rest.0, rest.1, out + rest.2)
  }

  function ProbePeerDirectPaths(platform: Platform, rt: Runtime, readings: Readings)
    : (r: (Runtime, Result<nat, RuntimeError>, seq<Outgoing>))
  {
    var rt' := rt.(paths := ExpireAll(rt.paths, readings.start, rt.relays != []));
    if !rt'.transportBound then (rt', Ok(0), []) else ProbeFrom(platform, rt', 0, readings, 0)
  }

  // ---------------------------------------------------------------- receiving

  datatype Clock = Clock(millis: nat, now: nat)

  function DirectEndpoint(source: SocketAddr): (e: Endpoint)
  {
    Endpoint(Public, source.ip, source.port, Udp)
  }

  function MarkPeerDirect(rt: Runtime, device: DeviceId, endpoint: Endpoint, rttMs: Option<u64>, now: nat)
    : (rt': Runtime)
  {
    var rt' := rt.(paths := rt.paths[device := MarkedDirect(PathOf(rt, device), now, endpoint, rttMs)]);
    if device in rt.sessions
    then rt'.(sessions := rt.sessions[device := rt.sessions[device].(endpoint := endpoint)])
    else rt'
  }

  /** `source` is the sender's UDP address, or none for a frame that came through the relay. The new state,
      the result, and what went out in answer. */
  function OpenReceivedFrame(platform: Platform, rt: Runtime, frame: Bytes, source: Option<SocketAddr>,
                             clock: Clock, sendOk: bool)
    : (r: (Runtime, Result<Option<Bytes>, RuntimeError>, seq<Outgoing>))
  {
    match DecodeFrame(frame)
    case Err(e) => (rt, Err(FrameRejected(e)), [])
    case Ok(decoded) =>
      if decoded.header.source !in rt.deviceByFrameId then (rt, Err(UnknownFrameSource), []) else
      var device := rt.deviceByFrameId[decoded.header.source];
      if device !in rt.sessions then (rt, Err(SessionNotReady), []) else
      var (crypto, result) := OpenMessage(platform.suite, rt.sessions[device].crypto, frame);
      if result.Err? then (rt, Err(CryptoFailure(result.error)), [])
      else Dispatch(platform, WithCrypto(rt, device, crypto), device, result.value, source, clock, sendOk)
  }

  function Dispatch(platform: Platform, rt: Runtime, device: DeviceId, message: OpenFrame, source: Option<SocketAddr>,
                    clock: Clock, sendOk: bool)
    : (r: (Runtime, Result<Option<Bytes>, RuntimeError>, seq<Outgoing>))
    requires device in rt.sessions
  {
    if message.messageType == FRAME_TYPE_DATA then (rt, Ok(Some(message.plaintext)), [])
    else if message.messageType != FRAME_TYPE_PROBE && message.messageType != FRAME_TYPE_PROBE_RESPONSE
    then (rt, Err(UnsupportedOpenedType), [])
    else if source.None? then (rt, Ok(None), [])
    else if message.messageType == FRAME_TYPE_PROBE then
      var (crypto, response) := SealMessage(platform.suite, rt.sessions[device].crypto,
                                            ProbeResponsePayload(message.plaintext, clock.millis),
                                            FRAME_TYPE_PROBE_RESPONSE);
      var rt' := WithCrypto(rt, device, crypto);
      if response.Err? then (rt', Err(CryptoFailure(response.error)), [])
      else if !rt.transportBound then (rt', Err(TransportNotBound), [])
      else if !sendOk then (rt', Err(SendFailed), [])
      else
        var endpoint := DirectEndpoint(source.value);
        (MarkPeerDirect(rt', device, endpoint, None, clock.now), Ok(None), [OverUdp(endpoint, response.value)])
    else
      var rtt := ProbeResponseRttMs(message.plaintext, clock.millis);
      (MarkPeerDirect(rt, device, DirectEndpoint(source.value), rtt, clock.now), Ok(None), [])
  }

  function OpenRelayFrame(platform: Platform, rt: Runtime, message: RelayMessage, clock: Clock)
    : (r: (Runtime, Result<Option<Bytes>, RuntimeError>, seq<Outgoing>))
  {
    if !message.FrameMessage? then (rt, Ok(None), [])
    else match platform.suite.decodeBase64(message.payload)
         case None => (rt, Err(BadBase64), [])
         case Some(frame) => OpenReceivedFrame(platform, rt, frame, None, clock, false)
  }
}
