/** Runs of one runtime between two rebuilds: what holds in every state it reaches. */
module RuntimeRuns {
  import opened Prelude
  import opened Nonces
  import opened Frames
  import opened Crypto
  import opened Transport
  import opened Paths
  import opened Runtimes
  import opened RelayProtocol

  datatype Step =
    | Send(packet: Bytes, writeOk: bool)
    | ProbeAll(readings: Readings)
    | Receive(frame: Bytes, source: SocketAddr, clock: Clock, sendOk: bool)
    | ReceiveRelayed(message: RelayMessage, clock: Clock)
    | SetRelays(relays: seq<string>)
    | BindTransport(bound: bool)

  function Next(platform: Platform, rt: Runtime, step: Step): (rt': Runtime)
  {
    match step
    case Send(packet, writeOk) => SendOverlayPacket(platform, rt, packet, writeOk).0
    case ProbeAll(readings) => ProbePeerDirectPaths(platform, rt, readings).0
    case Receive(frame, source, clock, sendOk) => OpenReceivedFrame(platform, rt, frame, Some(source), clock, sendOk).0
    case ReceiveRelayed(message, clock) => OpenRelayFrame(platform, rt, message, clock).0
    case SetRelays(relays) => rt.(relays := relays)
    case BindTransport(bound) => rt.(transportBound := bound)
  }

  /** What a step hands to the network. */
  function Output(platform: Platform, rt: Runtime, step: Step): (out: seq<Outgoing>)
  {
    match step
    case Send(packet, writeOk) =>
      var r := SendOverlayPacket(platform, rt, packet, writeOk).1;
      if r.Ok? then [r.value] else []
    case ProbeAll(readings) => ProbePeerDirectPaths(platform, rt, readings).2
    case Receive(frame, source, clock, sendOk) => OpenReceivedFrame(platform, rt, frame, Some(source), clock, sendOk).2
    case ReceiveRelayed(message, clock) => OpenRelayFrame(platform, rt, message, clock).2
    case _ => []
  }

  function Exec(platform: Platform, rt: Runtime, steps: seq<Step>): (rt': Runtime)
    decreases |steps|
  {
    if steps == [] then rt else Exec(platform, Next(platform, rt, steps[0]), steps[1..])
  }

  // ---------------------------------------------------------------- the indexes

  /** The entry at position i is the last one with its key. */
  ghost predicate LastWithKey<K(!new), V(!new)>(peers: seq<Peer>, entry: Peer -> Option<(K, V)>, i: nat, key: K,
                                                value: V)
  {
    && i < |peers| && entry(peers[i]) == Some((key, value))
    && forall j :: i < j < |peers| && entry(peers[j]).Some? ==> entry(peers[j]).value.0 != key
  }

  /** A collected index holds, for each key, the value of the last peer that has it. */
  lemma {:induction false} CollectIsLastMatch<K(!new), V(!new)>(peers: seq<Peer>, entry: Peer -> Option<(K, V)>, key: K)
    ensures key in Collect(peers, entry) ==>
              exists i: nat :: LastWithKey(peers, entry, i, key, Collect(peers, entry)[key])
    ensures key !in Collect(peers, entry) ==> forall p :: p in peers && entry(p).Some? ==> entry(p).value.0 != key
  {
    if peers != [] {
      var init, last := peers[..|peers| - 1], peers[|peers| - 1];
      CollectIsLastMatch(init, entry, key);
      assert peers == init + [last];
      var index := Collect(peers, entry);
      if entry(last).Some? && entry(last).value.0 == key {
        assert LastWithKey(peers, entry, |init|, key, index[key]);
      } else if key in index {
        var i: nat :| LastWithKey(init, entry, i, key, Collect(init, entry)[key]);
        assert LastWithKey(peers, entry, i, key, index[key]);
      }
    }
  }

  /** Conversely, the last peer with a key is the one the index names. */
  lemma {:induction false} LastMatchIsCollected<K(!new), V(!new)>(peers: seq<Peer>, entry: Peer -> Option<(K, V)>,
                                                                  i: nat, key: K, value: V)
    requires LastWithKey(peers, entry, i, key, value)
    ensures key in Collect(peers, entry) && Collect(peers, entry)[key] == value
  {
    if i < |peers| - 1 {
      var init := peers[..|peers| - 1];
      assert LastWithKey(init, entry, i, key, value);
      LastMatchIsCollected(init, entry, i, key, value);
    }
  }

  /** The session of a device was built from its last peer entry that has a UDP endpoint. */
  ghost predicate BuiltFrom(platform: Platform, identity: CustomIdentity, key: Key, localId: FrameId,
                            peers: seq<Peer>, salts: nat -> Option<Octets8>, n: nat, i: nat, device: DeviceId,
                            session: TransportSession)
  {
    && i < n <= |peers| && peers[i].deviceId == device
    && PeerSession(platform, identity, key, localId, peers[i], salts(i)) == Ok(Some(session))
    && forall j :: i < j < n && peers[j].deviceId == device ==> SelectUdpEndpoint(peers[j].endpoints).None?
  }

  lemma {:induction false} SessionKeys(platform: Platform, identity: CustomIdentity, key: Key, localId: FrameId,
                                       peers: seq<Peer>, salts: nat -> Option<Octets8>, n: nat, device: DeviceId)
    requires n <= |peers| && SessionsOfFirst(platform, identity, key, localId, peers, salts, n).Ok?
    ensures device in SessionsOfFirst(platform, identity, key, localId, peers, salts, n).value <==>
            exists i :: 0 <= i < n && peers[i].deviceId == device && SelectUdpEndpoint(peers[i].endpoints).Some?
  {
    hide NewSession, SelectUdpEndpoint;
    if n > 0 {
      SessionKeys(platform, identity, key, localId, peers, salts, n - 1, device);
    }
  }

  lemma {:induction false} SessionSource(platform: Platform, identity: CustomIdentity, key: Key, localId: FrameId,
                                         peers: seq<Peer>, salts: nat -> Option<Octets8>, n: nat, device: DeviceId)
    returns (i: nat)
    requires n <= |peers| && SessionsOfFirst(platform, identity, key, localId, peers, salts, n).Ok?
    requires device in SessionsOfFirst(platform, identity, key, localId, peers, salts, n).value
    ensures BuiltFrom(platform, identity, key, localId, peers, salts, n, i, device,
                      SessionsOfFirst(platform, identity, key, localId, peers, salts, n).value[device])
  {
    hide NewSession, SelectUdpEndpoint;
    if peers[n - 1].deviceId == device && SelectUdpEndpoint(peers[n - 1].endpoints).Some? {
      i := n - 1;
    } else {
      i := SessionSource(platform, identity, key, localId, peers, salts, n - 1, device);
    }
  }

  ghost predicate Configured(platform: Platform, persisted: Persisted)
  {
    && persisted.identity.Some? && persisted.localDeviceId.Some?
    && platform.frameId(persisted.localDeviceId.value).Some?
    && DecodeKey(platform.suite, persisted.identity.value.privateKey).Some?
  }

  /** Where the session of a device in a fresh runtime comes from. */
  lemma SessionOrigin(platform: Platform, persisted: Persisted, salts: nat -> Option<Octets8>, device: DeviceId)
    returns (i: nat)
    requires device in FromPersisted(platform, persisted, salts).sessions
    ensures Configured(platform, persisted)
    ensures BuiltFrom(platform, persisted.identity.value,
                      DecodeKey(platform.suite, persisted.identity.value.privateKey).value,
                      platform.frameId(persisted.localDeviceId.value).value, persisted.peers, salts,
                      |persisted.peers|, i, device,
                      FromPersisted(platform, persisted, salts).sessions[device])
  {
    var peers := persisted.peers;
    var localId := platform.frameId(persisted.localDeviceId.value).value;
    var key := DecodeKey(platform.suite, persisted.identity.value.privateKey).value;
    i := SessionSource(platform, persisted.identity.value, key, localId, peers, salts, |peers|, device);
  }

  /** The sessions of a fresh runtime are exactly the peers that have a UDP endpoint, or there are
      none at all. */
  lemma SessionsAreUdpPeersOrNone(platform: Platform, persisted: Persisted, salts: nat -> Option<Octets8>)
    ensures var rt := FromPersisted(platform, persisted, salts);
            || rt.sessions == map[]
            || forall d: DeviceId ::
                 d in rt.sessions <==>
                 exists p :: p in persisted.peers && p.deviceId == d && SelectUdpEndpoint(p.endpoints).Some?
  {
    var r := BuildSessions(platform, persisted, salts);
    if r.Ok? && r.value != map[] {
      var localId := platform.frameId(persisted.localDeviceId.value).value;
      var key := DecodeKey(platform.suite, persisted.identity.value.privateKey).value;
      var peers := persisted.peers;
      forall d: DeviceId
        ensures d in r.value <==> exists p :: p in peers && p.deviceId == d && SelectUdpEndpoint(p.endpoints).Some?
      {
        SessionKeys(platform, persisted.identity.value, key, localId, peers, salts, |peers|, d);
        if p :| p in peers && p.deviceId == d && SelectUdpEndpoint(p.endpoints).Some? {
          var i :| 0 <= i < |peers| && peers[i] == p;
        }
      }
    }
  }

  /** The i-th peer can be given a session, or needs none: its id parses, and if it has a UDP endpoint its
      credential decodes and a salt was drawn. */
  ghost predicate Buildable(platform: Platform, peer: Peer, salt: Option<Octets8>)
  {
    && platform.frameId(peer.deviceId).Some?
    && ((exists e :: e in peer.endpoints && e.protocol.Udp?) ==>
          DecodeCredential(platform.suite, peer.publicKey).Ok? && salt.Some?)
  }

  lemma SelectedExactlyWhen(endpoints: seq<Endpoint>)
    ensures SelectUdpEndpoint(endpoints).Some? <==> exists e :: e in endpoints && e.protocol.Udp?
  {
    ByRankIsStableSort(UdpOnly(endpoints));
    SelectIsHeadOfSort(endpoints, ByRank(UdpOnly(endpoints)));
    hide SelectUdpEndpoint;
    if UdpOnly(endpoints) != [] {
      assert UdpOnly(endpoints)[0] in UdpOnly(endpoints);
    }
  }

  lemma {:induction false} BuiltExactlyWhen(platform: Platform, identity: CustomIdentity, key: Key, localId: FrameId,
                                            peers: seq<Peer>, salts: nat -> Option<Octets8>, n: nat)
    requires n <= |peers|
    ensures SessionsOfFirst(platform, identity, key, localId, peers, salts, n).Ok? <==>
            forall i :: 0 <= i < n ==> Buildable(platform, peers[i], salts(i))
  {
    hide SelectUdpEndpoint, DecodeCredential;
    if n > 0 {
      BuiltExactlyWhen(platform, identity, key, localId, peers, salts, n - 1);
      SelectedExactlyWhen(peers[n - 1].endpoints);
    }
  }

  /** A fresh runtime has sessions exactly if it is configured and every peer can be given one that needs
      one; and then exactly with the peers that have a UDP endpoint. */
  lemma SessionsExactlyWhen(platform: Platform, persisted: Persisted, salts: nat -> Option<Octets8>, device: DeviceId)
    ensures device in FromPersisted(platform, persisted, salts).sessions <==>
            && Configured(platform, persisted)
            && (forall i :: 0 <= i < |persisted.peers| ==> Buildable(platform, persisted.peers[i], salts(i)))
            && exists p, e :: p in persisted.peers && p.deviceId == device && e in p.endpoints && e.protocol.Udp?
  {
    hide SelectUdpEndpoint, Collect, Buildable, SessionsOfFirst;
    if Configured(platform, persisted) {
      var localId := platform.frameId(persisted.localDeviceId.value).value;
      var key := DecodeKey(platform.suite, persisted.identity.value.privateKey).value;
      var peers := persisted.peers;
      BuiltExactlyWhen(platform, persisted.identity.value, key, localId, peers, salts, |peers|);
      forall p: Peer ensures SelectUdpEndpoint(p.endpoints).Some? <==> exists e :: e in p.endpoints && e.protocol.Udp? {
        SelectedExactlyWhen(p.endpoints);
      }
      if SessionsOfFirst(platform, persisted.identity.value, key, localId, peers, salts, |peers|).Ok? {
        SessionKeys(platform, persisted.identity.value, key, localId, peers, salts, |peers|, device);
        if p, e :| p in peers && p.deviceId == device && e in p.endpoints && e.protocol.Udp? {
          var i :| 0 <= i < |peers| && peers[i] == p;
        }
      }
    }
  }

  /** A fresh session sends to the endpoint selected from its peer's, and is between the two frame ids. */
  lemma SessionContents(platform: Platform, persisted: Persisted, salts: nat -> Option<Octets8>, device: DeviceId)
    requires device in FromPersisted(platform, persisted, salts).sessions
    ensures var session := FromPersisted(platform, persisted, salts).sessions[device];
            exists i ::
              && 0 <= i < |persisted.peers| && persisted.peers[i].deviceId == device
              && (forall j :: i < j < |persisted.peers| && persisted.peers[j].deviceId == device ==>
                    forall e :: e in persisted.peers[j].endpoints ==> !e.protocol.Udp?)
              && SelectUdpEndpoint(persisted.peers[i].endpoints) == Some(session.endpoint)
              && session.overlayIp == persisted.peers[i].overlayIp
              && platform.frameId(persisted.localDeviceId.value) == Some(session.crypto.localId)
              && platform.frameId(device) == Some(session.crypto.peerId)
              && salts(i) == Some(session.crypto.salt)
  {
    var i := SessionOrigin(platform, persisted, salts, device);
    hide SelectUdpEndpoint, FromPersisted;
    forall j | i < j < |persisted.peers| && persisted.peers[j].deviceId == device
      ensures forall e :: e in persisted.peers[j].endpoints ==> !e.protocol.Udp?
    {
      SelectedExactlyWhen(persisted.peers[j].endpoints);
    }
  }

  ghost predicate NoneAfter(peers: seq<Peer>, i: nat, same: Peer -> bool)
  {
    forall j :: i < j < |peers| ==> !same(peers[j])
  }

  /** Each index of a fresh runtime names the last peer with the key: the peer of a device, the device of an
      overlay address, the selected endpoint of a device, the device of a frame id. */
  lemma IndexesNameLastPeer(platform: Platform, persisted: Persisted, salts: nat -> Option<Octets8>, i: nat)
    requires i < |persisted.peers|
    ensures var rt, peers, p := FromPersisted(platform, persisted, salts), persisted.peers, persisted.peers[i];
            && (NoneAfter(peers, i, (q: Peer) => q.deviceId == p.deviceId) ==>
                  p.deviceId in rt.peersByDevice && rt.peersByDevice[p.deviceId] == p)
            && (NoneAfter(peers, i, (q: Peer) => q.overlayIp == p.overlayIp) ==>
                  p.overlayIp in rt.deviceByOverlayIp && rt.deviceByOverlayIp[p.overlayIp] == p.deviceId)
            && (SelectUdpEndpoint(p.endpoints).Some?
                && NoneAfter(peers, i,
                             (q: Peer) => q.deviceId == p.deviceId && SelectUdpEndpoint(q.endpoints).Some?) ==>
                  && p.deviceId in rt.udpEndpointByDevice
                  && SelectUdpEndpoint(p.endpoints) == Some(rt.udpEndpointByDevice[p.deviceId]))
            && (platform.frameId(p.deviceId).Some?
                && NoneAfter(peers, i, (q: Peer) => platform.frameId(q.deviceId) == platform.frameId(p.deviceId)) ==>
                  && platform.frameId(p.deviceId).value in rt.deviceByFrameId
                  && rt.deviceByFrameId[platform.frameId(p.deviceId).value] == p.deviceId)
  {
    hide SelectUdpEndpoint, Collect, BuildSessions;
    var peers, p := persisted.peers, persisted.peers[i];
    if NoneAfter(peers, i, (q: Peer) => q.deviceId == p.deviceId) {
      LastMatchIsCollected(peers, ByDevice, i, p.deviceId, p);
    }
    if NoneAfter(peers, i, (q: Peer) => q.overlayIp == p.overlayIp) {
      LastMatchIsCollected(peers, ByOverlayIp, i, p.overlayIp, p.deviceId);
    }
    if SelectUdpEndpoint(p.endpoints).Some?
       && NoneAfter(peers, i, (q: Peer) => q.deviceId == p.deviceId && SelectUdpEndpoint(q.endpoints).Some?) {
      LastMatchIsCollected(peers, ByUdpEndpoint, i, p.deviceId, SelectUdpEndpoint(p.endpoints).value);
    }
    if platform.frameId(p.deviceId).Some?
       && NoneAfter(peers, i, (q: Peer) => platform.frameId(q.deviceId) == platform.frameId(p.deviceId)) {
      LastMatchIsCollected(peers, ByFrameId(platform), i, platform.frameId(p.deviceId).value, p.deviceId);
    }
  }

  // ---------------------------------------------------------------- the path invariant

  ghost predicate SessionOk(rt: Runtime, device: DeviceId)
    requires device in rt.sessions
  {
    rt.sessions[device].endpoint.protocol.Udp?
  }

  ghost predicate PeerOk(rt: Runtime, device: DeviceId)
    requires device in rt.paths
  {
    && PathOk(rt.paths[device])
    && (rt.paths[device].current.DirectPath? ==>
          device in rt.sessions && Some(rt.sessions[device].endpoint) == rt.paths[device].active)
  }

  ghost predicate Inv(rt: Runtime)
  {
    && (forall d :: d in rt.paths ==> PeerOk(rt, d))
    && (forall d :: d in rt.sessions ==> SessionOk(rt, d))
    && (forall p :: p in rt.persisted.peers ==> p.deviceId in rt.paths)
    && (forall f :: f in rt.deviceByFrameId ==> rt.deviceByFrameId[f] in rt.paths)
  }

  lemma SelectedIsUdp(endpoints: seq<Endpoint>)
    requires SelectUdpEndpoint(endpoints).Some?
    ensures SelectUdpEndpoint(endpoints).value.protocol.Udp?
  {
    ByRankIsStableSort(UdpOnly(endpoints));
    SelectIsHeadOfSort(endpoints, ByRank(UdpOnly(endpoints)));
  }

  lemma InitialSessions(platform: Platform, persisted: Persisted, salts: nat -> Option<Octets8>, d: DeviceId)
    requires d in FromPersisted(platform, persisted, salts).sessions
    ensures SessionOk(FromPersisted(platform, persisted, salts), d)
  {
    var i := SessionOrigin(platform, persisted, salts, d);
    SelectedIsUdp(persisted.peers[i].endpoints);
  }

  lemma InitialPaths(peers: seq<Peer>)
    ensures forall d :: d in Collect(peers, WithDefaultPath) ==> Collect(peers, WithDefaultPath)[d] == DEFAULT_PATH
    ensures forall p :: p in peers ==> p.deviceId in Collect(peers, WithDefaultPath)
  {
    forall d | d in Collect(peers, WithDefaultPath) ensures Collect(peers, WithDefaultPath)[d] == DEFAULT_PATH {
      CollectIsLastMatch(peers, WithDefaultPath, d);
    }
    forall p | p in peers ensures p.deviceId in Collect(peers, WithDefaultPath) {
      CollectIsLastMatch(peers, WithDefaultPath, p.deviceId);
      assert WithDefaultPath(p).value.0 == p.deviceId;
    }
  }

  lemma FrameIndexNamesPeers(platform: Platform, peers: seq<Peer>, f: FrameId)
    requires f in Collect(peers, ByFrameId(platform))
    ensures exists p :: p in peers && platform.frameId(p.deviceId) == Some(f)
                        && p.deviceId == Collect(peers, ByFrameId(platform))[f]
  {
    var device := Collect(peers, ByFrameId(platform))[f];
    CollectIsLastMatch(peers, ByFrameId(platform), f);
    var i: nat :| LastWithKey(peers, ByFrameId(platform), i, f, device);
    assert peers[i] in peers && peers[i].deviceId == device;
  }

  lemma InitialInv(platform: Platform, persisted: Persisted, salts: nat -> Option<Octets8>)
    ensures Inv(FromPersisted(platform, persisted, salts))
  {
    var rt := FromPersisted(platform, persisted, salts);
    InitialPaths(persisted.peers);
    forall f | f in rt.deviceByFrameId ensures rt.deviceByFrameId[f] in rt.paths {
      FrameIndexNamesPeers(platform, persisted.peers, f);
    }
    forall d | d in rt.sessions ensures SessionOk(rt, d) {
      InitialSessions(platform, persisted, salts, d);
    }
  }

  /** Only nonces and windows of sessions differ. */
  ghost predicate SameButCrypto(rt: Runtime, rt': Runtime)
  {
    && rt' == rt.(sessions := rt'.sessions)
    && rt'.sessions.Keys == rt.sessions.Keys
    && forall d :: d in rt.sessions ==> rt'.sessions[d] == rt.sessions[d].(crypto := rt'.sessions[d].crypto)
  }

  lemma SameButCryptoInv(rt: Runtime, rt': Runtime)
    requires Inv(rt) && SameButCrypto(rt, rt')
    ensures Inv(rt')
  {
    forall d | d in rt'.paths ensures PeerOk(rt', d) {
      assert PeerOk(rt, d);
    }
    forall d | d in rt'.sessions ensures SessionOk(rt', d) {
      assert d in rt.sessions && SessionOk(rt, d);
    }
  }

  lemma ExpireInv(rt: Runtime, now: nat)
    requires Inv(rt)
    ensures Inv(rt.(paths := ExpireAll(rt.paths, now, rt.relays != [])))
  {
    var rt' := rt.(paths := ExpireAll(rt.paths, now, rt.relays != []));
    forall d | d in rt'.paths ensures PeerOk(rt', d) {
      assert PeerOk(rt, d);
    }
  }

  lemma SetPathInv(rt: Runtime, device: DeviceId, s: PathState)
    requires Inv(rt) && device in rt.paths
    requires PathOk(s) && s.current == rt.paths[device].current && s.active == rt.paths[device].active
    ensures Inv(rt.(paths := rt.paths[device := s]))
  {
    var rt' := rt.(paths := rt.paths[device := s]);
    forall d | d in rt'.paths ensures PeerOk(rt', d) {
      assert PeerOk(rt, d);
    }
    forall d | d in rt'.sessions ensures SessionOk(rt', d) {
      assert SessionOk(rt, d);
    }
  }

  /** What a visit does: at most it advances the peer's session and records the completed round. */
  lemma VisitEffect(platform: Platform, rt: Runtime, i: nat, readings: Readings)
    requires i < |rt.persisted.peers| && rt.persisted.peers[i].deviceId in rt.paths
    ensures var rt' := AfterVisit(platform, rt, i, readings);
            var device := rt.persisted.peers[i].deviceId;
            var s := if VisitPeer(platform, rt, i, readings).Completed?
                     then Probed(rt.paths[device], readings.sentMillis(i), readings.finishedAt(i))
                     else rt.paths[device];
            && SameButCrypto(rt.(paths := rt.paths[device := s]), rt')
            && (VisitPeer(platform, rt, i, readings).Completed? ==> ProbeDue(rt.paths[device], readings.checkedAt(i)))
  {
    hide VisitPeer, Probed, ProbeDue;
    var device := rt.persisted.peers[i].deviceId;
    assert rt.paths[device := rt.paths[device]] == rt.paths;
  }

  lemma PeersHavePaths(rt: Runtime, i: nat)
    requires Inv(rt) && i < |rt.persisted.peers|
    ensures rt.persisted.peers[i].deviceId in rt.paths
  {
    assert rt.persisted.peers[i] in rt.persisted.peers;
  }

  lemma VisitInv(platform: Platform, rt: Runtime, i: nat, readings: Readings)
    requires Inv(rt) && i < |rt.persisted.peers|
    ensures var rt' := AfterVisit(platform, rt, i, readings);
            Inv(rt') && rt'.persisted == rt.persisted && rt'.paths.Keys == rt.paths.Keys
  {
    var device := rt.persisted.peers[i].deviceId;
    assert rt.persisted.peers[i] in rt.persisted.peers && PeerOk(rt, device);
    VisitEffect(platform, rt, i, readings);
    var s := if VisitPeer(platform, rt, i, readings).Completed?
             then Probed(rt.paths[device], readings.sentMillis(i), readings.finishedAt(i)) else rt.paths[device];
    SetPathInv(rt, device, s);
    SameButCryptoInv(rt.(paths := rt.paths[device := s]), AfterVisit(platform, rt, i, readings));
  }

  lemma {:induction false} ProbeFromInv(platform: Platform, rt: Runtime, i: nat, readings: Readings, sent: nat)
    requires Inv(rt) && i <= |rt.persisted.peers|
    ensures Inv(ProbeFrom(platform, rt, i, readings, sent).0)
    decreases |rt.persisted.peers| - i
  {
    hide Inv, VisitPeer, AfterVisit;
    if i < |rt.persisted.peers| {
      VisitInv(platform, rt, i, readings);
      var rt' := AfterVisit(platform, rt, i, readings);
      match VisitPeer(platform, rt, i, readings)
      case Skipped => ProbeFromInv(platform, rt', i + 1, readings, sent);
      case CutShort(_, _, _) =>
      case Completed(_, out) => ProbeFromInv(platform, rt', i + 1, readings, sent + |out|);
    }
  }

  lemma MarkInv(rt: Runtime, device: DeviceId, endpoint: Endpoint, rttMs: Option<u64>, now: nat)
    requires Inv(rt) && device in rt.sessions && endpoint.protocol.Udp?
    ensures Inv(MarkPeerDirect(rt, device, endpoint, rttMs, now))
  {
    var rt' := MarkPeerDirect(rt, device, endpoint, rttMs, now);
    forall d | d in rt'.paths ensures PeerOk(rt', d) {
      assert d == device || PeerOk(rt, d);
    }
    forall d | d in rt'.sessions ensures SessionOk(rt', d) {
      assert d == device || SessionOk(rt, d);
    }
  }

  lemma DispatchInv(platform: Platform, rt: Runtime, device: DeviceId, message: OpenFrame, source: Option<SocketAddr>,
                    clock: Clock, sendOk: bool)
    requires Inv(rt) && device in rt.sessions
    ensures Inv(Dispatch(platform, rt, device, message, source, clock, sendOk).0)
  {
    hide Inv, SealMessage, MarkPeerDirect, Probes.ProbeResponsePayload, Probes.ProbeResponseRttMs;
    if message.messageType != FRAME_TYPE_DATA && source.Some? {
      if message.messageType == FRAME_TYPE_PROBE {
        var payload := Probes.ProbeResponsePayload(message.plaintext, clock.millis);
        var crypto := SealMessage(platform.suite, rt.sessions[device].crypto, payload, FRAME_TYPE_PROBE_RESPONSE).0;
        var rt' := WithCrypto(rt, device, crypto);
        WithCryptoInv(rt, device, crypto);
        MarkInv(rt', device, DirectEndpoint(source.value), None, clock.now);
      } else if message.messageType == FRAME_TYPE_PROBE_RESPONSE {
        var rtt := Probes.ProbeResponseRttMs(message.plaintext, clock.millis);
        MarkInv(rt, device, DirectEndpoint(source.value), rtt, clock.now);
      }
    }
  }

  lemma ReceiveInv(platform: Platform, rt: Runtime, frame: Bytes, source: Option<SocketAddr>, clock: Clock,
                   sendOk: bool)
    requires Inv(rt)
    ensures Inv(OpenReceivedFrame(platform, rt, frame, source, clock, sendOk).0)
  {
    hide Inv, OpenMessage, DecodeFrame, Dispatch;
    if DecodeFrame(frame).Ok? && DecodeFrame(frame).value.header.source in rt.deviceByFrameId {
      var device := rt.deviceByFrameId[DecodeFrame(frame).value.header.source];
      if device in rt.sessions {
        var (crypto, r) := OpenMessage(platform.suite, rt.sessions[device].crypto, frame);
        if r.Ok? {
          SameButCryptoInv(rt, WithCrypto(rt, device, crypto));
          DispatchInv(platform, WithCrypto(rt, device, crypto), device, r.value, source, clock, sendOk);
        }
      }
    }
  }

  lemma UnchangedIsCryptoOnly(rt: Runtime)
    ensures SameButCrypto(rt, rt)
  {
  }

  lemma WithCryptoIsCryptoOnly(rt: Runtime, device: DeviceId, crypto: Session)
    requires device in rt.sessions
    ensures SameButCrypto(rt, WithCrypto(rt, device, crypto))
  {
  }

  lemma WithCryptoInv(rt: Runtime, device: DeviceId, crypto: Session)
    requires Inv(rt) && device in rt.sessions
    ensures Inv(WithCrypto(rt, device, crypto))
  {
    hide Inv, WithCrypto;
    WithCryptoIsCryptoOnly(rt, device, crypto);
    SameButCryptoInv(rt, WithCrypto(rt, device, crypto));
  }

  lemma SendIsCryptoOnly(platform: Platform, rt: Runtime, packet: Bytes, writeOk: bool)
    ensures SameButCrypto(rt, SendOverlayPacket(platform, rt, packet, writeOk).0)
  {
    hide SealMessage, Ipv4Destination, OnRelay, SameButCrypto, WithCrypto;
    UnchangedIsCryptoOnly(rt);
    if Ipv4Destination(packet).Some? && Ipv4Destination(packet).value in rt.deviceByOverlayIp {
      var device := rt.deviceByOverlayIp[Ipv4Destination(packet).value];
      if device in rt.sessions {
        WithCryptoIsCryptoOnly(rt, device,
                               SealMessage(platform.suite, rt.sessions[device].crypto, packet, FRAME_TYPE_DATA).0);
      }
    }
  }

  lemma NextInv(platform: Platform, rt: Runtime, step: Step)
    requires Inv(rt)
    ensures Inv(Next(platform, rt, step))
  {
    hide SendOverlayPacket, ProbeFrom, OpenReceivedFrame, ExpireAll;
    match step
    case Send(packet, writeOk) =>
      SendIsCryptoOnly(platform, rt, packet, writeOk);
      SameButCryptoInv(rt, Next(platform, rt, step));
    case ProbeAll(readings) =>
      ExpireInv(rt, readings.start);
      var rt' := rt.(paths := ExpireAll(rt.paths, readings.start, rt.relays != []));
      ProbeFromInv(platform, rt', 0, readings, 0);
    case Receive(frame, source, clock, sendOk) => ReceiveInv(platform, rt, frame, Some(source), clock, sendOk);
    case ReceiveRelayed(message, clock) =>
      if message.FrameMessage? && platform.suite.decodeBase64(message.payload).Some? {
        ReceiveInv(platform, rt, platform.suite.decodeBase64(message.payload).value, None, clock, false);
      }
    case SetRelays(_) =>
      forall d | d in rt.paths ensures PeerOk(Next(platform, rt, step), d) { assert PeerOk(rt, d); }
      forall d | d in rt.sessions ensures SessionOk(Next(platform, rt, step), d) { assert SessionOk(rt, d); }
    case BindTransport(_) =>
      forall d | d in rt.paths ensures PeerOk(Next(platform, rt, step), d) { assert PeerOk(rt, d); }
      forall d | d in rt.sessions ensures SessionOk(Next(platform, rt, step), d) { assert SessionOk(rt, d); }
  }

  lemma {:induction false} ExecInv(platform: Platform, rt: Runtime, steps: seq<Step>)
    requires Inv(rt)
    ensures Inv(Exec(platform, rt, steps))
    decreases |steps|
  {
    if steps != [] {
      NextInv(platform, rt, steps[0]);
      ExecInv(platform, Next(platform, rt, steps[0]), steps[1..]);
    }
  }

  /** The path invariant in every reachable state. Direct: fewer than three failures, no fast probes
      left, a recorded success, and a live session that sends to the active UDP endpoint. Relay: three
      failures or more, an earlier success, the relay endpoint. Unknown: no endpoint. A round-trip
      time only on Direct paths. Every session endpoint is UDP. */
  lemma ReachablePathsAreConsistent(platform: Platform, persisted: Persisted, salts: nat -> Option<Octets8>,
                                    steps: seq<Step>, device: DeviceId)
    ensures var rt := Exec(platform, FromPersisted(platform, persisted, salts), steps);
            && (device in rt.sessions ==>
                  rt.sessions[device].endpoint.protocol.Udp? && EndpointSocketAddr(rt.sessions[device].endpoint).Some?)
            && (device in rt.paths ==>
                  var s := rt.paths[device];
                  && (s.current.DirectPath? ==>
                        && s.failures < 3 && s.fastProbesLeft == 0 && s.lastSuccessAt.Some?
                        && device in rt.sessions && s.active == Some(rt.sessions[device].endpoint))
                  && (s.current.RelayPath? ==>
                        s.failures >= 3 && s.lastSuccessAt.Some? && s.active.Some? && s.active.value.kind.Relay?)
                  && (s.current.UnknownPath? ==> s.active.None?)
                  && (s.rttMs.Some? ==> s.current.DirectPath?))
  {
    var start := FromPersisted(platform, persisted, salts);
    InitialInv(platform, persisted, salts);
    ExecInv(platform, start, steps);
    var rt := Exec(platform, start, steps);
    if device in rt.sessions {
      assert SessionOk(rt, device);
    }
    if device in rt.paths {
      assert PeerOk(rt, device);
    }
  }
}
