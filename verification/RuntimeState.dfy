/** The runtime as an object that updates its maps in place, method by method against the functions of
    `Runtimes`. */
module RuntimeObject {
  import opened Prelude
  import opened Nonces
  import opened Frames
  import opened Crypto
  import opened Transport
  import opened Paths
  import opened Probes
  import opened Runtimes
  import opened RelayProtocol
  import RuntimeRuns

  class RuntimeState {
    const platform: Platform
    var persisted: Persisted
    var peersByDevice: map<DeviceId, Peer>
    var deviceByOverlayIp: map<Ipv4, DeviceId>
    var udpEndpointByDevice: map<DeviceId, Endpoint>
    var deviceByFrameId: map<FrameId, DeviceId>
    var sessions: map<DeviceId, TransportSession>
    var paths: map<DeviceId, PathState>
    var relays: seq<string>
    var transportBound: bool

    function Value(): (rt: Runtime)
      reads this
    {
      Runtime(persisted, peersByDevice, deviceByOverlayIp, udpEndpointByDevice, deviceByFrameId, sessions, paths,
              relays,
              transportBound)
    }

    /** What every method keeps: the invariant of all reachable runtimes. */
    ghost predicate Valid()
      reads this
    {
      RuntimeRuns.Inv(Value())
    }

    constructor (platform: Platform, persisted: Persisted, salts: nat -> Option<Octets8>)
      ensures Valid() && this.platform == platform && Value() == FromPersisted(platform, persisted, salts)
    {
      hide RuntimeRuns.Inv;
      RuntimeRuns.InitialInv(platform, persisted, salts);
      this.platform, this.persisted := platform, persisted;
      peersByDevice := Collect(persisted.peers, ByDevice);
      deviceByOverlayIp := Collect(persisted.peers, ByOverlayIp);
      udpEndpointByDevice := Collect(persisted.peers, ByUdpEndpoint);
      deviceByFrameId := Collect(persisted.peers, ByFrameId(platform));
      paths := Collect(persisted.peers, WithDefaultPath);
      relays, transportBound := [], false;
      var built := BuildPeerTransportSessions(platform, persisted, salts);
      sessions := match built case Ok(m) => m case Err(_) => map[];
    }

    method Send(packet: Bytes, writeOk: bool) returns (r: Result<Outgoing, RuntimeError>)
      requires Valid()
      modifies this`sessions
      ensures Valid() && (Value(), r) == SendOverlayPacket(platform, old(Value()), packet, writeOk)
    {
      hide SealMessage, RuntimeRuns.Inv;
      RuntimeRuns.NextInv(platform, Value(), RuntimeRuns.Send(packet, writeOk));
      var destination := Ipv4Destination(packet);
      if destination.None? {
        return Err(BadPacket);
      }
      if destination.value !in deviceByOverlayIp {
        return Err(NoPeerForDestination);
      }
      var device := deviceByOverlayIp[destination.value];
      var relayed := device in paths && paths[device].current.RelayPath?;
      if device !in sessions {
        return Err(SessionNotReady);
      }
      var session := sessions[device];
      var (crypto, sealed) := SealMessage(platform.suite, session.crypto, packet, FRAME_TYPE_DATA);
      sessions := sessions[device := session.(crypto := crypto)];
      if sealed.Err? {
        return Err(CryptoFailure(sealed.error));
      }
      if relayed {
        if !writeOk {
          return Err(SendFailed);
        }
        var source := match persisted.localDeviceId case Some(id) => id case None => "";
        return Ok(OverRelay(FrameMessage(source, device, platform.suite.encodeBase64(sealed.value))));
      }
      if !transportBound {
        return Err(TransportNotBound);
      }
      var address := EndpointSocketAddr(session.endpoint);
      if address.None? {
        return Err(NotUdpEndpoint);
      }
      if !writeOk {
        return Err(SendFailed);
      }
      r := Ok(OverUdp(session.endpoint, sealed.value));
    }

    method ExpireStaleDirectPaths(now: nat)
      requires Valid()
      modifies this`paths
      ensures Valid() && paths == ExpireAll(old(paths), now, relays != [])
    {
      hide Expired, RuntimeRuns.Inv;
      ghost var before := Value();
      var todo := paths.Keys;
      while todo != {}
        invariant todo <= paths.Keys == old(paths).Keys
        invariant forall d :: d in paths ==>
                    paths[d] == if d in todo then old(paths)[d] else Expired(old(paths)[d], now, relays != [])
        decreases |todo|
      {
        var d :| d in todo;
        paths := paths[d := Expired(paths[d], now, relays != [])];
        todo := todo - {d};
      }
      assert paths == ExpireAll(old(paths), now, relays != []);
      RuntimeRuns.ExpireInv(before, now);
    }

    /** The probes of one round to the i-th peer, one endpoint after the other. */
    method SendProbeRound(i: nat, readings: Readings) returns (r: Result<(), RuntimeError>, out: seq<Outgoing>)
      requires Valid() && i < |persisted.peers| && persisted.peers[i].deviceId in sessions
      modifies this`sessions
      ensures var device, endpoints := persisted.peers[i].deviceId, ByRank(UdpOnly(persisted.peers[i].endpoints));
              var sent := SendProbes(platform, old(sessions)[device].crypto, readings, i, endpoints, 0);
              && sessions == old(sessions)[device := old(sessions)[device].(crypto := sent.0)]
              && r == sent.1 && out == sent.2
      ensures Valid()
    {
      hide SealMessage, ByRank, UdpOnly, IsStableSort, ProbePayload, RuntimeRuns.Inv;
      ghost var before := Value();
      var device := persisted.peers[i].deviceId;
      var endpoints := SortedUdpEndpoints(persisted.peers[i].endpoints);
      var session := sessions[device];
      var crypto := session.crypto;
      var payload := ProbePayload(readings.sentMillis(i));
      ghost var whole := SendProbes(platform, crypto, readings, i, endpoints, 0);
      out := [];
      assert out + whole.2 == whole.2;
      for j := 0 to |endpoints|
        invariant sessions == old(sessions)[device := session.(crypto := crypto)]
        invariant var rest := SendProbes(platform, crypto, readings, i, endpoints, j);
                  whole.0 == rest.0 && whole.1 == rest.1 && whole.2 == out + rest.2
      {
        ghost var sentBefore, rest := out, SendProbes(platform, crypto, readings, i, endpoints, j).2;
        var (next, sealed) := SealMessage(platform.suite, crypto, payload, FRAME_TYPE_PROBE);
        crypto := next;
        sessions := sessions[device := session.(crypto := crypto)];
        RuntimeRuns.WithCryptoInv(before, device, crypto);
        if sealed.Err? {
          return Err(CryptoFailure(sealed.error)), out;
        }
        if !readings.sendOk(i, j) {
          return Err(SendFailed), out;
        }
        out := out + [OverUdp(endpoints[j], sealed.value)];
        ghost var later := SendProbes(platform, crypto, readings, i, endpoints, j + 1).2;
        assert rest == [OverUdp(endpoints[j], sealed.value)] + later;
        assert sentBefore + rest == out + later;
      }
      RuntimeRuns.WithCryptoInv(before, device, crypto);
      r := Ok(());
    }

    /** One peer of a probing pass. */
    method ProbeOnePeer(i: nat, readings: Readings) returns (r: Result<(), RuntimeError>, out: seq<Outgoing>)
      requires Valid() && i < |persisted.peers|
      modifies this`sessions, this`paths
      ensures Valid() && Value() == AfterVisit(platform, old(Value()), i, readings)
      ensures (r, out) == (match VisitPeer(platform, old(Value()), i, readings)
                           case Skipped => (Ok(()), [])
                           case CutShort(_, error, sent) => (Err(error), sent)
                           case Completed(_, sent) => (Ok(()), sent))
    {
      hide SendProbes, ByRank, UdpOnly, ProbeDue, SaturatingSucc, RuntimeRuns.Inv;
      RuntimeRuns.VisitInv(platform, Value(), i, readings);
      RuntimeRuns.PeersHavePaths(Value(), i);
      ghost var visit := VisitPeer(platform, Value(), i, readings);
      var device := persisted.peers[i].deviceId;
      var state := if device in paths then paths[device] else DEFAULT_PATH;
      paths := paths[device := state];
      assert paths == old(paths);
      if !ProbeDue(state, readings.checkedAt(i)) || device !in sessions {
        return Ok(()), [];
      }
      r, out := SendProbeRound(i, readings);
      assert visit == if r.Err? then CutShort(sessions[device].crypto, r.error, out)
                      else Completed(sessions[device].crypto, out);
      if r.Err? {
        return;
      }
      state := state.(lastProbeAt := Some(readings.finishedAt(i)), lastProbeSentMillis := Some(readings.sentMillis(i)));
      if state.fastProbesLeft > 0 {
        state := state.(fastProbesLeft := state.fastProbesLeft - 1);
      }
      if !state.current.DirectPath? {
        state := state.(failures := SaturatingSucc(state.failures));
      }
      assert state == Probed(PathOf(old(Value()), device), readings.sentMillis(i), readings.finishedAt(i));
      paths := paths[device := state];
      assert paths == old(paths)[device := state];
      r := Ok(());
    }

    method ProbeDirectPaths(readings: Readings) returns (r: Result<nat, RuntimeError>, out: seq<Outgoing>)
      requires Valid()
      modifies this`sessions, this`paths
      ensures Valid() && (Value(), r, out) == ProbePeerDirectPaths(platform, old(Value()), readings)
    {
      hide VisitPeer, AfterVisit, ExpireAll, RuntimeRuns.Inv;
      ExpireStaleDirectPaths(readings.start);
      if !transportBound {
        return Ok(0), [];
      }
      ghost var whole := ProbeFrom(platform, Value(), 0, readings, 0);
      var sent: nat := 0;
      out := [];
      assert out + whole.2 == whole.2;
      for i := 0 to |persisted.peers|
        invariant Valid()
        invariant var rest := ProbeFrom(platform, Value(), i, readings, sent);
                  whole.0 == rest.0 && whole.1 == rest.1 && whole.2 == out + rest.2
      {
        ghost var sentBefore, at, sentCount := out, Value(), sent;
        var peer, probes := ProbeOnePeer(i, readings);
        out := out + probes;
        if peer.Err? {
          return Err(peer.error), out;
        }
        sent := sent + |probes|;
        ghost var later := ProbeFrom(platform, Value(), i + 1, readings, sent).2;
        assert ProbeFrom(platform, at, i, readings, sentCount).2 == probes + later;
        assert sentBefore + (probes + later) == out + later;
      }
      assert out + [] == out;
      r := Ok(sent);
    }

    method MarkDirect(device: DeviceId, endpoint: Endpoint, rttMs: Option<u64>, now: nat)
      requires Valid()
      modifies this`sessions, this`paths
      ensures Value() == MarkPeerDirect(old(Value()), device, endpoint, rttMs, now)
      ensures device in old(sessions) && endpoint.protocol.Udp? ==> Valid()
    {
      hide RuntimeRuns.Inv;
      if device in sessions && endpoint.protocol.Udp? {
        RuntimeRuns.MarkInv(Value(), device, endpoint, rttMs, now);
      }
      var state := if device in paths then paths[device] else DEFAULT_PATH;
      state := state.(current := DirectPath, active := Some(endpoint), lastSuccessAt := Some(now), failures := 0,
                      rttMs := rttMs, fastProbesLeft := 0);
      paths := paths[device := state];
      if device in sessions {
        sessions := sessions[device := sessions[device].(endpoint := endpoint)];
      }
    }

    method OpenReceived(frame: Bytes, source: Option<SocketAddr>, clock: Clock, sendOk: bool)
      returns (r: Result<Option<Bytes>, RuntimeError>, out: seq<Outgoing>)
      requires Valid()
      modifies this`sessions, this`paths
      ensures Valid() && (Value(), r, out) == OpenReceivedFrame(platform, old(Value()), frame, source, clock, sendOk)
    {
      hide OpenMessage, DecodeFrame, Dispatch, RuntimeRuns.Inv;
      ghost var before := Value();
      var decoded := DecodeFrame(frame);
      if decoded.Err? {
        return Err(FrameRejected(decoded.error)), [];
      }
      if decoded.value.header.source !in deviceByFrameId {
        return Err(UnknownFrameSource), [];
      }
      var device := deviceByFrameId[decoded.value.header.source];
      if device !in sessions {
        return Err(SessionNotReady), [];
      }
      var (crypto, result) := OpenMessage(platform.suite, sessions[device].crypto, frame);
      if result.Err? {
        return Err(CryptoFailure(result.error)), [];
      }
      sessions := sessions[device := sessions[device].(crypto := crypto)];
      RuntimeRuns.WithCryptoInv(before, device, crypto);
      r, out := HandleOpened(device, result.value, source, clock, sendOk);
    }

    method HandleOpened(device: DeviceId, message: OpenFrame, source: Option<SocketAddr>, clock: Clock, sendOk: bool)
      returns (r: Result<Option<Bytes>, RuntimeError>, out: seq<Outgoing>)
      requires Valid() && device in sessions
      modifies this`sessions, this`paths
      ensures Valid() && (Value(), r, out) == Dispatch(platform, old(Value()), device, message, source, clock, sendOk)
    {
      hide SealMessage, ProbeResponsePayload, ProbeResponseRttMs, MarkPeerDirect, RuntimeRuns.Inv;
      ghost var before := Value();
      if message.messageType == FRAME_TYPE_DATA {
        return Ok(Some(message.plaintext)), [];
      }
      if message.messageType != FRAME_TYPE_PROBE && message.messageType != FRAME_TYPE_PROBE_RESPONSE {
        return Err(UnsupportedOpenedType), [];
      }
      if source.None? {
        return Ok(None), [];
      }
      var endpoint := DirectEndpoint(source.value);
      if message.messageType == FRAME_TYPE_PROBE {
        var payload := ProbeResponsePayload(message.plaintext, clock.millis);
        var session := sessions[device];
        var (crypto, response) := SealMessage(platform.suite, session.crypto, payload, FRAME_TYPE_PROBE_RESPONSE);
        sessions := sessions[device := session.(crypto := crypto)];
        RuntimeRuns.WithCryptoInv(before, device, crypto);
        if response.Err? {
          return Err(CryptoFailure(response.error)), [];
        }
        if !transportBound {
          return Err(TransportNotBound), [];
        }
        if !sendOk {
          return Err(SendFailed), [];
        }
        MarkDirect(device, endpoint, None, clock.now);
        out := [OverUdp(endpoint, response.value)];
      } else {
        MarkDirect(device, endpoint, ProbeResponseRttMs(message.plaintext, clock.millis), clock.now);
        out := [];
      }
      r := Ok(None);
    }

    method OpenRelayed(message: RelayMessage, clock: Clock)
      returns (r: Result<Option<Bytes>, RuntimeError>, out: seq<Outgoing>)
      requires Valid()
      modifies this`sessions, this`paths
      ensures Valid() && (Value(), r, out) == OpenRelayFrame(platform, old(Value()), message, clock)
    {
      hide OpenReceivedFrame, RuntimeRuns.Inv;
      if !message.FrameMessage? {
        return Ok(None), [];
      }
      var frame := platform.suite.decodeBase64(message.payload);
      if frame.None? {
        return Err(BadBase64), [];
      }
      r, out := OpenReceived(frame.value, None, clock, false);
    }

    method SetRelays(relays: seq<string>)
      requires Valid()
      modifies this`relays
      ensures Valid() && Value() == old(Value()).(relays := relays)
    {
      hide RuntimeRuns.Inv;
      RuntimeRuns.NextInv(platform, Value(), RuntimeRuns.SetRelays(relays));
      this.relays := relays;
    }

    method BindTransport(bound: bool)
      requires Valid()
      modifies this`transportBound
      ensures Valid() && Value() == old(Value()).(transportBound := bound)
    {
      hide RuntimeRuns.Inv;
      RuntimeRuns.NextInv(platform, Value(), RuntimeRuns.BindTransport(bound));
      transportBound := bound;
    }
  }
}
