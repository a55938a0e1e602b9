/** The parts joined: names and addresses handed out by the control plane lead, through one device's
    runtime and the relay, to the device that was registered under them. */
module Mesh {
  import opened Prelude
  import opened Names
  import opened Nonces
  import opened Crypto
  import opened Control
  import opened Dns
  import opened Resolver
  import opened Transport
  import opened Runtimes
  import opened Routing
  import ControlRuns
  import RuntimeRuns
  import Relay

  /** The peer list one device is given: the other live devices, once each, in whatever order, with
      the addresses and credentials of the device table. */
  ghost predicate MappedPeers(db: Db, self: DeviceId, peers: seq<Peer>)
  {
    && (forall p :: p in peers ==>
          && p.deviceId != self && Live(db, p.deviceId)
          && ParseIpv4(db.devices[p.deviceId].ipv4) == Some(p.overlayIp)
          && p.publicKey == db.devices[p.deviceId].credential)
    && (forall d :: Live(db, d) && d != self ==> exists p :: p in peers && p.deviceId == d)
    && (forall i, j :: 0 <= i < j < |peers| ==> peers[i].deviceId != peers[j].deviceId)
  }

  /** Whatever the control plane went through, the overlay addresses of a peer list are distinct: what
      routing asks of them, the control plane provides. */
  lemma MappedAddressesAreDistinct(steps: seq<ControlRuns.Step>, self: DeviceId, peers: seq<Peer>)
    requires MappedPeers(ControlRuns.Exec(ControlRuns.EMPTY_SYSTEM, steps).db, self, peers)
    ensures DistinctAddresses(peers)
  {
    hide ControlRuns.Exec, ParseIpv4, Address;
    ControlRuns.ReachableInv(steps);
    var db := ControlRuns.Exec(ControlRuns.EMPTY_SYSTEM, steps).db;
    forall i, j | 0 <= i < j < |peers| ensures peers[i].overlayIp != peers[j].overlayIp {
      var d, e := peers[i].deviceId, peers[j].deviceId;
      assert peers[i] in peers && peers[j] in peers;
      var a := DeviceOctet(db, d);
      var b := DeviceOctet(db, e);
      DeviceAddresses(db, d, e);
    }
  }

  /** Devices are told apart by their frame ids. */
  ghost predicate DistinctFrameIds(platform: Platform, db: Db)
  {
    forall d, e :: d in db.devices && e in db.devices && platform.frameId(d).Some? ==>
      (platform.frameId(d) == platform.frameId(e) ==> d == e)
  }

  /** A peer list from the control plane knows every other live device, under the credential that device
      registered with. */
  lemma MapKnows(platform: Platform, db: Db, self: DeviceId, device: DeviceId, persisted: Persisted)
    requires MappedPeers(db, self, persisted.peers) && DistinctFrameIds(platform, db)
    requires Live(db, device) && device != self && platform.frameId(device).Some?
    ensures Knows(platform, persisted, device, db.devices[device].credential)
  {
    hide ParseIpv4;
  }

  /** A name in any case, with any number of trailing dots. */
  function Dotted(name: string, dots: nat): (query: string)
  {
    name + seq(dots, _ => '.')
  }

  /** From a name to its address: the name of a live device resolves to the overlay address of the one
      peer that stands for it in another device's peer list. */
  lemma NameIsPeerAddress(steps: seq<ControlRuns.Step>, self: DeviceId, device: DeviceId, records: seq<DnsRecord>,
                          query: string, dots: nat, suffix: string, peers: seq<Peer>) returns (p: Peer)
    requires var db := ControlRuns.Exec(ControlRuns.EMPTY_SYSTEM, steps).db;
             && Live(db, device) && device != self && device in db.dns
             && Lists(records, db.dns) && NormalizeSuffix(suffix) == "mesh"
             && Lower(query) == Lower(db.dns[device].name)
             && MappedPeers(db, self, peers)
    ensures p in peers && p.deviceId == device && ResolveA(records, Dotted(query, dots), suffix) == Some(p.overlayIp)
  {
    ControlRuns.ReachableInv(steps);
    var db := ControlRuns.Exec(ControlRuns.EMPTY_SYSTEM, steps).db;
    hide ControlRuns.Exec, ResolveA, ParseIpv4, Lists, NormalizeSuffix, Lower, NormalizeName, Address, InMesh;
    NormalizeVariant(db.dns[device].name, query, dots);
    TableResolves(db, records, Dotted(query, dots), suffix);
    var octet := DeviceOctet(db, device);
    p :| p in peers && p.deviceId == device;
  }

  /** From a name to its device. After any run of the control plane, for any two live devices `self` and
      `device`: the name of `device`, asked in any case and with any trailing dots, resolves at `self` to
      an address that the runtime of `self` routes to `device`. */
  lemma NameLeadsToDevice(steps: seq<ControlRuns.Step>, self: DeviceId, device: DeviceId, records: seq<DnsRecord>,
                          query: string, dots: nat, suffix: string, platform: Platform, persisted: Persisted,
                          salts: nat -> Option<Octets8>, runtimeSteps: seq<RuntimeRuns.Step>)
    requires var db := ControlRuns.Exec(ControlRuns.EMPTY_SYSTEM, steps).db;
             && Live(db, device) && device != self && device in db.dns
             && Lists(records, db.dns) && NormalizeSuffix(suffix) == "mesh"
             && Lower(query) == Lower(db.dns[device].name)
             && MappedPeers(db, self, persisted.peers)
    ensures var rt := RuntimeRuns.Exec(platform, FromPersisted(platform, persisted, salts), runtimeSteps);
            var ip := ResolveA(records, Dotted(query, dots), suffix);
            ip.Some? && ip.value in rt.deviceByOverlayIp && rt.deviceByOverlayIp[ip.value] == device
  {
    hide ControlRuns.Exec, RuntimeRuns.Exec, ResolveA, Collect, BuildSessions, Lists, NormalizeSuffix, Lower;
    hide MappedPeers;
    var p := NameIsPeerAddress(steps, self, device, records, query, dots, suffix, persisted.peers);
    MappedAddressesAreDistinct(steps, self, persisted.peers);
    AddressOwner(persisted.peers, p.overlayIp);
    ExecKeepsNetwork(platform, FromPersisted(platform, persisted, salts), runtimeSteps);
  }

  ghost function TablesAfter(steps: seq<ControlRuns.Step>): (db: Db)
  {
    ControlRuns.Exec(ControlRuns.EMPTY_SYSTEM, steps).db
  }

  /** A device has its peer list from these tables, in which another device, live, stands with the
      credential it uses. */
  ghost predicate Introduced(platform: Platform, db: Db, self: Persisted, other: Persisted)
    requires self.localDeviceId.Some? && other.localDeviceId.Some? && other.identity.Some?
  {
    && self.localDeviceId != other.localDeviceId
    && DistinctFrameIds(platform, db) && MappedPeers(db, self.localDeviceId.value, self.peers)
    && Live(db, other.localDeviceId.value)
    && db.devices[other.localDeviceId.value].credential == other.identity.value.publicKey
  }

  /** The whole way. A and B have their peer lists from the control plane, each from any state it ever was
      in, and each registered with the credential it uses. A asks for the name of B in any case and with
      any trailing dots, and sends a packet to the answer. What A's runtime puts on the network, over UDP
      or through the relay, is for B, and B's runtime hands out exactly that packet, if and only if its
      replay window has room for the counter A used. */
  lemma NamedPacketIsDelivered(controlA: seq<ControlRuns.Step>, controlB: seq<ControlRuns.Step>,
                               records: seq<DnsRecord>, query: string, dots: nat, suffix: string,
                               platform: Platform, persistedA: Persisted, saltsA: nat -> Option<Octets8>,
                               stepsA: seq<RuntimeRuns.Step>, persistedB: Persisted, saltsB: nat -> Option<Octets8>,
                               stepsB: seq<RuntimeRuns.Step>, packet: Bytes, source: SocketAddr, clock: Clock,
                               sendOk: bool)
    requires Lawful(platform.suite) && OwnsCredential(platform, persistedA) && OwnsCredential(platform, persistedB)
    requires Introduced(platform, TablesAfter(controlA), persistedA, persistedB)
    requires Introduced(platform, TablesAfter(controlB), persistedB, persistedA)
    requires persistedA.localDeviceId.value in FromPersisted(platform, persistedB, saltsB).sessions
    requires persistedB.localDeviceId.value in TablesAfter(controlA).dns
    requires Lower(query) == Lower(TablesAfter(controlA).dns[persistedB.localDeviceId.value].name)
    requires Lists(records, TablesAfter(controlA).dns) && NormalizeSuffix(suffix) == "mesh"
    requires ResolveA(records, Dotted(query, dots), suffix).Some?
    requires ToAddress(packet, ResolveA(records, Dotted(query, dots), suffix).value)
    requires var a := RuntimeRuns.Exec(platform, FromPersisted(platform, persistedA, saltsA), stepsA);
             SendOverlayPacket(platform, a, packet, true).1.Ok?
    ensures var a := RuntimeRuns.Exec(platform, FromPersisted(platform, persistedA, saltsA), stepsA);
            var b := RuntimeRuns.Exec(platform, FromPersisted(platform, persistedB, saltsB), stepsB);
            var idA, idB := persistedA.localDeviceId.value, persistedB.localDeviceId.value;
            var out := SendOverlayPacket(platform, a, packet, true).1.value;
            && idB in a.sessions && idA in b.sessions
            && (out.OverRelay? ==> out.message.FrameMessage? && out.message.destination == idB)
            && var received := if out.OverUdp?
                               then OpenReceivedFrame(platform, b, out.frame, Some(source), clock, sendOk).1
                               else OpenRelayFrame(platform, b, out.message, clock).1;
               && (received.Err? || received == Ok(Some(packet)))
               && (received == Ok(Some(packet)) <==>
                   AcceptCounter(b.sessions[idA].crypto.window, a.sessions[idB].crypto.counter).Ok?)
  {
    hide ControlRuns.Exec, RuntimeRuns.Exec, ResolveA, FromPersisted, Lists, NormalizeSuffix, Lower, MappedPeers, Knows;
    hide DistinctFrameIds, SendOverlayPacket, OpenReceivedFrame, OpenRelayFrame, AcceptCounter, Lawful;
    hide ToAddress, DistinctAddresses;
    var idA, idB := persistedA.localDeviceId.value, persistedB.localDeviceId.value;
    MapKnows(platform, TablesAfter(controlA), idA, idB, persistedA);
    MapKnows(platform, TablesAfter(controlB), idB, idA, persistedB);
    var p := NameIsPeerAddress(controlA, idA, idB, records, query, dots, suffix, persistedA.peers);
    MappedAddressesAreDistinct(controlA, idA, persistedA.peers);
    OverlayDelivery(platform, persistedA, saltsA, stepsA, persistedB, saltsB, stepsB, packet, source, clock, sendOk);
  }

  /** Through the relay. Whatever the relay's interleaving, if a session has been given the message that
      A's runtime sent for a packet to B, that session registered as B; and B's runtime makes exactly
      the packet of it, if and only if its replay window has room for the counter A used. */
  lemma RelayedPacketArrives(platform: Platform, persistedA: Persisted, saltsA: nat -> Option<Octets8>,
                             stepsA: seq<RuntimeRuns.Step>,
                             persistedB: Persisted, saltsB: nat -> Option<Octets8>, stepsB: seq<RuntimeRuns.Step>,
                             packet: Bytes, clock: Clock, relaySteps: seq<Relay.Step>, conn: Relay.ConnId)
    requires Lawful(platform.suite) && OwnsCredential(platform, persistedA) && OwnsCredential(platform, persistedB)
    requires Knows(platform, persistedA, persistedB.localDeviceId.value, persistedB.identity.value.publicKey)
    requires Knows(platform, persistedB, persistedA.localDeviceId.value, persistedA.identity.value.publicKey)
    requires DistinctAddresses(persistedA.peers)
    requires exists p :: p in persistedA.peers && ToAddress(packet, p.overlayIp)
                         && p.deviceId == persistedB.localDeviceId.value
    requires persistedA.localDeviceId.value in FromPersisted(platform, persistedB, saltsB).sessions
    requires var a := RuntimeRuns.Exec(platform, FromPersisted(platform, persistedA, saltsA), stepsA);
             var sent := SendOverlayPacket(platform, a, packet, true).1;
             var relay := Relay.Exec(Relay.EMPTY_ROUTER, relaySteps);
             sent.Ok? && sent.value.OverRelay? && conn in relay.conns && sent.value.message in relay.conns[conn].written
    ensures var a := RuntimeRuns.Exec(platform, FromPersisted(platform, persistedA, saltsA), stepsA);
            var b := RuntimeRuns.Exec(platform, FromPersisted(platform, persistedB, saltsB), stepsB);
            var idA, idB := persistedA.localDeviceId.value, persistedB.localDeviceId.value;
            var message := SendOverlayPacket(platform, a, packet, true).1.value.message;
            && Relay.Exec(Relay.EMPTY_ROUTER, relaySteps).conns[conn].device == idB
            && idB in a.sessions && idA in b.sessions
            && (OpenRelayFrame(platform, b, message, clock).1 == Ok(Some(packet)) <==>
                AcceptCounter(b.sessions[idA].crypto.window, a.sessions[idB].crypto.counter).Ok?)
  {
    hide FromPersisted, RuntimeRuns.Exec, Relay.Exec, SendOverlayPacket, OpenRelayFrame, AcceptCounter, Lawful;
    hide OwnsCredential, Knows, ToAddress, DistinctAddresses;
    Relay.QueuesAreFaithful(relaySteps, conn);
    OverlayDelivery(platform, persistedA, saltsA, stepsA, persistedB, saltsB, stepsB, packet,
                    SocketAddr(V4(0, 0, 0, 0), 0), clock, false);
  }

  /** A deleted device is out of the mesh. After any run in which it is deleted, no peer list from any later
      state holds it, and its old name, in any case and with any trailing dots, resolves to nothing until
      another device takes that name. */
  lemma DeletedLeavesTheMesh(steps: seq<ControlRuns.Step>, id: DeviceId, more: seq<ControlRuns.Step>, self: DeviceId,
                             peers: seq<Peer>, records: seq<DnsRecord>, query: string, dots: nat, suffix: string)
    requires Live(TablesAfter(steps), id) && id in TablesAfter(steps).dns
    requires var db := TablesAfter(steps + [ControlRuns.Delete(id)] + more);
             MappedPeers(db, self, peers) && Lists(records, db.dns)
    requires NormalizeSuffix(suffix) == "mesh" && Lower(query) == Lower(TablesAfter(steps).dns[id].name)
    ensures forall p :: p in peers ==> p.deviceId != id
    ensures var db := TablesAfter(steps + [ControlRuns.Delete(id)] + more);
            (forall d :: d in db.dns ==> Lower(db.dns[d].name) != Lower(query)) ==>
              ResolveA(records, Dotted(query, dots), suffix) == None
  {
    var all := steps + [ControlRuns.Delete(id)] + more;
    RunAndDelete(steps, id, more);
    ControlRuns.DeletedIsGone(steps, id, more);
    ControlRuns.ReachableInv(all);
    ReachableInMesh(steps, id);
    hide ControlRuns.Exec, ResolveA, ParseIpv4, Lists, NormalizeSuffix, Lower, NormalizeName, InMesh;
    NormalizeVariant(TablesAfter(steps).dns[id].name, query, dots);
    TableResolves(TablesAfter(all), records, Dotted(query, dots), suffix);
  }

  lemma RunAndDelete(steps: seq<ControlRuns.Step>, id: DeviceId, more: seq<ControlRuns.Step>)
    ensures ControlRuns.Exec(ControlRuns.EMPTY_SYSTEM, steps + [ControlRuns.Delete(id)] + more)
            == ControlRuns.Exec(ControlRuns.Next(ControlRuns.Exec(ControlRuns.EMPTY_SYSTEM, steps),
                                                 ControlRuns.Delete(id)),
                                more)
  {
    var tail := [ControlRuns.Delete(id)] + more;
    assert steps + [ControlRuns.Delete(id)] + more == steps + tail;
    ControlRuns.ExecConcat(ControlRuns.EMPTY_SYSTEM, steps, tail);
    assert tail[0] == ControlRuns.Delete(id) && tail[1..] == more;
  }
}
