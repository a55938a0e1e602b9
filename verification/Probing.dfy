/** When the runtime probes: every pass completes a round with exactly the peers that are due, and what goes
    out are probes to all their UDP endpoints. */
module Probing {
  import opened Prelude
  import opened Nonces
  import opened Frames
  import opened Crypto
  import opened Transport
  import opened Paths
  import opened Probes
  import opened Runtimes
  import opened RuntimeRuns
  import opened Timelines

  // ---------------------------------------------------------------- rounds since the last downgrade

  /** The rounds a run completes with a device since its start, when k came before, or since it last lost
      that device's direct path. */
  function RoundsSinceLoss(platform: Platform, rt: Runtime, steps: seq<Step>, device: DeviceId, k: nat): (n: nat)
    decreases |steps|
  {
    if steps == [] then k
    else
      var rt' := Next(platform, rt, steps[0]);
      var lost := PathOf(rt, device).current.DirectPath? && !PathOf(rt', device).current.DirectPath?;
      RoundsSinceLoss(platform, rt', steps[1..], device,
                      (if lost then 0 else k) + |CompletedIn(platform, rt, steps[0], device)|)
  }

  lemma ProbeAllBurst(platform: Platform, rt: Runtime, readings: Readings, device: DeviceId, k: nat)
    requires Inv(rt) && device in rt.paths
    ensures var s, events := rt.paths[device], EventsOf(platform, rt, ProbeAll(readings), device);
            var lost := s.current.DirectPath? && !Run(s, events).current.DirectPath?;
            BurstRounds(s, events, k)
              == (if lost then 0 else k) + |CompletedIn(platform, rt, ProbeAll(readings), device)|
  {
    hide ProbeEvents, CompletedFrom, Inv, Expired;
    var s, e := rt.paths[device], Expire(readings.start, rt.relays != []);
    var rt' := rt.(paths := ExpireAll(rt.paths, readings.start, rt.relays != []));
    ExpireInv(rt, readings.start);
    OneExpiry(s, e);
    var probes := if rt.transportBound then ProbeEvents(platform, rt', 0, readings, device) else [];
    if rt.transportBound {
      ProbeFollowsEvents(platform, rt', 0, readings, 0, device);
      PassRounds(platform, rt', 0, readings, device);
    }
    ProbesKeepKind(Run(s, [e]), probes);
    RunConcat(s, [e], probes);
    BurstConcat(s, [e], probes, k);
    OneExpiryBurst(s, e, k);
    ProbesAddToBurst(Run(s, [e]), probes, BurstRounds(s, [e], k));
  }

  lemma OneExpiryBurst(s: PathState, e: PathEvent, k: nat)
    requires e.Expire?
    ensures BurstRounds(s, [e], k) == if s.current.DirectPath? && !Run(s, [e]).current.DirectPath? then 0 else k
  {
    OneEvent(s, e);
    assert [e][1..] == [];
  }

  lemma StepBurst(platform: Platform, rt: Runtime, step: Step, device: DeviceId, k: nat)
    requires Inv(rt) && device in rt.paths
    ensures var s, s' := rt.paths[device], PathOf(Next(platform, rt, step), device);
            BurstRounds(s, EventsOf(platform, rt, step, device), k)
            == (if s.current.DirectPath? && !s'.current.DirectPath? then 0 else k)
               + |CompletedIn(platform, rt, step, device)|
  {
    hide Next, Answered, Inv, ExpireAll, CompletedFrom, ProbeEvents;
    StepFollowsEvents(platform, rt, step, device);
    var s, events := rt.paths[device], EventsOf(platform, rt, step, device);
    if step.ProbeAll? {
      ProbeAllBurst(platform, rt, step.readings, device, k);
    } else if events != [] {
      PathsChangeOnlyByAnswers(platform, rt, step.frame, Some(step.source), step.clock, step.sendOk);
      OneEvent(s, events[0]);
      assert events == [events[0]] && events[1..] == [];
    }
  }

  lemma {:induction false} BurstIsRoundsSinceLoss(platform: Platform, rt: Runtime, steps: seq<Step>, device: DeviceId,
                                                  k: nat)
    requires Inv(rt) && device in rt.paths
    ensures BurstRounds(rt.paths[device], Timeline(platform, rt, steps, device), k)
            == RoundsSinceLoss(platform, rt, steps, device, k)
    decreases |steps|
  {
    hide Next, Inv, EventsOf, CompletedIn;
    if steps != [] {
      var rt' := Next(platform, rt, steps[0]);
      var events := EventsOf(platform, rt, steps[0], device);
      StepFollowsEvents(platform, rt, steps[0], device);
      StepBurst(platform, rt, steps[0], device, k);
      NextInv(platform, rt, steps[0]);
      BurstConcat(rt.paths[device], events, Timeline(platform, rt', steps[1..], device), k);
      BurstIsRoundsSinceLoss(platform, rt', steps[1..], device, BurstRounds(rt.paths[device], events, k));
    }
  }

  // ---------------------------------------------------------------- a pass without trouble

  function TotalEndpoints(peers: seq<Peer>, i: nat): (n: nat)
    requires i <= |peers|
    decreases |peers| - i
  {
    if i == |peers| then 0 else |peers[i].endpoints| + TotalEndpoints(peers, i + 1)
  }

  /** Nothing fails from the i-th peer on: writes succeed, the cipher succeeds and no counter runs out. */
  ghost predicate Untroubled(platform: Platform, rt: Runtime, readings: Readings, i: nat)
    requires i <= |rt.persisted.peers|
  {
    && (forall a, b :: readings.sendOk(a, b))
    && (forall k: Key, n: Nonce, a: Bytes, m: Bytes :: platform.suite.encrypt(k, n, a, m).Some?)
    && (forall d :: d in rt.sessions ==>
          rt.sessions[d].crypto.counter + TotalEndpoints(rt.persisted.peers, i) < 0xFFFF_FFFF_FFFF_FFFF)
  }

  /** The session k seals later. */
  function Advanced(crypto: Session, k: nat): (crypto': Session)
  {
    crypto.(counter := (crypto.counter + k) % U64_LIMIT)
  }

  ghost predicate ProbeTo(platform: Platform, crypto: Session, millis: nat, endpoint: Endpoint, o: Outgoing)
  {
    o.OverUdp? && o.endpoint == endpoint
      && SealedBy(platform.suite, crypto, ProbePayload(millis), FRAME_TYPE_PROBE, o.frame)
  }

  /** A round in which nothing fails sends one sealed probe to each endpoint, in order, each under the next
      counter. */
  lemma {:induction false} ProbesAreSent(platform: Platform, crypto: Session, readings: Readings, i: nat,
                                         endpoints: seq<Endpoint>, j: nat)
    requires j <= |endpoints|
    requires (forall a, b :: readings.sendOk(a, b))
    requires forall k: Key, n: Nonce, a: Bytes, m: Bytes :: platform.suite.encrypt(k, n, a, m).Some?
    requires crypto.counter + (|endpoints| - j) < 0xFFFF_FFFF_FFFF_FFFF
    ensures var (crypto', r, out) := SendProbes(platform, crypto, readings, i, endpoints, j);
            && r.Ok? && |out| == |endpoints| - j
            && crypto' == crypto.(counter := crypto.counter + (|endpoints| - j))
            && (forall k :: 0 <= k < |out| ==>
                  ProbeTo(platform, Advanced(crypto, k), readings.sentMillis(i), endpoints[j + k], out[k]))
    decreases |endpoints| - j
  {
    hide SealMessage, SealedBy, ProbePayload;
    if j < |endpoints| {
      var payload := ProbePayload(readings.sentMillis(i));
      SealEffect(platform.suite, crypto, payload, FRAME_TYPE_PROBE);
      SealSucceedsExactlyWhen(platform.suite, crypto, payload, FRAME_TYPE_PROBE);
      var (crypto', sealed) := SealMessage(platform.suite, crypto, payload, FRAME_TYPE_PROBE);
      ProbesAreSent(platform, crypto', readings, i, endpoints, j + 1);
      var out := SendProbes(platform, crypto, readings, i, endpoints, j).2;
      var rest := SendProbes(platform, crypto', readings, i, endpoints, j + 1).2;
      assert Advanced(crypto, 0) == crypto;
      forall k | 0 <= k < |out|
        ensures ProbeTo(platform, Advanced(crypto, k), readings.sentMillis(i), endpoints[j + k], out[k])
      {
        if k > 0 {
          assert out[k] == rest[k - 1];
          assert Advanced(crypto', k - 1) == Advanced(crypto, k);
          assert endpoints[j + k] == endpoints[(j + 1) + (k - 1)];
        }
      }
    }
  }

  lemma {:induction false} UdpOnlySize(s: seq<Endpoint>)
    ensures |UdpOnly(s)| <= |s|
  {
    if s != [] {
      UdpOnlySize(s[..|s| - 1]);
    }
  }

  lemma SortedSize(s: seq<Endpoint>)
    ensures |ByRank(UdpOnly(s))| <= |s|
  {
    UdpOnlySize(s);
    ByRankIsStableSort(UdpOnly(s));
    StableSortPermutes(UdpOnly(s), ByRank(UdpOnly(s)));
    assert |multiset(ByRank(UdpOnly(s)))| == |multiset(UdpOnly(s))|;
  }

  /** A visit in an untroubled pass is completed exactly if the peer is due and has a session. */
  lemma UntroubledVisit(platform: Platform, rt: Runtime, i: nat, readings: Readings)
    requires i < |rt.persisted.peers| && Untroubled(platform, rt, readings, i)
    ensures var visit, peer := VisitPeer(platform, rt, i, readings), rt.persisted.peers[i];
            if peer.deviceId in rt.sessions && ProbeDue(PathOf(rt, peer.deviceId), readings.checkedAt(i))
            then visit.Completed?
                 && visit.crypto.counter <= rt.sessions[peer.deviceId].crypto.counter + |peer.endpoints|
            else visit.Skipped?
  {
    hide SendProbes, ByRank, UdpOnly, ProbeDue, ProbeTo;
    var peer := rt.persisted.peers[i];
    SortedSize(peer.endpoints);
    if peer.deviceId in rt.sessions && ProbeDue(PathOf(rt, peer.deviceId), readings.checkedAt(i)) {
      ProbesAreSent(platform, rt.sessions[peer.deviceId].crypto, readings, i, ByRank(UdpOnly(peer.endpoints)), 0);
    }
  }

  lemma UntroubledAfter(platform: Platform, rt: Runtime, i: nat, readings: Readings)
    requires i < |rt.persisted.peers| && Untroubled(platform, rt, readings, i)
    ensures Untroubled(platform, AfterVisit(platform, rt, i, readings), readings, i + 1)
  {
    hide VisitPeer, Probed, ProbeDue;
    UntroubledVisit(platform, rt, i, readings);
  }

  /** The probes of a completed round go out to all UDP endpoints of the peer, by rank. */
  lemma VisitSends(platform: Platform, rt: Runtime, i: nat, readings: Readings)
    requires i < |rt.persisted.peers| && Untroubled(platform, rt, readings, i)
    requires VisitPeer(platform, rt, i, readings).Completed?
    ensures var peer := rt.persisted.peers[i];
            var endpoints, out := ByRank(UdpOnly(peer.endpoints)), VisitPeer(platform, rt, i, readings).out;
            && |out| == |endpoints| && peer.deviceId in rt.sessions
            && forall k :: 0 <= k < |out| ==>
                 ProbeTo(platform, Advanced(rt.sessions[peer.deviceId].crypto, k), readings.sentMillis(i), endpoints[k],
                         out[k])
  {
    hide SendProbes, ByRank, UdpOnly, ProbeDue, ProbeTo;
    var peer := rt.persisted.peers[i];
    SortedSize(peer.endpoints);
    ProbesAreSent(platform, rt.sessions[peer.deviceId].crypto, readings, i, ByRank(UdpOnly(peer.endpoints)), 0);
  }

  ghost predicate OneEntry(peers: seq<Peer>, i: nat, device: DeviceId)
  {
    && i < |peers| && peers[i].deviceId == device
    && forall j :: 0 <= j < |peers| && j != i ==> peers[j].deviceId != device
  }

  /** An untroubled pass ends well, and completes exactly the round that is due. */
  lemma {:induction false} UntroubledPass(platform: Platform, rt: Runtime, i: nat, readings: Readings, sent: nat,
                                          at: nat, device: DeviceId)
    requires Inv(rt) && i <= |rt.persisted.peers| && Untroubled(platform, rt, readings, i)
    requires OneEntry(rt.persisted.peers, at, device) && device in rt.sessions && device in rt.paths
    ensures ProbeFrom(platform, rt, i, readings, sent).1.Ok?
    ensures CompletedFrom(platform, rt, i, readings, device)
            == if i <= at && ProbeDue(rt.paths[device], readings.checkedAt(at))
               then [Round(readings.finishedAt(at), Fast(rt.paths[device]))] else []
    decreases |rt.persisted.peers| - i
  {
    hide VisitPeer, AfterVisit, Inv, ProbeDue, Fast, Probed, Untroubled, ProbeTo, ByRank, UdpOnly;
    if i < |rt.persisted.peers| {
      var visited := rt.persisted.peers[i].deviceId;
      PeersHavePaths(rt, i);
      UntroubledVisit(platform, rt, i, readings);
      UntroubledAfter(platform, rt, i, readings);
      VisitEffect(platform, rt, i, readings);
      VisitInv(platform, rt, i, readings);
      var rt', visit := AfterVisit(platform, rt, i, readings), VisitPeer(platform, rt, i, readings);
      var sent' := if visit.Completed? then sent + |visit.out| else sent;
      UntroubledPass(platform, rt', i + 1, readings, sent', at, device);
    }
  }

  /** Among what went out is a probe to every endpoint. */
  ghost predicate AllProbed(platform: Platform, crypto: Session, millis: nat, endpoints: seq<Endpoint>,
                            out: seq<Outgoing>)
  {
    forall k :: 0 <= k < |endpoints| ==> HasProbe(platform, Advanced(crypto, k), millis, endpoints[k], out)
  }

  ghost predicate HasProbe(platform: Platform, crypto: Session, millis: nat, endpoint: Endpoint, out: seq<Outgoing>)
  {
    exists o :: o in out && ProbeTo(platform, crypto, millis, endpoint, o)
  }

  lemma AllProbedGrows(platform: Platform, crypto: Session, millis: nat, endpoints: seq<Endpoint>, out: seq<Outgoing>,
                       before: seq<Outgoing>, after: seq<Outgoing>)
    requires AllProbed(platform, crypto, millis, endpoints, out)
    ensures AllProbed(platform, crypto, millis, endpoints, before + out + after)
  {
    hide ProbeTo;
    forall k | 0 <= k < |endpoints|
      ensures HasProbe(platform, Advanced(crypto, k), millis, endpoints[k], before + out + after)
    {
      assert HasProbe(platform, Advanced(crypto, k), millis, endpoints[k], out);
      var o :| o in out && ProbeTo(platform, Advanced(crypto, k), millis, endpoints[k], o);
      assert o in before + out + after;
    }
  }

  lemma VisitProbesAll(platform: Platform, rt: Runtime, i: nat, readings: Readings)
    requires i < |rt.persisted.peers| && Untroubled(platform, rt, readings, i)
    requires VisitPeer(platform, rt, i, readings).Completed?
    ensures var peer := rt.persisted.peers[i];
            AllProbed(platform, rt.sessions[peer.deviceId].crypto, readings.sentMillis(i),
                      ByRank(UdpOnly(peer.endpoints)),
                      VisitPeer(platform, rt, i, readings).out)
  {
    hide VisitPeer, ByRank, UdpOnly, ProbeTo, Untroubled;
    VisitSends(platform, rt, i, readings);
    var peer, out := rt.persisted.peers[i], VisitPeer(platform, rt, i, readings).out;
    var crypto, endpoints := rt.sessions[peer.deviceId].crypto, ByRank(UdpOnly(peer.endpoints));
    forall k | 0 <= k < |endpoints|
      ensures HasProbe(platform, Advanced(crypto, k), readings.sentMillis(i), endpoints[k], out)
    {
      assert out[k] in out && ProbeTo(platform, Advanced(crypto, k), readings.sentMillis(i), endpoints[k], out[k]);
    }
  }

  /** When the round is completed, probes go out to all UDP endpoints of the peer. */
  lemma {:induction false} UntroubledPassSends(platform: Platform, rt: Runtime, i: nat, readings: Readings, sent: nat,
                                               at: nat, device: DeviceId)
    requires Inv(rt) && OneEntry(rt.persisted.peers, at, device) && device in rt.sessions && device in rt.paths
    requires i <= at && Untroubled(platform, rt, readings, i)
    requires ProbeDue(rt.paths[device], readings.checkedAt(at))
    ensures AllProbed(platform, rt.sessions[device].crypto, readings.sentMillis(at),
                      ByRank(UdpOnly(rt.persisted.peers[at].endpoints)), ProbeFrom(platform, rt, i, readings, sent).2)
    decreases at - i
  {
    hide VisitPeer, AfterVisit, Inv, ProbeDue, Untroubled, ProbeTo, ByRank, UdpOnly, AllProbed, Probed;
    var crypto, millis := rt.sessions[device].crypto, readings.sentMillis(at);
    var endpoints := ByRank(UdpOnly(rt.persisted.peers[at].endpoints));
    PeersHavePaths(rt, i);
    UntroubledVisit(platform, rt, i, readings);
    UntroubledAfter(platform, rt, i, readings);
    VisitEffect(platform, rt, i, readings);
    VisitInv(platform, rt, i, readings);
    var rt', visit := AfterVisit(platform, rt, i, readings), VisitPeer(platform, rt, i, readings);
    var sent' := if visit.Completed? then sent + |visit.out| else sent;
    var mine, rest := (if visit.Completed? then visit.out else []), ProbeFrom(platform, rt', i + 1, readings, sent').2;
    assert ProbeFrom(platform, rt, i, readings, sent).2 == mine + rest;
    if i == at {
      VisitProbesAll(platform, rt, i, readings);
      AllProbedGrows(platform, crypto, millis, endpoints, mine, [], rest);
      assert [] + mine + rest == mine + rest;
    } else {
      OtherVisitKeepsSession(platform, rt, i, readings, device);
      UntroubledPassSends(platform, rt', i + 1, readings, sent', at, device);
      AllProbedGrows(platform, crypto, millis, endpoints, rest, mine, []);
      assert mine + rest + [] == mine + rest;
    }
  }

  lemma OtherVisitKeepsSession(platform: Platform, rt: Runtime, i: nat, readings: Readings, device: DeviceId)
    requires i < |rt.persisted.peers| && rt.persisted.peers[i].deviceId != device && device in rt.sessions
    ensures var rt' := AfterVisit(platform, rt, i, readings);
            device in rt'.sessions && rt'.sessions[device] == rt.sessions[device]
  {
    hide VisitPeer, Probed;
  }

  /** The number a pass reports is the number of probes that went out. */
  lemma {:induction false} PassCounts(platform: Platform, rt: Runtime, i: nat, readings: Readings, sent: nat)
    requires i <= |rt.persisted.peers|
    ensures var (_, r, out) := ProbeFrom(platform, rt, i, readings, sent);
            r.Ok? ==> r.value == sent + |out|
    decreases |rt.persisted.peers| - i
  {
    hide VisitPeer, Probed;
    if i < |rt.persisted.peers| {
      var rt', visit := AfterVisit(platform, rt, i, readings), VisitPeer(platform, rt, i, readings);
      PassCounts(platform, rt', i + 1, readings, if visit.Completed? then sent + |visit.out| else sent);
    }
  }

  // ---------------------------------------------------------------- probed exactly when due

  lemma CompletedAppend(platform: Platform, rt: Runtime, steps: seq<Step>, step: Step, device: DeviceId)
    ensures CompletedRounds(platform, rt, steps + [step], device)
            == CompletedRounds(platform, rt, steps, device)
               + CompletedIn(platform, Exec(platform, rt, steps), step, device)
    decreases |steps|
  {
    hide CompletedIn, Next;
    if steps == [] {
      assert [step][1..] == [] && steps + [step] == [step];
      assert CompletedRounds(platform, Next(platform, rt, step), [], device) == [];
    } else {
      CompletedAppend(platform, Next(platform, rt, steps[0]), steps[1..], step, device);
      assert (steps + [step])[1..] == steps[1..] + [step];
    }
  }

  /** Probed exactly when due. After any run of a fresh runtime, a pass with a bound transport in which
      nothing fails completes a round with a peer that has a session if and only if none was completed with
      it before, or the clock reads earlier than at the last one, or 250 ms have passed since then while the
      path is not Direct and fewer than eight rounds were completed since the start or since it was last
      lost, or else 5 s. Probes then go out to all its UDP endpoints, and the pass reports how many went
      out in all. */
  lemma ProbedExactlyWhen(platform: Platform, persisted: Persisted, salts: nat -> Option<Octets8>, steps: seq<Step>,
                          readings: Readings, i: nat, device: DeviceId)
    requires OneEntry(persisted.peers, i, device)
    requires var rt := Exec(platform, FromPersisted(platform, persisted, salts), steps);
             && rt.transportBound && device in rt.sessions && rt.persisted == persisted
             && Untroubled(platform, rt, readings, 0)
    ensures var start := FromPersisted(platform, persisted, salts);
            var rt := Exec(platform, start, steps);
            var before, after := PathOf(rt, device), PathOf(Next(platform, rt, ProbeAll(readings)), device);
            var rounds := CompletedRounds(platform, start, steps, device);
            var burst := if before.current.DirectPath? && !after.current.DirectPath? then 0
                         else RoundsSinceLoss(platform, start, steps, device, 0);
            var fast := !after.current.DirectPath? && burst < 8;
            var now := readings.checkedAt(i);
            var due := || rounds == []
                       || now < rounds[|rounds| - 1].finishedAt
                       || now - rounds[|rounds| - 1].finishedAt >= if fast then 250_000_000 else 5_000_000_000;
            && CompletedRounds(platform, start, steps + [ProbeAll(readings)], device)
               == rounds + (if due then [Round(readings.finishedAt(i), fast)] else [])
            && (due ==> AllProbed(platform, rt.sessions[device].crypto, readings.sentMillis(i),
                                  ByRank(UdpOnly(persisted.peers[i].endpoints)),
                                  Output(platform, rt, ProbeAll(readings))))
            && ProbePeerDirectPaths(platform, rt, readings).1 == Ok(|Output(platform, rt, ProbeAll(readings))|)
  {
    hide FromPersisted, Exec, Timeline, CompletedFrom, Inv, ProbeFrom, Untroubled, Next, ExpireAll, EventsOf;
    hide AllProbed, Output, ProbePeerDirectPaths, Expired, ProbeDue, Fast, RoundsSinceLoss, CompletedRounds;
    hide CompletedIn;
    hide BurstRounds, Rounds, Run;
    var start := FromPersisted(platform, persisted, salts);
    var rt := Exec(platform, start, steps);
    assert persisted.peers[i] in persisted.peers;
    FreshTimeline(platform, persisted, salts, steps, device);
    var events := Timeline(platform, start, steps, device);
    ExecInv(platform, start, steps);
    RoundsAreCompleted(platform, start, steps, device);
    BurstIsRoundsSinceLoss(platform, start, steps, device, 0);
    FastLeft(DEFAULT_PATH, events, 0);
    LastRound(DEFAULT_PATH, events);
    CompletedAppend(platform, start, steps, ProbeAll(readings), device);
    ExpiredPass(platform, rt, readings, i, device);
    DueInWords(rt.paths[device], readings.start, rt.relays != [], CompletedRounds(platform, start, steps, device),
               RoundsSinceLoss(platform, start, steps, device, 0), readings.checkedAt(i));
  }

  /** When a path is due, by its rounds. */
  lemma DueInWords(s: PathState, start: nat, haveRelays: bool, rounds: seq<Round>, burst: nat, now: nat)
    requires s.lastProbeAt == if rounds == [] then None else Some(rounds[|rounds| - 1].finishedAt)
    requires !s.current.DirectPath? ==> s.fastProbesLeft == Max(0, 8 - burst)
    ensures var s' := Expired(s, start, haveRelays);
            var since := if s.current.DirectPath? && !s'.current.DirectPath? then 0 else burst;
            var fast := !s'.current.DirectPath? && since < 8;
            && Fast(s') == fast
            && (ProbeDue(s', now) <==>
                || rounds == []
                || now < rounds[|rounds| - 1].finishedAt
                || now - rounds[|rounds| - 1].finishedAt >= if fast then 250_000_000 else 5_000_000_000)
  {
  }

  /** One untroubled pass, in terms of the path it finds. */
  lemma ExpiredPass(platform: Platform, rt: Runtime, readings: Readings, i: nat, device: DeviceId)
    requires Inv(rt) && rt.transportBound && device in rt.sessions && device in rt.paths
    requires OneEntry(rt.persisted.peers, i, device) && Untroubled(platform, rt, readings, 0)
    ensures var s := Expired(rt.paths[device], readings.start, rt.relays != []);
            && PathOf(Next(platform, rt, ProbeAll(readings)), device).current == s.current
            && CompletedIn(platform, rt, ProbeAll(readings), device)
               == (if ProbeDue(s, readings.checkedAt(i)) then [Round(readings.finishedAt(i), Fast(s))] else [])
            && (ProbeDue(s, readings.checkedAt(i)) ==>
                  AllProbed(platform, rt.sessions[device].crypto, readings.sentMillis(i),
                            ByRank(UdpOnly(rt.persisted.peers[i].endpoints)), Output(platform, rt, ProbeAll(readings))))
            && ProbePeerDirectPaths(platform, rt, readings).1 == Ok(|Output(platform, rt, ProbeAll(readings))|)
  {
    hide AllProbed, Inv, ProbeFrom, CompletedFrom, ProbeEvents, ProbeDue, Fast;
    var rt' := rt.(paths := ExpireAll(rt.paths, readings.start, rt.relays != []));
    ExpireInv(rt, readings.start);
    UntroubledPass(platform, rt', 0, readings, 0, i, device);
    PassCounts(platform, rt', 0, readings, 0);
    if ProbeDue(rt'.paths[device], readings.checkedAt(i)) {
      UntroubledPassSends(platform, rt', 0, readings, 0, i, device);
    }
    ProbeFollowsEvents(platform, rt', 0, readings, 0, device);
    ProbesKeepKind(rt'.paths[device], ProbeEvents(platform, rt', 0, readings, device));
  }
}
