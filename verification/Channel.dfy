/** Two devices, their sessions and a network that may drop, repeat, reorder and invent frames.

    A run is any sequence of steps: one end seals a message, some bytes are presented to one end, or
    one end rebuilds its session. Presenting covers everything the network can do, since the bytes
    are arbitrary; the one thing it cannot do is make a ciphertext that authenticates under the
    pair's key without either end having sealed it (`Genuine`). */
module Channels {
  import opened Prelude
  import opened Nonces
  import opened Frames
  import opened Crypto

  datatype Side = Left | Right {
    function Other(): (s: Side)
    {
      if this.Left? then Right else Left
    }
  }

  datatype Identity = Identity(privateKey: Key, credential: Bytes, id: FrameId)

  datatype Setup = Setup(suite: Suite, left: Identity, right: Identity) {
    function Of(side: Side): (i: Identity)
    {
      if side.Left? then left else right
    }

    ghost predicate Proper()
    {
      && Lawful(suite)
      && DecodeCredential(suite, left.credential) == Ok(suite.publicKey(left.privateKey))
      && DecodeCredential(suite, right.credential) == Ok(suite.publicKey(right.privateKey))
    }

    function Fresh(side: Side, salt: Octets8): (r: Result<Session, CryptoError>)
    {
      var me, peer := Of(side), Of(side.Other());
      NewSession(suite, me.privateKey, me.credential, peer.credential, me.id, peer.id, Some(salt))
    }
  }

  /** One sealed message, with the session that sealed it as it was before sealing. `era` counts the
      rebuilds of that end, so (sender, era) names a session. */
  datatype Seal = Seal(sender: Side, era: nat, session: Session, messageType: byte, plaintext: Bytes, frame: Bytes)

  datatype Delivery = Delivery(frame: Bytes, messageType: byte, plaintext: Bytes)

  /** `delivered` lists what the end's present session has opened, oldest first. */
  datatype End = End(era: nat, session: Session, delivered: seq<Delivery>)

  datatype Channel = Channel(left: End, right: End, log: seq<Seal>) {
    function At(side: Side): (e: End)
    {
      if side.Left? then left else right
    }

    function With(side: Side, end: End): (c: Channel)
      ensures c.At(side) == end && c.At(side.Other()) == At(side.Other()) && c.log == log
    {
      if side.Left? then this.(left := end) else this.(right := end)
    }
  }

  datatype Step =
    | SealStep(side: Side, plaintext: Bytes, messageType: byte)
    | Present(side: Side, frame: Bytes)
    | Rebuild(side: Side, salt: Octets8)

  ghost predicate Initial(setup: Setup, c: Channel)
  {
    && c.log == []
    && forall side: Side ::
         && c.At(side).delivered == []
         && setup.Fresh(side, c.At(side).session.salt) == Ok(c.At(side).session)
  }

  function Next(setup: Setup, c: Channel, step: Step): (c': Channel)
  {
    match step
    case SealStep(side, plaintext, messageType) =>
      var end := c.At(side);
      var (s, r) := SealMessage(setup.suite, end.session, plaintext, messageType);
      var c' := c.With(side, end.(session := s));
      if r.Err? then c'
      else c'.(log := c.log + [Seal(side, end.era, end.session, messageType, plaintext, r.value)])
    case Present(side, frame) =>
      var end := c.At(side);
      var (s, r) := OpenMessage(setup.suite, end.session, frame);
      var delivered :=
        if r.Err? then end.delivered
        else end.delivered + [Delivery(frame, r.value.messageType, r.value.plaintext)];
      c.With(side, end.(session := s, delivered := delivered))
    case Rebuild(side, salt) =>
      match setup.Fresh(side, salt)
      case Err(_) => c
      case Ok(s) => c.With(side, End(c.At(side).era + 1, s, []))
  }

  /** The frame of a seal event carries this nonce, this associated data and this ciphertext. */
  predicate Produced(e: Seal, nonce: Nonce, associated: Bytes, ciphertext: Bytes)
  {
    match DecodeFrame(e.frame)
    case Err(_) => false
    case Ok(f) => f.header.nonce == nonce && HeaderBytes(f.header) == associated && f.ciphertext == ciphertext
  }

  /** Authenticity of the cipher: whatever decrypts under the key was produced by a key holder. */
  ghost predicate Genuine(setup: Setup, c: Channel, side: Side, frame: Bytes)
  {
    match DecodeFrame(frame)
    case Err(_) => true
    case Ok(f) =>
      var associated := HeaderBytes(f.header);
      setup.suite.decrypt(c.At(side).session.key, f.header.nonce, associated, f.ciphertext).Some? ==>
        exists e :: e in c.log && Produced(e, f.header.nonce, associated, f.ciphertext)
  }

  ghost predicate Enabled(setup: Setup, c: Channel, step: Step)
  {
    step.Present? ==> Genuine(setup, c, step.side, step.frame)
  }

  ghost predicate Allowed(setup: Setup, c: Channel, steps: seq<Step>)
    decreases |steps|
  {
    steps == [] || (Enabled(setup, c, steps[0]) && Allowed(setup, Next(setup, c, steps[0]), steps[1..]))
  }

  function Exec(setup: Setup, c: Channel, steps: seq<Step>): (c': Channel)
    decreases |steps|
  {
    if steps == [] then c else Exec(setup, Next(setup, c, steps[0]), steps[1..])
  }

  // ---------------------------------------------------------------- invariant

  function FrameCounter(frame: Bytes): (n: u64)
  {
    match DecodeFrame(frame)
    case Err(_) => 0
    case Ok(f) => NonceCounter(f.header.nonce)
  }

  ghost function Counters(delivered: seq<Delivery>): (s: set<u64>)
  {
    set d | d in delivered :: FrameCounter(d.frame)
  }

  /** Everything about a session but its counter and window is fixed by the side and the salt. */
  ghost predicate Belongs(setup: Setup, side: Side, s: Session)
  {
    setup.Fresh(side, s.salt) == Ok(s.(counter := 0, window := EMPTY_WINDOW))
  }

  ghost predicate GoodSeal(setup: Setup, end: End, e: Seal)
  {
    && SealedBy(setup.suite, e.session, e.plaintext, e.messageType, e.frame)
    && Belongs(setup, e.sender, e.session)
    && e.era <= end.era
    && (e.era == end.era ==> e.session.salt == end.session.salt && e.session.counter < end.session.counter)
  }

  ghost predicate Explains(e: Seal, d: Delivery)
  {
    e.frame == d.frame && e.messageType == d.messageType && e.plaintext == d.plaintext
  }

  ghost predicate SealedIn(log: seq<Seal>, sender: Side, d: Delivery)
  {
    exists e :: e in log && e.sender == sender && Explains(e, d)
  }

  /** The window stands for the counters delivered, which are pairwise different, and, unless the
      two devices share one id, the other end sealed every delivery. */
  ghost predicate GoodDeliveries(setup: Setup, log: seq<Seal>, side: Side, window: Window, delivered: seq<Delivery>)
  {
    && Tracks(window, Counters(delivered))
    && (forall i, j :: 0 <= i < j < |delivered| ==>
          FrameCounter(delivered[i].frame) != FrameCounter(delivered[j].frame))
    && (setup.left.id != setup.right.id ==> forall d :: d in delivered ==> SealedIn(log, side.Other(), d))
  }

  ghost predicate GoodEnd(setup: Setup, log: seq<Seal>, side: Side, end: End)
  {
    && Belongs(setup, side, end.session)
    && GoodDeliveries(setup, log, side, end.session.window, end.delivered)
  }

  /** Within one sending session the counters of the log are strictly increasing. */
  ghost predicate CountersIncrease(log: seq<Seal>)
  {
    forall i, j :: 0 <= i < j < |log| && log[i].sender == log[j].sender && log[i].era == log[j].era ==>
      log[i].session.counter < log[j].session.counter && log[i].session.salt == log[j].session.salt
  }

  ghost predicate Inv(setup: Setup, c: Channel)
  {
    && (forall side: Side :: GoodEnd(setup, c.log, side, c.At(side)))
    && (forall e :: e in c.log ==> GoodSeal(setup, c.At(e.sender), e))
    && CountersIncrease(c.log)
  }

  lemma InitialInv(setup: Setup, c: Channel)
    requires Initial(setup, c)
    ensures Inv(setup, c)
  {
    forall side: Side ensures GoodEnd(setup, c.log, side, c.At(side)) {
      assert Counters(c.At(side).delivered) == {};
    }
  }

  lemma BelongsMatched(setup: Setup, side: Side, a: Session, b: Session)
    requires setup.Proper() && Belongs(setup, side, a) && Belongs(setup, side.Other(), b)
    ensures Matched(a, b)
  {
    var me, peer := setup.Of(side), setup.Of(side.Other());
    SessionsAgree(setup.suite, me.privateKey, peer.privateKey, me.credential, peer.credential,
                  me.id, peer.id, a.salt, b.salt);
  }

  lemma LogInv(setup: Setup, c: Channel, side: Side, s: Session, e: Seal)
    requires Inv(setup, c) && e.sender == side && e.era == c.At(side).era && e.session == c.At(side).session
    requires SealedBy(setup.suite, e.session, e.plaintext, e.messageType, e.frame)
    requires e.session.counter < COUNTER_MAX && s == e.session.(counter := e.session.counter + 1)
    ensures Inv(setup, c.With(side, c.At(side).(session := s)).(log := c.log + [e]))
  {
    hide SealedBy, GoodDeliveries, NewSession;
    var c' := c.With(side, c.At(side).(session := s)).(log := c.log + [e]);
    assert GoodEnd(setup, c.log, side, c.At(side));
    forall x | x in c'.log ensures GoodSeal(setup, c'.At(x.sender), x) {
      if x in c.log {
        assert GoodSeal(setup, c.At(x.sender), x);
      }
    }
    LogGrows(setup, c, e);
    forall s: Side ensures GoodEnd(setup, c'.log, s, c'.At(s)) {
      assert GoodEnd(setup, c'.log, s, c.At(s));
    }
    forall i | 0 <= i < |c.log| && c.log[i].sender == side && c.log[i].era == e.era
      ensures c.log[i].session.counter < e.session.counter && c.log[i].session.salt == e.session.salt
    {
      assert GoodSeal(setup, c.At(c.log[i].sender), c.log[i]);
    }
  }

  lemma LogGrows(setup: Setup, c: Channel, e: Seal)
    requires Inv(setup, c)
    ensures forall s: Side :: GoodEnd(setup, c.log + [e], s, c.At(s))
  {
    forall s: Side ensures GoodEnd(setup, c.log + [e], s, c.At(s)) {
      assert GoodEnd(setup, c.log, s, c.At(s));
      forall d | d in c.At(s).delivered && SealedIn(c.log, s.Other(), d)
        ensures SealedIn(c.log + [e], s.Other(), d)
      {
        assert forall x :: x in c.log ==> x in c.log + [e];
      }
    }
  }

  lemma CounterInv(setup: Setup, c: Channel, side: Side, s: Session)
    requires Inv(setup, c) && s == c.At(side).session.(counter := s.counter) && s.counter >= c.At(side).session.counter
    ensures Inv(setup, c.With(side, c.At(side).(session := s)))
  {
    hide SealedBy, GoodDeliveries, NewSession;
    var c' := c.With(side, c.At(side).(session := s));
    forall e | e in c'.log ensures GoodSeal(setup, c'.At(e.sender), e) {
      assert GoodSeal(setup, c.At(e.sender), e);
    }
    forall t: Side ensures GoodEnd(setup, c'.log, t, c'.At(t)) {
      assert GoodEnd(setup, c.log, t, c.At(t));
    }
  }

  lemma SealInv(setup: Setup, c: Channel, side: Side, plaintext: Bytes, messageType: byte)
    requires Inv(setup, c)
    ensures Inv(setup, Next(setup, c, SealStep(side, plaintext, messageType)))
  {
    var end := c.At(side);
    SealEffect(setup.suite, end.session, plaintext, messageType);
    var (s, r) := SealMessage(setup.suite, end.session, plaintext, messageType);
    if r.Ok? {
      LogInv(setup, c, side, s, Seal(side, end.era, end.session, messageType, plaintext, r.value));
    } else {
      CounterInv(setup, c, side, s);
    }
  }

  lemma RebuildInv(setup: Setup, c: Channel, side: Side, salt: Octets8)
    requires Inv(setup, c)
    ensures Inv(setup, Next(setup, c, Rebuild(side, salt)))
  {
    hide SealedBy, FrameCounter;
    var c' := Next(setup, c, Rebuild(side, salt));
    forall e | e in c'.log ensures GoodSeal(setup, c'.At(e.sender), e) {
      assert GoodSeal(setup, c.At(e.sender), e);
    }
    forall s: Side ensures GoodEnd(setup, c'.log, s, c'.At(s)) {
      assert GoodEnd(setup, c.log, s, c.At(s));
      assert c'.At(s).delivered == [] ==> Counters(c'.At(s).delivered) == {};
    }
  }

  lemma OneKey(setup: Setup, side: Side, s: Session, side': Side, s': Session)
    requires setup.Proper() && Belongs(setup, side, s) && Belongs(setup, side', s')
    ensures s.key == s'.key
  {
    if side != side' {
      assert side' == side.Other();
      BelongsMatched(setup, side, s, s');
    }
  }

  lemma ProducedFrame(e: Seal, frame: Bytes)
    requires DecodeFrame(frame).Ok?
    requires var f := DecodeFrame(frame).value; Produced(e, f.header.nonce, HeaderBytes(f.header), f.ciphertext)
    ensures e.frame == frame
  {
    EncodeAfterDecode(frame);
    EncodeAfterDecode(e.frame);
  }

  lemma SealContents(setup: Setup, c: Channel, e: Seal)
    requires setup.Proper() && Inv(setup, c) && e in c.log
    ensures DecodeFrame(e.frame).Ok?
    ensures var f := DecodeFrame(e.frame).value;
            && f.header.source == setup.Of(e.sender).id
            && f.header.messageType == e.messageType
            && NonceCounter(f.header.nonce) == e.session.counter
            && setup.suite.decrypt(e.session.key, f.header.nonce, HeaderBytes(f.header), f.ciphertext)
               == Some(e.plaintext)
  {
    assert GoodSeal(setup, c.At(e.sender), e);
    SealedFrameDecodes(setup.suite, e.session, e.plaintext, e.messageType, e.frame);
    NonceParts(e.session.sendPrefix, e.session.salt, e.session.counter);
  }

  /** What authenticates is, byte for byte, the frame of some seal event. */
  lemma GenuineSeal(setup: Setup, c: Channel, side: Side, frame: Bytes, plaintext: Bytes) returns (e: Seal)
    requires setup.Proper() && Inv(setup, c) && Genuine(setup, c, side, frame) && DecodeFrame(frame).Ok?
    requires var f := DecodeFrame(frame).value;
             setup.suite.decrypt(c.At(side).session.key, f.header.nonce, HeaderBytes(f.header), f.ciphertext)
               == Some(plaintext)
    ensures e in c.log && e.frame == frame && e.plaintext == plaintext
  {
    var f := DecodeFrame(frame).value;
    e :| e in c.log && Produced(e, f.header.nonce, HeaderBytes(f.header), f.ciphertext);
    ProducedFrame(e, frame);
    SealContents(setup, c, e);
    assert GoodSeal(setup, c.At(e.sender), e) && GoodEnd(setup, c.log, side, c.At(side));
    OneKey(setup, e.sender, e.session, side, c.At(side).session);
  }

  lemma OpenedWasSealed(setup: Setup, c: Channel, side: Side, frame: Bytes) returns (e: Seal)
    requires setup.Proper() && Inv(setup, c) && Genuine(setup, c, side, frame)
    requires OpenMessage(setup.suite, c.At(side).session, frame).1.Ok?
    ensures e in c.log && e.frame == frame
    ensures OpenMessage(setup.suite, c.At(side).session, frame).1.value == OpenFrame(e.messageType, e.plaintext)
    ensures setup.left.id != setup.right.id ==> e.sender == side.Other()
  {
    hide SealedBy, OpenMessage, DecodeFrame, AcceptCounter, Belongs, GoodDeliveries;
    OpenEffect(setup.suite, c.At(side).session, frame);
    var got := OpenMessage(setup.suite, c.At(side).session, frame).1.value;
    e := GenuineSeal(setup, c, side, frame, got.plaintext);
    SealContents(setup, c, e);
    assert GoodEnd(setup, c.log, side, c.At(side));
    BelongsIds(setup, side, c.At(side).session);
  }

  lemma BelongsIds(setup: Setup, side: Side, s: Session)
    requires Belongs(setup, side, s)
    ensures s.localId == setup.Of(side).id && s.peerId == setup.Of(side.Other()).id
  {
  }

  lemma CountersAppend(delivered: seq<Delivery>, d: Delivery)
    ensures Counters(delivered + [d]) == Counters(delivered) + {FrameCounter(d.frame)}
  {
    assert d in delivered + [d];
    assert forall x :: x in delivered ==> x in delivered + [d];
  }

  lemma Deliver(setup: Setup, log: seq<Seal>, side: Side, window: Window, delivered: seq<Delivery>, d: Delivery)
    requires GoodDeliveries(setup, log, side, window, delivered)
    requires AcceptCounter(window, FrameCounter(d.frame)).Ok?
    requires setup.left.id != setup.right.id ==> SealedIn(log, side.Other(), d)
    ensures GoodDeliveries(setup, log, side, AcceptCounter(window, FrameCounter(d.frame)).value, delivered + [d])
  {
    hide Tracks, AcceptCounter, FrameCounter;
    CountersAppend(delivered, d);
    AcceptRefinesSet(window, Counters(delivered), FrameCounter(d.frame));
    assert forall x :: x in delivered ==> FrameCounter(x.frame) in Counters(delivered);
  }

  lemma PresentGoodEnd(setup: Setup, c: Channel, side: Side, frame: Bytes)
    requires setup.Proper() && Inv(setup, c) && Genuine(setup, c, side, frame)
    ensures var c' := Next(setup, c, Present(side, frame));
            && GoodEnd(setup, c.log, side, c'.At(side))
            && c'.At(side).era == c.At(side).era
            && c'.At(side).session == c.At(side).session.(window := c'.At(side).session.window)
            && c' == c.With(side, c'.At(side))
  {
    var end := c.At(side);
    assert GoodEnd(setup, c.log, side, end);
    OpenEffect(setup.suite, end.session, frame);
    var (s, r) := OpenMessage(setup.suite, end.session, frame);
    if r.Ok? {
      var e := OpenedWasSealed(setup, c, side, frame);
      var d := Delivery(frame, e.messageType, e.plaintext);
      assert Explains(e, d);
      Deliver(setup, c.log, side, end.session.window, end.delivered, d);
    }
  }

  lemma PresentInv(setup: Setup, c: Channel, side: Side, frame: Bytes)
    requires setup.Proper() && Inv(setup, c) && Genuine(setup, c, side, frame)
    ensures Inv(setup, Next(setup, c, Present(side, frame)))
  {
    PresentGoodEnd(setup, c, side, frame);
    EndInv(setup, c, side, Next(setup, c, Present(side, frame)).At(side));
  }

  lemma EndInv(setup: Setup, c: Channel, side: Side, end: End)
    requires Inv(setup, c) && GoodEnd(setup, c.log, side, end)
    requires end.era == c.At(side).era && end.session == c.At(side).session.(window := end.session.window)
    ensures Inv(setup, c.With(side, end))
  {
    var c' := c.With(side, end);
    forall e | e in c'.log ensures GoodSeal(setup, c'.At(e.sender), e) {
      assert GoodSeal(setup, c.At(e.sender), e);
      assert e.sender == side || c'.At(e.sender) == c.At(e.sender);
    }
    forall s: Side ensures GoodEnd(setup, c'.log, s, c'.At(s)) {
      if s != side {
        assert s == side.Other() && GoodEnd(setup, c.log, s, c.At(s));
      }
    }
  }

  lemma NextInv(setup: Setup, c: Channel, step: Step)
    requires setup.Proper() && Inv(setup, c) && Enabled(setup, c, step)
    ensures Inv(setup, Next(setup, c, step))
  {
    match step
    case SealStep(side, plaintext, messageType) => SealInv(setup, c, side, plaintext, messageType);
    case Present(side, frame) => PresentInv(setup, c, side, frame);
    case Rebuild(side, salt) => RebuildInv(setup, c, side, salt);
  }

  lemma {:induction false} ExecInv(setup: Setup, c: Channel, steps: seq<Step>)
    requires setup.Proper() && Inv(setup, c) && Allowed(setup, c, steps)
    ensures Inv(setup, Exec(setup, c, steps))
    decreases |steps|
  {
    if steps != [] {
      NextInv(setup, c, steps[0]);
      ExecInv(setup, Next(setup, c, steps[0]), steps[1..]);
    }
  }

  // ---------------------------------------------------------------- safety

  ghost predicate PaidBy(setup: Setup, c: Channel, side: Side, payment: seq<nat>)
  {
    var delivered := c.At(side).delivered;
    && |payment| == |delivered|
    && (forall i :: 0 <= i < |payment| ==>
          && payment[i] < |c.log|
          && c.log[payment[i]].sender == side.Other()
          && Explains(c.log[payment[i]], delivered[i]))
    && (forall i, j :: 0 <= i < j < |payment| ==> payment[i] != payment[j])
  }

  lemma {:induction false} Payment(log: seq<Seal>, sender: Side, delivered: seq<Delivery>) returns (payment: seq<nat>)
    requires forall d :: d in delivered ==> SealedIn(log, sender, d)
    ensures |payment| == |delivered|
    ensures forall i :: 0 <= i < |payment| ==>
              && payment[i] < |log|
              && log[payment[i]].sender == sender
              && Explains(log[payment[i]], delivered[i])
  {
    if delivered == [] {
      payment := [];
    } else {
      var n := |delivered| - 1;
      payment := Payment(log, sender, delivered[..n]);
      assert delivered[n] in delivered && SealedIn(log, sender, delivered[n]);
      var e :| e in log && e.sender == sender && Explains(e, delivered[n]);
      var k :| 0 <= k < |log| && log[k] == e;
      payment := payment + [k];
    }
  }

  /** Channel safety. After any run, the deliveries of either end's present session can be charged to
      pairwise different seal events of the other end, each with the delivered frame, type and
      plaintext: nothing is forged, altered or delivered twice. */
  lemma DeliveriesArePaid(setup: Setup, c: Channel, steps: seq<Step>, side: Side) returns (payment: seq<nat>)
    requires setup.Proper() && Initial(setup, c) && Allowed(setup, c, steps)
    requires setup.left.id != setup.right.id
    ensures PaidBy(setup, Exec(setup, c, steps), side, payment)
  {
    InitialInv(setup, c);
    ExecInv(setup, c, steps);
    var c' := Exec(setup, c, steps);
    assert GoodEnd(setup, c'.log, side, c'.At(side));
    payment := Payment(c'.log, side.Other(), c'.At(side).delivered);
    forall i, j | 0 <= i < j < |payment| ensures payment[i] != payment[j] {
      assert c'.At(side).delivered[i].frame == c'.log[payment[i]].frame;
      assert c'.At(side).delivered[j].frame == c'.log[payment[j]].frame;
    }
  }

  /** No sending session ever uses a nonce twice. */
  lemma NoncesNeverRepeat(setup: Setup, c: Channel, steps: seq<Step>, i: nat, j: nat)
    requires setup.Proper() && Initial(setup, c) && Allowed(setup, c, steps)
    requires var log := Exec(setup, c, steps).log;
             i < j < |log| && log[i].sender == log[j].sender && log[i].era == log[j].era
    ensures var log := Exec(setup, c, steps).log;
            FrameCounter(log[i].frame) < FrameCounter(log[j].frame)
  {
    InitialInv(setup, c);
    ExecInv(setup, c, steps);
    var c' := Exec(setup, c, steps);
    SealCounter(setup, c', c'.log[i]);
    SealCounter(setup, c', c'.log[j]);
  }

  lemma SealCounter(setup: Setup, c: Channel, e: Seal)
    requires setup.Proper() && Inv(setup, c) && e in c.log
    ensures FrameCounter(e.frame) == e.session.counter
  {
    SealContents(setup, c, e);
  }

  // ---------------------------------------------------------------- completeness

  /** Every delivery to this end came from the other end's session of this era. */
  ghost predicate OnlyFrom(c: Channel, side: Side, era: nat)
  {
    forall d :: d in c.At(side).delivered ==>
      exists e :: e in c.log && e.sender == side.Other() && e.era == era && Explains(e, d)
  }

  lemma SameSession(setup: Setup, c: Channel, e: Seal, f: Seal)
    requires setup.Proper() && Inv(setup, c) && e in c.log && f in c.log && e.sender == f.sender && e.era == f.era
    requires e.session.counter == f.session.counter
    ensures e == f
  {
    var i :| 0 <= i < |c.log| && c.log[i] == e;
    var j :| 0 <= j < |c.log| && c.log[j] == f;
  }

  /** Channel completeness. When a receiving session has so far opened frames of one sending session
      only, a frame of that session opens to exactly its plaintext and type if and only if it was
      not delivered before and no frame 64 or more counters ahead of it was. */
  lemma SealedFrameOpensExactlyWhen(setup: Setup, c: Channel, steps: seq<Step>, side: Side, e: Seal)
    requires setup.Proper() && Initial(setup, c) && Allowed(setup, c, steps)
    requires var c' := Exec(setup, c, steps);
             e in c'.log && e.sender == side.Other() && OnlyFrom(c', side, e.era)
    ensures var c' := Exec(setup, c, steps);
            var end := c'.At(side);
            var r := OpenMessage(setup.suite, end.session, e.frame).1;
            && (r.Ok? ==> r.value == OpenFrame(e.messageType, e.plaintext))
            && (r.Ok? <==>
                && (forall d :: d in end.delivered ==> d.frame != e.frame)
                && (forall d :: d in end.delivered ==> FrameCounter(d.frame) < FrameCounter(e.frame) + 64))
  {
    InitialInv(setup, c);
    ExecInv(setup, c, steps);
    var c' := Exec(setup, c, steps);
    var end := c'.At(side);
    assert GoodSeal(setup, c'.At(e.sender), e) && GoodEnd(setup, c'.log, side, c'.At(side));
    BelongsMatched(setup, side, end.session, e.session);
    OpenAfterSeal(setup.suite, e.session, end.session, e.plaintext, e.messageType, e.frame);
    AcceptRefinesSet(end.session.window, Counters(end.delivered), e.session.counter);
    SealCounter(setup, c', e);
    forall d | d in end.delivered && FrameCounter(d.frame) == e.session.counter ensures d.frame == e.frame {
      var f :| f in c'.log && f.sender == side.Other() && f.era == e.era && Explains(f, d);
      SealCounter(setup, c', f);
      SameSession(setup, c', e, f);
    }
    FreshCounters(end.delivered, e.session.counter);
  }

  lemma FreshCounters(delivered: seq<Delivery>, counter: u64)
    ensures Nonces.Fresh(Counters(delivered), counter) <==>
            && (forall d :: d in delivered ==> FrameCounter(d.frame) != counter)
            && (forall d :: d in delivered ==> FrameCounter(d.frame) < counter + 64)
  {
    assert forall d :: d in delivered ==> FrameCounter(d.frame) in Counters(delivered);
  }

  lemma ReflectedOpens(setup: Setup, side: Side, s: Session, e: Seal)
    requires setup.Proper() && Belongs(setup, side, s) && Belongs(setup, side, e.session)
    requires SealedBy(setup.suite, e.session, e.plaintext, e.messageType, e.frame)
    ensures OpenMessage(setup.suite, s, e.frame).1.Ok? <==>
            setup.left.id == setup.right.id && AcceptCounter(s.window, e.session.counter).Ok?
  {
    SealedFrameDecodes(setup.suite, e.session, e.plaintext, e.messageType, e.frame);
    NonceParts(e.session.sendPrefix, e.session.salt, e.session.counter);
    hide SealedBy, AcceptCounter, DecodeFrame, EncodeHeader, HeaderBytes;
  }

  /** A frame sent back to the end that sealed it is opened there only if the two devices share one
      id; when they do, the end's own window decides. */
  lemma ReflectedFrameOpensExactlyWhen(setup: Setup, c: Channel, steps: seq<Step>, e: Seal)
    requires setup.Proper() && Initial(setup, c) && Allowed(setup, c, steps)
    requires e in Exec(setup, c, steps).log
    ensures var end := Exec(setup, c, steps).At(e.sender);
            OpenMessage(setup.suite, end.session, e.frame).1.Ok? <==>
            setup.left.id == setup.right.id && Nonces.Fresh(Counters(end.delivered), FrameCounter(e.frame))
  {
    InitialInv(setup, c);
    ExecInv(setup, c, steps);
    var c' := Exec(setup, c, steps);
    var end := c'.At(e.sender);
    assert GoodSeal(setup, c'.At(e.sender), e) && GoodEnd(setup, c'.log, e.sender, c'.At(e.sender));
    ReflectedOpens(setup, e.sender, end.session, e);
    hide OpenMessage, SealedBy, Belongs, AcceptCounter, FrameCounter, Exec, Inv;
    SealCounter(setup, c', e);
    AcceptRefinesSet(end.session.window, Counters(end.delivered), e.session.counter);
  }
}
