/** Peer sessions: key agreement, sealing and opening.

    X25519, HKDF, XChaCha20-Poly1305 and base64 are foreign code. They are the fields of a `Suite`,
    and `Lawful` lists everything that is assumed of them. */
module Crypto {
  import opened Prelude
  import opened Nonces
  import opened Frames

  type Key = s: Bytes | |s| == 32
    witness [0, 0, 0, 0, 0, 0, 0, 0, 0, 0, 0, 0, 0, 0, 0, 0, 0, 0, 0, 0, 0, 0, 0, 0, 0, 0, 0, 0, 0, 0, 0, 0]

  datatype Suite = Suite(
    publicKey: Key -> Key,
    diffieHellman: (Key, Key) -> Key,
    expandKey: (Key, Bytes, Bytes) -> Key,
    expandPrefix: (Key, Bytes, Bytes) -> Octets8,
    encrypt: (Key, Nonce, Bytes, Bytes) -> Option<Bytes>,
    decrypt: (Key, Nonce, Bytes, Bytes) -> Option<Bytes>,
    encodeBase64: Bytes -> Bytes,
    decodeBase64: Bytes -> Option<Bytes>)

  ghost predicate Lawful(suite: Suite)
  {
    // Section 6.1 of RFC 7748: both ends compute the same secret.
    && (forall a: Key, b: Key ::
          suite.diffieHellman(a, suite.publicKey(b)) == suite.diffieHellman(b, suite.publicKey(a)))
    && (forall k: Key, n: Nonce, a: Bytes, m: Bytes ::
          suite.encrypt(k, n, a, m).Some? ==> suite.decrypt(k, n, a, suite.encrypt(k, n, a, m).value) == Some(m))
    // Section 5 of RFC 4648, without padding: 32 bytes take 43 characters.
    && (forall x: Bytes :: suite.decodeBase64(suite.encodeBase64(x)) == Some(x))
    && (forall x: Bytes :: suite.decodeBase64(x).Some? && |suite.decodeBase64(x).value| == 32 ==> |x| == 43)
  }

  datatype CryptoError =
    | NonceFailure(nonce: NonceError)
    | FrameFailure(frame: FrameError)
    | EncryptionFailed
    | SourceMismatch
    | DestinationMismatch
    | DirectionMismatch
    | AuthenticationFailed
    | UnsupportedCredential
    | NoEntropy

  /** The bytes of an ASCII literal. */
  function Ascii(text: string): (s: Bytes)
    ensures |s| == |text|
  {
    seq(|text|, i requires 0 <= i < |text| => (text[i] as int) % 256)
  }

  const SESSION_SALT := Ascii("tf-scale/custom/v1/session")
  const SESSION_INFO_PREFIX := Ascii("tf-scale/custom/v1/aead-key")
  const DIRECTION_INFO_PREFIX := Ascii("tf-scale/custom/v1/direction")
  const PUBLIC_CREDENTIAL_PREFIX := Ascii("tfpk1_")

  // ---------------------------------------------------------------- key derivation

  /** Lexicographic order on byte strings, as `<=` on slices compares them. */
  predicate LexLe(a: Bytes, b: Bytes)
  {
    a == [] || (b != [] && (a[0] < b[0] || (a[0] == b[0] && LexLe(a[1..], b[1..]))))
  }

  lemma {:induction false} LexTotal(a: Bytes, b: Bytes)
    ensures LexLe(a, b) || LexLe(b, a)
  {
    if a != [] && b != [] {
      LexTotal(a[1..], b[1..]);
    }
  }

  lemma {:induction false} LexAntisymmetric(a: Bytes, b: Bytes)
    requires LexLe(a, b) && LexLe(b, a)
    ensures a == b
  {
    if a != [] && b != [] {
      LexAntisymmetric(a[1..], b[1..]);
      assert a == [a[0]] + a[1..] && b == [b[0]] + b[1..];
    }
  }

  function SortedPair(left: Bytes, right: Bytes): (s: Bytes)
    ensures |s| == |left| + |right|
  {
    if LexLe(left, right) then left + right else right + left
  }

  /** The order in which the two ends name the pair does not matter. */
  lemma SortedPairCommutes(left: Bytes, right: Bytes)
    ensures SortedPair(left, right) == SortedPair(right, left)
  {
    LexTotal(left, right);
    if LexLe(left, right) && LexLe(right, left) {
      LexAntisymmetric(left, right);
    }
  }

  function SessionInfo(localCredential: Bytes, peerCredential: Bytes, localId: FrameId, peerId: FrameId): (s: Bytes)
  {
    SESSION_INFO_PREFIX + SortedPair(localId, peerId) + SortedPair(localCredential, peerCredential)
  }

  function DirectionInfo(source: FrameId, destination: FrameId): (s: Bytes)
  {
    DIRECTION_INFO_PREFIX + source + destination
  }

  method AppendSortedPair(output: Bytes, left: Bytes, right: Bytes) returns (extended: Bytes)
    ensures extended == output + SortedPair(left, right)
    ensures extended == output + SortedPair(right, left)
  {
    SortedPairCommutes(left, right);
    extended := output;
    if LexLe(left, right) {
      extended := extended + left;
      extended := extended + right;
    } else {
      extended := extended + right;
      extended := extended + left;
    }
  }

  lemma SortedPairDetermines(a: Bytes, b: Bytes, c: Bytes, d: Bytes)
    requires |a| == |b| && |c| == |d|
    requires SortedPair(a, b) == SortedPair(c, d)
    ensures {a, b} == {c, d}
  {
    var n := |a|;
    assert SortedPair(a, b)[..n] in {a, b} && SortedPair(a, b)[n..] in {a, b};
    var x, y := SortedPair(a, b)[..n], SortedPair(a, b)[n..];
    assert {a, b} == {x, y} && {c, d} == {x, y};
  }

  /** With credentials of equal length, equal key info means the same two devices and the same two
      credentials. */
  lemma InfoDeterminesPair(credA: Bytes, credB: Bytes, idA: FrameId, idB: FrameId,
                           credC: Bytes, credD: Bytes, idC: FrameId, idD: FrameId)
    requires |credA| == |credB| && |credC| == |credD|
    requires SessionInfo(credA, credB, idA, idB) == SessionInfo(credC, credD, idC, idD)
    ensures {idA, idB} == {idC, idD} && {credA, credB} == {credC, credD}
  {
    var info := SessionInfo(credA, credB, idA, idB);
    var p := |SESSION_INFO_PREFIX|;
    assert info[p..p + 32] == SortedPair(idA, idB) && info[p..p + 32] == SortedPair(idC, idD);
    assert info[p + 32..] == SortedPair(credA, credB) && info[p + 32..] == SortedPair(credC, credD);
    SortedPairDetermines(idA, idB, idC, idD);
    SortedPairDetermines(credA, credB, credC, credD);
  }

  /** The credential that comes first in the info. */
  function FirstOfPair(left: Bytes, right: Bytes): (first: Bytes)
  {
    if LexLe(left, right) then left else right
  }

  /** With credentials of any lengths, equal key info still means the same two devices, and it means the
      same two credentials if and only if those that come first have equal lengths. */
  lemma InfoDeterminesPairExactlyWhen(credA: Bytes, credB: Bytes, idA: FrameId, idB: FrameId,
                                      credC: Bytes, credD: Bytes, idC: FrameId, idD: FrameId)
    requires SessionInfo(credA, credB, idA, idB) == SessionInfo(credC, credD, idC, idD)
    ensures {idA, idB} == {idC, idD}
    ensures {credA, credB} == {credC, credD} <==> |FirstOfPair(credA, credB)| == |FirstOfPair(credC, credD)|
  {
    var info := SessionInfo(credA, credB, idA, idB);
    var p := |SESSION_INFO_PREFIX|;
    assert info[p..p + 32] == SortedPair(idA, idB) && info[p..p + 32] == SortedPair(idC, idD);
    assert info[p + 32..] == SortedPair(credA, credB) && info[p + 32..] == SortedPair(credC, credD);
    SortedPairDetermines(idA, idB, idC, idD);
    SplitDetermines(credA, credB, credC, credD);
  }

  lemma SplitDetermines(a: Bytes, b: Bytes, c: Bytes, d: Bytes)
    requires SortedPair(a, b) == SortedPair(c, d)
    ensures {a, b} == {c, d} <==> |FirstOfPair(a, b)| == |FirstOfPair(c, d)|
  {
    if {a, b} == {c, d} {
      assert a in {c, d} && b in {c, d} && c in {a, b} && d in {a, b};
      LexTotal(a, b);
      if LexLe(a, b) && LexLe(b, a) {
        LexAntisymmetric(a, b);
      }
    }
    if |FirstOfPair(a, b)| == |FirstOfPair(c, d)| {
      var n, pair := |FirstOfPair(a, b)|, SortedPair(a, b);
      assert pair[..n] == FirstOfPair(a, b) && pair[..n] == FirstOfPair(c, d);
      assert pair[n..] == (if LexLe(a, b) then b else a) && pair[n..] == (if LexLe(c, d) then d else c);
      assert {a, b} == {pair[..n], pair[n..]} && {c, d} == {pair[..n], pair[n..]};
    }
  }

  /** The parts are joined without lengths, so the restriction is needed: the pairs ("a", "bc") and
      ("ab", "c") have the same info. */
  lemma UnequalLengthsAreAmbiguous(idA: FrameId, idB: FrameId)
    ensures SessionInfo([97], [98, 99], idA, idB) == SessionInfo([97, 98], [99], idA, idB)
    ensures {[97], [98, 99]} != {[97, 98], [99]}
  {
    assert [97] + [98, 99] == [97, 98] + [99];
    assert [97] !in {[97, 98], [99]} by {
      assert [97][0] != [99][0];
    }
  }

  function DecodeCredential(suite: Suite, credential: Bytes): (r: Result<Key, CryptoError>)
  {
    var p := |PUBLIC_CREDENTIAL_PREFIX|;
    if |credential| < p || credential[..p] != PUBLIC_CREDENTIAL_PREFIX then Err(UnsupportedCredential)
    else match suite.decodeBase64(credential[p..])
         case None => Err(UnsupportedCredential)
         case Some(bytes) => if |bytes| == 32 then Ok(bytes) else Err(UnsupportedCredential)
  }

  function EncodeCredential(suite: Suite, key: Key): (credential: Bytes)
  {
    PUBLIC_CREDENTIAL_PREFIX + suite.encodeBase64(key)
  }

  lemma CredentialRoundTrip(suite: Suite, key: Key)
    requires Lawful(suite)
    ensures DecodeCredential(suite, EncodeCredential(suite, key)) == Ok(key)
  {
    var credential := EncodeCredential(suite, key);
    assert credential[|PUBLIC_CREDENTIAL_PREFIX|..] == suite.encodeBase64(key);
  }

  /** Credentials the code accepts all have one length, so for them the info is never ambiguous. */
  lemma AcceptedInfoDeterminesPair(suite: Suite, credA: Bytes, credB: Bytes, idA: FrameId, idB: FrameId,
                                   credC: Bytes, credD: Bytes, idC: FrameId, idD: FrameId)
    requires Lawful(suite)
    requires forall c :: c in [credA, credB, credC, credD] ==> DecodeCredential(suite, c).Ok?
    requires SessionInfo(credA, credB, idA, idB) == SessionInfo(credC, credD, idC, idD)
    ensures {idA, idB} == {idC, idD} && {credA, credB} == {credC, credD}
  {
    assert forall c :: c in [credA, credB, credC, credD] ==> |c| == |PUBLIC_CREDENTIAL_PREFIX| + 43;
    assert credA in [credA, credB, credC, credD] && credB in [credA, credB, credC, credD];
    assert credC in [credA, credB, credC, credD] && credD in [credA, credB, credC, credD];
    InfoDeterminesPair(credA, credB, idA, idB, credC, credD, idC, idD);
  }

  /** A credential is accepted exactly if it is the literal prefix followed by the base64 of 32 bytes, which
      are then the key. */
  lemma CredentialAcceptedExactlyWhen(suite: Suite, credential: Bytes, key: Key)
    ensures DecodeCredential(suite, credential) == Ok(key) <==>
            exists encoded: Bytes :: credential == Ascii("tfpk1_") + encoded && suite.decodeBase64(encoded) == Some(key)
  {
    var p := |PUBLIC_CREDENTIAL_PREFIX|;
    if DecodeCredential(suite, credential) == Ok(key) {
      assert credential == Ascii("tfpk1_") + credential[p..];
    }
    if encoded: Bytes :| credential == Ascii("tfpk1_") + encoded && suite.decodeBase64(encoded) == Some(key) {
      assert credential[p..] == encoded && credential[..p] == PUBLIC_CREDENTIAL_PREFIX;
    }
  }

  // ---------------------------------------------------------------- sessions as values

  datatype Session = Session(
    localId: FrameId, peerId: FrameId, key: Key,
    sendPrefix: Octets8, salt: Octets8, counter: u64,
    receivePrefix: Octets8, window: Window)

  datatype OpenFrame = OpenFrame(messageType: byte, plaintext: Bytes)

  /** `salt` is what the system's random source returned, if it returned anything. */
  function NewSession(suite: Suite, privateKey: Key, localCredential: Bytes, peerCredential: Bytes,
                      localId: FrameId, peerId: FrameId, salt: Option<Octets8>): (r: Result<Session, CryptoError>)
  {
    match DecodeCredential(suite, peerCredential)
    case Err(e) => Err(e)
    case Ok(peerKey) =>
      var secret := suite.diffieHellman(privateKey, peerKey);
      if salt.None? then Err(NoEntropy) else
      Ok(Session(
           localId, peerId,
           suite.expandKey(secret, SESSION_SALT, SessionInfo(localCredential, peerCredential, localId, peerId)),
           suite.expandPrefix(secret, SESSION_SALT, DirectionInfo(localId, peerId)),
           salt.value, 0,
           suite.expandPrefix(secret, SESSION_SALT, DirectionInfo(peerId, localId)),
           EMPTY_WINDOW))
  }

  /** The two sessions of one pair of devices. */
  predicate Matched(a: Session, b: Session)
  {
    && a.localId == b.peerId && a.peerId == b.localId
    && a.key == b.key
    && a.sendPrefix == b.receivePrefix && a.receivePrefix == b.sendPrefix
  }

  /** Both ends of a pair, each starting from its own secrets and the other's credential, derive
      the same key and opposite direction prefixes. */
  lemma SessionsAgree(suite: Suite, privA: Key, privB: Key, credA: Bytes, credB: Bytes,
                      idA: FrameId, idB: FrameId, saltA: Octets8, saltB: Octets8)
    requires Lawful(suite)
    requires DecodeCredential(suite, credA) == Ok(suite.publicKey(privA))
    requires DecodeCredential(suite, credB) == Ok(suite.publicKey(privB))
    ensures var a := NewSession(suite, privA, credA, credB, idA, idB, Some(saltA));
            var b := NewSession(suite, privB, credB, credA, idB, idA, Some(saltB));
            a.Ok? && b.Ok? && Matched(a.value, b.value)
  {
    SortedPairCommutes(idA, idB);
    SortedPairCommutes(credA, credB);
  }

  /** Derivation without collisions: different inputs give different keys and prefixes. */
  ghost predicate CollisionFree(suite: Suite)
  {
    && (forall s: Key, t: Key, i: Bytes, j: Bytes ::
          suite.expandKey(s, SESSION_SALT, i) == suite.expandKey(t, SESSION_SALT, j) ==> s == t && i == j)
    && (forall s: Key, t: Key, i: Bytes, j: Bytes ::
          suite.expandPrefix(s, SESSION_SALT, i) == suite.expandPrefix(t, SESSION_SALT, j) ==> s == t && i == j)
  }

  /** The key belongs to the pair: where derivation does not collide, two sessions share their key only if
      they are between the same two devices with the same two credentials. */
  lemma KeyNamesPair(suite: Suite, privA: Key, credA: Bytes, credB: Bytes, idA: FrameId, idB: FrameId, saltA: Octets8,
                     privC: Key, credC: Bytes, credD: Bytes, idC: FrameId, idD: FrameId, saltC: Octets8)
    requires Lawful(suite) && CollisionFree(suite)
    requires DecodeCredential(suite, credA).Ok? && DecodeCredential(suite, credC).Ok?
    requires NewSession(suite, privA, credA, credB, idA, idB, Some(saltA)).Ok?
    requires NewSession(suite, privC, credC, credD, idC, idD, Some(saltC)).Ok?
    requires NewSession(suite, privA, credA, credB, idA, idB, Some(saltA)).value.key
             == NewSession(suite, privC, credC, credD, idC, idD, Some(saltC)).value.key
    ensures {idA, idB} == {idC, idD} && {credA, credB} == {credC, credD}
  {
    AcceptedInfoDeterminesPair(suite, credA, credB, idA, idB, credC, credD, idC, idD);
  }

  /** A session starts with the two ids it was given, the salt it was given, counter 0 and an empty window.
      Its prefixes name the direction: the one it sends under is derived from its own id followed by the
      peer's, the one it receives under from the peer's followed by its own. */
  lemma NewSessionIs(suite: Suite, privateKey: Key, localCredential: Bytes, peerCredential: Bytes,
                     localId: FrameId, peerId: FrameId, salt: Option<Octets8>)
    ensures var r := NewSession(suite, privateKey, localCredential, peerCredential, localId, peerId, salt);
            && (r.Ok? <==> DecodeCredential(suite, peerCredential).Ok? && salt.Some?)
            && (r.Ok? ==>
                  var secret := suite.diffieHellman(privateKey, DecodeCredential(suite, peerCredential).value);
                  && r.value.localId == localId && r.value.peerId == peerId && r.value.salt == salt.value
                  && r.value.counter == 0 && r.value.window.highest.None?
                  && r.value.sendPrefix
                     == suite.expandPrefix(secret, Ascii("tf-scale/custom/v1/session"),
                                           Ascii("tf-scale/custom/v1/direction") + localId + peerId)
                  && r.value.receivePrefix
                     == suite.expandPrefix(secret, Ascii("tf-scale/custom/v1/session"),
                                           Ascii("tf-scale/custom/v1/direction") + peerId + localId))
  {
  }

  function SealMessage(suite: Suite, s: Session, plaintext: Bytes, messageType: byte)
    : (r: (Session, Result<Bytes, CryptoError>))
  {
    if s.counter == COUNTER_MAX then (s, Err(NonceFailure(CounterExhausted))) else
    var nonce := NonceAt(s.sendPrefix, s.salt, s.counter);
    var s' := s.(counter := s.counter + 1);
    var header := NewHeader(s.localId, s.peerId, nonce, messageType);
    match EncodeHeader(header)
    case Err(e) => (s', Err(FrameFailure(e)))
    case Ok(associated) =>
      match suite.encrypt(s.key, nonce, associated, plaintext)
      case None => (s', Err(EncryptionFailed))
      case Some(ciphertext) =>
        (s', Ok(EncodeFrame(EncodedFrame(header, ciphertext)).value))
  }

  function OpenMessage(suite: Suite, s: Session, frame: Bytes): (r: (Session, Result<OpenFrame, CryptoError>))
  {
    match DecodeFrame(frame)
    case Err(e) => (s, Err(FrameFailure(e)))
    case Ok(encoded) =>
      var header := encoded.header;
      if header.source != s.peerId then (s, Err(SourceMismatch))
      else if header.destination != s.localId then (s, Err(DestinationMismatch))
      else if header.nonce[..8] != s.receivePrefix then (s, Err(DirectionMismatch))
      else
        // A decoded header can always be encoded again.
        match suite.decrypt(s.key, header.nonce, EncodeHeader(header).value, encoded.ciphertext)
        case None => (s, Err(AuthenticationFailed))
        case Some(plaintext) =>
          match AcceptCounter(s.window, NonceCounter(header.nonce))
          case Err(e) => (s, Err(NonceFailure(e)))
          case Ok(w) => (s.(window := w), Ok(OpenFrame(header.messageType, plaintext)))
  }

  /** What a session puts on the wire: its own id as source, the peer's as destination, a nonce
      with its direction, salt and counter, and the encryption of the plaintext bound to that header. */
  ghost predicate SealedBy(suite: Suite, s: Session, plaintext: Bytes, messageType: byte, frame: Bytes)
  {
    && KnownType(messageType)
    && exists ciphertext: Bytes ::
         var header := NewHeader(s.localId, s.peerId, NonceAt(s.sendPrefix, s.salt, s.counter), messageType);
         && frame == HeaderBytes(header) + ciphertext
         && suite.encrypt(s.key, header.nonce, HeaderBytes(header), plaintext) == Some(ciphertext)
  }

  /** Sealing consumes exactly one counter unless the counters are used up, whether or not the frame
      is then produced; a produced frame is as `SealedBy` says. */
  lemma SealEffect(suite: Suite, s: Session, plaintext: Bytes, messageType: byte)
    ensures var (s', r) := SealMessage(suite, s, plaintext, messageType);
            && s' == (if s.counter == COUNTER_MAX then s else s.(counter := s.counter + 1))
            && (r.Ok? ==> s.counter < COUNTER_MAX && SealedBy(suite, s, plaintext, messageType, r.value))
  {
  }

  /** Sealing succeeds exactly if a counter is left, the type is one of the three and the cipher succeeds;
      the first of these that fails is reported. */
  lemma SealSucceedsExactlyWhen(suite: Suite, s: Session, plaintext: Bytes, messageType: byte)
    ensures var r := SealMessage(suite, s, plaintext, messageType).1;
            var header := NewHeader(s.localId, s.peerId, NonceAt(s.sendPrefix, s.salt, s.counter), messageType);
            var sealed := suite.encrypt(s.key, header.nonce, HeaderBytes(header), plaintext);
            && (r.Ok? <==> s.counter < 0xFFFF_FFFF_FFFF_FFFF && 1 <= messageType <= 3 && sealed.Some?)
            && (s.counter == 0xFFFF_FFFF_FFFF_FFFF <==> r == Err(NonceFailure(CounterExhausted)))
            && (s.counter < 0xFFFF_FFFF_FFFF_FFFF && !(1 <= messageType <= 3) <==>
                r == Err(FrameFailure(UnsupportedMessageType)))
  {
  }

  /** A sealed frame is decoded by any receiver to the header and ciphertext it was made of. */
  lemma SealedFrameDecodes(suite: Suite, s: Session, plaintext: Bytes, messageType: byte, frame: Bytes)
    requires Lawful(suite) && SealedBy(suite, s, plaintext, messageType, frame)
    ensures var header := NewHeader(s.localId, s.peerId, NonceAt(s.sendPrefix, s.salt, s.counter), messageType);
            && DecodeFrame(frame) == Ok(EncodedFrame(header, frame[HEADER_LEN..]))
            && EncodeHeader(header) == Ok(HeaderBytes(header))
            && suite.decrypt(s.key, header.nonce, HeaderBytes(header), frame[HEADER_LEN..]) == Some(plaintext)
  {
    var header := NewHeader(s.localId, s.peerId, NonceAt(s.sendPrefix, s.salt, s.counter), messageType);
    var ciphertext :| frame == HeaderBytes(header) + ciphertext
                      && suite.encrypt(s.key, header.nonce, HeaderBytes(header), plaintext) == Some(ciphertext);
    DecodeAfterEncode(EncodedFrame(header, ciphertext));
    assert frame[HEADER_LEN..] == ciphertext;
  }

  /** A matched receiver opens a sealed frame to exactly its plaintext and type, and does so
      precisely when its window still has room for the frame's counter. */
  lemma OpenAfterSeal(suite: Suite, s: Session, receiver: Session, plaintext: Bytes, messageType: byte, frame: Bytes)
    requires Lawful(suite) && SealedBy(suite, s, plaintext, messageType, frame)
    requires Matched(s, receiver)
    ensures var (receiver', r) := OpenMessage(suite, receiver, frame);
            var w := AcceptCounter(receiver.window, s.counter);
            && (w.Ok? ==> r == Ok(OpenFrame(messageType, plaintext)) && receiver' == receiver.(window := w.value))
            && (w.Err? ==> r == Err(NonceFailure(w.error)) && receiver' == receiver)
  {
    SealedFrameDecodes(suite, s, plaintext, messageType, frame);
    NonceParts(s.sendPrefix, s.salt, s.counter);
  }

  /** A refused frame leaves the session as it was. An opened one names the two ends, decrypts under
      the session key with its own header bytes as associated data, and changes the window only. */
  lemma OpenEffect(suite: Suite, s: Session, frame: Bytes)
    ensures var (s', r) := OpenMessage(suite, s, frame);
            && (r.Err? ==> s' == s)
            && (r.Ok? ==>
                  && DecodeFrame(frame).Ok?
                  && var f := DecodeFrame(frame).value;
                     && f.header.source == s.peerId && f.header.destination == s.localId
                     && f.header.nonce[..8] == s.receivePrefix
                     && r.value.messageType == f.header.messageType
                     && suite.decrypt(s.key, f.header.nonce, HeaderBytes(f.header), f.ciphertext)
                        == Some(r.value.plaintext)
                     && AcceptCounter(s.window, NonceCounter(f.header.nonce)) == Ok(s'.window)
                     && s' == s.(window := s'.window))
  {
  }

  /** Opening succeeds exactly if the frame decodes, is from the peer, for this end and in the right
      direction, authenticates with the header bytes as received, and its counter is accepted; the first
      of these that fails is reported. */
  lemma OpenSucceedsExactlyWhen(suite: Suite, s: Session, frame: Bytes)
    ensures var r := OpenMessage(suite, s, frame).1;
            if DecodeFrame(frame).Err? then r == Err(FrameFailure(DecodeFrame(frame).error))
            else
              var nonce := frame[36..60];
              if frame[4..20] != s.peerId then r == Err(SourceMismatch)
              else if frame[20..36] != s.localId then r == Err(DestinationMismatch)
              else if frame[36..44] != s.receivePrefix then r == Err(DirectionMismatch)
              else if suite.decrypt(s.key, nonce, frame[..60], frame[60..]).None? then r == Err(AuthenticationFailed)
              else
                var w := AcceptCounter(s.window, NonceCounter(nonce));
                if w.Err? then r == Err(NonceFailure(w.error))
                else r == Ok(OpenFrame(frame[1], suite.decrypt(s.key, nonce, frame[..60], frame[60..]).value))
  {
    AcceptedExactlyWhen(frame);
    if DecodeFrame(frame).Ok? {
      EncodeAfterDecode(frame);
      assert frame[36..60][..8] == frame[36..44];
    }
  }

  // ---------------------------------------------------------------- the session object

  class PeerCryptoSession {
    const suite: Suite
    const localId: FrameId
    const peerId: FrameId
    const key: Key
    const receivePrefix: Octets8
    const sendNonces: SendNonceState
    const receiveWindow: ReplayWindow

    function Value(): (s: Session)
      reads this, sendNonces, receiveWindow
    {
      Session(localId, peerId, key, sendNonces.directionPrefix, sendNonces.sessionSalt, sendNonces.counter,
              receivePrefix, receiveWindow.Value())
    }

    ghost predicate Valid()
      reads this, sendNonces, receiveWindow
    {
      sendNonces.Valid() && receiveWindow.Valid()
    }

    constructor (suite: Suite, s: Session)
      requires s.counter == 0 && s.window == EMPTY_WINDOW
      ensures Valid() && fresh(sendNonces) && fresh(receiveWindow)
      ensures this.suite == suite && Value() == s
    {
      this.suite, localId, peerId, key := suite, s.localId, s.peerId, s.key;
      receivePrefix := s.receivePrefix;
      sendNonces := new SendNonceState.WithSalt(s.sendPrefix, s.salt);
      receiveWindow := new ReplayWindow();
    }

    method Seal(plaintext: Bytes, messageType: byte) returns (r: Result<Bytes, CryptoError>)
      requires Valid()
      modifies sendNonces
      ensures Valid()
      ensures (Value(), r) == SealMessage(suite, old(Value()), plaintext, messageType)
      ensures r.Ok? ==> SealedBy(suite, old(Value()), plaintext, messageType, r.value)
    {
      SealEffect(suite, Value(), plaintext, messageType);
      var nonce := sendNonces.Next();
      if nonce.Err? {
        return Err(NonceFailure(nonce.error));
      }
      assert nonce.value == sendNonces.issued[old(sendNonces.counter)];
      var header := NewHeader(localId, peerId, nonce.value, messageType);
      var associated := WriteHeader(header);
      if associated.Err? {
        return Err(FrameFailure(associated.error));
      }
      var ciphertext := suite.encrypt(key, nonce.value, associated.value, plaintext);
      if ciphertext.None? {
        return Err(EncryptionFailed);
      }
      var frame := WriteFrame(EncodedFrame(header, ciphertext.value));
      r := Ok(frame.value);
    }

    method Open(frame: Bytes) returns (r: Result<OpenFrame, CryptoError>)
      requires Valid()
      modifies receiveWindow
      ensures Valid()
      ensures (Value(), r) == OpenMessage(suite, old(Value()), frame)
      ensures r.Err? ==> Value() == old(Value())
      ensures r.Ok? ==> receiveWindow.accepted
                        == old(receiveWindow.accepted) + {NonceCounter(DecodeFrame(frame).value.header.nonce)}
    {
      var decoded := DecodeFrame(frame);
      if decoded.Err? {
        return Err(FrameFailure(decoded.error));
      }
      var header := decoded.value.header;
      if header.source != peerId {
        return Err(SourceMismatch);
      }
      if header.destination != localId {
        return Err(DestinationMismatch);
      }
      if header.nonce[..8] != receivePrefix {
        return Err(DirectionMismatch);
      }
      EncodeAfterDecode(frame);
      var associated := WriteHeader(header);
      var plaintext := suite.decrypt(key, header.nonce, associated.value, decoded.value.ciphertext);
      if plaintext.None? {
        return Err(AuthenticationFailed);
      }
      var accepted := receiveWindow.Accept(header.nonce);
      if accepted.Err? {
        return Err(NonceFailure(accepted.error));
      }
      r := Ok(OpenFrame(header.messageType, plaintext.value));
    }
  }
}
