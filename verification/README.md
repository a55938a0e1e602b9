# tf-scale, modelled

tf-scale is a mesh VPN that runs in user space. Devices register with a control plane, which gives
each an overlay address and a DNS name. Each device's runtime keeps one encrypted session per peer and
decides for every peer whether its packets travel directly over UDP or through a relay. A small DNS
responder on each device answers for the mesh names.

This project models those parts in Dafny and proves what they promise together: a name leads to the
address of the device that holds it, a packet for that address is sealed for exactly that device,
takes the path the runtime has chosen, and is opened there at most once and unaltered.

| module | part of the program |
|---|---|
| `Nonces`, `Frames`, `Crypto`, `Channels` | the encrypted channel of one pair of devices: send counter, 64-bit replay bitmap, binary frame, sessions, and runs of two ends over a network that drops, repeats, reorders and invents frames |
| `Transport`, `Probes`, `Paths` | choice of endpoints, probe payloads, and the path state machine of one peer with its clock |
| `Runtimes`, `RuntimeObject`, `RuntimeRuns`, `Timelines`, `Probing`, `Promotions` | the runtime of one device: what it computes, the object that updates its maps in place, and runs of it |
| `Routing`, `Fleets` | two runtimes, and any number of them, sending to each other |
| `Control`, `ControlRuns`, `Names` | the control plane's tables, their transactions, and concurrent registrations |
| `Dns`, `Resolver` | the DNS parser and responder, joined to the tables |
| `Relay` | the relay's router under every interleaving of its sessions |
| `Mesh` | the parts joined |

Code that updates fields or loops is a class or a method, proved equal to a function on values; the
properties are then proved of those functions and of whole runs. The methods of the runtime, of the
control plane and of the relay keep `Valid()`, the invariant of all reachable states.

What is assumed. X25519, HKDF, the AEAD, base64, the UUID parser and the UTF-8 decoder are function
parameters. `Crypto.Lawful` lists everything assumed of the first four: the shared secret is the same at
both ends (section 6.1 of RFC 7748), decryption undoes encryption, base64 decoding undoes encoding and
32 bytes take 43 characters (section 5 of RFC 4648, without padding). That only a key holder can
produce a ciphertext which authenticates is not assumed of the cipher as a function; it is a condition on
runs, `Channels.Genuine` and `Promotions.Genuine`. Clock readings, random salts and the outcomes of
socket writes are arguments of the steps that consume them. Time is a number of nanoseconds.

Findings.

- `docs/architecture/NETWORK_FLOWS.md:66-71` prefers LAN, then public, then IPv6, then relay endpoints. The code
  ranks IPv6 before public, and a LAN endpoint outside the private ranges after both. The model follows the
  code; `Transport.ChoiceIsNotAlwaysDocumented` shows both differences and
  `Transport.ChoiceIsDocumentedExactlyWhen` says for which endpoint lists the two agree.
- The key info joins its parts without lengths, so two pairs of credentials can share it
  (`Crypto.UnequalLengthsAreAmbiguous`); pairs with equal info are the same exactly when the credentials that come
  first have equal lengths (`Crypto.InfoDeterminesPairExactlyWhen`). Every credential the code accepts has one length,
  so for those it is never ambiguous (`Crypto.AcceptedInfoDeterminesPair`).
- A frame reflected to its sender is refused because the two ids differ; if both devices had one id, only
  the replay window would decide (`Channels.ReflectedFrameOpensExactlyWhen`).
- Looking up a machine key skips deleted devices, but the unique constraint does not, so a machine whose
  device was deleted never gets a device again (`ControlRuns.DeletedMachineNeverReturns`).
- "Stale" is meant to be 15 s without success, but a pass by a clock set back before the last success counts as
  stale too (`Paths.SetBackClockExpires`). The two agree exactly when the clock reads no earlier than it did at
  that success (`Paths.StaleMeansFifteenSecondsExactlyWhen`).

## Model

| member | source | states |
|---|---|---|
| `Nonces.NonceParts` | crates/tfscale-custom/src/nonce.rs:41-56 | a nonce gives back its direction prefix, its salt and its counter |
| `Nonces.NonceFromParts` | crates/tfscale-custom/src/nonce.rs:104-108 | conversely those three parts determine the nonce |
| `Nonces.SendNonceState.Next` | crates/tfscale-custom/src/nonce.rs:41-56 | refuses exactly when the counter is used up, and then changes nothing, so it refuses for ever; otherwise it hands out the nonce of the present counter and advances by one |
| `Nonces.IssuedNoncesAreDistinct` | crates/tfscale-custom/src/nonce.rs:41-56 | the k-th nonce of a send state carries counter k, most significant byte first, and no two are equal |
| `Nonces.ShlIsMultiplication` | crates/tfscale-custom/src/nonce.rs:74-83 | the shift of the bitmap is multiplication by a power of two modulo 2^64 |
| `Nonces.ShiftBits` | crates/tfscale-custom/src/nonce.rs:74-83 | a left shift by k moves bit i - k to bit i and clears the k lowest, for every k |
| `Nonces.AcceptRefinesSet` | crates/tfscale-custom/src/nonce.rs:66-101 | when bit i says whether highest - i was accepted, accepting succeeds exactly for a counter never accepted and less than 64 behind every accepted one, and the bitmap then stands for the set with that counter added; 64 or more behind is refused as stale, otherwise as replayed |
| `Nonces.BitmapRefinesSet` | crates/tfscale-custom/src/nonce.rs:66-101 | on every sequence of counters the bitmap gives the verdicts of the plain set |
| `Nonces.ReplayWindow.Accept` | crates/tfscale-custom/src/nonce.rs:66-101 | the object does that in place; a refusal leaves it unchanged |
| `Frames.WriteHeader` | crates/tfscale-custom/src/frame.rs:71-103 | writing the fields into the 60-byte buffer gives the header's byte layout or the first failing check |
| `Frames.WriteFrame` | crates/tfscale-custom/src/frame.rs:163-179 | the encoded frame is header bytes then ciphertext, or the header's error |
| `Frames.AcceptedExactlyWhen` | crates/tfscale-custom/src/frame.rs:105-154 | a byte string is accepted exactly if it has 60 bytes, version 1, type 1 to 3, no flags and a zero byte; the fields are at their places, and the first thing wrong is reported |
| `Frames.EncodableExactlyWhen` | crates/tfscale-custom/src/frame.rs:71-103 | a header can be written exactly if it has version 1, type 1 to 3 and no flags |
| `Frames.DecodeAfterEncode` | crates/tfscale-custom/src/frame.rs:71-179 | decoding undoes encoding on every encodable frame |
| `Frames.EncodeAfterDecode` | crates/tfscale-custom/src/frame.rs:71-179 | encoding undoes decoding on every accepted byte string, so the receiver recomputes the sender's associated data byte for byte |
| `Frames.CodecIsBijective` | crates/tfscale-custom/src/frame.rs:71-179 | a frame encodes to a string if and only if the string decodes to that frame |
| `Crypto.SortedPairCommutes` | crates/tfscale-custom/src/crypto.rs:190-198 | the order in which the two ends name a pair does not matter |
| `Crypto.AppendSortedPair` | crates/tfscale-custom/src/crypto.rs:190-198 | appends the same bytes for either order of its arguments |
| `Crypto.InfoDeterminesPair` | crates/tfscale-custom/src/crypto.rs:150-167 | for credentials of equal length, equal key info means the same unordered pair of ids and of credentials |
| `Crypto.InfoDeterminesPairExactlyWhen` | crates/tfscale-custom/src/crypto.rs:150-198 | for credentials of any lengths, equal key info means the same pair of ids, and the same pair of credentials if and only if those that come first have equal lengths |
| `Crypto.UnequalLengthsAreAmbiguous` | crates/tfscale-custom/src/crypto.rs:150-167 | without equal lengths two different pairs can share their key info |
| `Crypto.AcceptedInfoDeterminesPair` | crates/tfscale-custom/src/crypto.rs:129-167 | for credentials the code accepts, equal key info always means the same pairs |
| `Crypto.CredentialRoundTrip` | crates/tfscale-custom/src/crypto.rs:129-142 | a prefixed, base64-encoded public key is read back |
| `Crypto.CredentialAcceptedExactlyWhen` | crates/tfscale-custom/src/crypto.rs:129-142 | a credential is accepted exactly if it is the prefix and the base64 of 32 bytes, which are the key |
| `Crypto.NewSessionIs` | crates/tfscale-custom/src/crypto.rs:32-58 | when a session is made and what it starts with; the prefix it sends under is derived from its own id and then the peer's, the one it receives under the other way round |
| `Crypto.KeyNamesPair` | crates/tfscale-custom/src/crypto.rs:150-167 | where derivation does not collide, two sessions share their key only if they are between the same two devices with the same two credentials |
| `Crypto.SessionsAgree` | crates/tfscale-custom/src/crypto.rs:32-58 | for every pair both ends derive one key, and one end's send prefix is the other's receive prefix |
| `Crypto.SealedFrameDecodes` | crates/tfscale-custom/src/crypto.rs:64-120 | any receiver decodes a sealed frame to the header it was made of, and its ciphertext decrypts to the plaintext under that header |
| `Crypto.SealSucceedsExactlyWhen` | crates/tfscale-custom/src/crypto.rs:64-80 | sealing succeeds exactly if a counter is left, the type is one of the three and the cipher succeeds |
| `Crypto.OpenSucceedsExactlyWhen` | crates/tfscale-custom/src/crypto.rs:86-120 | opening succeeds exactly if the frame decodes, names both ends, has the right direction, authenticates with its header bytes as received and its counter is accepted; the first failure is reported |
| `Crypto.OpenAfterSeal` | crates/tfscale-custom/src/crypto.rs:64-120 | the matching session opens a sealed frame to its plaintext and type exactly when its window has room, and otherwise stays as it was |
| `Crypto.PeerCryptoSession.Seal` | crates/tfscale-custom/src/crypto.rs:64-80 | the object seals as the function says: one counter is used even when sealing then fails, and a sealed frame names both ends and binds its header |
| `Crypto.PeerCryptoSession.Open` | crates/tfscale-custom/src/crypto.rs:86-120 | the object opens as the function says; every refused frame leaves it unchanged, and the set of accepted counters grows by this one exactly when it succeeds |
| `Channels.ExecInv` | crates/tfscale-custom/src/crypto.rs:32-120 | every step of every run keeps the channel invariant: sealed frames are what they claim, windows stand for what was delivered |
| `Channels.DeliveriesArePaid` | crates/tfscale-custom/src/crypto.rs:64-120 | safety over all runs: the deliveries of a session are charged to pairwise different seal events of the peer, with the same frame, type and plaintext |
| `Channels.NoncesNeverRepeat` | crates/tfscale-custom/src/crypto.rs:64-80 | over all runs, counters of one sending session strictly increase |
| `Channels.SealedFrameOpensExactlyWhen` | crates/tfscale-custom/src/crypto.rs:86-120 | completeness over all runs: with one sending session heard so far, a frame of it opens to exactly its plaintext if and only if it was not delivered before and none 64 or more counters ahead was |
| `Channels.ReflectedFrameOpensExactlyWhen` | crates/tfscale-custom/src/crypto.rs:86-103 | a session's own frame is opened by it only if the two ids are equal and the window has room |
| `Transport.SortedUdpEndpoints` | crates/tfscale-custom/src/transport.rs:199-207 | the result is the stable sort by rank of the UDP endpoints and a permutation of them |
| `Transport.StableSortUnique` | crates/tfscale-custom/src/transport.rs:199-207 | only one sequence is a stable sort of a given one |
| `Transport.StableSortPermutes` | crates/tfscale-custom/src/transport.rs:199-207 | a stable sort is a permutation |
| `Transport.UdpOnlyConcat` | crates/tfscale-custom/src/transport.rs:199-205 | the UDP endpoints keep their order and number |
| `Transport.PrivateRanges` | crates/tfscale-custom/src/transport.rs:219-231 | the private addresses are exactly 10/8, 172.16/12, 192.168/16, 169.254/16, 100.64/10, fc00::/7 and fe80::/10 |
| `Transport.SelectIsHeadOfSort` | crates/tfscale-custom/src/transport.rs:191-207 | the selected endpoint is the head of the sorted ones, and there is none exactly when there is no UDP endpoint |
| `Transport.ChoiceIsDocumentedExactlyWhen` | crates/tfscale-custom/src/transport.rs:191-217 | the selected endpoint is the documented choice if and only if the first LAN endpoint is private, or LAN endpoints are offered, none is private and neither public nor IPv6 ones are, or no LAN endpoint is offered and public and IPv6 ones are not both |
| `Transport.ChoiceIsNotAlwaysDocumented` | crates/tfscale-custom/src/transport.rs:209-217 | two lists on which the code and the documentation choose differently |
| `Probes.EchoMeasuresRoundTrip` | crates/tfscale-custom/src/lib.rs:1035-1052 | an answered probe measures the prober's own time between sending and reading, whatever the responder's clock says, and nothing if the clock was set back |
| `Probes.UnreadableProbeGetsOwnClock` | crates/tfscale-custom/src/lib.rs:1035-1042 | a probe whose time stamp cannot be read is answered with the responder's own clock |
| `Paths.ProbeBudget` | crates/tfscale-custom/src/lib.rs:590-631 | a peer that never answers: the n-th completed round is at least 250 ms * min(n-1, 7) + 5 s * max(0, n-8) after the first |
| `Paths.FastRoundsArePaid` | crates/tfscale-custom/src/lib.rs:1020-1033 | over any events, fast rounds number at most 8 * (1 + downgrades), whatever the clock does |
| `Paths.FastLeft` | crates/tfscale-custom/src/lib.rs:590-631 | off the direct path the fast probes left are exactly eight less the rounds since the start or the last downgrade |
| `Paths.FailuresCountRounds` | crates/tfscale-custom/src/lib.rs:622-627 | off the direct path and without an answer every round is one failure more, up to 2^32 - 1 |
| `Paths.ExpiryClosedForm` | crates/tfscale-custom/src/lib.rs:763-789 | between answers, failures equal the stale passes since the last one; the path is Direct exactly while they are fewer than three, and the third sends it to Relay if relays are known at that pass, else to Unknown |
| `Paths.StaleMeansFifteenSecondsExactlyWhen` | crates/tfscale-custom/src/lib.rs:763-789 | an expiry pass being stale is the same as 15 s having passed if and only if the clock reads no earlier than at the success |
| `Paths.SetBackClockExpires` | crates/tfscale-custom/src/lib.rs:763-789 | three passes by a clock set back take a path away from Direct with no time passed |
| `Paths.StaleMeansFifteenSeconds` | crates/tfscale-custom/src/lib.rs:763-789 | throughout a run whose clock goes forward, a pass is stale exactly when it runs 15 s or more after the answer |
| `Runtimes.BuildPeerTransportSessions` | crates/tfscale-custom/src/lib.rs:981-1018 | the loop over the peers gives the sessions of all of them or the first failure |
| `RuntimeRuns.CollectIsLastMatch` | crates/tfscale-custom/src/lib.rs:476-512 | an index holds, for each key, the value of the last peer that has it |
| `RuntimeRuns.LastMatchIsCollected` | crates/tfscale-custom/src/lib.rs:476-512 | conversely the last peer with a key is the one its index names |
| `RuntimeRuns.IndexesNameLastPeer` | crates/tfscale-custom/src/lib.rs:476-512 | each of the four indexes of a fresh runtime names the last peer with the key |
| `RuntimeRuns.SessionOrigin` | crates/tfscale-custom/src/lib.rs:981-1018 | a device's session was made from its last peer entry that has a UDP endpoint |
| `RuntimeRuns.SessionsAreUdpPeersOrNone` | crates/tfscale-custom/src/lib.rs:513-514 | the sessions are exactly the peers with a UDP endpoint, or there are none at all |
| `RuntimeRuns.SessionsExactlyWhen` | crates/tfscale-custom/src/lib.rs:981-1018 | a fresh runtime has a session with a device exactly if it is configured, every peer's id parses, every peer with a UDP endpoint has a credential that decodes and a salt, and the device is one of those |
| `RuntimeRuns.SessionContents` | crates/tfscale-custom/src/lib.rs:996-1015 | a fresh session sends to the endpoint selected from its peer's and is between the two frame ids |
| `RuntimeRuns.ReachablePathsAreConsistent` | crates/tfscale-custom/src/lib.rs:590-789 | in every reachable state Direct means fewer than three failures, no fast probes left, a recorded success and a session that sends to the active endpoint; Relay means three failures, an earlier success and a relay endpoint; Unknown means no endpoint; a round-trip time means Direct; every session endpoint is UDP |
| `RuntimeObject.RuntimeState.constructor` | crates/tfscale-custom/src/lib.rs:476-537 | builds the indexes, sessions and default paths of a peer list; the invariant of reachable runtimes holds |
| `RuntimeObject.RuntimeState.Send` | crates/tfscale-custom/src/lib.rs:539-581 | one packet: error cases in order, a failed write included, the sealed frame and where it goes, the session's counter advanced; the invariant is kept |
| `RuntimeObject.RuntimeState.ExpireStaleDirectPaths` | crates/tfscale-custom/src/lib.rs:763-789 | visiting the peers in any order expires each path once |
| `RuntimeObject.RuntimeState.SendProbeRound` | crates/tfscale-custom/src/lib.rs:612-619 | one probe to each UDP endpoint in order of rank, up to the first failure, each with a counter of its own; what went out is returned |
| `RuntimeObject.RuntimeState.ProbeDirectPaths` | crates/tfscale-custom/src/lib.rs:590-631 | expiry, then each peer that is due; a failure ends the pass and leaves that peer's round unrecorded |
| `RuntimeObject.RuntimeState.MarkDirect` | crates/tfscale-custom/src/lib.rs:746-761 | path and session endpoint are set together |
| `RuntimeObject.RuntimeState.OpenReceived` | crates/tfscale-custom/src/lib.rs:656-744 | a received frame is refused without any change, or opened once and dispatched by its type |
| `RuntimeObject.RuntimeState.HandleOpened` | crates/tfscale-custom/src/lib.rs:702-744 | data is handed out; a probe is answered to where it came from and then marks the path; a response marks it with its round-trip time |
| `RuntimeObject.RuntimeState.OpenRelayed` | crates/tfscale-custom/src/lib.rs:646-654 | a relay message is decoded and opened without a source address |
| `RuntimeObject.RuntimeState.SetRelays` | crates/tfscale-custom/src/lib.rs:1337-1358 | replaces the relay list and keeps the invariant |
| `RuntimeObject.RuntimeState.BindTransport` | crates/tfscale-custom/src/lib.rs:170-170 | binds the transport and keeps the invariant |
| `Timelines.PathsChangeOnlyByAnswers` | crates/tfscale-custom/src/lib.rs:646-761 | a received frame changes path state only as a probe or response over UDP that was opened by the session of the device its source id belongs to, and then only that device's path; data, relayed and rejected frames change none |
| `Timelines.PathFollowsTimeline` | crates/tfscale-custom/src/lib.rs:590-789 | after any run a peer's path is what its own timeline of expiry passes, completed rounds and answers makes of it |
| `Timelines.FreshTimeline` | crates/tfscale-custom/src/lib.rs:448-473 | every peer of a fresh runtime starts at the default path and follows its timeline |
| `Timelines.RoundsAreCompleted` | crates/tfscale-custom/src/lib.rs:590-631 | the rounds and downgrades of a peer's timeline are, one for one, the rounds that the runtime completes with it and the steps that lose its direct path: every completed round was due where it stands |
| `Timelines.RuntimeFastRounds` | crates/tfscale-custom/src/lib.rs:1020-1033 | over any run of the runtime, the fast rounds it completes with a peer are at most 8 * (1 + times it lost that peer's direct path) |
| `Timelines.RuntimeProbeBudget` | crates/tfscale-custom/src/lib.rs:590-631 | for every run of the runtime in which a peer never answers and the clock goes forward: the n-th round it completes with that peer is at least 250 ms * min(n-1, 7) + 5 s * max(0, n-8) after the first |
| `Timelines.RuntimeExpiry` | crates/tfscale-custom/src/lib.rs:763-789 | the closed form of expiry for every run of the runtime |
| `Timelines.RuntimeExpiryInSeconds` | crates/tfscale-custom/src/lib.rs:763-789 | for every run of the runtime whose clock goes forward after a peer's latest answer: the path is Direct exactly while fewer than three expiry passes have run 15 s or more after it, failures are their number, and the third goes to Relay if relays are known at that pass, else to Unknown |
| `Probing.ProbedExactlyWhen` | crates/tfscale-custom/src/lib.rs:590-631 | after any run of the runtime, a pass in which nothing fails completes a round with a peer that has a session if and only if none was completed before, the clock reads earlier than at the last one, or 250 ms have passed since then while the path is not Direct and fewer than eight rounds were completed since the start or since it was last lost, or else 5 s; probes then go out to all its UDP endpoints, and the pass reports how many went out |
| `Probing.VisitSends` | crates/tfscale-custom/src/lib.rs:612-619 | the probes of a round carry the time stamp, go to the UDP endpoints by rank, and are sealed each under the next counter |
| `Promotions.PromotionsArePaid` | crates/tfscale-custom/src/lib.rs:656-761 | over all runs, opened frames are charged to pairwise different sealings of that very frame, by the device concerned, for this device and under their session's key; those that promoted a path are probes or responses, and a packet is handed out exactly for data and is what was sealed |
| `Promotions.FreshTurnsAreOpenings` | crates/tfscale-custom/src/lib.rs:746-761 | a path turns Direct at most as often as promoting frames of its peer were opened |
| `Promotions.PacketsArePaid` | crates/tfscale-custom/src/lib.rs:656-702 | over all runs, the packets handed out are charged to pairwise different sealings of exactly those packets, as data, by the devices they came from |
| `Routing.ExecKeepsNetwork` | crates/tfscale-custom/src/lib.rs:539-789 | no run changes the indexes, keys, ids or prefixes between two rebuilds |
| `Routing.AddressOwner` | crates/tfscale-custom/src/lib.rs:482-486 | with distinct overlay addresses the index knows an address exactly if a peer owns it, and names that peer |
| `Runtimes.DestinationOf` | crates/tfscale-custom/src/packet.rs:10-38 | the destination is bytes 16 to 19 of a packet of version 4 whose header has at least five words and fits; other packets have none |
| `Routing.PacketIsSentExactlyWhen` | crates/tfscale-custom/src/lib.rs:539-581 | in every reachable state a packet for a peer's address is sent if and only if there is a session, a counter is left, the write succeeds and the path is Relay or a transport is bound; a counter is used whenever there is one, and a relay message names this device as its source |
| `Routing.PacketIsNotSent` | crates/tfscale-custom/src/lib.rs:539-549 | a packet for no address is refused as such, one for an address no peer owns as that |
| `Routing.PacketIsSealedForOwner` | crates/tfscale-custom/src/lib.rs:539-581 | in every reachable state a packet that is sent is sealed by the session of the one peer owning the address in its bytes 16 to 19, and goes through the relay exactly if that peer's path is Relay |
| `Routing.RuntimesMatch` | crates/tfscale-custom/src/lib.rs:981-1018 | two devices that know each other hold matching sessions however long each has run |
| `Routing.DataFrameOpens` | crates/tfscale-custom/src/lib.rs:656-702 | a data frame of the matching session is handed out as its packet exactly when the window has room |
| `Routing.OverlayDelivery` | crates/tfscale-custom/src/lib.rs:539-702 | what A sends for a packet to B's address, by UDP or relay, is for B, and B's runtime hands out exactly that packet if and only if its window has room for A's counter |
| `Routing.ProbeRoundTrip` | crates/tfscale-custom/src/lib.rs:656-761 | whatever two devices that know each other have done: a probe of A that reaches B over UDP is answered to where it came from and makes B's path to A Direct to there; the answer makes A's path to B Direct to where it came from, with the time A's own clock has advanced since the probe was stamped |
| `Routing.RefusedExactlyWhen` | crates/tfscale-custom/src/lib.rs:656-701 | a received frame is refused, with nothing changed, exactly if it does not decode, comes from no known device, from one without a session, or is refused by the session |
| `Routing.RelayedExactly` | crates/tfscale-custom/src/lib.rs:646-654 | what comes through the relay changes no path and is not answered; anything but a frame is passed over and a frame must be base64 |
| `Fleets.SealingsAreOwn` | crates/tfscale-custom/src/lib.rs:539-740 | whatever a step of a runtime seals is sealed under its own id; data only by sending, at most once, and exactly the packet that was to be sent |
| `Fleets.SentIsSealed` | crates/tfscale-custom/src/lib.rs:539-581 | what goes out for a packet is the one frame sealed for it |
| `Fleets.OutputIsSealed` | crates/tfscale-custom/src/lib.rs:539-740 | whatever a step hands to the network is one of the frames it is said to seal |
| `Fleets.SeenShows` | crates/tfscale-custom/src/lib.rs:539-740 | a run of many devices is, for each of them between being built and being built again, a run of its own world, with the same packets handed out |
| `Fleets.PacketsWereSent` | crates/tfscale-custom/src/lib.rs:539-702 | over every run of any number of devices, which join and are configured anew at any time, and any network: the packets a device hands out until it is built again are charged to pairwise different steps at which the device they came from was given exactly that packet to send |
| `Fleets.OpeningsAreOwned` | crates/tfscale-custom/src/lib.rs:656-761 | the same for every frame a device opens, and so for every path it turns Direct: each is charged to a sealing of its own by the runtime of the device it was opened from |
| `Fleets.BuiltShows` | crates/tfscale-custom/src/lib.rs:118-134 | a device that is built, for the first time or anew, starts with new sessions and windows, keeps its bound transport, and every frame sealed so far is its owner's |
| `Names.CandidatesDistinct` | crates/tfscale-control/src/main.rs:555-582 | the candidate names are pairwise different after case folding |
| `Names.NormalizeVariant` | crates/tfscale-agent/src/dns.rs:183-185 | case and trailing dots of a query make no difference |
| `Names.FoldsCase` | crates/tfscale-agent/src/dns.rs:183-189 | folding identifies exactly the strings that differ in the case of ASCII letters alone |
| `Names.SuffixNormalizes` | crates/tfscale-agent/src/dns.rs:183-189 | a suffix may be given with dots around it and in any case |
| `Names.HostnameExactlyWhen` | crates/tfscale-control/src/main.rs:616-645 | a host name is accepted exactly if, without the white space around it, it is 1 to 63 letters, digits and hyphens with no hyphen at either end; and then in lower case |
| `Names.CandidatesAre` | crates/tfscale-control/src/main.rs:551-614 | the names tried for a device, spelled out: plain, with up to eight characters behind the last underscore of its id, and numbered |
| `Control.AvailableDnsName` | crates/tfscale-control/src/main.rs:555-582 | the search returns the first available candidate, or the conflict error |
| `Control.FoundNameIsFree` | crates/tfscale-control/src/main.rs:555-604 | a found name is held by no other device in any case |
| `Control.FirstFreeWins` | crates/tfscale-control/src/main.rs:555-582 | the first free candidate wins |
| `Control.FreeHostnameBecomesName` | crates/tfscale-control/src/main.rs:555-565 | a host name whose plain name is free becomes exactly that name under .mesh |
| `Control.FreeExactlyWhen` | crates/tfscale-control/src/main.rs:584-604 | a name is free exactly if no other device's record is spelled the same up to case |
| `Control.ConflictNeedsHundredDevices` | crates/tfscale-control/src/main.rs:555-604 | the conflict error needs at least 100 other devices with A records |
| `Control.StaleReadFails` | crates/tfscale-control/src/main.rs:392-449 | a registration that read an outdated count cannot commit |
| `Control.CurrentReadCommitsExactlyWhen` | crates/tfscale-control/src/main.rs:378-460 | with the present count it commits exactly when id and machine key are new and a name is found |
| `Control.RegisterOk` | crates/tfscale-control/src/main.rs:394-449 | a committed registration adds one row with what was asked, one record with the name found and the address, and one allocation; it changes nothing else and keeps the table invariant |
| `Control.RenameOk` | crates/tfscale-control/src/main.rs:340-376 | a rename keeps the table invariant and all addresses |
| `Control.RenameExactlyWhen` | crates/tfscale-control/src/main.rs:340-376 | renaming succeeds exactly for a valid host name, a live device and when a name is found; the row then has that host name and the record the name found for it, and nothing else changes |
| `Control.DeleteOk` | crates/tfscale-control/src/main.rs:310-338 | a deletion keeps the table invariant and releases no address |
| `Control.DeleteExactlyWhen` | crates/tfscale-control/src/main.rs:310-338 | deleting succeeds exactly for a live device, which is then neither live nor in the records; nothing else changes |
| `Control.ControlPlane.CommitRegistration` | crates/tfscale-control/src/main.rs:394-449 | all or nothing, as the transaction on values says; it commits only for the present count and keeps the table invariant |
| `Control.ControlPlane.FindExisting` | crates/tfscale-control/src/main.rs:848-870 | finds the one live device of a machine key, if there is one |
| `Control.ControlPlane.Register` | crates/tfscale-control/src/main.rs:378-460 | without interruption: a registered machine gets the device it has, another one the next address exactly when it is authorized, its host name is valid and the tables have room; an error changes nothing |
| `Control.ControlPlane.Rename` | crates/tfscale-control/src/main.rs:340-376 | all or nothing, as the transaction on values says; the table invariant is kept |
| `Control.ControlPlane.Delete` | crates/tfscale-control/src/main.rs:310-338 | all or nothing, as the transaction on values says; the table invariant is kept |
| `ControlRuns.ExecInv` | crates/tfscale-control/src/main.rs:310-460 | every interleaving keeps the tables in order, and device rows are never removed |
| `ControlRuns.AllocationIsExact` | crates/tfscale-control/src/main.rs:984-995 | after any interleaving the allocated octets are exactly 2 to n + 1, at most 253 devices were ever created, and no two share an address |
| `ControlRuns.OnlyCurrentReadsCommit` | crates/tfscale-control/src/main.rs:378-460 | in every reachable state a registration commits only if its count is still the count |
| `ControlRuns.AddressesAreNeverReused` | crates/tfscale-control/src/main.rs:984-995 | a later device never has the address of an earlier one, deleted or not |
| `ControlRuns.CredentialsNeverChange` | crates/tfscale-control/src/main.rs:394-416 | the credential a device registered with is the one in its row ever after |
| `ControlRuns.DeletedMachineNeverReturns` | crates/tfscale-control/src/main.rs:848-870 | once its device is deleted, a machine key is never live again |
| `ControlRuns.RegistrationCommits` | crates/tfscale-control/src/main.rs:378-460 | after any run, an uninterrupted registration creates a device exactly if the machine has none, it is authorized and the tables allow it |
| `ControlRuns.DeletedIsGone` | crates/tfscale-control/src/main.rs:310-338 | after any run, a deleted device is live in no later state and has no record there |
| `ControlRuns.RenamedHasName` | crates/tfscale-control/src/main.rs:340-376 | after any run, renaming a live device to a valid and free host name gives it exactly that name and keeps its address |
| `Dns.ParseQueryLoop` | crates/tfscale-agent/src/dns.rs:134-181 | the label loop ends, reads in bounds and agrees with the recursive reading of the message |
| `Dns.WrittenRequestParses` | crates/tfscale-agent/src/dns.rs:134-181 | a request written with any id, name, type and class parses to exactly these and ends where it was written to end, whatever follows |
| `Dns.AcceptedLabelsAreWritten` | crates/tfscale-agent/src/dns.rs:146-166 | conversely, whatever name is accepted stands in the message as labels of 1 to 63 bytes with their lengths, and a zero |
| `Dns.AcceptedExactlyWhen` | crates/tfscale-agent/src/dns.rs:134-181 | a message is accepted exactly if it has 12 bytes, one question, a readable name and four bytes behind it; the first failure is reported |
| `Dns.BuildResponse` | crates/tfscale-agent/src/dns.rs:91-123 | a response is built exactly for the requests that parse, with the header, question and answer given |
| `Dns.ResponseReparses` | crates/tfscale-agent/src/dns.rs:91-181 | every response parses as a query with the same id, name, type, class and question end and is at most 16 bytes longer; its bytes say authoritative response, code 0, 3 or 4, the question unchanged and one answer exactly if the resolver answered: a pointer to the question name at offset 12, type A, class IN, 30 seconds, the address |
| `Resolver.AddressParses` | crates/tfscale-control/src/main.rs:984-995 | the address text the control plane writes is read back as that address |
| `Resolver.AddressExactlyWhen` | crates/tfscale-agent/src/dns.rs:82-88 | an address is read from exactly one text, its dotted decimal form |
| `Resolver.ResolvesExactlyWhen` | crates/tfscale-agent/src/dns.rs:76-89 | for any records: a name under the suffix resolves to what the first A record of that name spells, any other to nothing |
| `Resolver.TableResolves` | crates/tfscale-agent/src/dns.rs:76-89 | for tables in order, a query resolves to the address of the device with that folded name and to nothing if there is none |
| `Resolver.LiveNamesResolve` | crates/tfscale-agent/src/dns.rs:76-89 | after any run of the control plane, whatever the record order, a query that normalizes to a live device's name gives that device's address and any other none |
| `Resolver.WireAnswer` | crates/tfscale-agent/src/dns.rs:91-123 | after any run of the control plane, a request that writes a live device's name in any case is answered under its id with code 0 and one record ending in that device's address; one that writes a name no live device holds, with code 3 and no record |
| `Relay.ExecInv` | crates/tfscale-relay/src/main.rs:76-194 | every interleaving of registering, leaving, look-up, send, count and write-out keeps the router's invariant |
| `Relay.QueuesAreFaithful` | crates/tfscale-relay/src/main.rs:89-192 | what a session has taken and still holds is exactly the sequence routed into it, in order and unmodified, all addressed to the device it registered |
| `Relay.RoutingsAreConserved` | crates/tfscale-relay/src/main.rs:89-112 | every frame is in flight or was sent exactly once, and is then uncounted or counted; routed plus dropped is the number of completed routings, modulo 2^64 |
| `Relay.RegisteredDeviceReceives` | crates/tfscale-relay/src/main.rs:76-112 | over all interleavings: after a device registers on a new connection, until it registers again, leaves or that queue ends, every look-up for it finds that connection; if the send comes before the queue ends, the frame becomes the last of that queue, and counting it counts one more as routed |
| `Relay.LeftDeviceReceivesNothing` | crates/tfscale-relay/src/main.rs:85-112 | after a connection is unregistered, until its device registers again, look-ups for it find nothing and its frames are dropped and counted so |
| `Relay.DropEndsQueue` | crates/tfscale-relay/src/main.rs:103-112 | a queue whose receiving end is gone takes nothing in and gives nothing out for ever |
| `Relay.WriteOutTakesOldest` | crates/tfscale-relay/src/main.rs:183-188 | a session loop writes out the oldest message of its queue |
| `Relay.RelayState.Register` | crates/tfscale-relay/src/main.rs:77-83 | the device is then reached through the new connection, whose queue is open and empty; a session of the same id is replaced and others stay |
| `Relay.RelayState.Unregister` | crates/tfscale-relay/src/main.rs:85-87 | removes by id |
| `Relay.RelayState.LookUp` | crates/tfscale-relay/src/main.rs:97-102 | the first third of routing, under the lock |
| `Relay.RelayState.SendTo` | crates/tfscale-relay/src/main.rs:103-104 | the second third: queued exactly if the queue found is still open |
| `Relay.RelayState.Count` | crates/tfscale-relay/src/main.rs:105-111 | the last third: one more routed or one more dropped, as the send went |
| `Relay.RelayState.RouteFrame` | crates/tfscale-relay/src/main.rs:89-112 | without interruption the three thirds deliver exactly when the destination has an open session; anything but a frame changes nothing |
| `Relay.RelayState.WriteOut` | crates/tfscale-relay/src/main.rs:183-188 | takes the oldest message of the queue |
| `Relay.RelayState.DropQueue` | crates/tfscale-relay/src/main.rs:147-194 | a session that ends takes the receiving end of its queue with it; what was queued stays accounted for |
| `Mesh.MappedAddressesAreDistinct` | crates/tfscale-control/src/main.rs:762-787 | the overlay addresses of any peer list the control plane hands out are distinct |
| `Mesh.MapKnows` | crates/tfscale-control/src/main.rs:762-787 | a peer list from the control plane knows every other live device, under the credential that device registered with |
| `Mesh.NameLeadsToDevice` | crates/tfscale-agent/src/dns.rs:76-89 | after any run of the control plane, a live device's name, in any case and with any trailing dots, resolves at another device to an address which that device's runtime routes to it |
| `Mesh.NamedPacketIsDelivered` | crates/tfscale-custom/src/lib.rs:539-702 | with peer lists from any states of the control plane, a packet that A sends to the address B's name resolves to is for B, and B's runtime hands out exactly that packet if and only if its window has room for A's counter |
| `Mesh.RelayedPacketArrives` | crates/tfscale-custom/src/lib.rs:646-654 | whatever the relay's interleaving, a session given A's relay message for a packet to B is B's, and B's runtime makes exactly that packet of it if and only if its window has room |
| `Mesh.DeletedLeavesTheMesh` | crates/tfscale-control/src/main.rs:310-338 | after any run in which a device is deleted, no peer list from any later state holds it, and its old name resolves to nothing until another device takes it |

## Left out

- Sockets, TUN devices, threads, the start and stop code, JSON and files: each method of the runtime is one atomic step.
- The inside of the cryptography, base64, the UUID parser and the UTF-8 decoder: parameters, with the laws listed above.
- Transport statistics (packets and drops sent and received) and the status reports made from them.
- `peer_crypto_material_by_device` and `allowed_routes`, which no modelled operation reads.
- How the socket or the relay connection writes: only whether a write succeeded is an argument.
- Replay claims across rebuilds of the receiving session: its window restarts there. The sender may be rebuilt at any time.
- That different devices have different frame ids: it rests on the UUIDs and their parser, and is a premise of `Mesh.NamedPacketIsDelivered`.
- Survival of the relay list across a new peer map: setting relays and rebuilding are independent steps.
- Error replies of the relay to a sender, which do not pass through a queue, and which of two sessions with one id stays reachable.
- Auth keys, node keys, heartbeats, endpoint rows and `network_map_version`; row ids of allocations and DNS records; texts of error messages. Whether an auth key is valid is an argument of `ControlRuns.Begin`.
- DNS labels longer than 63 bytes made by suffixing a name, and a 512-byte limit on responses, which the code does not enforce.
- The agent's command line, doctor report, resolver and service installers, `tfscalectl`, the web console, scripts: plumbing and user interface.
