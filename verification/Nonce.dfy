/** The send-nonce counter and the 64-bit replay bitmap of one session.

    The bitmap is a 64-bit word, an integer below 2^64 that is shifted modulo 2^64; what it means
    is given by a plain set of accepted counters, and the two are shown to agree on every sequence
    of counters. */
module Nonces {
  import opened Prelude
  import BigEndian

  const NONCE_LEN := 24
  const REPLAY_WINDOW_BITS := 64
  const COUNTER_MAX: u64 := U64_LIMIT - 1

  type Octets8 = s: Bytes | |s| == 8 witness [0, 0, 0, 0, 0, 0, 0, 0]
  type Nonce = s: Bytes | |s| == NONCE_LEN
    witness [0, 0, 0, 0, 0, 0, 0, 0, 0, 0, 0, 0, 0, 0, 0, 0, 0, 0, 0, 0, 0, 0, 0, 0]

  datatype NonceError = CounterExhausted | StaleNonce | ReplayedNonce

  // ---------------------------------------------------------------- nonces

  function NonceAt(prefix: Octets8, salt: Octets8, counter: u64): (nonce: Nonce)
  {
    prefix + salt + BigEndian.Encode(counter, 8)
  }

  function NonceCounter(nonce: Nonce): (counter: u64)
  {
    BigEndian.EncodeDecode(nonce[16..]);
    BigEndian.WordSize();
    BigEndian.Decode(nonce[16..])
  }

  /** A nonce gives back each of the three parts it was made of. */
  lemma NonceParts(prefix: Octets8, salt: Octets8, counter: u64)
    ensures var nonce := NonceAt(prefix, salt, counter);
            NonceCounter(nonce) == counter && nonce[..8] == prefix && nonce[8..16] == salt
  {
    BigEndian.WordSize();
    BigEndian.DecodeEncode(counter, 8);
    assert NonceAt(prefix, salt, counter)[16..] == BigEndian.Encode(counter, 8);
  }

  /** Conversely the three parts determine the nonce. */
  lemma NonceFromParts(nonce: Nonce)
    ensures nonce == NonceAt(nonce[..8], nonce[8..16], NonceCounter(nonce))
  {
    BigEndian.EncodeDecode(nonce[16..]);
  }

  class SendNonceState {
    const directionPrefix: Octets8
    const sessionSalt: Octets8
    var counter: u64
    /** Every nonce handed out so far, oldest first. */
    ghost var issued: seq<Nonce>

    ghost predicate Valid()
      reads this
    {
      && |issued| == counter
      && forall k :: 0 <= k < |issued| ==> issued[k] == NonceAt(directionPrefix, sessionSalt, k)
    }

    constructor WithSalt(prefix: Octets8, salt: Octets8)
      ensures Valid() && directionPrefix == prefix && sessionSalt == salt
      ensures counter == 0 && issued == []
    {
      directionPrefix, sessionSalt, counter, issued := prefix, salt, 0, [];
    }

    method Next() returns (r: Result<Nonce, NonceError>)
      requires Valid()
      modifies this
      ensures Valid()
      ensures r.Err? <==> old(counter) == 0xFFFF_FFFF_FFFF_FFFF
      ensures r.Err? ==> r.error == CounterExhausted && counter == old(counter) && issued == old(issued)
      ensures r.Ok? ==> counter == old(counter) + 1 && issued == old(issued) + [r.value]
    {
      if counter == COUNTER_MAX {
        return Err(CounterExhausted);
      }
      var nonce := new byte[NONCE_LEN];
      var word := BigEndian.Encode(counter, 8);
      forall i | 0 <= i < 8 { nonce[i] := directionPrefix[i]; }
      forall i | 0 <= i < 8 { nonce[8 + i] := sessionSalt[i]; }
      forall i | 0 <= i < 8 { nonce[16 + i] := word[i]; }
      assert nonce[..] == NonceAt(directionPrefix, sessionSalt, counter);
      issued := issued + [nonce[..]];
      counter := counter + 1;
      r := Ok(nonce[..]);
    }
  }

  /** The k-th nonce of a send state carries counter k, and no two are equal. */
  lemma IssuedNoncesAreDistinct(s: SendNonceState, j: nat, k: nat)
    requires s.Valid() && j < |s.issued| && k < |s.issued|
    ensures NonceCounter(s.issued[k]) == k && s.issued[k][23] == k % 256 && s.issued[k][16] == k / 0x100_0000_0000_0000
    ensures s.issued[j] == s.issued[k] <==> j == k
  {
    NonceParts(s.directionPrefix, s.sessionSalt, j);
    NonceParts(s.directionPrefix, s.sessionSalt, k);
    CounterBytes(k);
  }

  /** The counter stands in the nonce with its most significant byte first. */
  lemma CounterBytes(counter: u64)
    ensures var word := BigEndian.Encode(counter, 8);
            word[0] == counter / 0x100_0000_0000_0000 && word[7] == counter % 256
  {
    BigEndian.WordEnds(counter);
  }

  // ---------------------------------------------------------------- bits of a 64-bit word

  function Pow2(n: nat): (p: nat)
    ensures p > 0
  {
    if n == 0 then 1 else 2 * Pow2(n - 1)
  }

  /** Bit i of a word, counted from the least significant. */
  predicate Bit(word: nat, i: nat)
  {
    if i == 0 then word % 2 == 1 else Bit(word / 2, i - 1)
  }

  /** `word << k` on 64 bits, one place at a time; what leaves the word is lost. */
  function Shl(word: u64, k: nat): (r: u64)
  {
    if k == 0 then word else (2 * Shl(word, k - 1)) % U64_LIMIT
  }

  /** `word | (1 << k)` on 64 bits. */
  function WithBit(word: u64, k: nat): (r: u64)
    requires k < 64
    ensures Bit(r, k)
  {
    AddBitFits(word, k, 64);
    WordPow2();
    AddBitBits(word, k, k);
    if Bit(word, k) then word else word + Pow2(k)
  }

  lemma WordPow2()
    ensures Pow2(64) == U64_LIMIT && Pow2(63) == U64_LIMIT / 2
  {
    assert Pow2(8) == 256 by { assert Pow2(4) == 16; }
    assert Pow2(16) == 0x1_0000 by { assert Pow2(12) == 0x1000; }
    assert Pow2(24) == 0x100_0000 by { assert Pow2(20) == 0x10_0000; }
    assert Pow2(32) == 0x1_0000_0000 by { assert Pow2(28) == 0x1000_0000; }
    assert Pow2(40) == 0x100_0000_0000 by { assert Pow2(36) == 0x10_0000_0000; }
    assert Pow2(48) == 0x1_0000_0000_0000 by { assert Pow2(44) == 0x1000_0000_0000; }
    assert Pow2(56) == 0x100_0000_0000_0000 by { assert Pow2(52) == 0x10_0000_0000_0000; }
    assert Pow2(60) == 0x1000_0000_0000_0000;
  }

  lemma DoubleMod(m: nat)
    ensures (2 * (m % U64_LIMIT)) % U64_LIMIT == (2 * m) % U64_LIMIT
  {
    var q, r := m / U64_LIMIT, m % U64_LIMIT;
    if 2 * r < U64_LIMIT {
      assert 2 * m == U64_LIMIT * (2 * q) + 2 * r;
    } else {
      assert 2 * m == U64_LIMIT * (2 * q + 1) + (2 * r - U64_LIMIT);
    }
  }

  lemma MoveTwo(a: nat, b: nat)
    ensures a * (2 * b) == 2 * (a * b)
  {
  }

  /** `Shl` is multiplication by a power of two, modulo the word size. */
  lemma {:induction false} ShlIsMultiplication(word: u64, k: nat)
    ensures Shl(word, k) == (word * Pow2(k)) % U64_LIMIT
  {
    if k > 0 {
      ShlIsMultiplication(word, k - 1);
      var p := Pow2(k - 1);
      assert Pow2(k) == 2 * p && Shl(word, k) == (2 * Shl(word, k - 1)) % U64_LIMIT;
      hide Pow2, Shl;
      MoveTwo(word, p);
      DoubleMod(word * p);
    }
  }

  lemma {:induction false} HighBitClear(word: nat, n: nat)
    requires word < Pow2(n)
    ensures !Bit(word, n)
  {
    if n > 0 {
      HighBitClear(word / 2, n - 1);
    }
  }

  lemma DoubleModHalf(word: u64)
    ensures (2 * word) % U64_LIMIT == 2 * (word % (U64_LIMIT / 2))
  {
    var low := if word < U64_LIMIT / 2 then word else word - U64_LIMIT / 2;
    assert word % (U64_LIMIT / 2) == low;
    assert (2 * word) % U64_LIMIT == 2 * low;
  }

  lemma DoubleBit(word: u64, i: nat)
    requires i < 64
    ensures Bit((2 * word) % U64_LIMIT, i) <==> i > 0 && Bit(word, i - 1)
  {
    WordPow2();
    var low := word % Pow2(63);
    DoubleModHalf(word);
    HighBitClear(low, 63);
    if i > 0 && word != low {
      AddBitBits(low, 63, i - 1);
    }
  }

  /** A left shift by k moves bit i - k to bit i and clears the k lowest bits. */
  lemma {:induction false} ShiftBits(word: u64, k: nat, i: nat)
    requires i < 64
    ensures Bit(Shl(word, k), i) <==> i >= k && Bit(word, i - k)
    decreases k
  {
    if k > 0 {
      DoubleBit(Shl(word, k - 1), i);
      if i > 0 {
        ShiftBits(word, k - 1, i - 1);
      }
    }
  }

  lemma {:induction false} AddBitFits(word: nat, k: nat, n: nat)
    requires k < n
    ensures word < Pow2(n) && !Bit(word, k) ==> word + Pow2(k) < Pow2(n)
  {
    if k > 0 {
      var half, p, q := word / 2, Pow2(k - 1), Pow2(n - 1);
      AddBitFits(half, k - 1, n - 1);
      assert Pow2(n) == 2 * q && Pow2(k) == 2 * p && Bit(word, k) == Bit(half, k - 1);
      hide Bit, Pow2;
      assert word <= 2 * half + 1;
      assert half + p < q ==> word + 2 * p < 2 * q;
    }
  }

  lemma {:induction false} AddBitBits(word: nat, k: nat, i: nat)
    ensures !Bit(word, k) ==> (Bit(word + Pow2(k), i) <==> i == k || Bit(word, i))
  {
    if k > 0 && i > 0 {
      AddBitBits(word / 2, k - 1, i - 1);
    }
  }

  /** Setting bit k changes bit k alone. */
  lemma WithBitBits(word: u64, k: nat, i: nat)
    requires k < 64
    ensures Bit(WithBit(word, k), i) <==> i == k || Bit(word, i)
  {
    AddBitBits(word, k, i);
  }

  // ---------------------------------------------------------------- the replay window

  datatype Window = Window(highest: Option<u64>, seen: u64)

  const EMPTY_WINDOW := Window(None, 0)

  function AcceptCounter(w: Window, counter: u64): (r: Result<Window, NonceError>)
  {
    match w.highest
    case None => Ok(Window(Some(counter), 1))
    case Some(highest) =>
      if counter > highest then
        var shift := counter - highest;
        Ok(Window(Some(counter),
                  if shift >= REPLAY_WINDOW_BITS then 1 else WithBit(Shl(w.seen, shift), 0)))
      else
        var behind := highest - counter;
        if behind >= REPLAY_WINDOW_BITS then Err(StaleNonce)
        else
          if Bit(w.seen, behind) then Err(ReplayedNonce) else Ok(w.(seen := WithBit(w.seen, behind)))
  }

  /** What the window stands for: a set of accepted counters. */
  ghost predicate Tracks(w: Window, accepted: set<u64>)
  {
    match w.highest
    case None => accepted == {}
    case Some(highest) =>
      && highest in accepted
      && (forall a :: a in accepted ==> a <= highest)
      && (forall i :: 0 <= i < 64 ==> (Bit(w.seen, i) <==> highest - i in accepted))
  }

  /** The simple rule: a counter is fresh when it was never accepted and lies less than 64 below
      every accepted one. */
  ghost predicate Fresh(accepted: set<u64>, counter: u64)
  {
    counter !in accepted && forall a :: a in accepted ==> a < counter + 64
  }

  lemma OneBit(i: nat)
    ensures Bit(1, i) <==> i == 0
  {
    WithBitBits(0, 0, i);
    if i > 0 {
      HighBitClear(0, i);
    }
  }

  lemma AdvanceTracks(w: Window, accepted: set<u64>, counter: u64)
    requires Tracks(w, accepted) && w.highest.Some? && counter > w.highest.value
    ensures Tracks(AcceptCounter(w, counter).value, accepted + {counter})
  {
    var highest := w.highest.value;
    var shift := counter - highest;
    var w' := AcceptCounter(w, counter).value;
    forall i | 0 <= i < 64
      ensures Bit(w'.seen, i) <==> counter - i in accepted + {counter}
    {
      if shift >= 64 {
        OneBit(i);
      } else {
        WithBitBits(Shl(w.seen, shift), 0, i);
        ShiftBits(w.seen, shift, i);
        assert i >= shift ==> highest - (i - shift) == counter - i;
      }
    }
  }

  lemma FillTracks(w: Window, accepted: set<u64>, counter: u64)
    requires Tracks(w, accepted) && w.highest.Some? && counter <= w.highest.value
    requires w.highest.value - counter < 64
    ensures AcceptCounter(w, counter).Ok? <==> counter !in accepted
    ensures AcceptCounter(w, counter).Ok? ==> Tracks(AcceptCounter(w, counter).value, accepted + {counter})
  {
    var highest := w.highest.value;
    var behind := highest - counter;
    assert Bit(w.seen, behind) <==> highest - behind in accepted;
    forall i | 0 <= i < 64
      ensures Bit(WithBit(w.seen, behind), i) <==> highest - i in accepted + {counter}
    {
      WithBitBits(w.seen, behind, i);
      assert Bit(w.seen, i) <==> highest - i in accepted;
    }
  }

  /** One `accept` on the bitmap is one step of the simple rule on the set: stale means 64 or more behind
      some accepted counter, replayed means accepted before. */
  lemma AcceptRefinesSet(w: Window, accepted: set<u64>, counter: u64)
    requires Tracks(w, accepted)
    ensures AcceptCounter(w, counter).Ok? <==> Fresh(accepted, counter)
    ensures AcceptCounter(w, counter) == Err(StaleNonce) <==> exists a :: a in accepted && a >= counter + 64
    ensures AcceptCounter(w, counter) == Err(ReplayedNonce) <==>
            counter in accepted && forall a :: a in accepted ==> a < counter + 64
    ensures AcceptCounter(w, counter).Ok? ==> Tracks(AcceptCounter(w, counter).value, accepted + {counter})
  {
    match w.highest
    case None =>
      forall i | 0 <= i < 64
        ensures Bit(1, i) <==> counter - i in {counter}
      {
        OneBit(i);
      }
    case Some(highest) =>
      if counter > highest {
        AdvanceTracks(w, accepted, counter);
      } else if highest - counter < 64 {
        FillTracks(w, accepted, counter);
      }
  }

  /** The verdicts of a window on a sequence of counters, refused ones leaving it as it was. */
  function Verdicts(w: Window, counters: seq<u64>): (verdicts: seq<bool>)
    decreases |counters|
  {
    if counters == [] then [] else
    match AcceptCounter(w, counters[0])
    case Ok(w') => [true] + Verdicts(w', counters[1..])
    case Err(_) => [false] + Verdicts(w, counters[1..])
  }

  /** The verdicts of the simple rule. */
  ghost function SetVerdicts(accepted: set<u64>, counters: seq<u64>): (verdicts: seq<bool>)
    decreases |counters|
  {
    if counters == [] then [] else
    if Fresh(accepted, counters[0]) then [true] + SetVerdicts(accepted + {counters[0]}, counters[1..])
    else [false] + SetVerdicts(accepted, counters[1..])
  }

  lemma {:induction false} VerdictsAgree(w: Window, accepted: set<u64>, counters: seq<u64>)
    requires Tracks(w, accepted)
    ensures Verdicts(w, counters) == SetVerdicts(accepted, counters)
    decreases |counters|
  {
    if counters != [] {
      AcceptRefinesSet(w, accepted, counters[0]);
      match AcceptCounter(w, counters[0])
      case Ok(w') => VerdictsAgree(w', accepted + {counters[0]}, counters[1..]);
      case Err(_) => VerdictsAgree(w, accepted, counters[1..]);
    }
  }

  /** The bitmap gives, on every sequence of counters, exactly the verdicts of the plain set. */
  lemma BitmapRefinesSet(counters: seq<u64>)
    ensures Verdicts(EMPTY_WINDOW, counters) == SetVerdicts({}, counters)
  {
    VerdictsAgree(EMPTY_WINDOW, {}, counters);
  }

  class ReplayWindow {
    var highest: Option<u64>
    var seen: u64
    /** The counters accepted so far. */
    ghost var accepted: set<u64>

    function Value(): (w: Window)
      reads this
    {
      Window(highest, seen)
    }

    ghost predicate Valid()
      reads this
    {
      Tracks(Value(), accepted)
    }

    constructor ()
      ensures Valid() && Value() == EMPTY_WINDOW && accepted == {}
    {
      highest, seen, accepted := None, 0, {};
    }

    method Accept(nonce: Nonce) returns (r: Result<(), NonceError>)
      requires Valid()
      modifies this
      ensures Valid()
      ensures r.Ok? <==> Fresh(old(accepted), NonceCounter(nonce))
      ensures r.Ok? ==> accepted == old(accepted) + {NonceCounter(nonce)}
      ensures r.Ok? ==> AcceptCounter(old(Value()), NonceCounter(nonce)) == Ok(Value())
      ensures r.Err? ==> Value() == old(Value()) && accepted == old(accepted)
      ensures r.Err? ==> AcceptCounter(old(Value()), NonceCounter(nonce)) == Err(r.error)
    {
      var counter := NonceCounter(nonce);
      AcceptRefinesSet(Value(), accepted, counter);
      if highest.None? {
        highest, seen := Some(counter), 1;
      } else if counter > highest.value {
        var shift := counter - highest.value;
        if shift >= REPLAY_WINDOW_BITS {
          seen := 1;
        } else {
          seen := WithBit(Shl(seen, shift), 0);
        }
        highest := Some(counter);
      } else {
        var behind := highest.value - counter;
        if behind >= REPLAY_WINDOW_BITS {
          return Err(StaleNonce);
        }
        if Bit(seen, behind) {
          return Err(ReplayedNonce);
        }
        seen := WithBit(seen, behind);
      }
      accepted := accepted + {counter};
      r := Ok(());
    }
  }
}
