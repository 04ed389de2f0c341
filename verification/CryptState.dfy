/** The per-peer voice crypt state: a 128-bit counter of which only the low byte travels,
    rebuilt by the receiver under loss, reordering, duplication and forgery, guarded by a
    256-entry replay table. The receiver is specified over unbounded packet indices. */
module CryptState {
  import opened Bytes
  import opened Ocb2

  // ----- packet indices and their nonces -----

  type Iv = bs: seq<byte> | |bs| == BLOCK witness seq(BLOCK, _ => 0)

  /** A hexadecimal digit as bits, and back. */
  function Digit(n: nat): octet {
    match n
    case 0 => 0
    case 1 => 1
    case 2 => 2
    case 3 => 3
    case 4 => 4
    case 5 => 5
    case 6 => 6
    case 7 => 7
    case 8 => 8
    case 9 => 9
    case 10 => 10
    case 11 => 11
    case 12 => 12
    case 13 => 13
    case 14 => 14
    case _ => 15
  }

  function DigitValue(o: octet): nat
    ensures DigitValue(o) < 16
  {
    if o == 0 then 0 else if o == 1 then 1 else if o == 2 then 2 else if o == 3 then 3 else if o == 4 then 4
    else if o == 5 then 5 else if o == 6 then 6 else if o == 7 then 7 else if o == 8 then 8 else if o == 9 then 9
    else if o == 10 then 10 else if o == 11 then 11 else if o == 12 then 12 else if o == 13 then 13
    else if o == 14 then 14 else 15
  }

  lemma DigitRoundTrip(n: nat)
    requires n < 16
    ensures DigitValue(Digit(n)) == n && Digit(n) <= 15
  {
  }

  /** A number below 256 as eight bits, digit by digit, and back. */
  function ToOctet(b: byte): octet {
    Joined(Digit(b / 16), Digit(b % 16))
  }

  function Joined(high: octet, low: octet): octet {
    (high << 4) | low
  }

  function FromOctet(o: octet): byte {
    16 * DigitValue(o >> 4) + DigitValue(o & 0x0F)
  }

  lemma JoinedDigits(high: octet, low: octet)
    requires high <= 15 && low <= 15
    ensures Joined(high, low) >> 4 == high && Joined(high, low) & 0x0F == low
  {
  }

  lemma OctetRoundTrip(b: byte)
    ensures FromOctet(ToOctet(b)) == b
  {
    hide Digit, DigitValue, Joined;
    DigitRoundTrip(b / 16);
    DigitRoundTrip(b % 16);
    JoinedDigits(Digit(b / 16), Digit(b % 16));
  }

  /** The counter bytes as a cipher block. */
  function ToBlock(iv: Iv): Block {
    seq(BLOCK, i requires 0 <= i < BLOCK => ToOctet(iv[i]))
  }

  lemma ToBlockInjective(a: Iv, b: Iv)
    requires ToBlock(a) == ToBlock(b)
    ensures a == b
  {
    forall i | 0 <= i < BLOCK ensures a[i] == b[i] {
      assert ToBlock(a)[i] == ToBlock(b)[i];
      OctetRoundTrip(a[i]);
      OctetRoundTrip(b[i]);
    }
  }

  /** The counter bytes of packet index `n`: 128 bits, so indices wrap modulo 2^128. */
  function IvOf(n: int): Iv {
    LeBytes(n, BLOCK)
  }

  /** The nonce of packet index `n`. */
  function Nonce(n: int): Block {
    ToBlock(IvOf(n))
  }

  /** What the replay table keeps of an index: its second byte. */
  function SecondByte(n: int): byte {
    n / 256 % 256
  }

  lemma IvBytes(n: int)
    ensures IvOf(n)[0] == n % 256
    ensures IvOf(n)[1] == SecondByte(n)
    ensures IvOf(n)[1..] == LeBytes(n / 256, BLOCK - 1)
  {
    var rest := LeBytes(n / 256, BLOCK - 1);
    assert IvOf(n) == [n % 256] + rest;
    assert rest == [n / 256 % 256] + LeBytes(n / 256 / 256, BLOCK - 2);
  }

  /** Two indices less than 2^128 apart never share a nonce. */
  lemma NonceInjective(a: int, b: int)
    requires Nonce(a) == Nonce(b) && a - b < TWO_TO_128 && b - a < TWO_TO_128
    ensures a == b
  {
    ToBlockInjective(IvOf(a), IvOf(b));
    BlockModulus();
    var k := LeBytesInjective(a, b, BLOCK);
    MultipleTooLarge(k, TWO_TO_128, a - b);
  }

  lemma MultipleTooLarge(k: int, m: nat, x: int)
    requires x == k * m && x < m && -x < m
    ensures x == 0
  {
    assert k >= 1 ==> k * m >= m;
    assert k <= -1 ==> (-k) * m >= m;
  }

  /** Byte addition and subtraction wrap around. */
  function Succ(b: byte): byte {
    if b == 255 then 0 else b + 1
  }

  function Pred(b: byte): byte {
    if b == 0 then 255 else b - 1
  }

  /** Carry loop: add one to the little-endian number stored from byte `start` on. */
  method Increment(iv: Iv, start: nat, ghost n: int) returns (r: Iv)
    requires start <= BLOCK && iv[start..] == LeBytes(n, BLOCK - start)
    ensures r == iv[..start] + LeBytes(n + 1, BLOCK - start)
  {
    hide LeBytes;
    r := iv;
    var i := start;
    ghost var m := n;
    while i < BLOCK
      invariant start <= i <= BLOCK
      invariant r[i..] == LeBytes(m, BLOCK - i)
      invariant iv[..start] + LeBytes(n + 1, BLOCK - start) == r[..i] + LeBytes(m + 1, BLOCK - i)
    {
      LeBytesNext(m, BLOCK - i);
      ghost var tail := r[i + 1..];
      assert tail == r[i..][1..];
      r := r[i := Succ(r[i])];
      assert r[i + 1..] == tail;
      if r[i] != 0 {
        assert r == r[..i] + ([r[i]] + tail);
        return;
      }
      assert r[..i + 1] == r[..i] + [r[i]];
      m := m / 256;
      i := i + 1;
    }
  }

  lemma LeBytesNext(m: int, len: nat)
    requires len > 0
    ensures LeBytes(m, len)[0] == m % 256 && LeBytes(m, len)[1..] == LeBytes(m / 256, len - 1)
    ensures LeBytes(m + 1, len) == [Succ(m % 256)] + LeBytes(if m % 256 == 255 then m / 256 + 1 else m / 256, len - 1)
    ensures LeBytes(m - 1, len) == [Pred(m % 256)] + LeBytes(if m % 256 == 0 then m / 256 - 1 else m / 256, len - 1)
  {
    hide LeBytes;
    LeBytesUnfold(m, len);
    LeBytesUnfold(m + 1, len);
    LeBytesUnfold(m - 1, len);
    NextByte(m);
  }

  lemma LeBytesUnfold(m: int, len: nat)
    requires len > 0
    ensures LeBytes(m, len) == [m % 256] + LeBytes(m / 256, len - 1)
  {
  }

  lemma NextByte(m: int)
    ensures (m + 1) % 256 == Succ(m % 256) && (m + 1) / 256 == if m % 256 == 255 then m / 256 + 1 else m / 256
    ensures (m - 1) % 256 == Pred(m % 256) && (m - 1) / 256 == if m % 256 == 0 then m / 256 - 1 else m / 256
  {
  }

  /** Borrow loop: subtract one from the little-endian number stored from byte `start` on. */
  method Decrement(iv: Iv, start: nat, ghost n: int) returns (r: Iv)
    requires start <= BLOCK && iv[start..] == LeBytes(n, BLOCK - start)
    ensures r == iv[..start] + LeBytes(n - 1, BLOCK - start)
  {
    hide LeBytes;
    r := iv;
    var i := start;
    ghost var m := n;
    while i < BLOCK
      invariant start <= i <= BLOCK
      invariant r[i..] == LeBytes(m, BLOCK - i)
      invariant iv[..start] + LeBytes(n - 1, BLOCK - start) == r[..i] + LeBytes(m - 1, BLOCK - i)
    {
      LeBytesNext(m, BLOCK - i);
      ghost var tail := r[i + 1..];
      assert tail == r[i..][1..];
      var was := r[i];
      r := r[i := Pred(was)];
      assert r[i + 1..] == tail;
      if was != 0 {
        assert r == r[..i] + ([r[i]] + tail);
        return;
      }
      assert r[..i + 1] == r[..i] + [r[i]];
      m := m / 256;
      i := i + 1;
    }
  }

  // ----- the receiver, over packet indices -----

  /** How far back a packet may be and still count as late. */
  const LATE_WINDOW: int := 30

  /** The receiving half: the highest index seen, the replay table (second byte of the last
      accepted index, by low byte) and the three 32-bit packet counts. */
  datatype Receiver = Receiver(high: int, table: seq<byte>, good: nat, late: nat, lost: nat) {
    predicate Valid() {
      |table| == 256 && good < U32 && late < U32 && lost < U32
    }
  }

  datatype Verdict = Refused | Accepted(index: int, plain: seq<octet>)

  /** The signed step from `high` to the nearest index whose low byte is `low`. */
  function Offset(high: int, low: byte): int {
    var raw := low - high % 256;
    if raw > 128 then raw - 256 else if raw < -128 then raw + 256 else raw
  }

  predicate InWindow(d: int) {
    -LATE_WINDOW < d && d != 0
  }

  /** The index a packet is taken to have, if any. */
  function Rebuild(high: int, low: byte): Option<int> {
    var d := Offset(high, low);
    if InWindow(d) then Some(high + d) else None
  }

  /** Whether the replay table refuses index `n`; the next index in order is not looked up. */
  predicate Replayed(r: Receiver, n: int)
    requires r.Valid()
  {
    n != r.high + 1 && r.table[n % 256] == SecondByte(n)
  }

  /** The receiver's decision on one packet. */
  function Decide(m: Mode, r: Receiver, packet: seq<octet>): Verdict
    requires r.Valid()
  {
    if |packet| < 4 then Refused else
    match Rebuild(r.high, FromOctet(packet[0]))
    case None => Refused
    case Some(n) =>
      if Replayed(r, n) then Refused else
      var clear := m.unseal(Nonce(n), packet[4..]);
      if clear.1[..3] == packet[1..4] then Accepted(n, clear.0) else Refused
  }

  /** Bookkeeping for an accepted index. */
  function Receive(r: Receiver, n: int): Receiver
    requires r.Valid()
  {
    Receiver(if n > r.high then n else r.high,
             r.table[n % 256 := SecondByte(n)],
             (r.good + 1) % U32,
             (r.late + if n < r.high then 1 else 0) % U32,
             (r.lost + if n > r.high then n - r.high - 1 else 0) % U32)
  }

  function Step(m: Mode, r: Receiver, packet: seq<octet>): (r': Receiver)
    requires r.Valid()
    ensures r'.Valid()
  {
    match Decide(m, r, packet)
    case Refused => r
    case Accepted(n, _) => Receive(r, n)
  }

  // ----- which indices are rebuilt -----

  lemma OffsetIsCongruent(high: int, low: byte)
    ensures (high + Offset(high, low)) % 256 == low
    ensures -128 <= Offset(high, low) <= 128
  {
  }

  /** The receiver rebuilds a sender's index exactly when it lies from 29 below to 127 above its
      own, not on it; 128 above also works as long as no byte carry is involved. */
  lemma RebuildExactly(high: int, n: int)
    ensures Rebuild(high, n % 256) == Some(n)
       <==> (-29 <= n - high <= 127 && n != high) || (n - high == 128 && high % 256 < 128)
  {
    OffsetIsCongruent(high, n % 256);
    var d := Offset(high, n % 256);
    if -128 <= n - high <= 128 && d != n - high {
      // Two steps of at most 128 with the same low byte differ by 256.
      assert d - (n - high) == 256 || d - (n - high) == -256 by {
        SameResidue(high + d, n);
      }
    }
  }

  lemma SameResidue(a: int, b: int)
    requires a % 256 == b % 256 && a != b && -256 <= a - b <= 256
    ensures a - b == 256 || a - b == -256
  {
  }

  // ----- delivery -----

  /** The packet a sender makes for index `n`. */
  function Packet(m: Mode, n: int, plain: seq<octet>): seq<octet> {
    var sealed := m.seal(Nonce(n), plain);
    [ToOctet(n % 256)] + sealed.1[..3] + sealed.0
  }

  lemma PacketParts(m: Mode, n: int, plain: seq<octet>)
    ensures var p := Packet(m, n, plain); var sealed := m.seal(Nonce(n), plain);
            |p| >= 4 && FromOctet(p[0]) == n % 256 && p[1..4] == sealed.1[..3] && p[4..] == sealed.0
  {
    var p, sealed := Packet(m, n, plain), m.seal(Nonce(n), plain);
    OctetRoundTrip(n % 256);
    assert p[1..4] == sealed.1[..3];
    assert p[4..] == sealed.0;
  }

  /** A sender's packet is delivered with its plaintext, under its own index, exactly when the
      index can be rebuilt and the replay table does not refuse it. */
  lemma DeliveredExactly(m: Mode, r: Receiver, n: int, plain: seq<octet>)
    requires m.Inverse() && r.Valid()
    ensures Decide(m, r, Packet(m, n, plain)) == Accepted(n, plain)
       <==> Rebuild(r.high, n % 256) == Some(n) && !Replayed(r, n)
  {
    PacketParts(m, n, plain);
  }

  lemma {:induction false} OctetOfNumber(o: octet)
    ensures ToOctet(FromOctet(o)) == o
  {
    hide Digit, DigitValue, Joined;
    HalvesOf(o);
    DigitOfValue(o >> 4);
    DigitOfValue(o & 0x0F);
  }

  lemma HalvesOf(o: octet)
    ensures o >> 4 <= 15 && o & 0x0F <= 15 && Joined(o >> 4, o & 0x0F) == o
  {
  }

  lemma DigitOfValue(d: octet)
    requires d <= 15
    ensures Digit(DigitValue(d)) == d
  {
  }

  /** A packet of whatever origin is accepted exactly when it is long enough, its index is rebuilt
      from its first byte and not refused by the replay table, and the next three bytes are the start
      of the tag that the rest opens with. */
  lemma AcceptedExactly(m: Mode, r: Receiver, packet: seq<octet>, n: int, plain: seq<octet>)
    requires r.Valid()
    ensures Decide(m, r, packet) == Accepted(n, plain) <==>
              && |packet| >= 4 && Rebuild(r.high, FromOctet(packet[0])) == Some(n)
              && !(n != r.high + 1 && r.table[n % 256] == n / 256 % 256)
              && m.unseal(Nonce(n), packet[4..]).0 == plain
              && m.unseal(Nonce(n), packet[4..]).1[0..3] == packet[1..4]
  {
    hide Rebuild, FromOctet, Nonce;
  }

  /** So what is accepted is, byte for byte, the packet that a sender makes for that index and plaintext:
      nothing forged or altered gets through. */
  lemma AcceptedIsGenuine(m: Mode, r: Receiver, packet: seq<octet>, n: int, plain: seq<octet>)
    requires m.Onto() && r.Valid() && Decide(m, r, packet) == Accepted(n, plain)
    ensures packet == Packet(m, n, plain)
  {
    hide FromOctet, ToOctet, Nonce, Decide;
    AcceptedExactly(m, r, packet, n, plain);
    OffsetIsCongruent(r.high, FromOctet(packet[0]));
    OctetOfNumber(packet[0]);
    assert FromOctet(packet[0]) == n % 256;
    var sealed := m.seal(Nonce(n), plain);
    assert sealed == (packet[4..], m.unseal(Nonce(n), packet[4..]).1);
    assert packet == [packet[0]] + packet[1..4] + packet[4..];
  }

  // ----- runs -----

  /** The receiver after a run of arbitrary packets. */
  function Run(m: Mode, r: Receiver, packets: seq<seq<octet>>): (r': Receiver)
    requires r.Valid()
    ensures r'.Valid()
  {
    if packets == [] then r
    else Step(m, Run(m, r, packets[..|packets| - 1]), packets[|packets| - 1])
  }

  /** The indices accepted during a run, in order of acceptance. */
  function AcceptedIn(m: Mode, r: Receiver, packets: seq<seq<octet>>): seq<int>
    requires r.Valid()
  {
    if packets == [] then []
    else
      var before := packets[..|packets| - 1];
      var acc := AcceptedIn(m, r, before);
      match Decide(m, Run(m, r, before), packets[|packets| - 1])
      case Refused => acc
      case Accepted(n, _) => acc + [n]
  }

  /** What every run keeps: accepted indices are distinct, none is above the high-water mark, and
      each one still inside the late window is recorded in the replay table. */
  ghost predicate Guarded(r: Receiver, acc: seq<int>)
    requires r.Valid()
  {
    && NoRepeats(acc)
    && (forall n :: n in acc ==> n <= r.high)
    && (forall n :: n in acc && n > r.high - LATE_WINDOW ==> r.table[n % 256] == SecondByte(n))
  }

  /** An accepted index is new, and recording it cannot overwrite an entry still needed. */
  lemma AcceptKeepsGuard(r: Receiver, acc: seq<int>, low: byte, n: int)
    requires r.Valid() && Guarded(r, acc) && Rebuild(r.high, low) == Some(n) && !Replayed(r, n)
    ensures n !in acc && Guarded(Receive(r, n), acc + [n])
  {
    var r' := Receive(r, n);
    assert n !in acc;
    forall k | k in acc + [n] && k > r'.high - LATE_WINDOW
      ensures r'.table[k % 256] == SecondByte(k)
    {
      if k != n {
        assert k in acc && k <= r.high && k > r.high - LATE_WINDOW;
        if k % 256 == n % 256 {
          OffsetIsCongruent(r.high, low);
          // Equal low bytes put them at least 256 apart, which the window forbids.
          ResidueGap(k, n);
          assert false;
        }
      }
    }
  }

  lemma ResidueGap(a: int, b: int)
    requires a % 256 == b % 256 && a != b
    ensures a - b >= 256 || b - a >= 256
  {
  }

  lemma {:induction false} RunKeepsGuard(m: Mode, r: Receiver, packets: seq<seq<octet>>)
    requires r.Valid()
    ensures Guarded(Run(m, r, packets), AcceptedIn(m, r, packets))
  {
    if packets != [] {
      var before, packet := packets[..|packets| - 1], packets[|packets| - 1];
      RunKeepsGuard(m, r, before);
      var mid, acc := Run(m, r, before), AcceptedIn(m, r, before);
      match Decide(m, mid, packet)
      case Refused =>
      case Accepted(n, _) => AcceptKeepsGuard(mid, acc, FromOctet(packet[0]), n);
    }
  }

  /** No run, however long and whatever the packets, accepts the same index twice. */
  lemma NoIndexAcceptedTwice(m: Mode, r: Receiver, packets: seq<seq<octet>>)
    requires r.Valid()
    ensures NoRepeats(AcceptedIn(m, r, packets))
  {
    RunKeepsGuard(m, r, packets);
  }

  lemma {:induction false} AcceptedRange(m: Mode, r: Receiver, packets: seq<seq<octet>>)
    requires r.Valid()
    ensures r.high <= Run(m, r, packets).high <= r.high + 128 * |packets|
    ensures forall n :: n in AcceptedIn(m, r, packets) ==> r.high - LATE_WINDOW < n <= r.high + 128 * |packets|
  {
    if packets != [] {
      var before, packet := packets[..|packets| - 1], packets[|packets| - 1];
      AcceptedRange(m, r, before);
      var mid := Run(m, r, before);
      if Decide(m, mid, packet).Accepted? {
        AcceptedNearby(m, mid, packet);
      }
    }
  }

  /** In a run of any length, accepted packets that share a nonce are a whole turn of the 128-bit
      counter apart. */
  lemma SharedNonceIsATurnAway(m: Mode, r: Receiver, packets: seq<seq<octet>>, i: nat, j: nat)
    requires r.Valid() && i < j < |AcceptedIn(m, r, packets)|
    requires Nonce(AcceptedIn(m, r, packets)[i]) == Nonce(AcceptedIn(m, r, packets)[j])
    ensures var acc := AcceptedIn(m, r, packets); acc[i] - acc[j] >= TWO_TO_128 || acc[j] - acc[i] >= TWO_TO_128
  {
    hide AcceptedIn;
    var acc := AcceptedIn(m, r, packets);
    NoIndexAcceptedTwice(m, r, packets);
    assert acc[i] != acc[j];
    if acc[i] - acc[j] < TWO_TO_128 && acc[j] - acc[i] < TWO_TO_128 {
      NonceInjective(acc[i], acc[j]);
    }
  }

  /** So no nonce is used by two accepted packets of a run too short for a turn. */
  lemma NoNonceUsedTwice(m: Mode, r: Receiver, packets: seq<seq<octet>>, i: nat, j: nat)
    requires r.Valid() && 128 * |packets| + LATE_WINDOW < TWO_TO_128
    requires i < j < |AcceptedIn(m, r, packets)|
    ensures Nonce(AcceptedIn(m, r, packets)[i]) != Nonce(AcceptedIn(m, r, packets)[j])
  {
    hide AcceptedIn, Nonce;
    var acc := AcceptedIn(m, r, packets);
    AcceptedRange(m, r, packets);
    assert acc[i] in acc && acc[j] in acc;
    if Nonce(acc[i]) == Nonce(acc[j]) {
      SharedNonceIsATurnAway(m, r, packets, i, j);
    }
  }

  // ----- statistics -----

  /** Packet counts without the 32-bit wrap-around. */
  datatype Tally = Tally(good: nat, late: nat, lost: nat)

  function Count(r: Receiver, t: Tally, n: int): Tally {
    Tally(t.good + 1,
          t.late + (if n < r.high then 1 else 0),
          t.lost + (if n > r.high then n - r.high - 1 else 0))
  }

  function TallyOf(m: Mode, r: Receiver, packets: seq<seq<octet>>): Tally
    requires r.Valid()
  {
    if packets == [] then Tally(0, 0, 0)
    else
      var before := packets[..|packets| - 1];
      var mid := Run(m, r, before);
      match Decide(m, mid, packets[|packets| - 1])
      case Refused => TallyOf(m, r, before)
      case Accepted(n, _) => Count(mid, TallyOf(m, r, before), n)
  }

  /** The stored counts are the true ones modulo 2^32. */
  predicate Stored(r: Receiver, r': Receiver, t: Tally) {
    && r'.good == (r.good + t.good) % U32
    && r'.late == (r.late + t.late) % U32
    && r'.lost == (r.lost + t.lost) % U32
  }

  /** The highest index after accepting `acc`, and how many of `acc` came after a higher one. */
  function HighAfter(high: int, acc: seq<int>): int {
    if acc == [] then high
    else var h, n := HighAfter(high, acc[..|acc| - 1]), acc[|acc| - 1]; if n > h then n else h
  }

  function LateAmong(high: int, acc: seq<int>): nat {
    if acc == [] then 0
    else
      LateAmong(high, acc[..|acc| - 1]) + if acc[|acc| - 1] < HighAfter(high, acc[..|acc| - 1]) then 1 else 0
  }

  /** What the counts mean: good packets are those accepted, late ones those accepted after a higher index,
      and the receiver's own index is the highest accepted. */
  lemma {:induction false} CountsMean(m: Mode, r: Receiver, packets: seq<seq<octet>>)
    requires r.Valid()
    ensures var t, acc := TallyOf(m, r, packets), AcceptedIn(m, r, packets);
            t.good == |acc| && t.late == LateAmong(r.high, acc) && Run(m, r, packets).high == HighAfter(r.high, acc)
  {
    hide Decide;
    if packets != [] {
      var before, packet := packets[..|packets| - 1], packets[|packets| - 1];
      CountsMean(m, r, before);
      var mid, acc := Run(m, r, before), AcceptedIn(m, r, before);
      var d := Decide(m, mid, packet);
      if d.Accepted? {
        assert (acc + [d.index])[..|acc|] == acc;
      }
    }
  }

  lemma AddModulo(a: nat, b: nat)
    ensures (a % U32 + b) % U32 == (a + b) % U32
  {
  }

  lemma ReceiveStores(r: Receiver, mid: Receiver, t: Tally, n: int)
    requires mid.Valid() && Stored(r, mid, t)
    ensures Stored(r, Receive(mid, n), Count(mid, t, n))
  {
    AddModulo(r.good + t.good, 1);
    AddModulo(r.late + t.late, if n < mid.high then 1 else 0);
    AddModulo(r.lost + t.lost, if n > mid.high then n - mid.high - 1 else 0);
  }

  /** An accepted index is within reach of the receiver's own. */
  lemma AcceptedNearby(m: Mode, r: Receiver, packet: seq<octet>)
    requires r.Valid() && Decide(m, r, packet).Accepted?
    ensures var n := Decide(m, r, packet).index; -LATE_WINDOW < n - r.high <= 128 && n != r.high
  {
    OffsetIsCongruent(r.high, FromOctet(packet[0]));
  }

  /** Over every run the counter advances by good - late + lost, and the stored counts are the
      true ones modulo 2^32. */
  lemma {:induction false} AdvanceIsAccounted(m: Mode, r: Receiver, packets: seq<seq<octet>>)
    requires r.Valid()
    ensures var t, r' := TallyOf(m, r, packets), Run(m, r, packets);
            && r'.high - r.high == t.good - t.late + t.lost
            && Stored(r, r', t)
            && t.late <= t.good <= |packets| && t.lost <= 127 * |packets|
  {
    if packets != [] {
      var before, packet := packets[..|packets| - 1], packets[|packets| - 1];
      AdvanceIsAccounted(m, r, before);
      var mid := Run(m, r, before);
      var d := Decide(m, mid, packet);
      if d.Accepted? {
        AcceptedNearby(m, mid, packet);
        ReceiveStores(r, mid, TallyOf(m, r, before), d.index);
      }
    }
  }

  /** As long as none of the three counts wraps, the advance is read off the counts themselves. */
  lemma AdvanceFromCounts(m: Mode, r: Receiver, packets: seq<seq<octet>>)
    requires r.Valid()
    requires var t := TallyOf(m, r, packets); r.good + t.good < U32 && r.late + t.late < U32 && r.lost + t.lost < U32
    ensures var r' := Run(m, r, packets);
            r'.high - r.high == (r'.good - r.good) - (r'.late - r.late) + (r'.lost - r.lost)
  {
    hide TallyOf, Run;
    AdvanceIsAccounted(m, r, packets);
    var t := TallyOf(m, r, packets);
    NoWrap(r.good + t.good);
    NoWrap(r.late + t.late);
    NoWrap(r.lost + t.lost);
  }

  lemma NoWrap(n: nat)
    requires n < U32
    ensures n % U32 == n
  {
  }

  // ----- an undisturbed stream -----

  /** Packets of consecutive indices starting after `n`. */
  function Stream(m: Mode, n: int, plains: seq<seq<octet>>): seq<seq<octet>> {
    if plains == [] then []
    else Stream(m, n, plains[..|plains| - 1]) + [Packet(m, n + |plains|, plains[|plains| - 1])]
  }

  /** The next packet in order is always delivered. */
  lemma NextDelivered(m: Mode, r: Receiver, plain: seq<octet>)
    requires m.Inverse() && r.Valid()
    ensures Decide(m, r, Packet(m, r.high + 1, plain)) == Accepted(r.high + 1, plain)
  {
    hide Decide, Packet, Receiver.Valid, Mode.Inverse;
    RebuildExactly(r.high, r.high + 1);
    DeliveredExactly(m, r, r.high + 1, plain);
  }

  lemma RunOneMore(m: Mode, r: Receiver, packets: seq<seq<octet>>, packet: seq<octet>, n: int, plain: seq<octet>)
    requires r.Valid() && Decide(m, Run(m, r, packets), packet) == Accepted(n, plain)
    ensures Run(m, r, packets + [packet]) == Receive(Run(m, r, packets), n)
    ensures TallyOf(m, r, packets + [packet]) == Count(Run(m, r, packets), TallyOf(m, r, packets), n)
  {
    var s := packets + [packet];
    assert s[..|s| - 1] == packets && s[|s| - 1] == packet;
  }

  /** A stream that starts at the receiver's own index and arrives in order is accepted whole:
      every packet counted good, nothing late and nothing lost. */
  lemma {:induction false} InOrderStreamDelivered(m: Mode, r: Receiver, plains: seq<seq<octet>>)
    requires m.Inverse() && r.Valid()
    ensures Run(m, r, Stream(m, r.high, plains)).high == r.high + |plains|
    ensures TallyOf(m, r, Stream(m, r.high, plains)) == Tally(|plains|, 0, 0)
  {
    hide Decide, Packet, Receiver.Valid;
    if plains != [] {
      var before, last := plains[..|plains| - 1], plains[|plains| - 1];
      InOrderStreamDelivered(m, r, before);
      var s0 := Stream(m, r.high, before);
      var mid := Run(m, r, s0);
      NextDelivered(m, mid, last);
      RunOneMore(m, r, s0, Packet(m, mid.high + 1, last), mid.high + 1, last);
    }
  }

  // ----- the object -----

  /** The counter bytes of the packet being judged, as the receiving loop rebuilds them from the
      one byte on the wire; `step` is the signed distance the rebuilt index lies away. */
  method RebuildIv(iv: Iv, low: byte, ghost high: int) returns (known: bool, next: Iv, step: int)
    requires iv == IvOf(high)
    ensures known <==> Rebuild(high, low).Some?
    ensures known ==> step == Offset(high, low) && next == IvOf(high + step)
  {
    hide LeBytes;
    IvBytes(high);
    var own := iv[0];
    known, next, step := true, iv, 1;
    if Succ(own) == low {
      next := next[0 := low];
      if low < own {
        assert next[1..] == iv[1..];
        next := Increment(next, 1, high / 256);
        assert low == 0;
      }
    } else {
      step := low - own;
      if step > 128 {
        step := step - 256;
      } else if step < -128 {
        step := step + 256;
      }
      if low < own && step > -LATE_WINDOW && step < 0 {
        next := next[0 := low];
      } else if low > own && step > -LATE_WINDOW && step < 0 {
        next := next[0 := low];
        assert next[1..] == iv[1..];
        next := Decrement(next, 1, high / 256);
      } else if low > own && step > 0 {
        next := next[0 := low];
      } else if low < own && step > 0 {
        next := next[0 := low];
        assert next[1..] == iv[1..];
        next := Increment(next, 1, high / 256);
      } else {
        known := false;
      }
    }
    if known {
      IvMoves(high, step, low);
      IvBytes(high + step);
      assert next == [next[0]] + next[1..];
    }
  }

  /** Moving the index moves its low byte, with at most one carry or borrow into the rest. */
  lemma IvMoves(high: int, step: int, low: byte)
    requires -128 <= step <= 128 && (high + step) % 256 == low
    ensures IvOf(high + step) == [low] + LeBytes((high + step) / 256, BLOCK - 1)
    ensures low >= high % 256 && step >= 0 ==> (high + step) / 256 == high / 256
    ensures low < high % 256 && step <= 0 ==> (high + step) / 256 == high / 256
    ensures low < high % 256 && step > 0 ==> (high + step) / 256 == high / 256 + 1
    ensures low > high % 256 && step < 0 ==> (high + step) / 256 == high / 256 - 1
  {
  }

  /** One end of a voice connection. The ghost fields carry the unbounded packet indices that the
      counter bytes stand for. */
  class Peer {
    const cipher: BlockCipher
    var encryptIv: Iv
    var decryptIv: Iv
    const history: array<byte>
    var good: nat
    var late: nat
    var lost: nat
    ghost var sent: int
    ghost var high: int

    ghost predicate Valid()
      reads this, history
    {
      && history.Length == 256
      && good < U32 && late < U32 && lost < U32
      && encryptIv == IvOf(sent)
      && decryptIv == IvOf(high)
    }

    /** The receiving half as the specification sees it. */
    ghost function Receiving(): (r: Receiver)
      requires Valid()
      reads this, history
      ensures r.Valid()
    {
      Receiver(high, history[..], good, late, lost)
    }

    constructor (cipher: BlockCipher, encryptIv: Iv, decryptIv: Iv)
      ensures Valid() && fresh(history)
      ensures this.cipher == cipher && this.encryptIv == encryptIv && this.decryptIv == decryptIv
      ensures Receiving().table == seq(256, _ => 0) && good == 0 && late == 0 && lost == 0
    {
      this.cipher := cipher;
      this.encryptIv, this.decryptIv := encryptIv, decryptIv;
      history := new byte[256](_ => 0);
      good, late, lost := 0, 0, 0;
      sent, high := LeValue(encryptIv), LeValue(decryptIv);
      new;
      LeBytesOfValue(encryptIv);
      LeBytesOfValue(decryptIv);
      assert history[..] == seq(256, _ => 0);
    }

    /** Sends the next index: the packet is sealed under a nonce never used before by this peer. */
    method Encrypt(source: seq<octet>) returns (packet: seq<octet>)
      requires Valid()
      modifies this`encryptIv, this`sent
      ensures Valid() && sent == old(sent) + 1
      ensures packet == Packet(Ocb(cipher), sent, source)
    {
      hide LeBytes, SealUnder;
      assert encryptIv[0..] == encryptIv;
      encryptIv := Increment(encryptIv, 0, sent);
      sent := sent + 1;
      IvBytes(sent);
      var sealed, tag := OcbEncrypt(cipher, source, ToBlock(encryptIv));
      packet := [ToOctet(encryptIv[0])] + tag[..3] + sealed;
    }

    /** Bookkeeping for an accepted packet: its index is recorded, a late one gives the counter back,
        and the counts move on. */
    method Accept(iv: Iv, saveIv: Iv, step: int)
      requires history.Length == 256 && good < U32 && late < U32 && lost < U32 && encryptIv == IvOf(sent)
      requires saveIv == IvOf(high) && decryptIv == iv == IvOf(high + step) && step != 0
      modifies this`decryptIv, this`high, this`good, this`late, this`lost, history
      ensures Valid()
      ensures Receiving() == Receive(Receiver(old(high), old(history[..]), old(good), old(late), old(lost)),
                                     old(high) + step)
    {
      hide LeBytes;
      ghost var n := high + step;
      IvBytes(n);
      history[iv[0]] := iv[1];
      assert history[..] == old(history[..])[n % 256 := SecondByte(n)];
      if step < 0 {
        decryptIv := saveIv;
      } else {
        high := n;
      }
      good := (good + 1) % U32;
      late := (late + if step < 0 then 1 else 0) % U32;
      if step > 0 {
        lost := (lost + (step - 1)) % U32;
      }
    }

    /** Judges one packet and updates counter, replay table and counts as the specification says. */
    method Decrypt(source: seq<octet>) returns (result: Option<seq<octet>>)
      requires Valid()
      modifies this`decryptIv, this`high, this`good, this`late, this`lost, history
      ensures Valid()
      ensures Receiving() == Step(Ocb(cipher), old(Receiving()), source)
      ensures result == match Decide(Ocb(cipher), old(Receiving()), source)
                        case Refused => None
                        case Accepted(_, plain) => Some(plain)
    {
      hide LeBytes, OpenUnder, SealUnder, FromOctet, ToOctet, ToBlock;
      if |source| < 4 {
        return None;
      }
      ghost var was := Receiving();
      var saveIv := decryptIv;
      var low := FromOctet(source[0]);
      var known, iv, step := RebuildIv(decryptIv, low, high);
      if !known {
        return None;
      }
      ghost var n := high + step;
      IvBytes(n);
      OffsetIsCongruent(high, low);
      decryptIv := iv;
      if step != 1 && history[iv[0]] == iv[1] {
        decryptIv := saveIv;
        return None;
      }
      var plain, tag := OcbDecrypt(cipher, source[4..], ToBlock(iv));
      if tag[..3] != source[1..4] {
        decryptIv := saveIv;
        return None;
      }
      Accept(iv, saveIv, step);
      result := Some(plain);
    }
  }
}
