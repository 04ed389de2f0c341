/** Mumble's variable-length integers. */
module Pds {
  import opened Bytes

  const U64: nat := 0x1_0000_0000_0000_0000

  // ----- big-endian byte strings -----

  function BeBytes(n: nat, len: nat): (bs: seq<byte>)
    ensures |bs| == len
    decreases len
  {
    if len == 0 then [] else BeBytes(n / 256, len - 1) + [n % 256]
  }

  function BeValue(bs: seq<byte>): nat {
    if bs == [] then 0 else 256 * BeValue(bs[..|bs| - 1]) + bs[|bs| - 1]
  }

  lemma {:induction false} BeValueOfBytes(n: nat, len: nat)
    requires n < Pow(256, len)
    ensures BeValue(BeBytes(n, len)) == n
  {
    if len != 0 {
      assert Pow(256, len) == 256 * Pow(256, len - 1);
      BeValueOfBytes(n / 256, len - 1);
      assert BeBytes(n, len)[..len - 1] == BeBytes(n / 256, len - 1);
    }
  }

  lemma {:induction false} BeBytesOfValue(bs: seq<byte>)
    ensures BeBytes(BeValue(bs), |bs|) == bs
  {
    if bs != [] {
      var front, last := bs[..|bs| - 1], bs[|bs| - 1];
      BeBytesOfValue(front);
      assert BeValue(bs) / 256 == BeValue(front) && BeValue(bs) % 256 == last;
      assert bs == front + [last];
    }
  }

  lemma {:induction false} BeValueBound(bs: seq<byte>)
    ensures BeValue(bs) < Pow(256, |bs|)
  {
    if bs != [] {
      BeValueBound(bs[..|bs| - 1]);
      assert Pow(256, |bs|) == 256 * Pow(256, |bs| - 1);
    }
  }

  lemma BeValueStep(s: seq<byte>, a: nat, b: nat)
    requires a <= b < |s|
    ensures BeValue(s[a..b + 1]) == 256 * BeValue(s[a..b]) + s[b]
  {
    assert s[a..b + 1][..b - a] == s[a..b];
  }

  lemma PowersOf256()
    ensures Pow(256, 0) == 1 && Pow(256, 1) == 0x100 && Pow(256, 2) == 0x1_0000 && Pow(256, 3) == 0x100_0000
    ensures Pow(256, 4) == 0x1_0000_0000 && Pow(256, 8) == U64
  {
    assert Pow(256, 0) == 1;
    assert Pow(256, 1) == 256 * Pow(256, 0);
    assert Pow(256, 2) == 256 * Pow(256, 1);
    assert Pow(256, 3) == 256 * Pow(256, 2);
    assert Pow(256, 4) == 256 * Pow(256, 3);
    assert Pow(256, 5) == 256 * Pow(256, 4);
    assert Pow(256, 6) == 256 * Pow(256, 5);
    assert Pow(256, 7) == 256 * Pow(256, 6);
    assert Pow(256, 8) == 256 * Pow(256, 7);
  }

  // ----- the number at the head of a byte string -----

  /** How many bytes follow the leading byte, and the leading byte's share of the value. */
  function Extra(lead: byte): nat {
    if lead < 0x80 then 0 else if lead < 0xC0 then 1 else if lead < 0xE0 then 2 else if lead < 0xF0 then 3
    else if lead < 0xF4 then 4 else if lead < 0xF8 then 8 else 0
  }

  function Share(lead: byte): nat {
    if lead < 0x80 then lead else if lead < 0xC0 then lead - 0x80 else if lead < 0xE0 then lead - 0xC0
    else if lead < 0xF0 then lead - 0xE0 else 0
  }

  /** The leading byte that announces a negative number. */
  predicate Negated(lead: byte) {
    0xF8 <= lead < 0xFC
  }

  /** The number at the head of `s`, and how many bytes it takes; nothing when `s` is cut short. */
  function Read(s: seq<byte>): (r: Option<(nat, nat)>)
    ensures r.Some? ==> 1 <= r.value.1 <= |s|
  {
    if s == [] then None
    else if Negated(s[0]) then
      match Read(s[1..])
      case None => None
      case Some(r) => Some((0, 1 + r.1))
    else if s[0] >= 0xFC then Some((U64 - (s[0] % 4 + 1), 1))
    else
      var k := Extra(s[0]);
      if |s| < 1 + k then None
      else Some((Share(s[0]) * Pow(256, k) + BeValue(s[1..1 + k]), 1 + k))
  }

  /** How many bytes follow a leading byte, and how many of its own bits belong to the value: all seven
      below 0x80, then six, five and four, and none before four or eight whole bytes. */
  lemma LeadExactly(lead: byte)
    requires lead < 0xF8
    ensures Extra(lead) == if lead < 0x80 then 0 else if lead < 0xC0 then 1 else if lead < 0xE0 then 2
                           else if lead < 0xF0 then 3 else if lead < 0xF4 then 4 else 8
    ensures Share(lead) == if lead < 0x80 then lead else if lead < 0xC0 then lead % 0x40
                           else if lead < 0xE0 then lead % 0x20 else if lead < 0xF0 then lead % 0x10 else 0
  {
  }

  /** What is read behind a leading byte: its bits and the bytes announced, most significant first, and
      nothing when they are cut short. */
  lemma {:induction false} ReadExactly(lead: byte, s: seq<byte>)
    requires lead < 0xF8
    ensures var k := Extra(lead);
            Read([lead] + s) == if |s| < k then None else Some((Share(lead) * Pow(256, k) + BeValue(s[..k]), 1 + k))
  {
    hide Pow, BeValue, Extra, Share;
    var t, k := [lead] + s, Extra(lead);
    if k <= |s| {
      assert t[1..1 + k] == s[..k];
    }
  }

  /** A negative number counts as zero, and the four smallest are read as 64 bits. */
  lemma {:induction false} ReadNegative(lead: byte, s: seq<byte>)
    requires lead >= 0xF8
    ensures lead < 0xFC ==> Read([lead] + s) == match Read(s) case None => None case Some(r) => Some((0, 1 + r.1))
    ensures lead >= 0xFC ==> Read([lead] + s) == Some((0xFFFF_FFFF_FFFF_FFFF - (lead - 0xFC), 1))
  {
    hide Pow, BeValue, Extra, Share;
    assert ([lead] + s)[1..] == s;
  }

  lemma ShareFits(lead: byte, v: nat)
    requires lead < 0xF8 && v < Pow(256, Extra(lead))
    ensures Share(lead) * Pow(256, Extra(lead)) + v < U64
  {
    PowersOf256();
  }

  /** Reading takes at least one byte and stays inside, gives 64 bits, and looks at nothing behind
      what it takes. */
  lemma {:induction false} ReadIsLocal(s: seq<byte>, tail: seq<byte>)
    ensures Read(s).Some? ==>
              var (v, n) := Read(s).value;
              1 <= n <= |s| && v < U64 && Read(s[..n] + tail) == Read(s)
  {
    hide Pow, BeValue, Extra, Share;
    if s != [] && Read(s).Some? {
      var (v, n) := Read(s).value;
      if Negated(s[0]) {
        ReadIsLocal(s[1..], tail);
        assert (s[..n] + tail)[1..] == s[1..][..n - 1] + tail;
      } else if s[0] < 0xFC {
        assert (s[..n] + tail)[1..n] == s[1..n];
        BeValueBound(s[1..n]);
        ShareFits(s[0], BeValue(s[1..n]));
      }
    }
  }

  // ----- writing -----

  function Write(v: nat): (bs: seq<byte>)
    requires v < U64
    ensures |bs| >= 1
  {
    if v < 0x80 then [v]
    else if v < 0x4000 then [0x80 + v / 0x100] + BeBytes(v, 1)
    else if v < 0x20_0000 then [0xC0 + v / 0x1_0000] + BeBytes(v, 2)
    else if v < 0x1000_0000 then [0xE0 + v / 0x100_0000] + BeBytes(v, 3)
    else if v < 0x1_0000_0000 then [0xF0] + BeBytes(v, 4)
    else [0xF4] + BeBytes(v, 8)
  }

  /** What is left of `v` above its low `len` bytes. */
  function Top(v: nat, len: nat): nat
    decreases len
  {
    if len == 0 then v else Top(v / 256, len - 1)
  }

  lemma {:induction false} BeSplit(v: nat, len: nat)
    ensures v == Top(v, len) * Pow(256, len) + BeValue(BeBytes(v, len))
    decreases len
  {
    if len != 0 {
      BeSplit(v / 256, len - 1);
      assert BeBytes(v, len)[..len - 1] == BeBytes(v / 256, len - 1);
      var p, q := Pow(256, len - 1), Top(v, len);
      assert q * (256 * p) == 256 * (q * p);
    }
  }

  /** The leading byte and the `k` bytes behind it spell `v`. */
  lemma ReadForm(lead: byte, v: nat, tail: seq<byte>)
    requires lead < 0xF8 && Share(lead) == Top(v, Extra(lead))
    ensures Read([lead] + BeBytes(v, Extra(lead)) + tail) == Some((v, 1 + Extra(lead)))
  {
    hide Pow, BeValue, Extra, Share, Top, BeBytes;
    var k := Extra(lead);
    var s := [lead] + BeBytes(v, k) + tail;
    assert s[1..1 + k] == BeBytes(v, k);
    BeSplit(v, k);
  }

  lemma {:induction false} TopOfSmall(v: nat, len: nat)
    requires v < Pow(256, len)
    ensures Top(v, len) == 0
    decreases len
  {
    if len != 0 {
      assert Pow(256, len) == 256 * Pow(256, len - 1);
      TopOfSmall(v / 256, len - 1);
    }
  }

  lemma Tops(v: nat)
    ensures Top(v, 0) == v && Top(v, 1) == v / 0x100 && Top(v, 2) == v / 0x1_0000 && Top(v, 3) == v / 0x100_0000
  {
    assert Top(v, 1) == Top(v / 256, 0);
    assert Top(v, 2) == Top(v / 256, 1) == Top(v / 256 / 256, 0);
    assert Top(v, 3) == Top(v / 0x1_0000, 1);
  }

  /** Reading undoes writing for every 64-bit number, whatever follows it. */
  lemma ReadUndoesWrite(v: nat, tail: seq<byte>)
    requires v < U64
    ensures Read(Write(v) + tail) == Some((v, |Write(v)|))
  {
    hide Read, Top, BeBytes, Pow;
    Tops(v);
    PowersOf256();
    if v >= 0x1_0000_0000 {
      TopOfSmall(v, 8);
    } else if v >= 0x1000_0000 {
      TopOfSmall(v, 4);
    }
    var lead: byte := Lead(v);
    ReadForm(lead, v, tail);
    if v < 0x80 {
      assert BeBytes(v, 0) == [];
      assert [v] + [] + tail == [v] + tail;
    }
  }

  function Lead(v: nat): byte
    requires v < U64
  {
    if v < 0x80 then v else if v < 0x4000 then 0x80 + v / 0x100 else if v < 0x20_0000 then 0xC0 + v / 0x1_0000
    else if v < 0x1000_0000 then 0xE0 + v / 0x100_0000 else if v < 0x1_0000_0000 then 0xF0 else 0xF4
  }

  /** No other form of a number is shorter, but for the one-byte forms of the four highest. */
  lemma {:induction false} WriteIsShortest(s: seq<byte>)
    requires Read(s).Some?
    ensures var (v, n) := Read(s).value;
            s != [] && v < U64 && (|Write(v)| <= n <==> s[0] < 0xFC)
  {
    hide Pow, BeValue, BeBytes;
    ReadIsLocal(s, []);
    var (v, n) := Read(s).value;
    PowersOf256();
    if Negated(s[0]) {
      ReadIsLocal(s[1..], []);
    } else if s[0] < 0xFC {
      BeValueBound(s[1..n]);
    }
  }

  /** The bytes on the wire: a prefix that tells the length, then the value, most significant byte first. */
  lemma WrittenForms(v: nat)
    requires v < U64
    ensures var w := Write(v);
            && (v < 0x80 ==> w == [v])
            && (0x80 <= v < 0x4000 ==> w == [0x80 + v / 0x100, v % 0x100])
            && (0x4000 <= v < 0x20_0000 ==> w == [0xC0 + v / 0x1_0000, v / 0x100 % 0x100, v % 0x100])
            && (0x20_0000 <= v < 0x1000_0000 ==>
                  w == [0xE0 + v / 0x100_0000, v / 0x1_0000 % 0x100, v / 0x100 % 0x100, v % 0x100])
            && (0x1000_0000 <= v < 0x1_0000_0000 ==> |w| == 5 && w[0] == 0xF0 && BeValue(w[1..]) == v)
            && (0x1_0000_0000 <= v ==> |w| == 9 && w[0] == 0xF4 && BeValue(w[1..]) == v)
  {
    hide BeBytes, BeValue, Pow;
    OneByte(v);
    TwoBytes(v);
    ThreeBytes(v);
    PowersOf256();
    if v >= 0x1_0000_0000 {
      BeValueOfBytes(v, 8);
      assert Write(v)[1..] == BeBytes(v, 8);
    } else if v >= 0x1000_0000 {
      BeValueOfBytes(v, 4);
      assert Write(v)[1..] == BeBytes(v, 4);
    }
  }

  /** A 32-bit word is read most significant byte first. */
  lemma WordIsBigEndian(a: byte, b: byte, c: byte, d: byte)
    ensures BeValue([a, b, c, d]) == 0x100_0000 * a + 0x1_0000 * b + 0x100 * c + d
  {
    assert [a, b, c, d][..3] == [a, b, c] && [a, b, c][..2] == [a, b] && [a, b][..1] == [a] && [a][..0] == [];
    assert BeValue([a]) == a;
    assert BeValue([a, b]) == 0x100 * a + b;
    assert BeValue([a, b, c]) == 0x1_0000 * a + 0x100 * b + c;
  }

  /** One of those forms: a single byte that reads as a value written in nine. */
  lemma ShorterForm()
    ensures Read([0xFF]) == Some((U64 - 4, 1)) && |Write(U64 - 4)| == 9
  {
  }

  // ----- the code -----

  class Reader {
    const buf: seq<byte>
    var pos: nat

    constructor (buf: seq<byte>)
      ensures this.buf == buf && pos == 0
    {
      this.buf := buf;
      pos := 0;
    }

    method NextByte() returns (b: Option<byte>)
      requires pos <= |buf|
      modifies this
      ensures b == if old(pos) < |buf| then Some(buf[old(pos)]) else None
      ensures pos == if b.Some? then old(pos) + 1 else old(pos)
    {
      if pos >= |buf| {
        return None;
      }
      b := Some(buf[pos]);
      pos := pos + 1;
    }

    /** The bytes that follow a leading byte, each shifting the value up. */
    method ReadBytes(share: nat, k: nat) returns (v: Option<nat>)
      requires pos <= |buf|
      modifies this
      ensures old(pos) <= pos <= |buf|
      ensures v.Some? <==> old(pos) + k <= |buf|
      ensures v.Some? ==> pos == old(pos) + k && v.value == share * Pow(256, k) + BeValue(buf[old(pos)..pos])
    {
      var value: nat := share;
      var start := pos;
      for i := 0 to k
        invariant pos == start + i <= |buf|
        invariant value == share * Pow(256, i) + BeValue(buf[start..pos])
      {
        var b := NextByte();
        if b.None? {
          return None;
        }
        BeValueStep(buf, start, pos - 1);
        ShiftUp(share, i, BeValue(buf[start..pos - 1]));
        value := value * 256 + b.value;
      }
      v := Some(value);
    }

    method ReadU64() returns (v: Option<nat>)
      requires pos <= |buf|
      modifies this
      ensures old(pos) <= pos <= |buf|
      ensures var r := Read(buf[old(pos)..]);
              && v.Some? == r.Some?
              && (r.Some? ==> v == Some(r.value.0) && pos == old(pos) + r.value.1)
      decreases |buf| - pos
    {
      var rest := buf[pos..];
      var lead := NextByte();
      if lead.None? {
        return None;
      }
      assert buf[pos..] == rest[1..];
      if lead.value < 0xF8 {
        var k := Extra(lead.value);
        assert pos + k <= |buf| ==> buf[pos..pos + k] == rest[1..1 + k];
        v := ReadBytes(Share(lead.value), k);
      } else if lead.value < 0xFC {
        var inner := ReadU64();
        v := if inner.Some? then Some(0) else None;
      } else {
        v := Some(U64 - (lead.value % 4 + 1));
      }
    }

    /** Passes over `n` bytes of frame data. */
    method Skip(n: nat) returns (ok: bool)
      requires pos <= |buf|
      modifies this
      ensures old(pos) <= pos <= |buf|
      ensures ok <==> old(pos) + n <= |buf|
      ensures ok ==> pos == old(pos) + n
    {
      var start := pos;
      for i := 0 to n
        invariant pos == start + i <= |buf|
      {
        var b := NextByte();
        if b.None? {
          return false;
        }
      }
      ok := true;
    }
  }

  lemma ShiftUp(share: nat, i: nat, v: nat)
    ensures (share * Pow(256, i) + v) * 256 == share * Pow(256, i + 1) + 256 * v
  {
    assert Pow(256, i + 1) == 256 * Pow(256, i);
    assert share * (256 * Pow(256, i)) == share * Pow(256, i) * 256;
  }

  lemma BeStep(v: nat, len: nat)
    ensures BeBytes(v, len + 1) == BeBytes(v / 256, len) + [v % 256]
  {
  }

  lemma OneByte(v: nat)
    ensures BeBytes(v, 1) == [v % 0x100]
  {
    assert BeBytes(v / 256, 0) == [];
    BeStep(v, 0);
  }

  lemma TwoBytes(v: nat)
    ensures BeBytes(v, 2) == [v / 0x100 % 0x100, v % 0x100]
  {
    hide BeBytes;
    OneByte(v / 0x100);
    BeStep(v, 1);
  }

  lemma DivDiv(v: nat)
    ensures v / 0x100 / 0x100 == v / 0x1_0000
  {
  }

  lemma ThreeBytes(v: nat)
    ensures BeBytes(v, 3) == [v / 0x1_0000 % 0x100, v / 0x100 % 0x100, v % 0x100]
  {
    hide BeBytes;
    TwoBytes(v / 0x100);
    BeStep(v, 2);
    DivDiv(v);
  }

  method WriteU64(out: seq<byte>, v: nat) returns (r: seq<byte>)
    requires v < U64
    ensures r == out + Write(v)
    ensures forall tail :: Read(r[|out|..] + tail) == Some((v, |r| - |out|))
  {
    hide Read, BeBytes;
    OneByte(v);
    TwoBytes(v);
    ThreeBytes(v);
    if v < 0x80 {
      r := out + [v];
    } else if v < 0x4000 {
      r := out + [0x80 + v / 0x100, v % 0x100];
    } else if v < 0x20_0000 {
      r := out + [0xC0 + v / 0x1_0000, v / 0x100 % 0x100, v % 0x100];
    } else if v < 0x1000_0000 {
      r := out + [0xE0 + v / 0x100_0000, v / 0x1_0000 % 0x100, v / 0x100 % 0x100, v % 0x100];
    } else if v < 0x1_0000_0000 {
      r := out + [0xF0] + BeBytes(v, 4);
    } else {
      r := out + [0xF4] + BeBytes(v, 8);
    }
    assert r == out + Write(v);
    forall tail ensures Read(r[|out|..] + tail) == Some((v, |r| - |out|)) {
      assert r[|out|..] == Write(v);
      ReadUndoesWrite(v, tail);
    }
  }
}
