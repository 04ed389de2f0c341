/** Voice packets: finding where the audio ends, so that the position behind it can be stripped or
    rewritten, and prepending the speaker for the listeners. */
module Voice {
  import opened Bytes
  import opened Pds

  datatype Codec = CeltAlpha | Ping | Speex | CeltBeta | Opus

  datatype Target = Normal | Whisper(id: nat) | Loopback

  function CodecOf(bits: nat): Option<Codec> {
    match bits
    case 0 => Some(CeltAlpha)
    case 1 => Some(Ping)
    case 2 => Some(Speex)
    case 3 => Some(CeltBeta)
    case 4 => Some(Opus)
    case _ => None
  }

  function TargetOf(bits: nat): Target {
    if bits == 0 then Normal else if bits == 31 then Loopback else Whisper(bits)
  }

  /** Three coordinates, as the 32-bit patterns that travel. */
  type Word = x: nat | x < 0x1_0000_0000

  datatype Position = Position(x: Word, y: Word, z: Word)

  datatype Packet = Packet(codec: Codec, target: Target, payload: seq<byte>, audioEnd: nat, position: Option<Position>)

  // ----- the walk over the frames -----

  /** The length of a run of frames, each with a header whose low seven bits count its bytes and
      whose eighth says that another follows. */
  function Frames(s: seq<byte>): (r: Option<nat>)
    ensures r.Some? ==> 1 <= r.value <= |s|
  {
    match Read(s)
    case None => None
    case Some(head) =>
      var h := head.0 % 256;
      var m := head.1 + h % 128;
      if |s| < m then None
      else if h < 128 then Some(m)
      else
        match Frames(s[m..])
        case None => None
        case Some(k) => Some(m + k)
  }

  /** The length of one frame with a 13-bit byte count. */
  function OpusFrame(s: seq<byte>): (r: Option<nat>)
    ensures r.Some? ==> 1 <= r.value <= |s|
  {
    match Read(s)
    case None => None
    case Some(head) =>
      var m := head.1 + head.0 % 0x2000;
      if |s| < m then None else Some(m)
  }

  /** How far session and audio reach behind the header byte. */
  function Audio(codec: Codec, s: seq<byte>): (r: Option<nat>)
    ensures r.Some? ==> r.value <= |s|
  {
    match Read(s)
    case None => None
    case Some(session) =>
      if codec.Ping? then Some(session.1)
      else
        match if codec.Opus? then OpusFrame(s[session.1..]) else Frames(s[session.1..])
        case None => None
        case Some(k) => Some(session.1 + k)
  }

  function PositionOf(tail: seq<byte>): Option<Position> {
    if |tail| != 12 then None else Some(Position(WordOf(tail[0..4]), WordOf(tail[4..8]), WordOf(tail[8..12])))
  }

  function WordOf(bs: seq<byte>): Word
    requires |bs| == 4
  {
    BeValueBound(bs);
    PowersOf256();
    BeValue(bs)
  }

  function PositionBytes(p: Position): (bs: seq<byte>)
    ensures |bs| == 12
  {
    BeBytes(p.x, 4) + BeBytes(p.y, 4) + BeBytes(p.z, 4)
  }

  /** The packet in `payload`; nothing when it is malformed or cut short. */
  function Parsed(payload: seq<byte>): Option<Packet> {
    if payload == [] then None
    else
      match CodecOf(payload[0] / 32)
      case None => None
      case Some(codec) =>
        match Audio(codec, payload[1..])
        case None => None
        case Some(k) =>
          var position := if codec.Ping? then None else PositionOf(payload[1 + k..]);
          Some(Packet(codec, TargetOf(payload[0] % 32), payload, 1 + k, position))
  }

  /** The header byte of a packet that parses: the codec's number in the top three bits, the target in the
      low five, 0 for normal talk, 31 for loopback and a whisper's id otherwise. */
  lemma HeaderExactly(payload: seq<byte>)
    requires Parsed(payload).Some?
    ensures var p := Parsed(payload).value;
            && payload != [] && p.payload == payload && 1 <= p.audioEnd <= |payload|
            && payload[0] / 32 == (match p.codec
                                   case CeltAlpha => 0
                                   case Ping => 1
                                   case Speex => 2
                                   case CeltBeta => 3
                                   case Opus => 4)
            && payload[0] % 32 == (match p.target case Normal => 0 case Loopback => 31 case Whisper(id) => id)
            && (p.target.Whisper? ==> 1 <= p.target.id <= 30)
            && (p.position.Some? <==> p.codec != Ping && |payload| - p.audioEnd == 12)
            && (p.position.Some? ==> PositionBytes(p.position.value) == payload[p.audioEnd..])
  {
    hide Audio, PositionOf, PositionBytes;
    var p := Parsed(payload).value;
    PositionExactly(payload[p.audioEnd..]);
  }

  /** Twelve bytes, and nothing else, are a position: that of which they are the bytes. */
  lemma PositionExactly(tail: seq<byte>)
    ensures PositionOf(tail).Some? <==> |tail| == 12
    ensures PositionOf(tail).Some? ==> PositionBytes(PositionOf(tail).value) == tail
  {
    hide WordOf, BeBytes;
    if |tail| == 12 {
      WordBytes(tail[0..4]);
      WordBytes(tail[4..8]);
      WordBytes(tail[8..12]);
      assert tail == tail[0..4] + tail[4..8] + tail[8..12];
    }
  }

  lemma WordBytes(bs: seq<byte>)
    requires |bs| == 4
    ensures BeBytes(WordOf(bs), 4) == bs
  {
    BeBytesOfValue(bs);
  }

  /** A first byte above 0x9F names no codec, and nothing behind it is looked at. */
  lemma UnknownCodec(payload: seq<byte>)
    requires payload != [] && payload[0] >= 0xA0
    ensures Parsed(payload) == None
  {
    hide Audio;
  }

  // ----- nothing behind the audio matters to where it ends -----

  lemma SplitPrefix(s: seq<byte>, m: nat, k: nat, tail: seq<byte>)
    requires m + k <= |s|
    ensures (s[..m + k] + tail)[m..] == s[m..][..k] + tail
    ensures s[..m + k] + tail == s[..m] + (s[m..][..k] + tail)
  {
    assert s[..m + k] == s[..m] + s[m..][..k];
  }

  /** Reading is unaffected by anything from `m` on, when the number ends by then. */
  lemma ReadPrefix(s: seq<byte>, m: nat, tail: seq<byte>)
    requires Read(s).Some? && Read(s).value.1 <= m <= |s|
    ensures Read(s[..m] + tail) == Read(s)
  {
    hide Read;
    var n := Read(s).value.1;
    ReadIsLocal(s, s[n..m] + tail);
    assert s[..n] + (s[n..m] + tail) == s[..m] + tail;
  }

  lemma {:induction false} FramesAreLocal(s: seq<byte>, tail: seq<byte>)
    requires Frames(s).Some?
    ensures Frames(s[..Frames(s).value] + tail) == Frames(s)
    decreases |s|
  {
    hide Read;
    var n := Frames(s).value;
    var head := Read(s).value;
    var m := head.1 + head.0 % 256 % 128;
    ReadPrefix(s, n, tail);
    if head.0 % 256 >= 128 {
      FramesAreLocal(s[m..], tail);
      SplitPrefix(s, m, n - m, tail);
    }
  }

  lemma OpusFrameIsLocal(s: seq<byte>, tail: seq<byte>)
    requires OpusFrame(s).Some?
    ensures OpusFrame(s[..OpusFrame(s).value] + tail) == OpusFrame(s)
  {
    hide Read;
    ReadPrefix(s, OpusFrame(s).value, tail);
  }

  lemma AudioIsLocal(codec: Codec, s: seq<byte>, tail: seq<byte>)
    requires Audio(codec, s).Some?
    ensures Audio(codec, s[..Audio(codec, s).value] + tail) == Audio(codec, s)
  {
    hide Read, Frames, OpusFrame;
    var n := Audio(codec, s).value;
    var m := Read(s).value.1;
    ReadPrefix(s, n, tail);
    if !codec.Ping? {
      SplitPrefix(s, m, n - m, tail);
      if codec.Opus? {
        OpusFrameIsLocal(s[m..], tail);
      } else {
        FramesAreLocal(s[m..], tail);
      }
    }
  }

  /** Whatever replaces what follows the audio, the packet parses to the same codec, target and audio. */
  lemma TailIsFree(payload: seq<byte>, tail: seq<byte>)
    requires Parsed(payload).Some?
    ensures var p := Parsed(payload).value;
            var other := payload[..p.audioEnd] + tail;
            && 1 <= p.audioEnd <= |payload|
            && Parsed(other) == Some(p.(payload := other, position := if p.codec.Ping? then None else PositionOf(tail)))
  {
    hide Audio, PositionOf, CodecOf, TargetOf;
    var p := Parsed(payload).value;
    var k := p.audioEnd - 1;
    AudioIsLocal(p.codec, payload[1..], tail);
    SplitPrefix(payload, 1, k, tail);
    assert (payload[..p.audioEnd] + tail)[p.audioEnd..] == tail;
  }

  lemma WordRoundTrip(w: Word)
    ensures WordOf(BeBytes(w, 4)) == w
  {
    PowersOf256();
    BeValueOfBytes(w, 4);
  }

  lemma PositionRoundTrip(p: Position)
    ensures PositionOf(PositionBytes(p)) == Some(p)
  {
    hide BeBytes, WordOf;
    var bs := PositionBytes(p);
    assert bs[0..4] == BeBytes(p.x, 4) && bs[4..8] == BeBytes(p.y, 4) && bs[8..12] == BeBytes(p.z, 4);
    WordRoundTrip(p.x);
    WordRoundTrip(p.y);
    WordRoundTrip(p.z);
  }

  // ----- packets as clients build them -----

  /** A run of frames, each at most 127 bytes, all but the last marked as continued. */
  function FrameRun(frames: seq<seq<byte>>): seq<byte>
    requires forall f :: f in frames ==> |f| < 128
  {
    if frames == [] then []
    else Write(|frames[0]| + if |frames| > 1 then 128 else 0) + frames[0] + FrameRun(frames[1..])
  }

  lemma FramesStep(s: seq<byte>)
    ensures var r := Read(s);
            Frames(s) == if r.None? || |s| < r.value.1 + r.value.0 % 256 % 128 then None
                         else var m := r.value.1 + r.value.0 % 256 % 128;
                           if r.value.0 % 256 < 128 then Some(m) else Shifted(Frames(s[m..]), m)
  {
    hide Read;
  }

  /** One frame at the head of a run, under any header: its low seven bits count the bytes, its eighth says
      that another frame follows, and the rest is ignored. */
  lemma FrameAtHead(header: nat, frame: seq<byte>, rest: seq<byte>)
    requires header < U64 && |frame| == header % 128
    ensures var head := Write(header) + frame;
            Frames(head + rest) == if header / 128 % 2 == 1 then Shifted(Frames(rest), |head|) else Some(|head|)
  {
    hide Read, Write, Frames;
    HeadBits(header);
    var head := Write(header) + frame;
    ReadUndoesWrite(header, frame + rest);
    assert head + rest == Write(header) + (frame + rest);
    assert (head + rest)[|head|..] == rest;
    FramesStep(head + rest);
  }

  lemma HeadBits(v: nat)
    ensures v % 256 % 128 == v % 128 && (v % 256 < 128 <==> v / 128 % 2 == 0)
  {
  }

  lemma {:induction false} FrameRunIsFramed(frames: seq<seq<byte>>, tail: seq<byte>)
    requires frames != [] && forall f :: f in frames ==> |f| < 128
    ensures Frames(FrameRun(frames) + tail) == Some(|FrameRun(frames)|)
    decreases |frames|
  {
    hide Read, Write, Frames;
    var more, rest := |frames| > 1, FrameRun(frames[1..]);
    var header := |frames[0]| + if more then 128 else 0;
    FrameAtHead(header, frames[0], rest + tail);
    var head := Write(header) + frames[0];
    assert FrameRun(frames) + tail == head + (rest + tail);
    if more {
      FrameRunIsFramed(frames[1..], tail);
    } else {
      assert rest == [];
    }
  }

  /** What a client sends: header, its session, and the audio behind it. */
  function Sent(codec: Codec, target: byte, session: nat, audio: seq<byte>): seq<byte>
    requires target < 32 && session < U64
  {
    [CodecBits(codec) * 32 + target] + Write(session) + audio
  }

  function CodecBits(codec: Codec): byte {
    match codec
    case CeltAlpha => 0
    case Ping => 1
    case Speex => 2
    case CeltBeta => 3
    case Opus => 4
  }

  lemma SentParses(codec: Codec, target: byte, session: nat, audio: seq<byte>, tail: seq<byte>)
    requires target < 32 && session < U64 && !codec.Ping?
    requires (if codec.Opus? then OpusFrame(audio + tail) else Frames(audio + tail)) == Some(|audio|)
    ensures var sent := Sent(codec, target, session, audio);
            Parsed(sent + tail) == Some(Packet(codec, TargetOf(target), sent + tail, |sent|, PositionOf(tail)))
  {
    hide Read, Write, Frames, OpusFrame, PositionOf, TargetOf;
    var sent, head := Sent(codec, target, session, audio), Write(session);
    var s := (sent + tail)[1..];
    assert s == head + (audio + tail);
    ReadUndoesWrite(session, audio + tail);
    assert s[|head|..] == audio + tail;
    assert (sent + tail)[|sent|..] == tail;
  }

  /** An Opus packet with any session, any frame header whose low 13 bits count the audio bytes, and any
      tail parses to what was built. */
  lemma OpusParses(target: byte, session: nat, header: nat, audio: seq<byte>, tail: seq<byte>)
    requires target < 32 && session < U64 && header < U64 && |audio| == header % 0x2000
    ensures var sent := Sent(Opus, target, session, Write(header) + audio);
            Parsed(sent + tail) == Some(Packet(Opus, TargetOf(target), sent + tail, |sent|, PositionOf(tail)))
  {
    hide Read, Write, Parsed;
    ReadUndoesWrite(header, audio + tail);
    assert Write(header) + audio + tail == Write(header) + (audio + tail);
    SentParses(Opus, target, session, Write(header) + audio, tail);
  }

  /** So does a packet of any number of CELT or Speex frames. */
  lemma FramedParses(codec: Codec, target: byte, session: nat, frames: seq<seq<byte>>, tail: seq<byte>)
    requires codec.CeltAlpha? || codec.CeltBeta? || codec.Speex?
    requires target < 32 && session < U64 && frames != [] && forall f :: f in frames ==> |f| < 128
    ensures var sent := Sent(codec, target, session, FrameRun(frames));
            Parsed(sent + tail) == Some(Packet(codec, TargetOf(target), sent + tail, |sent|, PositionOf(tail)))
  {
    hide Read, Write, Parsed, Frames, FrameRun;
    FrameRunIsFramed(frames, tail);
    SentParses(codec, target, session, FrameRun(frames), tail);
  }

  // ----- the code -----

  /** Passes over a run of frames. */
  method SkipFrames(r: Reader) returns (ok: bool)
    requires r.pos <= |r.buf|
    modifies r
    ensures r.pos <= |r.buf|
    ensures ok <==> Frames(r.buf[old(r.pos)..]).Some?
    ensures ok ==> r.pos == old(r.pos) + Frames(r.buf[old(r.pos)..]).value
  {
    hide Read, Frames;
    var start := r.pos;
    var more := true;
    while more
      invariant start <= r.pos <= |r.buf|
      invariant !more ==> Frames(r.buf[start..]) == Some(r.pos - start)
      invariant more ==> Frames(r.buf[start..]) == Shifted(Frames(r.buf[r.pos..]), r.pos - start)
      decreases more, |r.buf| - r.pos
    {
      var at := r.pos;
      var rest := r.buf[at..];
      FramesStep(rest);
      var head := r.ReadU64();
      if head.None? {
        return false;
      }
      var h := head.value % 256;
      var fits := r.Skip(h % 128);
      if !fits {
        return false;
      }
      more := h >= 128;
      assert rest[r.pos - at..] == r.buf[r.pos..];
    }
    ok := true;
  }

  function Shifted(r: Option<nat>, d: nat): Option<nat> {
    match r
    case None => None
    case Some(k) => Some(d + k)
  }

  /** Passes over one frame with a 13-bit byte count. */
  method SkipOpusFrame(r: Reader) returns (ok: bool)
    requires r.pos <= |r.buf|
    modifies r
    ensures r.pos <= |r.buf|
    ensures ok <==> OpusFrame(r.buf[old(r.pos)..]).Some?
    ensures ok ==> r.pos == old(r.pos) + OpusFrame(r.buf[old(r.pos)..]).value
  {
    hide Read;
    var head := r.ReadU64();
    if head.None? {
      return false;
    }
    ok := r.Skip(head.value % 0x2000);
  }

  /** Passes over the session and the audio. */
  method SkipAudio(codec: Codec, r: Reader) returns (ok: bool)
    requires r.pos == 0
    modifies r
    ensures r.pos <= |r.buf|
    ensures Audio(codec, r.buf) == if ok then Some(r.pos) else None
  {
    hide Read, Frames, OpusFrame;
    assert r.buf[0..] == r.buf;
    var session := r.ReadU64();
    if session.None? {
      return false;
    }
    match codec {
      case Opus => ok := SkipOpusFrame(r);
      case Ping => ok := true;
      case _ => ok := SkipFrames(r);
    }
  }

  method Parse(payload: seq<byte>) returns (r: Option<Packet>)
    ensures r == Parsed(payload)
  {
    hide Audio, PositionOf, TargetOf, CodecOf;
    if payload == [] {
      return None;
    }
    var codec := CodecOf(payload[0] / 32);
    if codec.None? {
      return None;
    }
    var reader := new Reader(payload[1..]);
    var ok := SkipAudio(codec.value, reader);
    if !ok {
      return None;
    }
    var audioEnd := 1 + reader.pos;
    var position := if codec.value.Ping? then None else PositionOf(payload[audioEnd..]);
    r := Some(Packet(codec.value, TargetOf(payload[0] % 32), payload, audioEnd, position));
  }

  /** The packet without its position: header and audio only. */
  method WithoutPosition(p: Packet) returns (out: seq<byte>)
    requires Parsed(p.payload) == Some(p)
    ensures Parsed(out) == Some(p.(payload := out, position := None))
    ensures out <= p.payload && |out| == p.audioEnd
  {
    hide Parsed;
    TailIsFree(p.payload, []);
    out := p.payload[..p.audioEnd];
    assert out + [] == out;
  }

  /** The packet with `position` in place of whatever followed its audio. */
  method WithRewrittenPosition(p: Packet, position: Position) returns (out: seq<byte>)
    requires Parsed(p.payload) == Some(p)
    ensures Parsed(out) == Some(p.(payload := out, position := if p.codec.Ping? then None else Some(position)))
    ensures out[..p.audioEnd] == p.payload[..p.audioEnd] && |out| == p.audioEnd + 12
  {
    hide Parsed, PositionOf, BeBytes;
    TailIsFree(p.payload, PositionBytes(position));
    PositionRoundTrip(position);
    out := p.payload[..p.audioEnd];
    var words: seq<Word> := [position.x, position.y, position.z];
    ghost var start := out;
    out := out + BeBytes(words[0], 4);
    out := out + BeBytes(words[1], 4);
    out := out + BeBytes(words[2], 4);
    assert out == start + PositionBytes(position);
  }

  /** What listeners get: the speaker's session behind the header byte, then the body as it came. */
  method EncodeOutbound(session: nat, p: Packet, withPosition: bool) returns (out: seq<byte>)
    requires session < U64 && Parsed(p.payload) == Some(p)
    ensures out != [] && out[0] == p.payload[0]
    ensures var r := Read(out[1..]);
            && r.Some? && r.value.0 == session
            && out[1..][r.value.1..] == p.payload[1..if withPosition then |p.payload| else p.audioEnd]
  {
    hide Read, Write, Parsed;
    TailIsFree(p.payload, []);
    var body := if withPosition then p.payload[1..] else p.payload[1..p.audioEnd];
    out := [p.payload[0]];
    ghost var head := Write(session);
    out := WriteU64(out, session);
    out := out + body;
    assert out == [p.payload[0]] + head + body;
    assert out[1..] == head + body;
    ReadUndoesWrite(session, body);
  }
}
