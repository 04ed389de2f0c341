/** The packfile byte layout: a writer that appends and back-patches one buffer, a reader that
    starts at the root record, and the proof that the reader undoes the writer. */
module PackFormat {
  import opened Bytes
  import opened PackTree

  const MAGIC: nat := 0x3246_5052
  const ALIGNMENT: nat := 2048
  const DIRECTORY_FLAG: nat := 0x8000_0000
  const RECORD: nat := 16

  // ----- byte-string helpers -----

  function Blank(n: nat): (s: seq<byte>)
    ensures |s| == n && forall i :: 0 <= i < n ==> s[i] == 0
  {
    seq(n, _ => 0)
  }

  function PadLength(len: nat): (n: nat)
    ensures n < ALIGNMENT && (len + n) % ALIGNMENT == 0
  {
    if len % ALIGNMENT == 0 then 0 else ALIGNMENT - len % ALIGNMENT
  }

  /** Appends zeros up to the next multiple of the alignment. */
  method PadTo(buf: seq<byte>) returns (padded: seq<byte>)
    ensures padded == buf + Blank(PadLength(|buf|))
  {
    var rem := |buf| % ALIGNMENT;
    padded := buf;
    if rem != 0 {
      padded := padded + Blank(ALIGNMENT - rem);
    } else {
      assert buf + Blank(0) == buf;
    }
  }

  /** Overwrites the bytes at `pos`. */
  function Splice(buf: seq<byte>, pos: nat, part: seq<byte>): (r: seq<byte>)
    requires pos + |part| <= |buf|
    ensures |r| == |buf|
  {
    buf[..pos] + part + buf[pos + |part|..]
  }

  lemma SpliceMiddle(a: seq<byte>, old': seq<byte>, b: seq<byte>, new': seq<byte>)
    requires |old'| == |new'|
    ensures Splice(a + old' + b, |a|, new') == a + new' + b
  {
  }

  /** `part` stands in `buf` at `pos`. */
  predicate At(buf: seq<byte>, pos: nat, part: seq<byte>) {
    pos + |part| <= |buf| && buf[pos..pos + |part|] == part
  }

  lemma AtMiddle(a: seq<byte>, part: seq<byte>, b: seq<byte>)
    ensures At(a + part + b, |a|, part)
  {
  }

  /** A part of a part, seen from the whole. */
  lemma AtInside(buf: seq<byte>, pos: nat, part: seq<byte>, off: nat, inner: seq<byte>)
    requires At(buf, pos, part) && At(part, off, inner)
    ensures At(buf, pos + off, inner)
  {
    forall k | 0 <= k < |inner| ensures buf[pos + off + k] == inner[k] {
      assert part[off..off + |inner|][k] == part[off + k] == buf[pos..pos + |part|][off + k];
    }
  }

  // ----- records -----

  /** The four little-endian words of a table record. */
  datatype Rec = Rec(nameOff: nat, length: nat, offset: nat, length2: nat)

  function RecBytes(r: Rec): (bs: seq<byte>)
    ensures |bs| == RECORD
  {
    LeU32(r.nameOff) + LeU32(r.length) + LeU32(r.offset) + LeU32(r.length2)
  }

  function Flat(rs: seq<Rec>): (bs: seq<byte>)
    ensures |bs| == RECORD * |rs|
  {
    if rs == [] then [] else RecBytes(rs[0]) + Flat(rs[1..])
  }

  lemma {:induction false} FlatSplit(rs: seq<Rec>, i: nat)
    requires i < |rs|
    ensures Flat(rs) == Flat(rs[..i]) + RecBytes(rs[i]) + Flat(rs[i + 1..])
  {
    hide RecBytes;
    if i != 0 {
      var tail := rs[1..];
      FlatSplit(tail, i - 1);
      assert rs[..i] == [rs[0]] + tail[..i - 1] && rs[..i][1..] == tail[..i - 1];
      assert tail[i..] == rs[i + 1..];
    }
  }

  lemma {:induction false} FlatAppend(rs: seq<Rec>, r: Rec)
    ensures Flat(rs + [r]) == Flat(rs) + RecBytes(r)
  {
    if rs != [] {
      FlatAppend(rs[1..], r);
      assert (rs + [r])[1..] == rs[1..] + [r];
    } else {
      assert [r][1..] == [];
    }
  }

  /** Rewriting the bytes of record `i` in the buffer rewrites the record. */
  lemma PatchRecord(head: seq<byte>, rs: seq<Rec>, tail: seq<byte>, i: nat, r: Rec)
    requires i < |rs|
    ensures Splice(head + Flat(rs) + tail, |head| + RECORD * i, RecBytes(r)) == head + Flat(rs[i := r]) + tail
  {
    hide RecBytes, Splice, Flat;
    var a, b := Flat(rs[..i]), Flat(rs[i + 1..]);
    FlatSplit(rs, i);
    FlatSplit(rs[i := r], i);
    assert rs[i := r][..i] == rs[..i] && rs[i := r][i + 1..] == rs[i + 1..];
    Regroup(head, a, RecBytes(rs[i]), b, tail);
    SpliceMiddle(head + a, RecBytes(rs[i]), b + tail, RecBytes(r));
    Regroup(head, a, RecBytes(r), b, tail);
  }

  lemma Regroup(a: seq<byte>, b: seq<byte>, c: seq<byte>, d: seq<byte>, e: seq<byte>)
    ensures a + (b + c + d) + e == (a + b) + c + (d + e)
  {
  }

  lemma RecordAt(head: seq<byte>, rs: seq<Rec>, tail: seq<byte>, i: nat)
    requires i < |rs|
    ensures At(head + Flat(rs) + tail, |head| + RECORD * i, RecBytes(rs[i]))
  {
    hide RecBytes, At, Flat;
    var a, b := Flat(rs[..i]), Flat(rs[i + 1..]);
    FlatSplit(rs, i);
    Regroup(head, a, RecBytes(rs[i]), b, tail);
    AtMiddle(head + a, RecBytes(rs[i]), b + tail);
  }

  lemma RecWords(r: Rec)
    ensures At(RecBytes(r), 0, LeU32(r.nameOff)) && At(RecBytes(r), 4, LeU32(r.length))
    ensures At(RecBytes(r), 8, LeU32(r.offset)) && At(RecBytes(r), 12, LeU32(r.length2))
  {
    hide LeU32;
  }

  // ----- the layout -----

  /** `first` with the top bit of its 32-bit word set. */
  function WithFlag(first: nat): (w: nat)
    ensures 0x8000_0000 <= w < 0x1_0000_0000 && w % 0x8000_0000 == first % 0x8000_0000
  {
    var w := first % U32;
    if w >= DIRECTORY_FLAG then w else w + DIRECTORY_FLAG
  }

  /** The name area once the first `k` entries are in; the root's name is "/". */
  function NameArea(es: seq<Entry>, k: nat): seq<byte>
    requires k <= |es|
  {
    if k == 0 then [SLASH, 0]
    else NameArea(es, k - 1) + (if k == 1 then [] else es[k - 1].name + [0])
  }

  function NameOff(es: seq<Entry>, i: nat): nat
    requires i <= |es|
  {
    if i == 0 then 0 else |NameArea(es, i)|
  }

  /** The data area once the first `k` entries are in: each file padded to the alignment. */
  function DataArea(es: seq<Entry>, k: nat): (bs: seq<byte>)
    requires k <= |es|
    ensures |bs| % ALIGNMENT == 0
  {
    if k == 0 then []
    else if es[k - 1].FileEntry? then
      var d := es[k - 1].data;
      AlignedSum(|DataArea(es, k - 1)|, |d| + PadLength(|d|));
      DataArea(es, k - 1) + (d + Blank(PadLength(|d|)))
    else DataArea(es, k - 1)
  }

  lemma AlignedSum(a: nat, b: nat)
    requires a % ALIGNMENT == 0 && b % ALIGNMENT == 0
    ensures (a + b) % ALIGNMENT == 0
  {
  }

  function NamesEnd(es: seq<Entry>): nat {
    ALIGNMENT + RECORD * |es| + |NameArea(es, |es|)|
  }

  /** Where the data area starts. */
  function TocSize(es: seq<Entry>): (n: nat)
    ensures n % ALIGNMENT == 0
  {
    NamesEnd(es) + PadLength(NamesEnd(es))
  }

  function DataOff(es: seq<Entry>, i: nat): nat
    requires i <= |es|
  {
    TocSize(es) + |DataArea(es, i)|
  }

  function Header(count: nat, tocSize: nat): (bs: seq<byte>)
    ensures |bs| == ALIGNMENT
  {
    LeU32(MAGIC) + LeU32(tocSize) + LeU32(count) + LeU32(0) + LeU32(0) + Blank(ALIGNMENT - 20)
  }

  /** A record as first written, before its offsets are known. */
  function BlankRec(e: Entry): Rec {
    match e
    case DirEntry(_, count, first) => Rec(0, count, WithFlag(first), count)
    case FileEntry(_, _) => Rec(0, 0, 0, 0)
  }

  function NamedRec(es: seq<Entry>, i: nat): Rec
    requires i < |es|
  {
    BlankRec(es[i]).(nameOff := NameOff(es, i))
  }

  /** All records as first written, and with their name offsets filled in. */
  function BlankRecs(es: seq<Entry>): (rs: seq<Rec>)
    ensures |rs| == |es|
  {
    seq(|es|, i requires 0 <= i < |es| => BlankRec(es[i]))
  }

  function NamedRecs(es: seq<Entry>): (rs: seq<Rec>)
    ensures |rs| == |es|
  {
    seq(|es|, i requires 0 <= i < |es| => NamedRec(es, i))
  }

  /** A record as it stands in the finished file. */
  function FinalRec(es: seq<Entry>, i: nat): Rec
    requires i < |es|
  {
    match es[i]
    case DirEntry(_, _, _) => NamedRec(es, i)
    case FileEntry(_, data) => Rec(NameOff(es, i), |data|, DataOff(es, i), |data|)
  }

  function FinalRecs(es: seq<Entry>): (rs: seq<Rec>)
    ensures |rs| == |es|
  {
    seq(|es|, i requires 0 <= i < |es| => FinalRec(es, i))
  }

  /** The name area with its padding. */
  function PaddedNames(es: seq<Entry>): seq<byte> {
    NameArea(es, |es|) + Blank(PadLength(NamesEnd(es)))
  }

  /** The finished file. */
  function Archive(es: seq<Entry>): seq<byte> {
    Header(|es|, TocSize(es)) + Flat(FinalRecs(es)) + PaddedNames(es) + DataArea(es, |es|)
  }

  // ----- the writer -----

  method WriteHeader(count: nat) returns (buf: seq<byte>)
    ensures buf == Header(count, 0)
  {
    hide LeU32;
    buf := LeU32(MAGIC) + LeU32(0) + LeU32(count) + LeU32(0) + LeU32(0);
    buf := PadTo(buf);
  }

  method WriteRecords(header: seq<byte>, es: seq<Entry>) returns (buf: seq<byte>)
    ensures buf == header + Flat(BlankRecs(es))
  {
    hide RecBytes, Flat, WithFlag;
    buf := header;
    ghost var recs: seq<Rec> := [];
    assert header + Flat([]) == header;
    for i := 0 to |es|
      invariant |recs| == i && forall j :: 0 <= j < i ==> recs[j] == BlankRec(es[j])
      invariant buf == header + Flat(recs)
    {
      var r := BlankRec(es[i]);
      FlatAppend(recs, r);
      buf := buf + RecBytes(r);
      recs := recs + [r];
    }
    assert recs == BlankRecs(es);
  }

  /** Writes the names, going back to fill in each record's name offset. */
  method WriteNames(header: seq<byte>, es: seq<Entry>, start: seq<byte>) returns (buf: seq<byte>)
    requires |header| == ALIGNMENT && start == header + Flat(BlankRecs(es))
    ensures buf == header + Flat(NamedRecs(es)) + NameArea(es, |es|)
  {
    hide LeU32, Flat, BlankRec, Splice, NameArea;
    var namesBase := |start|;
    buf := start + [SLASH, 0];
    ghost var named := BlankRecs(es);
    FirstName(es);
    for i := 0 to |es|
      invariant |named| == |es|
      invariant forall j :: 0 <= j < i ==> named[j] == NamedRec(es, j)
      invariant forall j :: i <= j < |es| ==> named[j] == BlankRec(es[j])
      invariant buf == header + Flat(named) + NameArea(es, i)
    {
      var record := ALIGNMENT + RECORD * i;
      var nameOff := if i == 0 then 0 else |buf| - namesBase;
      PatchName(header, named, NameArea(es, i), i, nameOff);
      buf := Splice(buf, record, LeU32(nameOff));
      named := named[i := named[i].(nameOff := nameOff)];
      NextName(header + Flat(named), es, i);
      if i != 0 {
        buf := buf + es[i].name + [0];
      }
    }
    assert named == NamedRecs(es);
  }

  lemma FirstName(es: seq<Entry>)
    ensures NameArea(es, 0) == [SLASH, 0]
  {
  }

  lemma NextName(front: seq<byte>, es: seq<Entry>, i: nat)
    requires i < |es|
    ensures front + NameArea(es, i + 1) ==
              if i == 0 then front + NameArea(es, i) else front + NameArea(es, i) + es[i].name + [0]
  {
    if i != 0 {
      var a, n := NameArea(es, i), es[i].name;
      assert front + (a + (n + [0])) == front + a + n + [0];
    } else {
      assert NameArea(es, 0) + [] == NameArea(es, 0);
    }
  }

  lemma PatchName(header: seq<byte>, rs: seq<Rec>, tail: seq<byte>, i: nat, nameOff: nat)
    requires |header| == ALIGNMENT && i < |rs|
    ensures ALIGNMENT + RECORD * i + 4 <= |header + Flat(rs) + tail|
    ensures Splice(header + Flat(rs) + tail, ALIGNMENT + RECORD * i, LeU32(nameOff))
         == header + Flat(rs[i := rs[i].(nameOff := nameOff)]) + tail
  {
    hide LeU32, Flat, Splice;
    var r := rs[i];
    SpliceInRecord(header, rs, tail, i, 0, LeU32(nameOff));
    var rest := LeU32(r.length) + LeU32(r.offset) + LeU32(r.length2);
    assert RecBytes(r) == [] + LeU32(r.nameOff) + rest;
    SpliceMiddle([], LeU32(r.nameOff), rest, LeU32(nameOff));
    assert RecBytes(r.(nameOff := nameOff)) == [] + LeU32(nameOff) + rest;
    PatchRecord(header, rs, tail, i, r.(nameOff := nameOff));
  }

  /** Overwriting some bytes of a record is overwriting the record with the changed bytes. */
  lemma SpliceInRecord(header: seq<byte>, rs: seq<Rec>, tail: seq<byte>, i: nat, off: nat, part: seq<byte>)
    requires i < |rs| && off + |part| <= RECORD
    ensures var buf, pos := header + Flat(rs) + tail, |header| + RECORD * i;
            && pos + RECORD <= |buf|
            && Splice(buf, pos + off, part) == Splice(buf, pos, Splice(RecBytes(rs[i]), off, part))
  {
    hide RecBytes, Flat;
    var buf, pos := header + Flat(rs) + tail, |header| + RECORD * i;
    var rec := RecBytes(rs[i]);
    RecordAt(header, rs, tail, i);
    assert buf[pos..pos + RECORD] == rec;
    assert buf[..pos + off] == buf[..pos] + rec[..off];
    assert buf[pos + off + |part|..] == rec[off + |part|..] + buf[pos + RECORD..];
  }

  lemma PatchFile(header: seq<byte>, rs: seq<Rec>, tail: seq<byte>, i: nat, len: nat, offset: nat)
    requires |header| == ALIGNMENT && i < |rs|
    ensures ALIGNMENT + RECORD * i + RECORD <= |header + Flat(rs) + tail|
    ensures var buf := header + Flat(rs) + tail; var record := ALIGNMENT + RECORD * i;
            Splice(Splice(Splice(buf, record + 4, LeU32(len)), record + 8, LeU32(offset)), record + 12, LeU32(len))
            == header + Flat(rs[i := Rec(rs[i].nameOff, len, offset, len)]) + tail
  {
    hide LeU32, Flat, Splice;
    var buf, record := header + Flat(rs) + tail, ALIGNMENT + RECORD * i;
    var r := rs[i];
    var parts := LeU32(len) + LeU32(offset) + LeU32(len);
    assert record + RECORD <= |buf| by { RecordAt(header, rs, tail, i); }
    SpliceThree(buf, record + 4, LeU32(len), LeU32(offset), LeU32(len));
    SpliceInRecord(header, rs, tail, i, 4, parts);
    var old' := LeU32(r.length) + LeU32(r.offset) + LeU32(r.length2);
    assert RecBytes(r) == LeU32(r.nameOff) + old' + [];
    SpliceMiddle(LeU32(r.nameOff), old', [], parts);
    assert RecBytes(Rec(r.nameOff, len, offset, len)) == LeU32(r.nameOff) + parts + [];
    PatchRecord(header, rs, tail, i, Rec(r.nameOff, len, offset, len));
  }

  /** An overwrite next to the end of an earlier one extends it. */
  lemma SpliceNext(buf: seq<byte>, pos: nat, a: seq<byte>, b: seq<byte>)
    requires pos + |a| + |b| <= |buf|
    ensures Splice(Splice(buf, pos, a), pos + |a|, b) == Splice(buf, pos, a + b)
  {
    hide Splice;
    var pre, x, y, post := buf[..pos], buf[pos..pos + |a|], buf[pos + |a|..pos + |a| + |b|], buf[pos + |a| + |b|..];
    assert buf == pre + (x + y) + post;
    SpliceMiddle(pre, x + y, post, a + b);
    assert buf == pre + x + (y + post);
    SpliceMiddle(pre, x, y + post, a);
    assert pre + a + (y + post) == (pre + a) + y + post;
    SpliceMiddle(pre + a, y, post, b);
    assert (pre + a) + b + post == pre + (a + b) + post;
  }

  /** Three neighbouring overwrites are one. */
  lemma SpliceThree(buf: seq<byte>, pos: nat, a: seq<byte>, b: seq<byte>, c: seq<byte>)
    requires |a| == 4 && |b| == 4 && |c| == 4 && pos + 12 <= |buf|
    ensures Splice(Splice(Splice(buf, pos, a), pos + 4, b), pos + 8, c) == Splice(buf, pos, a + b + c)
  {
    hide Splice;
    SpliceNext(buf, pos, a, b);
    SpliceNext(buf, pos, a + b, c);
  }

  lemma PatchHeader(count: nat, size: nat, rest: seq<byte>)
    ensures Splice(Header(count, 0) + rest, 4, LeU32(size)) == Header(count, size) + rest
  {
    hide LeU32;
    var post := LeU32(count) + LeU32(0) + LeU32(0) + Blank(ALIGNMENT - 20) + rest;
    assert Header(count, 0) + rest == LeU32(MAGIC) + LeU32(0) + post;
    SpliceMiddle(LeU32(MAGIC), LeU32(0), post, LeU32(size));
    assert Header(count, size) + rest == LeU32(MAGIC) + LeU32(size) + post;
  }

  /** Appends one file's contents and fills in its record. */
  method WriteFile(start: seq<byte>, i: nat, data: seq<byte>, ghost header: seq<byte>, ghost recs: seq<Rec>,
                   ghost tail: seq<byte>)
      returns (buf: seq<byte>)
    requires |header| == ALIGNMENT && i < |recs| && start == header + Flat(recs) + tail && |start| % ALIGNMENT == 0
    ensures buf == header + Flat(recs[i := Rec(recs[i].nameOff, |data|, |start|, |data|)]) +
              (tail + (data + Blank(PadLength(|data|))))
  {
    hide LeU32, Flat, Splice, PadLength;
    var record := ALIGNMENT + RECORD * i;
    var offset, len := |start|, |data|;
    PatchFile(header, recs, tail, i, len, offset);
    buf := Splice(start, record + 4, LeU32(len));
    buf := Splice(buf, record + 8, LeU32(offset));
    buf := Splice(buf, record + 12, LeU32(len));
    PadSame(|buf|, len);
    buf := buf + data;
    buf := PadTo(buf);
  }

  /** Writes the file contents, going back to fill in each file record. */
  method WriteData(es: seq<Entry>, start: seq<byte>, ghost named: seq<Rec>) returns (buf: seq<byte>)
    requires |named| == |es| && forall j :: 0 <= j < |es| ==> named[j] == NamedRec(es, j)
    requires start == Header(|es|, TocSize(es)) + Flat(named) + PaddedNames(es)
    ensures buf == Archive(es)
  {
    hide LeU32, Flat, BlankRec, NamedRec, Header, PaddedNames, Splice, TocSize, PadLength, DataOff, NameOff;
    ghost var header, names := Header(|es|, TocSize(es)), PaddedNames(es);
    ghost var recs := named;
    buf := start;
    for i := 0 to |es|
      invariant |recs| == |es|
      invariant forall j :: 0 <= j < i ==> recs[j] == FinalRec(es, j)
      invariant forall j :: i <= j < |es| ==> recs[j] == NamedRec(es, j)
      invariant buf == header + Flat(recs) + (names + DataArea(es, i))
    {
      NamedOff(es, i);
      if es[i].FileEntry? {
        var data := es[i].data;
        OffsetIsDataOff(es, recs, i);
        buf := WriteFile(buf, i, data, header, recs, names + DataArea(es, i));
        recs := recs[i := Rec(recs[i].nameOff, |data|, DataOff(es, i), |data|)];
      }
    }
    assert recs == FinalRecs(es);
    assert buf == Archive(es);
  }

  lemma NamedOff(es: seq<Entry>, i: nat)
    requires i < |es|
    ensures NamedRec(es, i).nameOff == NameOff(es, i)
  {
  }

  lemma PadSame(aligned: nat, len: nat)
    requires aligned % ALIGNMENT == 0
    ensures PadLength(aligned + len) == PadLength(len)
  {
  }

  lemma StartIsToc(es: seq<Entry>, recs: seq<Rec>)
    requires |recs| == |es|
    ensures |Header(|es|, TocSize(es)) + Flat(recs) + PaddedNames(es)| == TocSize(es)
  {
    hide LeU32, Flat;
  }

  lemma OffsetIsDataOff(es: seq<Entry>, recs: seq<Rec>, i: nat)
    requires |recs| == |es| && i <= |es|
    ensures |Header(|es|, TocSize(es)) + Flat(recs) + (PaddedNames(es) + DataArea(es, i))| == DataOff(es, i)
    ensures DataOff(es, i) % ALIGNMENT == 0
  {
    hide Header, Flat, PaddedNames, DataArea, TocSize;
    StartIsToc(es, recs);
    AlignedSum(TocSize(es), |DataArea(es, i)|);
  }

  /** Writes a whole archive from its table. */
  method WriteArchive(es: seq<Entry>) returns (buf: seq<byte>)
    ensures buf == Archive(es)
  {
    hide LeU32, Flat, Header, NameArea, NamedRec, BlankRec, Archive, Splice;
    var header := WriteHeader(|es|);
    ghost var named := NamedRecs(es);
    buf := WriteRecords(header, es);
    buf := WriteNames(header, es, buf);
    buf := PadTo(buf);
    assert buf == header + (Flat(named) + PaddedNames(es));
    var tocSize := |buf|;
    assert tocSize == TocSize(es);
    PatchHeader(|es|, tocSize, Flat(named) + PaddedNames(es));
    buf := Splice(buf, 4, LeU32(tocSize));
    assert buf == Header(|es|, tocSize) + Flat(named) + PaddedNames(es);
    buf := WriteData(es, buf, named);
  }

  /** Builds an archive from input files. */
  method BuildRpf(files: seq<Input>) returns (rpf: seq<byte>)
    ensures rpf == Archive(Table(TreeOf(files)))
  {
    var root := BuildTree(files);
    var entries := Flatten(root);
    rpf := WriteArchive(entries);
  }

  // ----- the reader -----

  function U32At(buf: seq<byte>, pos: nat): nat {
    if pos + 4 <= |buf| then LeValue(buf[pos..pos + 4]) else 0
  }

  /** The bytes from `pos` up to the next zero byte. */
  function NameAt(buf: seq<byte>, pos: nat): Name
    decreases |buf| - pos
  {
    if pos < |buf| && buf[pos] != 0 then [buf[pos]] + NameAt(buf, pos + 1) else []
  }

  function DataAt(buf: seq<byte>, pos: nat, len: nat): Data {
    if pos + len <= |buf| then buf[pos..pos + len] else []
  }

  function DecodeEntry(buf: seq<byte>, count: nat, i: nat): Entry {
    var record := ALIGNMENT + RECORD * i;
    var name := NameAt(buf, ALIGNMENT + RECORD * count + U32At(buf, record));
    var length, offset := U32At(buf, record + 4), U32At(buf, record + 8);
    if offset >= DIRECTORY_FLAG then DirEntry(name, length, offset - DIRECTORY_FLAG)
    else FileEntry(name, DataAt(buf, offset, length))
  }

  function DecodeTable(buf: seq<byte>): seq<Entry> {
    var count := U32At(buf, 8);
    seq(count, i requires 0 <= i < count => DecodeEntry(buf, count, i))
  }

  /** Reads an archive from its root record. */
  function ReadArchive(buf: seq<byte>): Option<DirNode> {
    if U32At(buf, 0) == MAGIC then ReadDir(DecodeTable(buf), 0) else None
  }

  // ----- the reader undoes the writer -----

  predicate NulFree(name: Name) {
    0 !in name
  }

  predicate NulFreeTable(es: seq<Entry>) {
    forall i :: 0 <= i < |es| ==> NulFree(es[i].name)
  }

  /** Everything an offset field must express fits: the table and every file start below 2^31,
      and lengths are 32-bit. */
  predicate Fits(es: seq<Entry>) {
    && TocSize(es) < DIRECTORY_FLAG
    && forall i :: 0 <= i < |es| && es[i].FileEntry? ==> DataOff(es, i) < DIRECTORY_FLAG && |es[i].data| < U32
  }

  /** Directory entries point inside the table. */
  predicate InTable(es: seq<Entry>) {
    forall i :: 0 <= i < |es| && es[i].DirEntry? ==> es[i].first <= |es| && es[i].count <= |es|
  }

  lemma U32Reads(buf: seq<byte>, pos: nat, n: nat)
    requires At(buf, pos, LeU32(n)) && n < U32
    ensures U32At(buf, pos) == n
  {
    LeU32RoundTrip(n);
  }

  lemma {:induction false} NameReads(buf: seq<byte>, pos: nat, name: Name)
    requires At(buf, pos, name + [0]) && NulFree(name)
    ensures NameAt(buf, pos) == name
    decreases |name|
  {
    var part := name + [0];
    assert buf[pos] == buf[pos..pos + |part|][0] == part[0];
    if name != [] {
      assert At(part, 1, name[1..] + [0]);
      AtInside(buf, pos, part, 1, name[1..] + [0]);
      assert name[0] in name;
      NameReads(buf, pos + 1, name[1..]);
    }
  }

  /** The name of entry `i` stands at its offset in the name area. */
  lemma {:induction false} NameStands(es: seq<Entry>, i: nat, k: nat)
    requires i < k <= |es|
    ensures At(NameArea(es, k), NameOff(es, i), (if i == 0 then [SLASH] else es[i].name) + [0])
  {
    var name := if i == 0 then [SLASH] else es[i].name;
    var before := NameArea(es, k - 1);
    if k - 1 == i {
      if i == 0 {
        assert NameArea(es, 1) == [] + (name + [0]) + [];
        AtMiddle([], name + [0], []);
      } else {
        assert NameArea(es, k) == before + (name + [0]) + [];
        AtMiddle(before, name + [0], []);
      }
    } else {
      NameStands(es, i, k - 1);
      var more := if k == 1 then [] else es[k - 1].name + [0];
      assert NameArea(es, k) == [] + before + more;
      AtMiddle([], before, more);
      AtInside(NameArea(es, k), 0, before, NameOff(es, i), name + [0]);
    }
  }

  /** The data of file `i` stands at its place in the data area. */
  lemma {:induction false} DataStands(es: seq<Entry>, i: nat, k: nat)
    requires i < k <= |es| && es[i].FileEntry?
    ensures At(DataArea(es, k), |DataArea(es, i)|, es[i].data)
  {
    hide DataArea, At, Blank, PadLength;
    var d, before := es[i].data, DataArea(es, k - 1);
    var more := NextExtent(es, k);
    if k - 1 == i {
      AtMiddle(before, d, Blank(PadLength(|d|)));
    } else {
      DataStands(es, i, k - 1);
      assert DataArea(es, k) == [] + before + more;
      AtMiddle([], before, more);
      AtInside(DataArea(es, k), 0, before, |DataArea(es, i)|, d);
    }
  }

  lemma NextExtent(es: seq<Entry>, k: nat) returns (more: seq<byte>)
    requires 0 < k <= |es|
    ensures DataArea(es, k) == DataArea(es, k - 1) + more
    ensures es[k - 1].FileEntry? ==>
              var d := es[k - 1].data; DataArea(es, k) == DataArea(es, k - 1) + d + Blank(PadLength(|d|))
  {
    hide Blank, PadLength;
    more := DataArea(es, k)[|DataArea(es, k - 1)|..];
  }

  /** Where four parts, the third of them in two pieces, stand in their concatenation. */
  lemma PartsStand(a: seq<byte>, b: seq<byte>, c: seq<byte>, pad: seq<byte>, d: seq<byte>, p: nat, q: nat)
    requires p == |a| + |b| && q == |a + b + (c + pad)|
    ensures var whole := a + b + (c + pad) + d; At(whole, 0, a) && At(whole, p, c) && At(whole, q, d)
  {
    var whole := a + b + (c + pad) + d;
    assert whole == (a + b) + c + (pad + d);
    assert whole == (a + b + (c + pad)) + d + [];
  }

  /** Where the header, the names and the data of an archive stand. */
  lemma ArchiveParts(es: seq<Entry>)
    ensures At(Archive(es), 0, Header(|es|, TocSize(es)))
    ensures At(Archive(es), ALIGNMENT + RECORD * |es|, NameArea(es, |es|))
    ensures At(Archive(es), TocSize(es), DataArea(es, |es|))
  {
    hide Header, Flat, FinalRecs, NameArea, DataArea, At, TocSize, Archive, Blank, PadLength, NamesEnd;
    var h, r := Header(|es|, TocSize(es)), Flat(FinalRecs(es));
    StartIsToc(es, FinalRecs(es));
    ArchiveWhole(es);
    PartsStand(h, r, NameArea(es, |es|), Blank(PadLength(NamesEnd(es))), DataArea(es, |es|), |h| + |r|, TocSize(es));
  }

  lemma ArchiveWhole(es: seq<Entry>)
    ensures Archive(es) == Header(|es|, TocSize(es)) + Flat(FinalRecs(es))
                           + (NameArea(es, |es|) + Blank(PadLength(NamesEnd(es)))) + DataArea(es, |es|)
  {
    hide Header, Flat, FinalRecs, NameArea, DataArea, TocSize, Blank, PadLength, NamesEnd;
  }

  lemma RecordStands(es: seq<Entry>, i: nat)
    requires i < |es|
    ensures At(Archive(es), ALIGNMENT + RECORD * i, RecBytes(FinalRec(es, i)))
  {
    hide Header, Flat, RecBytes, FinalRec, At;
    var h, recs := Header(|es|, TocSize(es)), FinalRecs(es);
    RecordAt(h, recs, PaddedNames(es) + DataArea(es, |es|), i);
    assert Archive(es) == h + Flat(recs) + (PaddedNames(es) + DataArea(es, |es|));
  }

  lemma WordsStand(es: seq<Entry>, i: nat)
    requires i < |es|
    ensures var buf, at, r := Archive(es), ALIGNMENT + RECORD * i, FinalRec(es, i);
            && At(buf, at, LeU32(r.nameOff)) && At(buf, at + 4, LeU32(r.length))
            && At(buf, at + 8, LeU32(r.offset)) && At(buf, at + 12, LeU32(r.length2))
  {
    hide Archive, RecBytes, FinalRec, At, LeU32;
    var buf, at, r := Archive(es), ALIGNMENT + RECORD * i, FinalRec(es, i);
    RecordStands(es, i);
    RecWords(r);
    AtInside(buf, at, RecBytes(r), 0, LeU32(r.nameOff));
    AtInside(buf, at, RecBytes(r), 4, LeU32(r.length));
    AtInside(buf, at, RecBytes(r), 8, LeU32(r.offset));
    AtInside(buf, at, RecBytes(r), 12, LeU32(r.length2));
  }

  lemma {:induction false} NameAreaGrows(es: seq<Entry>, i: nat, k: nat)
    requires i <= k <= |es|
    ensures |NameArea(es, i)| <= |NameArea(es, k)|
  {
    if i < k {
      NameAreaGrows(es, i, k - 1);
    }
  }

  lemma SmallOffsets(es: seq<Entry>, i: nat)
    requires i < |es| && Fits(es) && InTable(es)
    ensures |es| < DIRECTORY_FLAG && NameOff(es, i) < U32
    ensures es[i].DirEntry? ==> WithFlag(es[i].first) == es[i].first + DIRECTORY_FLAG < U32
    ensures var r := FinalRec(es, i); r.nameOff < U32 && r.length < U32 && r.offset < U32
  {
    hide NameArea, DataArea;
    NameAreaGrows(es, i, |es|);
  }

  /** The table as it is read: the root has the name "/". */
  function SlashRoot(es: seq<Entry>): seq<Entry>
    requires es != []
  {
    es[0 := match es[0]
            case DirEntry(_, count, first) => DirEntry([SLASH], count, first)
            case FileEntry(_, data) => FileEntry([SLASH], data)]
  }

  /** Every entry decodes to itself; the root decodes with the name "/". */
  lemma EntryDecodes(es: seq<Entry>, i: nat)
    requires i < |es| && Fits(es) && InTable(es) && NulFreeTable(es)
    ensures DecodeEntry(Archive(es), |es|, i) == SlashRoot(es)[i]
  {
    hide Archive, NameArea, DataArea, At, LeU32, TocSize, WithFlag, NameAt, U32At;
    var buf, at, r := Archive(es), ALIGNMENT + RECORD * i, FinalRec(es, i);
    WordsStand(es, i);
    SmallOffsets(es, i);
    U32Reads(buf, at, r.nameOff);
    U32Reads(buf, at + 4, r.length);
    U32Reads(buf, at + 8, r.offset);
    ArchiveParts(es);
    var name := if i == 0 then [SLASH] else es[i].name;
    NameStands(es, i, |es|);
    AtInside(buf, ALIGNMENT + RECORD * |es|, NameArea(es, |es|), NameOff(es, i), name + [0]);
    NameReads(buf, ALIGNMENT + RECORD * |es| + NameOff(es, i), name);
    if es[i].FileEntry? {
      DataStands(es, i, |es|);
      AtInside(buf, TocSize(es), DataArea(es, |es|), |DataArea(es, i)|, es[i].data);
      DataReads(buf, DataOff(es, i), es[i].data);
    }
  }

  lemma DataReads(buf: seq<byte>, pos: nat, data: Data)
    requires At(buf, pos, data)
    ensures DataAt(buf, pos, |data|) == data
  {
  }

  /** The five words of the header: magic, table size, entry count and two zeros. */
  lemma HeaderWords(es: seq<Entry>)
    ensures var buf := Archive(es);
            && At(buf, 0, LeU32(0x3246_5052)) && At(buf, 4, LeU32(TocSize(es))) && At(buf, 8, LeU32(|es|))
            && At(buf, 12, LeU32(0)) && At(buf, 16, LeU32(0))
  {
    hide Archive, LeU32, At, NameArea, DataArea, TocSize, Blank;
    var buf, n, size := Archive(es), |es|, TocSize(es);
    ArchiveParts(es);
    var a, b, c, d, blank := LeU32(MAGIC), LeU32(size), LeU32(n), LeU32(0), Blank(ALIGNMENT - 20);
    HeaderSplits(a, b, c, d, blank);
    var h := Header(n, size);
    assert h == a + b + c + d + d + blank;
    AtInside(buf, 0, h, 0, a);
    AtInside(buf, 0, h, 4, b);
    AtInside(buf, 0, h, 8, c);
    AtInside(buf, 0, h, 12, d);
    AtInside(buf, 0, h, 16, d);
  }

  lemma HeaderSplits(a: seq<byte>, b: seq<byte>, c: seq<byte>, d: seq<byte>, blank: seq<byte>)
    requires |a| == |b| == |c| == |d| == 4
    ensures var h := a + b + c + d + d + blank;
            At(h, 0, a) && At(h, 4, b) && At(h, 8, c) && At(h, 12, d) && At(h, 16, d)
  {
  }

  lemma HeaderDecodes(es: seq<Entry>)
    requires |es| < U32
    ensures U32At(Archive(es), 0) == MAGIC && U32At(Archive(es), 8) == |es|
  {
    hide Archive, LeU32, At, NameArea, DataArea, TocSize, U32At;
    var buf := Archive(es);
    HeaderWords(es);
    U32Reads(buf, 0, MAGIC);
    U32Reads(buf, 8, |es|);
  }

  /** What a reader of the format finds at the head of an archive: the magic, the size of the table, which
      is where the data area starts, the entry count, and zeros. */
  lemma HeaderLayout(es: seq<Entry>)
    requires |es| < U32 && TocSize(es) < U32
    ensures var buf := Archive(es);
            && U32At(buf, 0) == 0x3246_5052 && U32At(buf, 4) == TocSize(es) && U32At(buf, 8) == |es|
            && U32At(buf, 12) == 0 && U32At(buf, 16) == 0
            && U32At(buf, 4) % 2048 == 0 && U32At(buf, 4) <= |buf| && buf[U32At(buf, 4)..] == DataArea(es, |es|)
  {
    hide Archive, LeU32, At, NameArea, DataArea, TocSize, U32At;
    var buf := Archive(es);
    HeaderWords(es);
    U32Reads(buf, 0, 0x3246_5052);
    U32Reads(buf, 4, TocSize(es));
    U32Reads(buf, 8, |es|);
    U32Reads(buf, 12, 0);
    U32Reads(buf, 16, 0);
    DataBehindToc(es);
  }

  lemma DataBehindToc(es: seq<Entry>)
    ensures TocSize(es) <= |Archive(es)| && Archive(es)[TocSize(es)..] == DataArea(es, |es|)
  {
    hide Header, Flat, FinalRecs, DataArea, TocSize, PaddedNames;
    var front := Header(|es|, TocSize(es)) + Flat(FinalRecs(es)) + PaddedNames(es);
    assert Archive(es) == front + DataArea(es, |es|);
    StartIsToc(es, FinalRecs(es));
  }

  /** What a reader finds in record `i`: the second and the fourth word are equal, the number of children
      of a directory or the length of a file; the third is the first child with the top bit set, or the
      place of the file's bytes. */
  lemma RecordLayout(es: seq<Entry>, i: nat)
    requires i < |es| && Fits(es) && InTable(es)
    ensures var buf, at := Archive(es), 2048 + 16 * i;
            match es[i]
            case DirEntry(_, count, first) =>
              U32At(buf, at + 4) == count && U32At(buf, at + 8) == 0x8000_0000 + first && U32At(buf, at + 12) == count
            case FileEntry(_, data) =>
              && U32At(buf, at + 4) == |data| && U32At(buf, at + 8) == DataOff(es, i) && U32At(buf, at + 12) == |data|
              && DataAt(buf, U32At(buf, at + 8), |data|) == data
  {
    hide Archive, NameArea, DataArea, At, LeU32, TocSize, U32At;
    var buf, at, r := Archive(es), ALIGNMENT + RECORD * i, FinalRec(es, i);
    WordsStand(es, i);
    SmallOffsets(es, i);
    U32Reads(buf, at + 4, r.length);
    U32Reads(buf, at + 8, r.offset);
    U32Reads(buf, at + 12, r.length2);
    if es[i].FileEntry? {
      ArchiveParts(es);
      DataStands(es, i, |es|);
      AtInside(buf, TocSize(es), DataArea(es, |es|), |DataArea(es, i)|, es[i].data);
      DataReads(buf, DataOff(es, i), es[i].data);
    }
  }

  lemma TableDecodes(es: seq<Entry>)
    requires es != [] && Fits(es) && InTable(es) && NulFreeTable(es)
    ensures U32At(Archive(es), 0) == MAGIC
    ensures DecodeTable(Archive(es)) == SlashRoot(es)
  {
    hide Archive, DecodeEntry, U32At, Fits, NulFreeTable, InTable;
    SmallOffsets(es, 0);
    HeaderDecodes(es);
    forall i | 0 <= i < |es|
      ensures DecodeEntry(Archive(es), |es|, i) == SlashRoot(es)[i]
    {
      EntryDecodes(es, i);
    }
  }

  lemma TableInTable(root: DirNode)
    ensures InTable(Table(root))
  {
    TableIsTiled(root);
    var es := Table(root);
    forall i | 0 <= i < |es| && es[i].DirEntry? ensures es[i].first <= |es| && es[i].count <= |es| {
    }
  }

  /** Reading a finished archive from its root record rebuilds the tree: every name and every byte. */
  lemma ArchiveReadsBack(root: DirNode)
    requires Fits(Table(root)) && NulFreeTable(Table(root))
    ensures ReadArchive(Archive(Table(root))) == Some(root)
  {
    hide Archive, DecodeTable, Fits, NulFreeTable, InTable, Emit, U32At;
    var es := Table(root);
    TableInTable(root);
    TableDecodes(es);
    var es' := SlashRoot(es);
    assert es'[1..1 + |Emit(root, 1)|] == Emit(root, 1);
    ReadsDir(es', 0, root, 1);
  }

  // ----- data extents -----

  lemma {:induction false} DataAreaGrows(es: seq<Entry>, i: nat, k: nat)
    requires i <= k <= |es|
    ensures |DataArea(es, i)| <= |DataArea(es, k)|
  {
    if i < k {
      DataAreaGrows(es, i, k - 1);
    }
  }

  lemma DataStep(es: seq<Entry>, i: nat)
    requires i < |es| && es[i].FileEntry?
    ensures |DataArea(es, i)| + |es[i].data| <= |DataArea(es, i + 1)|
  {
  }

  /** File contents are aligned, in bounds, in table order and do not overlap. */
  lemma ExtentsDisjoint(es: seq<Entry>, i: nat, j: nat)
    requires i < j < |es| && es[i].FileEntry? && es[j].FileEntry?
    ensures TocSize(es) <= DataOff(es, i) <= DataOff(es, i) + |es[i].data| <= DataOff(es, j)
    ensures DataOff(es, j) + |es[j].data| <= |Archive(es)|
    ensures DataOff(es, i) % ALIGNMENT == 0 && DataOff(es, j) % ALIGNMENT == 0
  {
    hide Archive, TocSize, DataArea;
    DataStep(es, i);
    DataStep(es, j);
    DataAreaGrows(es, i + 1, j);
    DataAreaGrows(es, j + 1, |es|);
    ArchiveParts(es);
    AlignedSum(TocSize(es), |DataArea(es, i)|);
    AlignedSum(TocSize(es), |DataArea(es, j)|);
  }

  // ----- from inputs -----

  ghost predicate NulFreeTree(n: DirNode) {
    && (forall i :: 0 <= i < |n.dirs| ==> NulFree(n.dirs[i].0) && NulFreeTree(n.dirs[i].1))
    && (forall i :: 0 <= i < |n.files| ==> NulFree(n.files[i].0))
  }

  lemma {:induction false} TrimNulFree(path: Name)
    requires NulFree(path)
    ensures NulFree(TrimStart(path))
  {
    if path != [] && path[0] == SLASH {
      TrimNulFree(path[1..]);
    }
  }

  lemma {:induction false} InsertNulFree(n: DirNode, path: Name, data: Data)
    requires NulFreeTree(n) && NulFree(path)
    ensures NulFreeTree(Insert(n, path, data))
    decreases |path|
  {
    var i := SlashAt(path);
    if Nested(path) {
      var dir, sub := path[..i], Get(n.dirs, path[..i]);
      if sub.Some? {
        GetIsElement(n.dirs, dir);
      }
      var old' := if sub.Some? then sub.value else EMPTY;
      InsertNulFree(old', path[i + 1..], data);
      var new' := Insert(old', path[i + 1..], data);
      PutNames(n.dirs, dir, new');
      var p := Put(n.dirs, dir, new');
      forall j | 0 <= j < |p| ensures NulFree(p[j].0) && NulFreeTree(p[j].1) {
        assert p[j] in p;
      }
    } else {
      PutNames(n.files, path, data);
      var p := Put(n.files, path, data);
      forall j | 0 <= j < |p| ensures NulFree(p[j].0) {
        assert p[j] in p;
      }
    }
  }

  lemma {:induction false} TreeNulFree(files: seq<Input>)
    requires forall i :: 0 <= i < |files| ==> NulFree(files[i].path)
    ensures NulFreeTree(TreeOf(files))
  {
    if files != [] {
      var before, last := files[..|files| - 1], files[|files| - 1];
      TreeNulFree(before);
      TrimNulFree(ForwardSlashes(last.path));
      if Normalize(last.path) != [] {
        InsertNulFree(TreeOf(before), Normalize(last.path), last.data);
      }
    }
  }

  lemma {:induction false} BlockNulFree(dirs: seq<(Name, DirNode)>, files: seq<(Name, Data)>, at: nat)
    requires NulFreeTree(DirNode(dirs, files))
    ensures NulFreeTable(Block(dirs, files, at))
    decreases |dirs| + |files|
  {
    var cs := Merge(dirs, files);
    if cs != [] && cs[0].SubDir? {
      BlockNulFree(dirs[1..], files, at + Size(dirs[0].1));
    } else if cs != [] {
      BlockNulFree(dirs, files[1..], at);
    }
  }

  lemma {:induction false} EmitNulFree(n: DirNode, at: nat)
    requires NulFreeTree(n)
    ensures NulFreeTable(Emit(n, at))
    decreases 2 * Size(n) + 1
  {
    BlockNulFree(n.dirs, n.files, at + Width(n));
    EmitAllNulFree(n.dirs, at + Width(n));
  }

  lemma {:induction false} EmitAllNulFree(dirs: seq<(Name, DirNode)>, at: nat)
    requires forall i :: 0 <= i < |dirs| ==> NulFreeTree(dirs[i].1)
    ensures NulFreeTable(EmitAll(dirs, at))
    decreases 2 * SizeOf(dirs) + 2 * |dirs|
  {
    if dirs != [] {
      assert SizeAt(dirs[0]) == Size(dirs[0].1);
      EmitNulFree(dirs[0].1, at);
      EmitAllNulFree(dirs[1..], at + Size(dirs[0].1));
    }
  }

  /** An archive built from inputs with NUL-free paths, small enough for its offset fields, reads
      back as a tree that holds exactly the last data written under each path. */
  lemma BuiltArchiveReadsBack(files: seq<Input>)
    requires forall i :: 0 <= i < |files| ==> NulFree(files[i].path)
    requires Fits(Table(TreeOf(files)))
    ensures var tree := ReadArchive(Archive(Table(TreeOf(files))));
            tree.Some? && forall q: Name :: q != [] ==> Find(tree.value, q) == LastWritten(files, q)
  {
    hide Archive, ReadArchive, Fits, Find, TreeOf;
    var root := TreeOf(files);
    TreeNulFree(files);
    EmitNulFree(root, 1);
    assert NulFreeTable(Table(root));
    ArchiveReadsBack(root);
    forall q: Name | q != [] ensures Find(root, q) == LastWritten(files, q) {
      TreeHoldsLastWritten(files, q);
    }
  }
}
