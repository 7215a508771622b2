/** Little-endian fields, and what the ZIP export writes. */
module ZipFormat {
  import opened Bits
  import opened Crc32

  const LOCAL_SIGNATURE: nat := 0x0403_4b50
  const CENTRAL_SIGNATURE: nat := 0x0201_4b50
  const END_SIGNATURE: nat := 0x0605_4b50
  const LIMIT16: nat := 0x1_0000
  const LIMIT32: nat := 0x1_0000_0000
  /** The fixed date of every entry in DOS format, as the panel computes it. */
  const DOS_DATE: nat := 44 * 512 + 1 * 32 + 1

  datatype File = File(name: seq<Byte>, data: seq<Byte>)

  /** A file with the checksum that goes into its headers. */
  datatype Entry = Entry(name: seq<Byte>, data: seq<Byte>, crc: nat)

  function Read16(b: seq<Byte>, p: nat): (v: nat)
    requires p + 2 <= |b|
    ensures v < LIMIT16
  {
    (b[p] as int) + 256 * (b[p + 1] as int)
  }

  function Read32(b: seq<Byte>, p: nat): (v: nat)
    requires p + 4 <= |b|
    ensures v < LIMIT32
  {
    Read16(b, p) + LIMIT16 * Read16(b, p + 2)
  }

  /** One `DataView` write, little-endian: the value is taken modulo the width. */
  datatype Field = U16(pos: nat, value: nat) | U32(pos: nat, value: nat) {
    function End(): nat { pos + (if U16? then 2 else 4) }
  }

  function Put(b: seq<Byte>, f: Field): (r: seq<Byte>)
    requires f.End() <= |b|
    ensures |r| == |b|
  {
    var two := b[f.pos := f.value % 256][f.pos + 1 := f.value / 256 % 256];
    if f.U16? then two
    else two[f.pos + 2 := f.value / 0x1_0000 % 256][f.pos + 3 := f.value / 0x100_0000 % 256]
  }

  predicate InRange(fields: seq<Field>, n: nat) {
    forall i :: 0 <= i < |fields| ==> fields[i].End() <= n
  }

  /** The writes go up the buffer without overlap. */
  predicate Ascending(fields: seq<Field>) {
    forall i :: 0 < i < |fields| ==> fields[i - 1].End() <= fields[i].pos
  }

  /** A zeroed buffer of `n` bytes after the given writes. */
  function Header(n: nat, fields: seq<Field>): (h: seq<Byte>)
    requires InRange(fields, n)
    ensures |h| == n
    decreases |fields|
  {
    if fields == [] then Blank(n) else Put(Header(n, fields[..|fields| - 1]), fields[|fields| - 1])
  }

  function Blank(n: nat): (r: seq<Byte>)
    ensures |r| == n && forall i :: 0 <= i < n ==> r[i] == 0
  {
    if n == 0 then [] else [0] + Blank(n - 1)
  }

  /** What `zipHeader` writes for the local signature, in its order. */
  function LocalFields(e: Entry): (fs: seq<Field>)
    ensures InRange(fs, 30) && Ascending(fs)
  {
    [U32(0, LOCAL_SIGNATURE), U16(4, 20), U16(8, 0), U16(10, 0), U16(12, DOS_DATE), U32(14, e.crc),
     U32(18, |e.data|), U32(22, |e.data|), U16(26, |e.name|)]
  }

  /** What `zipHeader` writes for the central signature, in its order. */
  function CentralFields(e: Entry, offset: nat): (fs: seq<Field>)
    ensures InRange(fs, 46) && Ascending(fs)
  {
    [U32(0, CENTRAL_SIGNATURE), U16(4, 20), U16(6, 20), U16(10, 0), U16(12, 0), U16(14, DOS_DATE),
     U32(16, e.crc), U32(20, |e.data|), U32(24, |e.data|), U16(28, |e.name|), U32(42, offset)]
  }

  function EndFields(count: nat, centralSize: nat, offset: nat): (fs: seq<Field>)
    ensures InRange(fs, 22) && Ascending(fs)
  {
    [U32(0, END_SIGNATURE), U16(8, count), U16(10, count), U32(12, centralSize), U32(16, offset)]
  }

  function LocalHeader(e: Entry): (h: seq<Byte>)
    ensures |h| == 30
  {
    Header(30, LocalFields(e))
  }

  function CentralHeader(e: Entry, offset: nat): (h: seq<Byte>)
    ensures |h| == 46
  {
    Header(46, CentralFields(e, offset))
  }

  function EndRecord(count: nat, centralSize: nat, offset: nat): (h: seq<Byte>)
    ensures |h| == 22
  {
    Header(22, EndFields(count, centralSize, offset))
  }

  function LocalPart(e: Entry): (r: seq<Byte>)
    ensures |r| == 30 + |e.name| + |e.data|
  {
    LocalHeader(e) + e.name + e.data
  }

  function CentralPart(e: Entry, offset: nat): (r: seq<Byte>)
    ensures |r| == 46 + |e.name|
  {
    CentralHeader(e, offset) + e.name
  }

  function Locals(entries: seq<Entry>): seq<Byte>
    decreases |entries|
  {
    if entries == [] then [] else LocalPart(entries[0]) + Locals(entries[1..])
  }

  function Centrals(entries: seq<Entry>, offset: nat): seq<Byte>
    decreases |entries|
  {
    if entries == [] then []
    else CentralPart(entries[0], offset) + Centrals(entries[1..], offset + |LocalPart(entries[0])|)
  }

  function Archive(entries: seq<Entry>): seq<Byte> {
    var locals := Locals(entries);
    var central := Centrals(entries, 0);
    locals + central + EndRecord(|entries|, |central|, |locals|)
  }

  /** The files with their checksums. */
  function Entries(files: seq<File>): (es: seq<Entry>)
    ensures |es| == |files|
    ensures forall i :: 0 <= i < |files| ==> es[i] == Entry(files[i].name, files[i].data, Crc(files[i].data))
    decreases |files|
  {
    if files == [] then []
    else [Entry(files[0].name, files[0].data, Crc(files[0].data))] + Entries(files[1..])
  }
}

/** A reader that follows sections 4.3.16, 4.3.12 and 4.3.7 of the PKWARE APPNOTE: the end record
    gives the central directory, each of its headers gives a local header, and both headers must agree. */
module ZipReader {
  import opened Options
  import opened Bits
  import opened ZipFormat
  import opened Crc32

  function Slice(b: seq<Byte>, p: nat, n: nat): Option<seq<Byte>> {
    if p + n <= |b| then Some(b[p..p + n]) else None
  }

  /** The stored file whose local header is at `p`. */
  function ReadLocal(b: seq<Byte>, p: nat, name: seq<Byte>, crc: nat, size: nat): Option<Entry> {
    if p + 30 > |b| then None
    else if Read32(b, p) != 0x0403_4b50 || Read16(b, p + 8) != 0 then None
    else if Read32(b, p + 14) != crc || Read32(b, p + 18) != size || Read32(b, p + 22) != size then None
    else
      var nameLen, extraLen := Read16(b, p + 26), Read16(b, p + 28);
      if Slice(b, p + 30, nameLen) != Some(name) then None
      else
        var data := Slice(b, p + 30 + nameLen + extraLen, size);
        if data.None? then None else Some(Entry(name, data.value, crc))
  }

  /** The stored file described by the central header at `p`. */
  function ReadEntry(b: seq<Byte>, p: nat): Option<Entry> {
    if p + 46 > |b| then None
    else if Read32(b, p) != 0x0201_4b50 || Read16(b, p + 10) != 0 || Read32(b, p + 20) != Read32(b, p + 24) then None
    else
      var name := Slice(b, p + 46, Read16(b, p + 28));
      if name.None? then None
      else ReadLocal(b, Read32(b, p + 42), name.value, Read32(b, p + 16), Read32(b, p + 20))
  }

  function EntryLength(b: seq<Byte>, p: nat): nat
    requires p + 46 <= |b|
  {
    46 + Read16(b, p + 28) + Read16(b, p + 30) + Read16(b, p + 32)
  }

  /** Walks `count` central headers from `p`; they must end exactly at `stop`. */
  function Walk(b: seq<Byte>, p: nat, count: nat, stop: nat): Option<seq<Entry>>
    decreases count
  {
    if count == 0 then (if p == stop then Some([]) else None)
    else
      var entry := ReadEntry(b, p);
      if entry.None? || p + 46 > |b| then None
      else
        var rest := Walk(b, p + EntryLength(b, p), count - 1, stop);
        if rest.None? then None else Some([entry.value] + rest.value)
  }

  /** The entries of an archive without a comment: its end record is the last 22 bytes. */
  function ReadEntries(b: seq<Byte>): Option<seq<Entry>> {
    if |b| < 22 then None
    else
      var e := |b| - 22;
      if Read32(b, e) != 0x0605_4b50 || Read16(b, e + 8) != Read16(b, e + 10) || Read16(b, e + 20) != 0 then None
      else if Read32(b, e + 16) + Read32(b, e + 12) != e then None
      else Walk(b, Read32(b, e + 16), Read16(b, e + 10), e)
  }

  /** The files, if every stored checksum is that of the data. */
  function CheckEntries(entries: seq<Entry>): Option<seq<File>>
    decreases |entries|
  {
    if entries == [] then Some([])
    else if Crc(entries[0].data) != entries[0].crc then None
    else
      var rest := CheckEntries(entries[1..]);
      if rest.None? then None else Some([File(entries[0].name, entries[0].data)] + rest.value)
  }

  function ReadZip(b: seq<Byte>): Option<seq<File>> {
    var entries := ReadEntries(b);
    if entries.None? then None else CheckEntries(entries.value)
  }

  predicate EntryFits(e: Entry) {
    |e.name| < 0x1_0000 && |e.data| < 0x1_0000_0000 && e.crc < 0x1_0000_0000
  }

  predicate AllFit(entries: seq<Entry>) {
    forall i :: 0 <= i < |entries| ==> EntryFits(entries[i])
  }

  /** The sizes and offsets fit their fields. */
  predicate SizesFit(entries: seq<Entry>) {
    && AllFit(entries)
    && |Locals(entries)| < 0x1_0000_0000
    && |Centrals(entries, 0)| < 0x1_0000_0000
  }

  predicate At(b: seq<Byte>, p: nat, part: seq<Byte>) {
    p + |part| <= |b| && b[p..p + |part|] == part
  }

  lemma {:induction false} AtParts(b: seq<Byte>, p: nat, x: seq<Byte>, y: seq<Byte>)
    requires At(b, p, x + y)
    ensures At(b, p, x) && At(b, p + |x|, y)
  {
    assert b[p..p + |x|] == (x + y)[..|x|] == x;
    assert b[p + |x|..p + |x| + |y|] == (x + y)[|x|..] == y;
  }

  lemma {:induction false} AtReads(b: seq<Byte>, p: nat, part: seq<Byte>)
    requires At(b, p, part)
    ensures forall k: nat :: k + 2 <= |part| ==> Read16(b, p + k) == Read16(part, k)
    ensures forall k: nat :: k + 4 <= |part| ==> Read32(b, p + k) == Read32(part, k)
  {
    forall k: nat | k < |part|
      ensures b[p + k] == part[k]
    {
      assert b[p..p + |part|][k] == part[k];
    }
  }

  predicate Apart(f: Field, pos: nat, end: nat) {
    f.End() <= pos || end <= f.pos
  }

  lemma {:induction false} AscendingApart(fields: seq<Field>, i: nat, j: nat)
    requires Ascending(fields) && i < j < |fields|
    ensures fields[i].End() <= fields[j].pos
    decreases j
  {
    if i < j - 1 {
      AscendingApart(fields, i, j - 1);
    }
    assert fields[j - 1].End() <= fields[j].pos;
  }

  lemma {:induction false} PutReads(b: seq<Byte>, f: Field)
    requires f.End() <= |b|
    ensures f.U16? ==> Read16(Put(b, f), f.pos) == f.value % LIMIT16
    ensures f.U32? ==> Read32(Put(b, f), f.pos) == f.value % LIMIT32
  {
    var v := f.value;
    var q1, q2, q3 := v / 256, v / 0x1_0000, v / 0x100_0000;
    assert q1 / 256 == q2 && q2 / 256 == q3;
  }

  /** A write leaves the bytes outside its field alone. */
  lemma {:induction false} PutFrame(b: seq<Byte>, f: Field, k: nat)
    requires f.End() <= |b| && k < |b| && !(f.pos <= k < f.End())
    ensures Put(b, f)[k] == b[k]
  {
  }

  /** A byte that no write from the `i`th on touches is as the first `i` writes left it. */
  lemma {:induction false} HeaderFrame(n: nat, fields: seq<Field>, i: nat, k: nat)
    requires InRange(fields, n) && i <= |fields| && k < n
    requires forall j :: i <= j < |fields| ==> Apart(fields[j], k, k + 1)
    ensures Header(n, fields)[k] == Header(n, fields[..i])[k]
    decreases |fields|
  {
    if i == |fields| {
      assert fields[..i] == fields;
    } else {
      var last := |fields| - 1;
      PutFrame(Header(n, fields[..last]), fields[last], k);
      HeaderFrame(n, fields[..last], i, k);
      assert fields[..last][..i] == fields[..i];
    }
  }

  lemma {:induction false} ReadsFrame(b: seq<Byte>, c: seq<Byte>, p: nat, f: Field)
    requires |b| == |c| && p == f.pos && f.End() <= |b|
    requires forall k :: p <= k < f.End() ==> b[k] == c[k]
    ensures Read16(b, p) == Read16(c, p)
    ensures f.U32? ==> Read32(b, p) == Read32(c, p)
  {
  }

  predicate Holds(h: seq<Byte>, f: Field)
    requires f.End() <= |h|
  {
    if f.U16? then Read16(h, f.pos) == f.value % LIMIT16 else Read32(h, f.pos) == f.value % LIMIT32
  }

  /** Reading a field gives what was last written there, modulo its width. */
  lemma {:induction false} HeaderReads(n: nat, fields: seq<Field>, i: nat)
    requires InRange(fields, n) && i < |fields| && Ascending(fields)
    ensures Holds(Header(n, fields), fields[i])
  {
    var f := fields[i];
    var upTo := fields[..i + 1];
    assert upTo[..i] == fields[..i];
    PutReads(Header(n, fields[..i]), f);
    forall k | f.pos <= k < f.End()
      ensures Header(n, fields)[k] == Header(n, upTo)[k]
    {
      forall j | i < j < |fields|
        ensures Apart(fields[j], k, k + 1)
      {
        AscendingApart(fields, i, j);
      }
      HeaderFrame(n, fields, i + 1, k);
    }
    ReadsFrame(Header(n, fields), Header(n, upTo), f.pos, f);
  }

  lemma {:induction false} HeaderHoldsAll(n: nat, fields: seq<Field>)
    requires InRange(fields, n) && Ascending(fields)
    ensures AllHold(Header(n, fields), fields)
  {
    forall i | 0 <= i < |fields|
      ensures Holds(Header(n, fields), fields[i])
    {
      HeaderReads(n, fields, i);
    }
  }

  /** A field that is never written stays zero. */
  lemma {:induction false} HeaderReadsZero(n: nat, fields: seq<Field>, p: nat)
    requires InRange(fields, n) && p + 2 <= n
    requires forall j :: 0 <= j < |fields| ==> Apart(fields[j], p, p + 2)
    ensures Read16(Header(n, fields), p) == 0
  {
    HeaderFrame(n, fields, 0, p);
    HeaderFrame(n, fields, 0, p + 1);
  }

  predicate AllHold(h: seq<Byte>, fields: seq<Field>)
    requires InRange(fields, |h|)
  {
    forall i :: 0 <= i < |fields| ==> Holds(h, fields[i])
  }

  /** Every field of a local header: version 2.0, no flags, stored, midnight on the first of January 2024, no extra field. */
  lemma {:induction false} LocalHeaderReads(e: Entry)
    requires EntryFits(e)
    ensures var h := LocalHeader(e);
      && Read32(h, 0) == 0x0403_4b50 && Read16(h, 4) == 20 && Read16(h, 6) == 0 && Read16(h, 8) == 0 && Read16(h, 10) == 0
      && Read16(h, 12) == (2024 - 1980) * 512 + 1 * 32 + 1
      && Read32(h, 14) == e.crc && Read32(h, 18) == |e.data| && Read32(h, 22) == |e.data|
      && Read16(h, 26) == |e.name| && Read16(h, 28) == 0
  {
    hide Header, Read16, Read32;
    var fs := LocalFields(e);
    var h := Header(30, fs);
    HeaderHoldsAll(30, fs);
    HeaderReadsZero(30, fs, 6);
    HeaderReadsZero(30, fs, 28);
    assert Holds(h, fs[0]) && Holds(h, fs[1]) && Holds(h, fs[2]) && Holds(h, fs[3]) && Holds(h, fs[4]);
    assert Holds(h, fs[5]) && Holds(h, fs[6]) && Holds(h, fs[7]) && Holds(h, fs[8]);
  }

  /** Every field of a central header: the same, made by version 2.0, no comment, on the first disk, without attributes. */
  lemma {:induction false} CentralHeaderReads(e: Entry, offset: nat)
    requires EntryFits(e) && offset < 0x1_0000_0000
    ensures var h := CentralHeader(e, offset);
      && Read32(h, 0) == 0x0201_4b50 && Read16(h, 4) == 20 && Read16(h, 6) == 20 && Read16(h, 8) == 0 && Read16(h, 10) == 0
      && Read16(h, 12) == 0 && Read16(h, 14) == (2024 - 1980) * 512 + 1 * 32 + 1
      && Read32(h, 16) == e.crc && Read32(h, 20) == |e.data| && Read32(h, 24) == |e.data|
      && Read16(h, 28) == |e.name| && Read16(h, 30) == 0 && Read16(h, 32) == 0
      && Read16(h, 34) == 0 && Read16(h, 36) == 0 && Read16(h, 38) == 0 && Read16(h, 40) == 0 && Read32(h, 42) == offset
  {
    hide Header, Read16, Read32;
    var fs := CentralFields(e, offset);
    var h := Header(46, fs);
    HeaderHoldsAll(46, fs);
    CentralZeroes(e, offset);
    assert Holds(h, fs[0]) && Holds(h, fs[1]) && Holds(h, fs[2]) && Holds(h, fs[3]) && Holds(h, fs[4]) && Holds(h, fs[5]);
    assert Holds(h, fs[6]) && Holds(h, fs[7]) && Holds(h, fs[8]) && Holds(h, fs[9]) && Holds(h, fs[10]);
  }

  lemma {:induction false} CentralZeroes(e: Entry, offset: nat)
    ensures var h := CentralHeader(e, offset);
      Read16(h, 8) == Read16(h, 30) == Read16(h, 32) == Read16(h, 34) == Read16(h, 36) == Read16(h, 38) == Read16(h, 40) == 0
  {
    hide Header, Read16;
    var fs := CentralFields(e, offset);
    HeaderReadsZero(46, fs, 8);
    HeaderReadsZero(46, fs, 30);
    HeaderReadsZero(46, fs, 32);
    HeaderReadsZero(46, fs, 34);
    HeaderReadsZero(46, fs, 36);
    HeaderReadsZero(46, fs, 38);
    HeaderReadsZero(46, fs, 40);
  }

  /** Every field of the end record. */
  lemma {:induction false} EndRecordReads(count: nat, centralSize: nat, offset: nat)
    ensures var h := EndRecord(count, centralSize, offset);
      && Read32(h, 0) == 0x0605_4b50 && Read16(h, 4) == 0 && Read16(h, 6) == 0 && Read16(h, 8) == count % LIMIT16 && Read16(h, 10) == count % LIMIT16
      && Read32(h, 12) == centralSize % LIMIT32 && Read32(h, 16) == offset % LIMIT32 && Read16(h, 20) == 0
  {
    var fs := EndFields(count, centralSize, offset);
    HeaderHoldsAll(22, fs);
    HeaderReadsZero(22, fs, 4);
    HeaderReadsZero(22, fs, 6);
    HeaderReadsZero(22, fs, 20);
    var h := Header(22, fs);
    assert Holds(h, fs[0]) && Holds(h, fs[1]) && Holds(h, fs[2]) && Holds(h, fs[3]) && Holds(h, fs[4]);
  }

  lemma {:induction false} LocalReadsBack(b: seq<Byte>, p: nat, e: Entry)
    requires At(b, p, LocalPart(e)) && EntryFits(e)
    ensures ReadLocal(b, p, e.name, e.crc, |e.data|) == Some(e)
  {
    var h := LocalHeader(e);
    AtParts(b, p, h + e.name, e.data);
    AtParts(b, p, h, e.name);
    AtReads(b, p, h);
    LocalHeaderReads(e);
    assert Read32(b, p + 0) == LOCAL_SIGNATURE;
    assert b[p + 30..p + 30 + |e.name|] == e.name;
    var q := p + 30 + |e.name|;
    assert b[q..q + |e.data|] == e.data;
  }

  lemma {:induction false} EntryReadsBack(b: seq<Byte>, p: nat, e: Entry, offset: nat)
    requires At(b, p, CentralPart(e, offset)) && At(b, offset, LocalPart(e))
    requires EntryFits(e) && offset < LIMIT32
    ensures ReadEntry(b, p) == Some(e)
    ensures EntryLength(b, p) == |CentralPart(e, offset)|
  {
    var h := CentralHeader(e, offset);
    AtParts(b, p, h, e.name);
    AtReads(b, p, h);
    CentralHeaderReads(e, offset);
    assert Read32(b, p + 0) == CENTRAL_SIGNATURE;
    assert b[p + 46..p + 46 + |e.name|] == e.name;
    LocalReadsBack(b, offset, e);
  }

  /** Walking `count` headers of a directory recovers its entries if those are all of them, and fails to end at `stop` if not. */
  lemma {:induction false} WalkReadsBack(b: seq<Byte>, p: nat, offset: nat, entries: seq<Entry>, count: nat)
    requires At(b, p, Centrals(entries, offset)) && At(b, offset, Locals(entries))
    requires offset + |Locals(entries)| < LIMIT32
    requires forall i :: 0 <= i < |entries| ==> EntryFits(entries[i])
    requires count <= |entries|
    ensures Walk(b, p, count, p + |Centrals(entries, offset)|) == if count == |entries| then Some(entries) else None
    decreases count
  {
    hide ReadEntry, CentralPart, LocalPart, EntryLength;
    if count == 0 {
    } else {
      var e, rest := entries[0], entries[1..];
      var central, local := CentralPart(e, offset), LocalPart(e);
      AtParts(b, p, central, Centrals(rest, offset + |local|));
      AtParts(b, offset, local, Locals(rest));
      EntryReadsBack(b, p, e, offset);
      WalkReadsBack(b, p + |central|, offset + |local|, rest, count - 1);
      assert entries == [e] + rest;
    }
  }

  lemma {:induction false} ArchiveLayout(entries: seq<Entry>)
    ensures var b := Archive(entries);
      && At(b, 0, Locals(entries)) && At(b, |Locals(entries)|, Centrals(entries, 0))
      && |b| == |Locals(entries)| + |Centrals(entries, 0)| + 22
      && At(b, |b| - 22, EndRecord(|entries|, |Centrals(entries, 0)|, |Locals(entries)|))
  {
    var b, locals, central := Archive(entries), Locals(entries), Centrals(entries, 0);
    var end := EndRecord(|entries|, |central|, |locals|);
    assert b[0..|b|] == b;
    AtParts(b, 0, locals + central, end);
    AtParts(b, 0, locals, central);
  }

  lemma {:induction false} EndReadsBack(b: seq<Byte>, e: nat, count: nat, centralSize: nat, offset: nat)
    requires At(b, e, EndRecord(count, centralSize, offset))
    ensures Read32(b, e) == END_SIGNATURE && Read16(b, e + 8) == Read16(b, e + 10) == count % LIMIT16
    ensures Read32(b, e + 12) == centralSize % LIMIT32 && Read32(b, e + 16) == offset % LIMIT32 && Read16(b, e + 20) == 0
  {
    AtReads(b, e, EndRecord(count, centralSize, offset));
    EndRecordReads(count, centralSize, offset);
    assert Read32(b, e + 0) == END_SIGNATURE;
  }

  lemma {:induction false} ReadEntriesIsWalk(b: seq<Byte>, count: nat, centralSize: nat, offset: nat)
    requires |b| == offset + centralSize + 22 && centralSize < LIMIT32 && offset < LIMIT32
    requires At(b, |b| - 22, EndRecord(count, centralSize, offset))
    ensures ReadEntries(b) == Walk(b, offset, count % LIMIT16, |b| - 22)
  {
    hide Walk, EndRecord, At, Read16, Read32;
    EndReadsBack(b, |b| - 22, count, centralSize, offset);
  }

  lemma {:induction false} EntriesReadBack(entries: seq<Entry>)
    requires SizesFit(entries)
    ensures ReadEntries(Archive(entries)) == if |entries| < LIMIT16 then Some(entries) else None
  {
    hide ReadEntries, Walk, EndRecord, At, Archive, Locals, Centrals;
    var b, locals, central := Archive(entries), Locals(entries), Centrals(entries, 0);
    ArchiveLayout(entries);
    ReadEntriesIsWalk(b, |entries|, |central|, |locals|);
    WalkReadsBack(b, |locals|, 0, entries, |entries| % LIMIT16);
  }

  lemma {:induction false} EntriesSplit(files: seq<File>)
    requires files != []
    ensures Entries(files) == [Entry(files[0].name, files[0].data, Crc(files[0].data))] + Entries(files[1..])
  {
    hide Crc;
  }

  lemma {:induction false} CheckOneMore(e: Entry, entries: seq<Entry>)
    requires e.crc == Crc(e.data) && CheckEntries(entries).Some?
    ensures CheckEntries([e] + entries) == Some([File(e.name, e.data)] + CheckEntries(entries).value)
  {
    hide Crc;
    assert ([e] + entries)[1..] == entries;
  }

  lemma {:induction false} EntriesCheck(files: seq<File>)
    ensures CheckEntries(Entries(files)) == Some(files)
    decreases |files|
  {
    if files != [] {
      hide Crc, Entries, CheckEntries;
      EntriesCheck(files[1..]);
      EntriesSplit(files);
      CheckOneMore(Entry(files[0].name, files[0].data, Crc(files[0].data)), Entries(files[1..]));
      assert files == [files[0]] + files[1..];
    }
  }

  /** An archive whose sizes fit reads back as exactly the files it was made from, as long as there are fewer than 2^16 of
      them; with more, the 16-bit entry count wraps and the walk stops short of the end record. */
  lemma {:induction false} ReadBack(files: seq<File>)
    requires SizesFit(Entries(files))
    ensures ReadZip(Archive(Entries(files))) == if |files| < LIMIT16 then Some(files) else None
  {
    EntriesReadBack(Entries(files));
    EntriesCheck(files);
  }

  // ----- When an archive reads back -----

  lemma {:induction false} FirstFits(e: Entry, rest: seq<Entry>)
    requires EntryFits(e) && AllFit(rest)
    ensures AllFit([e] + rest)
  {
  }

  /** Whatever the bytes, a walk yields as many entries as it was told to, each with a name, a size and a CRC that fit. */
  lemma {:induction false} WalkFits(b: seq<Byte>, p: nat, count: nat, stop: nat)
    requires Walk(b, p, count, stop).Some?
    ensures |Walk(b, p, count, stop).value| == count && AllFit(Walk(b, p, count, stop).value)
    decreases count
  {
    hide Read16, Read32, ReadEntry, EntryFits, AllFit, EntryLength;
    if count > 0 {
      EntryReadFits(b, p);
      WalkFits(b, p + EntryLength(b, p), count - 1, stop);
      FirstFits(ReadEntry(b, p).value, Walk(b, p + EntryLength(b, p), count - 1, stop).value);
    } else {
      NoneFit();
    }
  }

  lemma {:induction false} NoneFit()
    ensures AllFit([])
  {
  }

  lemma {:induction false} EntryReadFits(b: seq<Byte>, p: nat)
    ensures ReadEntry(b, p).Some? ==> EntryFits(ReadEntry(b, p).value)
  {
    hide Read16, Read32;
  }

  /** The end record's two sizes make up the archive only if neither was truncated. */
  lemma {:induction false} DirectoryFits(entries: seq<Entry>)
    requires ReadEntries(Archive(entries)).Some?
    ensures |Locals(entries)| < LIMIT32 && |Centrals(entries, 0)| < LIMIT32
  {
    hide Walk, EndRecord, At, Archive, Locals, Centrals, Read16, Read32;
    ArchiveLayout(entries);
    var b, locals, central := Archive(entries), |Locals(entries)|, |Centrals(entries, 0)|;
    EndReadsBack(b, |b| - 22, |entries|, central, locals);
    Untruncated(locals, central);
  }

  lemma {:induction false} Untruncated(a: nat, b: nat)
    requires a % LIMIT32 + b % LIMIT32 == a + b
    ensures a < LIMIT32 && b < LIMIT32
  {
  }

  /** The entries read back exactly if there are fewer than 2^16 of them, and every size fits its field. */
  lemma {:induction false} EntriesReadBackExactly(entries: seq<Entry>)
    ensures ReadEntries(Archive(entries)) == Some(entries) <==> |entries| < LIMIT16 && SizesFit(entries)
  {
    hide Walk, Archive, Locals, Centrals, Read16, Read32, EntryFits;
    if SizesFit(entries) {
      EntriesReadBack(entries);
    }
    if ReadEntries(Archive(entries)) == Some(entries) {
      var b := Archive(entries);
      var e := |b| - 22;
      WalkFits(b, Read32(b, e + 16), Read16(b, e + 10), e);
      DirectoryFits(entries);
    }
  }

  /** Checking loses nothing: only these entries give these files. */
  lemma {:induction false} CheckedAre(entries: seq<Entry>, files: seq<File>)
    requires CheckEntries(entries) == Some(files)
    ensures entries == Entries(files)
    decreases |entries|
  {
    hide Crc;
    if entries != [] {
      CheckedAre(entries[1..], files[1..]);
      assert entries == [entries[0]] + entries[1..];
    }
  }

  /** An archive reads back as the files it was made from exactly if there are fewer than 2^16 of them, and every name,
      content and offset fits its field. */
  lemma {:induction false} ReadsBackExactly(files: seq<File>)
    ensures ReadZip(Archive(Entries(files))) == Some(files) <==> |files| < LIMIT16 && SizesFit(Entries(files))
  {
    hide ReadEntries, Archive, Entries, CheckEntries, SizesFit;
    EntriesReadBackExactly(Entries(files));
    EntriesCheck(files);
    if ReadZip(Archive(Entries(files))) == Some(files) {
      CheckedAre(ReadEntries(Archive(Entries(files))).value, files);
    }
  }

  function EmptyFiles(n: nat): (files: seq<File>)
    ensures |files| == n
  {
    if n == 0 then [] else EmptyFiles(n - 1) + [File([], [])]
  }

  /** One file with a name of 65536 bytes does not read back, nor do 65536 empty files. */
  lemma {:induction false} TooLongOrTooMany()
    ensures var long := [File(Blank(LIMIT16), [])]; ReadZip(Archive(Entries(long))) != Some(long)
    ensures var many := EmptyFiles(LIMIT16); ReadZip(Archive(Entries(many))) != Some(many)
  {
    hide ReadZip, Archive, Blank, EmptyFiles, Crc, Locals, Centrals;
    var long := [File(Blank(LIMIT16), [])];
    ReadsBackExactly(long);
    assert !EntryFits(Entries(long)[0]);
    ReadsBackExactly(EmptyFiles(LIMIT16));
  }
}

/** The panel component's ZIP export, step by step as the panel runs it. */
module PanelZip {
  import opened Iteration
  import opened Bits
  import opened Crc32
  import opened ZipFormat
  import ZipReader

  /** The header with one more write. */
  lemma {:induction false} HeaderPut(n: nat, done: seq<Field>, f: Field)
    requires InRange(done, n) && f.End() <= n
    ensures InRange(done + [f], n)
    ensures Header(n, done + [f]) == Put(Header(n, done), f)
  {
    assert (done + [f])[..|done|] == done;
  }

  method BlankBuffer(size: nat) returns (a: array<Byte>)
    ensures fresh(a) && a.Length == size && a[..] == Header(size, [])
  {
    a := new Byte[size](_ => 0);
    assert a[..] == Blank(size);
  }

  method SetUint16(a: array<Byte>, pos: nat, value: nat, ghost all: seq<Field>, ghost k: nat)
    requires InRange(all, a.Length) && k < |all| && all[k] == U16(pos, value)
    requires a[..] == Header(a.Length, all[..k])
    modifies a
    ensures a[..] == Header(a.Length, all[..k + 1])
  {
    HeaderPut(a.Length, all[..k], all[k]);
    assert all[..k] + [all[k]] == all[..k + 1];
    a[pos] := value % 256;
    a[pos + 1] := value / 256 % 256;
  }

  method SetUint32(a: array<Byte>, pos: nat, value: nat, ghost all: seq<Field>, ghost k: nat)
    requires InRange(all, a.Length) && k < |all| && all[k] == U32(pos, value)
    requires a[..] == Header(a.Length, all[..k])
    modifies a
    ensures a[..] == Header(a.Length, all[..k + 1])
  {
    HeaderPut(a.Length, all[..k], all[k]);
    assert all[..k] + [all[k]] == all[..k + 1];
    a[pos] := value % 256;
    a[pos + 1] := value / 256 % 256;
    a[pos + 2] := value / 0x1_0000 % 256;
    a[pos + 3] := value / 0x100_0000 % 256;
  }

  method TableRow(index: nat) returns (crc: Word)
    ensures crc == TableEntry(BitsOf(index, 32))
  {
    hide ShiftRight, Xor, BitsOf;
    crc := BitsOf(index, 32);
    for bit := 0 to 8
      invariant Iter(ShiftOnce, crc, 8 - bit) == TableEntry(BitsOf(index, 32))
    {
      crc := if crc[0] then Xor(POLY, ShiftRight(crc, 1)) else ShiftRight(crc, 1);
    }
  }

  class Panel {
    /** Empty until the first checksum. */
    var crcTable: seq<Word>

    ghost predicate Valid()
      reads this
    {
      crcTable == [] || IsTable(crcTable, 256)
    }

    constructor ()
      ensures Valid() && crcTable == []
    {
      crcTable := [];
    }

    method BuildTable()
      modifies this
      ensures IsTable(crcTable, 256)
    {
      crcTable := [];
      for index := 0 to 256
        invariant IsTable(crcTable, index)
      {
        var crc := TableRow(index);
        crcTable := crcTable + [crc];
      }
    }

    method Crc32(data: seq<Byte>) returns (crc: nat)
      requires Valid()
      modifies this
      ensures Valid()
      ensures crc == Crc(data)
    {
      if crcTable == [] {
        BuildTable();
      }
      var c: Word := ALL_ONES;
      var index := 0;
      while index < |data|
        invariant 0 <= index <= |data|
        invariant IsTable(crcTable, 256)
        invariant BitSerial(c, data[index..]) == BitSerial(ALL_ONES, data)
      {
        var x := Xor(c, ByteWord(data[index]));
        LowByteIndex(x);
        TableStepIsFeed(c, data[index]);
        assert data[index..][1..] == data[index + 1..];
        c := Xor(crcTable[NatOf(x[..8])], ShiftRight(c, 8));
        index := index + 1;
      }
      crc := NatOf(Xor(c, ALL_ONES));
    }

    /** `zipHeader`: writes the fields of a local or a central header into a zeroed buffer. */
    method ZipHeader(size: nat, signature: nat, nameLength: nat, dataLength: nat, crc: nat, offset: nat, ghost e: Entry)
      returns (header: array<Byte>)
      requires nameLength == |e.name| && dataLength == |e.data| && crc == e.crc
      requires (signature == LOCAL_SIGNATURE && size == 30) || (signature == CENTRAL_SIGNATURE && size == 46)
      ensures fresh(header)
      ensures header[..] == if signature == LOCAL_SIGNATURE then LocalHeader(e) else CentralHeader(e, offset)
    {
      hide Header;
      header := BlankBuffer(size);
      if signature == LOCAL_SIGNATURE {
        FillLocal(header, signature, nameLength, dataLength, crc, e);
      } else {
        FillCentral(header, signature, nameLength, dataLength, crc, offset, e);
      }
    }

    /** The first branch: the fields of a local header. */
    method FillLocal(header: array<Byte>, signature: nat, nameLength: nat, dataLength: nat, crc: nat, ghost e: Entry)
      requires nameLength == |e.name| && dataLength == |e.data| && crc == e.crc && signature == LOCAL_SIGNATURE
      requires header.Length == 30 && header[..] == Header(30, [])
      modifies header
      ensures header[..] == LocalHeader(e)
    {
      hide Header;
      ghost var all := LocalFields(e);
      SetUint32(header, 0, signature, all, 0);
      SetUint16(header, 4, 20, all, 1);
      SetUint16(header, 8, 0, all, 2);
      SetUint16(header, 10, 0, all, 3);
      SetUint16(header, 12, DOS_DATE, all, 4);
      SetUint32(header, 14, crc, all, 5);
      SetUint32(header, 18, dataLength, all, 6);
      SetUint32(header, 22, dataLength, all, 7);
      SetUint16(header, 26, nameLength, all, 8);
      assert all[..9] == all;
    }

    /** The second branch: the fields of a central header. */
    method FillCentral(header: array<Byte>, signature: nat, nameLength: nat, dataLength: nat, crc: nat, offset: nat, ghost e: Entry)
      requires nameLength == |e.name| && dataLength == |e.data| && crc == e.crc && signature == CENTRAL_SIGNATURE
      requires header.Length == 46 && header[..] == Header(46, [])
      modifies header
      ensures header[..] == CentralHeader(e, offset)
    {
      hide Header;
      ghost var all := CentralFields(e, offset);
      SetUint32(header, 0, signature, all, 0);
      SetUint16(header, 4, 20, all, 1);
      SetUint16(header, 6, 20, all, 2);
      SetUint16(header, 10, 0, all, 3);
      SetUint16(header, 12, 0, all, 4);
      SetUint16(header, 14, DOS_DATE, all, 5);
      SetUint32(header, 16, crc, all, 6);
      SetUint32(header, 20, dataLength, all, 7);
      SetUint32(header, 24, dataLength, all, 8);
      SetUint16(header, 28, nameLength, all, 9);
      SetUint32(header, 42, offset, all, 10);
      assert all[..11] == all;
    }

    method CreateZip(files: seq<File>) returns (blob: seq<Byte>)
      requires Valid()
      modifies this
      ensures Valid()
      ensures blob == Archive(Entries(files))
    {
      hide LocalHeader, CentralHeader, Crc, EndRecord, Locals, Centrals;
      var localParts: seq<Byte>, centralParts: seq<Byte> := [], [];
      var offset := 0;
      var i := 0;
      ghost var entries := Entries(files);
      assert entries[0..] == entries;
      while i < |files|
        invariant 0 <= i <= |files| && Valid() && offset == |localParts|
        invariant localParts + Locals(entries[i..]) == Locals(entries)
        invariant centralParts + Centrals(entries[i..], offset) == Centrals(entries, 0)
      {
        var nameBytes, data := files[i].name, files[i].data;
        var crc := Crc32(data);
        ghost var e := entries[i];
        var local := ZipHeader(30, LOCAL_SIGNATURE, |nameBytes|, |data|, crc, offset, e);
        var central := ZipHeader(46, CENTRAL_SIGNATURE, |nameBytes|, |data|, crc, offset, e);
        NextEntry(entries, i, localParts, centralParts, offset);
        localParts := localParts + (local[..] + nameBytes + data);
        centralParts := centralParts + (central[..] + nameBytes);
        offset := offset + (local.Length + |nameBytes| + |data|);
        i := i + 1;
      }
      NoMoreEntries(entries, i, localParts, centralParts, offset);
      var end := WriteEnd(|files|, |centralParts|, offset);
      blob := localParts + centralParts + end[..];
    }

    method WriteEnd(count: nat, centralSize: nat, offset: nat) returns (end: array<Byte>)
      ensures fresh(end) && end[..] == EndRecord(count, centralSize, offset)
    {
      hide Header;
      end := BlankBuffer(22);
      ghost var all := EndFields(count, centralSize, offset);
      SetUint32(end, 0, END_SIGNATURE, all, 0);
      SetUint16(end, 8, count, all, 1);
      SetUint16(end, 10, count, all, 2);
      SetUint32(end, 12, centralSize, all, 3);
      SetUint32(end, 16, offset, all, 4);
      assert all[..5] == all;
    }
  }

  lemma {:induction false} NextEntry(entries: seq<Entry>, i: nat, localParts: seq<Byte>, centralParts: seq<Byte>, offset: nat)
    requires i < |entries|
    requires localParts + Locals(entries[i..]) == Locals(entries)
    requires centralParts + Centrals(entries[i..], offset) == Centrals(entries, 0)
    ensures (localParts + LocalPart(entries[i])) + Locals(entries[i + 1..]) == Locals(entries)
    ensures (centralParts + CentralPart(entries[i], offset)) + Centrals(entries[i + 1..], offset + |LocalPart(entries[i])|)
         == Centrals(entries, 0)
  {
    assert entries[i..][1..] == entries[i + 1..];
  }

  lemma {:induction false} NoMoreEntries(entries: seq<Entry>, i: nat, localParts: seq<Byte>, centralParts: seq<Byte>, offset: nat)
    requires i == |entries|
    requires localParts + Locals(entries[i..]) == Locals(entries)
    requires centralParts + Centrals(entries[i..], offset) == Centrals(entries, 0)
    ensures localParts == Locals(entries) && centralParts == Centrals(entries, 0)
  {
  }

  predicate IsTable(table: seq<Word>, n: nat) {
    |table| == n && forall k :: 0 <= k < n ==> table[k] == TableEntry(BitsOf(k, 32))
  }

  /** `x & 0xff` as an index names the table entry of the low byte. */
  lemma {:induction false} LowByteIndex(x: Word)
    ensures NatOf(x[..8]) < 256
    ensures BitsOf(NatOf(x[..8]), 32) == LowByte(x)
  {
    var v := NatOf(x[..8]);
    NatOfBound(x[..8]);
    Pow32();
    BitsOfNatOf(x[..8]);
    HighBitsZero(v, 8, 32);
  }
}
