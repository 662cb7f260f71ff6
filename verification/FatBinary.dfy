/** Fat binaries of both formats: sizing, packing and unpacking them, and what survives the trip. */
module FatBinary {
  import opened Wrappers
  import opened Wire
  import opened Codec
  import opened Sections
  import opened Packets

  /** A fat binary of the 3.2 format without dependents, which the packer refuses. */
  datatype Fat = Fat(
    magic: nat,
    version: nat,
    gpuInfoVersion: nat,
    flags: nat,
    characteristic: nat,
    key: CStr,
    ident: CStr,
    usageMode: CStr,
    debugInfo: nat,
    ptx: Section,
    cubin: Section,
    debug: Section,
    elf: Section,
    exported: Section,
    imported: Section)

  /** The fields in the order of the packet, up to `imported`. */
  const SHAPES: seq<Shape> := [
    Number(LONG_SIZE), Number(LONG_SIZE), Number(LONG_SIZE), Number(INT_SIZE), Number(INT_SIZE),
    Text, Text, Text, Number(LONG_SIZE),
    Table(Ptx), Table(Cubin), Table(Debug), Table(Elf), Table(Symbol), Table(Symbol)]

  function Fields(b: Fat): (fs: seq<Field>)
    ensures |fs| == |SHAPES|
  {
    [Num(b.magic), Num(b.version), Num(b.gpuInfoVersion), Num(b.flags), Num(b.characteristic),
     Str(b.key), Str(b.ident), Str(b.usageMode), Num(b.debugInfo),
     Sec(b.ptx), Sec(b.cubin), Sec(b.debug), Sec(b.elf), Sec(b.exported), Sec(b.imported)]
  }

  function SecIn(f: Field): Section { if f.Sec? then f.sec else Absent }

  /** The struct that the unpack pass fills in. */
  function FromFields(fs: seq<Field>): Fat
    requires |fs| == |SHAPES|
  {
    Fat(NumIn(fs[0]), NumIn(fs[1]), NumIn(fs[2]), NumIn(fs[3]), NumIn(fs[4]),
        StrIn(fs[5]), StrIn(fs[6]), StrIn(fs[7]), NumIn(fs[8]),
        SecIn(fs[9]), SecIn(fs[10]), SecIn(fs[11]), SecIn(fs[12]), SecIn(fs[13]), SecIn(fs[14]))
  }

  predicate BinaryFits(b: Fat) {
    PacketFits(SHAPES, Fields(b))
  }

  /** The debug and elf lists pass the count assertions of the pack pass. */
  predicate BinaryPacks(b: Fat) {
    && BinaryFits(b)
    && (b.debug.Entries? ==> CountHolds(Debug, b.debug.list))
    && (b.elf.Entries? ==> CountHolds(Elf, b.elf.list))
  }

  /** What packFatBinary writes: the fields, then the number of dependents. */
  function EncBinary(b: Fat): seq<byte>
    requires BinaryFits(b)
  {
    EncPacket(SHAPES, Fields(b)) + LE(0, INT_SIZE)
  }

  /** getFatRecPktSize */
  function BinarySize(b: Fat): nat
    requires BinaryFits(b)
  {
    PacketSize(SHAPES, Fields(b)) + INT_SIZE
  }

  /** What the unpacked binary looks like: "" is NULL, absent ptx and cubin are lists of a terminator only,
      empty debug, elf and symbol sections are NULL. */
  function NormBinary(b: Fat): Fat {
    b.(key := NormStr(b.key), ident := NormStr(b.ident), usageMode := NormStr(b.usageMode),
       ptx := NormSection(Ptx, b.ptx), cubin := NormSection(Cubin, b.cubin), debug := NormSection(Debug, b.debug),
       elf := NormSection(Elf, b.elf), exported := NormSection(Symbol, b.exported),
       imported := NormSection(Symbol, b.imported))
  }

  function DecBinary(b: seq<byte>): Option<(Fat, nat)> {
    var (fs, n) :- DecPacket(SHAPES, b);
    Some((FromFields(fs), n))
  }

  lemma NormHead(b: Fat, norm: seq<Field>)
    requires BinaryFits(b) && norm == NormPacket(SHAPES, Fields(b))
    ensures norm[..9] == Fields(NormBinary(b))[..9]
  {
  }

  lemma NormTables(b: Fat, norm: seq<Field>)
    requires BinaryFits(b) && norm == NormPacket(SHAPES, Fields(b))
    ensures norm[9..] == Fields(NormBinary(b))[9..]
  {
  }

  lemma NormFields(b: Fat)
    requires BinaryFits(b)
    ensures NormPacket(SHAPES, Fields(b)) == Fields(NormBinary(b))
    ensures FromFields(Fields(NormBinary(b))) == NormBinary(b)
  {
    var norm, back := NormPacket(SHAPES, Fields(b)), Fields(NormBinary(b));
    NormHead(b, norm);
    NormTables(b, norm);
    assert norm == norm[..9] + norm[9..] && back == back[..9] + back[9..];
  }

  /** Unpacking a packed binary gives its normal form, and what it reads up to `imported` is exactly what
      was written, whatever follows; the count of dependents comes next. */
  lemma {:induction false} FatBinaryRoundTrip(b: Fat, rest: seq<byte>)
    requires BinaryFits(b)
    ensures var n := |EncBinary(b)| - INT_SIZE;
            && DecBinary(EncBinary(b) + rest) == Some((NormBinary(b), n))
            && DecNum(Tail(EncBinary(b) + rest, n), INT_SIZE) == Some(0)
    ensures b.ptx == Absent ==> NormBinary(b).ptx == Entries([Entry(Null, Null, 0)])
    ensures b.cubin == Absent ==> NormBinary(b).cubin == Entries([Entry(Null, Null, 0)])
  {
    AbsentComesBack(b);
    var fs, back := Fields(b), Fields(NormBinary(b));
    NormFields(b);
    PacketBefore(SHAPES, fs, EncPacket(SHAPES, fs), LE(0, INT_SIZE), rest);
    DecNumRoundTrip(0, INT_SIZE, rest);
    DecBinaryIs(EncBinary(b) + rest, back, |EncPacket(SHAPES, fs)|);
  }

  lemma DecBinaryIs(src: seq<byte>, fs: seq<Field>, n: nat)
    requires DecPacket(SHAPES, src) == Some((fs, n))
    ensures DecBinary(src) == Some((FromFields(fs), n))
  {
  }

  lemma FieldCode(shapes: seq<Shape>, fs: seq<Field>, i: nat, shape: Shape, f: Field)
    requires PacketFits(shapes, fs) && i < |fs| && shapes[i] == shape && fs[i] == f
    ensures FieldFits(shape, f) && FieldCodes(shapes, fs)[i] == EncField(shape, f)
  {
  }

  lemma TableCode(shapes: seq<Shape>, fs: seq<Field>, i: nat, kind: Kind, sec: Section)
    requires PacketFits(shapes, fs) && i < |fs| && shapes[i] == Table(kind) && fs[i] == Sec(sec)
    ensures FieldCodes(shapes, fs)[i] == EncSection(kind, sec)
  {
    FieldCode(shapes, fs, i, Table(kind), Sec(sec));
  }

  lemma HeadCodes(b: Fat, codes: seq<seq<byte>>)
    requires BinaryFits(b) && codes == FieldCodes(SHAPES, Fields(b))
    ensures codes[..9] == [
              LE(b.magic, 8), LE(b.version, 8), LE(b.gpuInfoVersion, 8), LE(b.flags, 4), LE(b.characteristic, 4),
              EncStr(b.key), EncStr(b.ident), EncStr(b.usageMode), LE(b.debugInfo, 8)]
  {
  }

  lemma TableCodes(b: Fat, shapes: seq<Shape>, fs: seq<Field>, codes: seq<seq<byte>>)
    requires shapes == SHAPES && fs == Fields(b) && PacketFits(shapes, fs) && codes == FieldCodes(shapes, fs)
    ensures codes[9] == EncSection(Ptx, b.ptx) && codes[10] == EncSection(Cubin, b.cubin)
    ensures codes[11] == EncSection(Debug, b.debug) && codes[12] == EncSection(Elf, b.elf)
    ensures codes[13] == EncSection(Symbol, b.exported) && codes[14] == EncSection(Symbol, b.imported)
  {
    TableCode(shapes, fs, 9, Ptx, b.ptx);
    TableCode(shapes, fs, 10, Cubin, b.cubin);
    TableCode(shapes, fs, 11, Debug, b.debug);
    TableCode(shapes, fs, 12, Elf, b.elf);
    TableCode(shapes, fs, 13, Symbol, b.exported);
    TableCode(shapes, fs, 14, Symbol, b.imported);
  }

  /** The bytes of a binary: numbers and strings, sections, and that there are no dependents, in this order. */
  lemma BinaryLayout(b: Fat) returns (head: seq<seq<byte>>, tables: seq<seq<byte>>)
    requires BinaryFits(b)
    ensures EncBinary(b) == Concat(head + tables + [LE(0, 4)])
    ensures head == [
              LE(b.magic, 8), LE(b.version, 8), LE(b.gpuInfoVersion, 8), LE(b.flags, 4), LE(b.characteristic, 4),
              EncStr(b.key), EncStr(b.ident), EncStr(b.usageMode), LE(b.debugInfo, 8)]
    ensures |tables| == 6
    ensures tables[0] == EncSection(Ptx, b.ptx) && tables[1] == EncSection(Cubin, b.cubin)
    ensures tables[2] == EncSection(Debug, b.debug) && tables[3] == EncSection(Elf, b.elf)
    ensures tables[4] == EncSection(Symbol, b.exported) && tables[5] == EncSection(Symbol, b.imported)
  {
    var codes := FieldCodes(SHAPES, Fields(b));
    HeadCodes(b, codes);
    TableCodes(b, SHAPES, Fields(b), codes);
    head, tables := codes[..9], codes[9..];
    assert head + tables == codes;
    ConcatMore(codes, LE(0, 4));
  }

  lemma ConcatMore(codes: seq<seq<byte>>, code: seq<byte>)
    ensures Concat(codes + [code]) == Concat(codes) + code
  {
    assert (codes + [code])[..|codes|] == codes;
  }

  /** What is read back, field by field. SectionComesBack says what the sections look like. */
  lemma BinaryComesBack(b: Fat, packet: seq<byte>, rest: seq<byte>)
    requires BinaryFits(b) && packet == EncBinary(b)
    ensures DecBinary(packet + rest).Some?
    ensures var r := DecBinary(packet + rest).value.0;
            && r.magic == b.magic && r.version == b.version && r.gpuInfoVersion == b.gpuInfoVersion
            && r.flags == b.flags && r.characteristic == b.characteristic && r.debugInfo == b.debugInfo
            && r.key == (if StrLen(b.key) == 0 then Null else b.key)
            && r.ident == (if StrLen(b.ident) == 0 then Null else b.ident)
            && r.usageMode == (if StrLen(b.usageMode) == 0 then Null else b.usageMode)
            && r.ptx == NormSection(Ptx, b.ptx) && r.cubin == NormSection(Cubin, b.cubin)
            && r.debug == NormSection(Debug, b.debug) && r.elf == NormSection(Elf, b.elf)
            && r.exported == NormSection(Symbol, b.exported) && r.imported == NormSection(Symbol, b.imported)
  {
    FatBinaryRoundTrip(b, rest);
  }

  /** A binary without ptx or cubin comes back with an array of the terminator only; one without debug, elf or
      symbols with NULL. */
  lemma AbsentComesBack(b: Fat)
    ensures b.ptx == Absent ==> NormBinary(b).ptx == Entries([Entry(Null, Null, 0)])
    ensures b.cubin == Absent ==> NormBinary(b).cubin == Entries([Entry(Null, Null, 0)])
    ensures b.debug == Absent ==> NormBinary(b).debug == Absent
    ensures b.elf == Absent ==> NormBinary(b).elf == Absent
    ensures b.exported == Absent ==> NormBinary(b).exported == Absent
    ensures b.imported == Absent ==> NormBinary(b).imported == Absent
  {
  }

  predicate PlainTables(b: Fat) {
    && Plain(Ptx, b.ptx) && Plain(Cubin, b.cubin) && Plain(Debug, b.debug) && Plain(Elf, b.elf)
    && Plain(Symbol, b.exported) && Plain(Symbol, b.imported)
  }

  /** A binary without empty strings, whose sections end in blank terminators, comes back as it was. */
  lemma PlainBinaryRoundTrip(b: Fat, packet: seq<byte>, rest: seq<byte>, n: nat)
    requires BinaryFits(b) && packet == EncBinary(b) && n == |packet| - 4 && PlainTables(b)
    requires b.key != Chars([]) && b.ident != Chars([]) && b.usageMode != Chars([])
    ensures DecBinary(packet + rest) == Some((b, n))
  {
    FatBinaryRoundTrip(b, rest);
    PlainTablesComeBack(b);
  }

  lemma PlainTablesComeBack(b: Fat)
    requires PlainTables(b)
    ensures NormBinary(b) == b.(key := NormStr(b.key), ident := NormStr(b.ident), usageMode := NormStr(b.usageMode))
  {
    PlainComesBack(Ptx, b.ptx);
    PlainComesBack(Cubin, b.cubin);
    PlainComesBack(Debug, b.debug);
    PlainComesBack(Elf, b.elf);
    PlainComesBack(Symbol, b.exported);
    PlainComesBack(Symbol, b.imported);
  }

  /** The size pass exceeds what the pack pass writes by one count for each empty symbol table. */
  lemma BinarySizeIsLength(b: Fat)
    requires BinaryFits(b)
    ensures BinarySize(b) == |EncBinary(b)| + SizeSlack(Symbol, b.exported) + SizeSlack(Symbol, b.imported)
  {
    PacketSizeIsLength(SHAPES, Fields(b));
    BinarySlack(SHAPES, Fields(b), b);
  }

  lemma BinarySlack(shapes: seq<Shape>, fs: seq<Field>, b: Fat)
    requires shapes == SHAPES && fs == Fields(b) && BinaryFits(b)
    ensures PacketSlack(shapes, fs) == SizeSlack(Symbol, b.exported) + SizeSlack(Symbol, b.imported)
  {
    NoSlack(shapes[..13], fs[..13]);
    assert shapes[..14][..13] == shapes[..13] && fs[..14][..13] == fs[..13];
    assert PacketSlack(shapes[..14], fs[..14]) == SizeSlack(Symbol, b.exported);
  }

  lemma SizeUpTo(shapes: seq<Shape>, fs: seq<Field>, i: nat)
    requires PacketFits(shapes, fs) && i < |fs|
    ensures PacketSize(shapes[..i + 1], fs[..i + 1]) == PacketSize(shapes[..i], fs[..i]) + FieldSize(shapes[i], fs[i])
  {
    assert shapes[..i + 1][..i] == shapes[..i] && fs[..i + 1][..i] == fs[..i];
  }

  lemma LastThreeSizes(shapes: seq<Shape>, fs: seq<Field>, i: nat)
    requires PacketFits(shapes, fs) && |fs| == i + 3
    ensures PacketSize(shapes, fs) == PacketSize(shapes[..i], fs[..i]) + FieldSize(shapes[i], fs[i]) +
                                      FieldSize(shapes[i + 1], fs[i + 1]) + FieldSize(shapes[i + 2], fs[i + 2])
  {
    SizeUpTo(shapes, fs, i);
    SizeUpTo(shapes, fs, i + 1);
    SizeUpTo(shapes, fs, i + 2);
    Whole(shapes);
    Whole(fs);
  }

  lemma SizeBeforeElf(b: Fat)
    requires BinaryFits(b)
    ensures PacketSize(SHAPES[..12], Fields(b)[..12]) == |EncPacket(SHAPES[..12], Fields(b)[..12])|
  {
    NoSlack(SHAPES[..12], Fields(b)[..12]);
    PacketSizeIsLength(SHAPES[..12], Fields(b)[..12]);
  }

  lemma TableSizes(b: Fat)
    requires BinaryFits(b)
    ensures FieldSize(SHAPES[12], Fields(b)[12]) == SectionSize(Elf, b.elf)
    ensures FieldSize(SHAPES[13], Fields(b)[13]) == SectionSize(Symbol, b.exported)
    ensures FieldSize(SHAPES[14], Fields(b)[14]) == SectionSize(Symbol, b.imported)
  {
  }

  /** The sizes of the elf section and of what follows it. */
  lemma SizeFromElf(b: Fat, before: nat)
    requires BinaryFits(b) && before == |EncPacket(SHAPES[..12], Fields(b)[..12])|
    ensures BinarySize(b) == before + SectionSize(Elf, b.elf) + SectionSize(Symbol, b.exported) +
                             SectionSize(Symbol, b.imported) + INT_SIZE
  {
    SizeBeforeElf(b);
    TableSizes(b);
    LastThreeSizes(SHAPES, Fields(b), 12);
  }

  /** An elf list whose count assertion fails has by then been written past the end of the buffer exactly when
      what it has been written past its section's computed size exceeds the sizes of all that follows. */
  lemma ElfOverrunsBufferIff(b: Fat, before: nat, written: nat)
    requires BinaryFits(b) && b.elf.Entries? && before == |EncPacket(SHAPES[..12], Fields(b)[..12])|
    requires written == INT_SIZE + |EncEntries(Elf, b.elf.list[..PackIndex(Elf, b.elf.list, 0)])|
    ensures before + written > BinarySize(b) <==>
            written - SectionSize(Elf, b.elf) >
              SectionSize(Symbol, b.exported) + SectionSize(Symbol, b.imported) + INT_SIZE
  {
    SizeFromElf(b, before);
  }

  // ---------- re-encoding ----------

  /** Re-encoding an unpacked binary reproduces the same bytes exactly when no entry that was packed has
      an empty string; ReencodedCut says what is lost otherwise. */
  lemma {:induction false} ReencodingFixed(b: Fat)
    requires BinaryFits(b)
    ensures BinaryPacks(NormBinary(b))
    ensures EncBinary(NormBinary(b)) == EncBinary(b) <==>
            forall i :: 0 <= i < |SHAPES| ==> NothingEmpty(SHAPES[i], Fields(b)[i])
  {
    NormFields(b);
    PacketFixedIff(SHAPES, Fields(b));
    NormBinaryPacks(b);
    var code, again := EncPacket(SHAPES, Fields(b)), EncPacket(SHAPES, Fields(NormBinary(b)));
    if EncBinary(NormBinary(b)) == EncBinary(b) {
      assert |code| == |again|;
      assert EncBinary(b)[..|code|] == code && EncBinary(NormBinary(b))[..|code|] == again;
    }
  }

  lemma DebugPacks(b: Fat)
    requires BinaryFits(b) && NormSection(Debug, b.debug).Entries?
    ensures CountHolds(Debug, NormSection(Debug, b.debug).list)
  {
    assert FieldFits(SHAPES[11], Fields(b)[11]);
    NormSectionPacks(Debug, b.debug);
  }

  lemma ElfPacks(b: Fat)
    requires BinaryFits(b) && NormSection(Elf, b.elf).Entries?
    ensures CountHolds(Elf, NormSection(Elf, b.elf).list)
  {
    assert FieldFits(SHAPES[12], Fields(b)[12]);
    NormSectionPacks(Elf, b.elf);
  }

  /** An unpacked binary can be packed again without a failed assertion. */
  lemma NormBinaryPacks(b: Fat)
    requires BinaryFits(b) && BinaryFits(NormBinary(b))
    ensures BinaryPacks(NormBinary(b))
  {
    if NormBinary(b).debug.Entries? {
      DebugPacks(b);
    }
    if NormBinary(b).elf.Entries? {
      ElfPacks(b);
    }
  }

  // ---------- the passes ----------

  /** getFatRecPktSize, with its cache of entry counts. */
  method GetFatRecPktSize(b: Fat) returns (size: nat, counts: seq<nat>)
    requires BinaryFits(b)
    ensures size == BinarySize(b)
    ensures |counts| == |SHAPES| && forall i :: 0 <= i < |SHAPES| ==> counts[i] == CountOf(SHAPES[i], Fields(b)[i])
  {
    size, counts := SizePacket(SHAPES, Fields(b));
    size := size + INT_SIZE;
  }

  /** packFatBinary; there are no dependents to follow their count. */
  method PackFatBinary(dst: array<byte>, b: Fat, counts: seq<nat>) returns (next: nat)
    requires BinaryPacks(b) && |counts| == |SHAPES|
    requires forall i :: 0 <= i < |SHAPES| ==> counts[i] == CountOf(SHAPES[i], Fields(b)[i])
    requires |EncBinary(b)| <= dst.Length
    modifies dst
    ensures next == |EncBinary(b)| && dst[..next] == EncBinary(b)
  {
    next := PackPacket(dst, SHAPES, Fields(b), counts);
    next := PutNum(dst, next, 0, INT_SIZE);
  }

  /** The client's side of __cudaRegisterFatBinary: a buffer of the computed size, then the pack pass. Every
      write is inside the buffer, and the unused end is the slack of empty symbol tables. */
  method Serialize(b: Fat) returns (packet: array<byte>, size: nat)
    requires BinaryPacks(b)
    ensures fresh(packet) && packet.Length == size
    ensures size == |EncBinary(b)| + SizeSlack(Symbol, b.exported) + SizeSlack(Symbol, b.imported)
    ensures packet[..|EncBinary(b)|] == EncBinary(b)
  {
    var counts, next;
    size, counts := GetFatRecPktSize(b);
    BinarySizeIsLength(b);
    packet := new byte[size];
    next := PackFatBinary(packet, b, counts);
  }

  /** unpackFatBinary of a packet without dependents. The last offset added to the pointer is meant for the
      dependents, but nothing has been assigned to it since `imported`. */
  method UnpackFatBinary(src: seq<byte>) returns (b: Fat, ret: nat)
    requires DecBinary(src).Some?
    requires DecNum(Tail(src, DecBinary(src).value.1), INT_SIZE) == Some(0)
    ensures b == DecBinary(src).value.0 && UnpackReturn(src) == Some(ret)
  {
    var fs, next, offset := UnpackPacket(src, SHAPES);
    assert Tail(src, next) == src[next..];
    var dependents, _ := GetNum(src, next, INT_SIZE);
    assert dependents == 0;
    b, ret := FromFields(fs), next + offset;
  }

  /** What unpackFatBinary returns when there are no dependents: the bytes read up to `imported`, and the
      bytes of `imported` once more. */
  function UnpackReturn(src: seq<byte>): Option<nat> {
    LastTwice(FieldDecoders(SHAPES), src)
  }

  lemma ImportedCode(b: Fat)
    requires BinaryFits(b)
    ensures FieldCodes(SHAPES, Fields(b))[14] == EncSection(Symbol, b.imported)
  {
  }

  lemma {:induction false} ReturnOfBinary(b: Fat, packet: seq<byte>, last: seq<byte>, rest: seq<byte>, r: nat)
    requires BinaryFits(b) && packet == EncBinary(b) && last == EncSection(Symbol, b.imported)
    requires r == |packet| - INT_SIZE + |last|
    ensures UnpackReturn(packet + rest) == Some(r)
  {
    ImportedCode(b);
    LastFieldTwice(SHAPES, Fields(b), packet, LE(0, INT_SIZE), last, rest, r);
  }

  /** The value that unpackFatBinary returns is the length of the packet exactly when no symbol is imported. */
  lemma {:induction false} ReturnIsLengthIff(b: Fat, packet: seq<byte>, rest: seq<byte>)
    requires BinaryFits(b) && packet == EncBinary(b)
    ensures UnpackReturn(packet + rest).Some?
    ensures UnpackReturn(packet + rest) == Some(|packet|) <==> Counted(Symbol, b.imported) == []
  {
    var last := EncSection(Symbol, b.imported);
    ReturnOfBinary(b, packet, last, rest, |packet| - INT_SIZE + |last|);
    NoImportsIff(b);
  }

  /** For example: a binary that imports one symbol. */
  lemma {:induction false} OneImport() returns (b: Fat, packet: seq<byte>)
    ensures BinaryFits(b) && packet == EncBinary(b) && UnpackReturn(packet) != Some(|packet|)
  {
    var imported := Entries([Entry(Chars([65]), Null, 0), TERMINATOR]);
    assert Stops(Symbol, imported.list[1]);
    SmallFits(Symbol, imported);
    b := Fat(0, 0, 0, 0, 0, Null, Null, Null, 0, Absent, Absent, Absent, Absent, Absent, imported);
    BareBinaryFits(b);
    packet := EncBinary(b);
    StopIndexIs(Symbol, imported.list, 1);
    ReturnIsLengthIff(b, packet, []);
    assert packet + [] == packet;
  }

  lemma BareBinaryFits(b: Fat)
    requires b == Fat(0, 0, 0, 0, 0, Null, Null, Null, 0, Absent, Absent, Absent, Absent, Absent, b.imported)
    requires SectionFits(Symbol, b.imported)
    ensures BinaryFits(b)
  {
  }

  lemma NoImportsIff(b: Fat)
    requires BinaryFits(b)
    ensures |EncSection(Symbol, b.imported)| == INT_SIZE <==> Counted(Symbol, b.imported) == []
  {
    assert FieldFits(SHAPES[14], Fields(b)[14]);
    NoSymbolsIff(b.imported);
  }

  lemma NoSymbolsIff(sec: Section)
    requires SectionFits(Symbol, sec)
    ensures |EncSection(Symbol, sec)| == INT_SIZE <==> Counted(Symbol, sec) == []
  {
    var es := Counted(Symbol, sec);
    if es != [] {
      assert es == es[..|es| - 1] + [es[|es| - 1]];
      EncEntriesAppend(Symbol, es[..|es| - 1], es[|es| - 1]);
    }
  }

  // ---------- the format of CUDA 4.0 ----------

  /** The wrapper, the header that its data starts with, the binary behind the header, and a file name. */
  datatype Fat4 = Fat4(
    magic: nat, version: nat, headerMagic: nat, headerVersion: nat, binary: seq<byte>, name: CStr)

  const SHAPES4: seq<Shape> := [
    Number(INT_SIZE), Number(INT_SIZE), Number(INT_SIZE), Number(INT_SIZE), Blob, Text]

  function Fields4(b: Fat4): (fs: seq<Field>)
    ensures |fs| == |SHAPES4|
  {
    [Num(b.magic), Num(b.version), Num(b.headerMagic), Num(b.headerVersion), Data(b.binary), Str(b.name)]
  }

  function FromFields4(fs: seq<Field>): Fat4
    requires |fs| == |SHAPES4|
  {
    Fat4(NumIn(fs[0]), NumIn(fs[1]), NumIn(fs[2]), NumIn(fs[3]),
         if fs[4].Data? then fs[4].bytes else [], StrIn(fs[5]))
  }

  predicate Binary4Fits(b: Fat4) {
    PacketFits(SHAPES4, Fields4(b))
  }

  function EncBinary4(b: Fat4): seq<byte>
    requires Binary4Fits(b)
  {
    EncPacket(SHAPES4, Fields4(b))
  }

  function DecBinary4(src: seq<byte>): Option<(Fat4, nat)> {
    var (fs, n) :- DecPacket(SHAPES4, src);
    Some((FromFields4(fs), n))
  }

  /** The bytes of such a binary. */
  lemma Binary4Layout(b: Fat4)
    requires Binary4Fits(b)
    ensures EncBinary4(b) == Concat([
              LE(b.magic, 4), LE(b.version, 4), LE(b.headerMagic, 4), LE(b.headerVersion, 4),
              LE(|b.binary|, 8) + b.binary, EncStr(b.name)])
  {
    assert FieldCodes(SHAPES4, Fields4(b)) == [
      LE(b.magic, 4), LE(b.version, 4), LE(b.headerMagic, 4), LE(b.headerVersion, 4), EncBlob(b.binary), EncStr(b.name)];
  }

  /** Everything survives but an empty file name, which comes back as NULL. */
  lemma FatBinary4RoundTrip(b: Fat4, rest: seq<byte>)
    requires Binary4Fits(b)
    ensures DecBinary4(EncBinary4(b) + rest) == Some((b.(name := NormStr(b.name)), |EncBinary4(b)|))
  {
    assert NormPacket(SHAPES4, Fields4(b)) == Fields4(b.(name := NormStr(b.name)));
    PacketRoundTrip(SHAPES4, Fields4(b), rest);
  }

  /** getFatRecPktSize_4 and packFatBinary_4: the packet is filled to the last byte. */
  method Serialize4(b: Fat4) returns (packet: array<byte>)
    requires Binary4Fits(b)
    ensures fresh(packet) && packet[..] == EncBinary4(b)
  {
    packet := PackRecord(SHAPES4, Fields4(b));
  }

  /** unpackFatBinary_4 */
  method UnpackFatBinary4(src: seq<byte>) returns (b: Fat4, ret: nat)
    requires DecBinary4(src).Some?
    ensures DecBinary4(src) == Some((b, ret))
  {
    var fs, next, _ := UnpackPacket(src, SHAPES4);
    b, ret := FromFields4(fs), next;
  }
}
