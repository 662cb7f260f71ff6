/** Packets: fixed lists of fields, each a number, a string, a pointer to a few integers, or a section of
    a fat binary. The packers write the fields one behind the other; the unpackers read them back. */
module Packets {
  import opened Wrappers
  import opened Wire
  import opened Codec
  import opened Sections
  import opened SectionPasses

  /** The wire format of one field. `Pointer(k)` is an address followed, unless NULL, by k ints; a blob is
      a 64-bit length followed by as many bytes. */
  datatype Shape = Number(width: nat) | Text | Pointer(ints: nat) | Blob | Table(kind: Kind)

  /** Of an unpacked pointer only whether it is NULL counts: the target has been copied elsewhere. */
  datatype Field =
    | Num(n: nat)
    | Str(s: CStr)
    | Ref(address: nat, target: seq<nat>)
    | Data(bytes: seq<byte>)
    | Sec(sec: Section)

  predicate FieldFits(shape: Shape, f: Field) {
    match shape
    case Number(w) => f.Num? && Fits(f.n, w)
    case Text => f.Str? && StrFits(f.s)
    case Pointer(k) =>
      && f.Ref? && Fits(f.address, LONG_SIZE)
      && |f.target| == (if f.address == 0 then 0 else k)
      && forall i :: 0 <= i < |f.target| ==> Fits(f.target[i], INT_SIZE)
    case Blob => f.Data? && Fits(|f.bytes|, LONG_SIZE)
    case Table(kind) => f.Sec? && SectionFits(kind, f.sec)
  }

  function IntCodes(ns: seq<nat>): (r: seq<seq<byte>>)
    ensures |r| == |ns|
  {
    seq(|ns|, i requires 0 <= i < |ns| => LE(ns[i], INT_SIZE))
  }

  function EncPointer(address: nat, target: seq<nat>): (r: seq<byte>)
    ensures |r| == LONG_SIZE + INT_SIZE * |target|
  {
    IntsSize(target);
    LE(address, LONG_SIZE) + Concat(IntCodes(target))
  }

  function EncBlob(bytes: seq<byte>): (r: seq<byte>)
    ensures |r| == LONG_SIZE + |bytes|
  {
    LE(|bytes|, LONG_SIZE) + bytes
  }

  function EncField(shape: Shape, f: Field): seq<byte>
    requires FieldFits(shape, f)
  {
    match shape
    case Number(w) => LE(f.n, w)
    case Text => EncStr(f.s)
    case Pointer(_) => EncPointer(f.address, f.target)
    case Blob => EncBlob(f.bytes)
    case Table(kind) => EncSection(kind, f.sec)
  }

  /** The size pass; it differs from the bytes written only for an empty symbol table. */
  function FieldSize(shape: Shape, f: Field): nat
    requires FieldFits(shape, f)
  {
    match shape
    case Number(w) => w
    case Text => StrSize(f.s)
    case Pointer(k) => LONG_SIZE + if f.address == 0 then 0 else INT_SIZE * k
    case Blob => LONG_SIZE + |f.bytes|
    case Table(kind) => SectionSize(kind, f.sec)
  }

  function Slack(shape: Shape, f: Field): nat
    requires FieldFits(shape, f)
  {
    if shape.Table? then SizeSlack(shape.kind, f.sec) else 0
  }

  function NormField(shape: Shape, f: Field): Field
    requires FieldFits(shape, f)
  {
    match shape
    case Number(_) => f
    case Text => Str(NormStr(f.s))
    case Pointer(_) => f
    case Blob => f
    case Table(kind) => Sec(NormSection(kind, f.sec))
  }

  /** What an unpacker finds in a field; a field of another format would be blank. */
  function NumIn(f: Field): nat { if f.Num? then f.n else 0 }
  function StrIn(f: Field): CStr { if f.Str? then f.s else Null }

  function NumField(n: nat): Field { Num(n) }
  function StrField(s: CStr): Field { Str(s) }
  function SecField(sec: Section): Field { Sec(sec) }

  function IntDecoders(k: nat): (r: seq<Decoder<nat>>)
    ensures |r| == k
  {
    seq(k, _ => Codec.Num(INT_SIZE))
  }

  function Ints(k: nat): Decoder<seq<nat>> {
    (b: seq<byte>) => Each(IntDecoders(k), b)
  }

  function DecPointer(ints: Decoder<seq<nat>>, b: seq<byte>): Option<(Field, nat)> {
    var address :- DecNum(b, LONG_SIZE);
    if address == 0 then Some((Ref(0, []), LONG_SIZE))
    else
      var (target, used) :- ints(Tail(b, LONG_SIZE));
      Some((Ref(address, target), LONG_SIZE + used))
  }

  function DecBlob(b: seq<byte>): Option<(Field, nat)> {
    var n :- DecNum(b, LONG_SIZE);
    if |b| < LONG_SIZE + n then None else Some((Data(b[LONG_SIZE..LONG_SIZE + n]), LONG_SIZE + n))
  }

  function PointerDecoder(k: nat): Decoder<Field> {
    (b: seq<byte>) => DecPointer(Ints(k), b)
  }

  function SectionDecoder(kind: Kind): Decoder<Section> {
    (b: seq<byte>) => DecSection(kind, b)
  }

  function DecField(shape: Shape): Decoder<Field> {
    match shape
    case Number(w) => Map(Codec.Num(w), NumField)
    case Text => Map(DecStr, StrField)
    case Pointer(k) => PointerDecoder(k)
    case Blob => DecBlob
    case Table(kind) => Map(SectionDecoder(kind), SecField)
  }

  lemma {:induction false} IntsRead(ns: seq<nat>, rest: seq<byte>)
    requires forall i :: 0 <= i < |ns| ==> Fits(ns[i], INT_SIZE)
    ensures Each(IntDecoders(|ns|), Concat(IntCodes(ns)) + rest) == Some((ns, |Concat(IntCodes(ns))|))
  {
    forall i | 0 <= i < |ns| ensures Reads(IntDecoders(|ns|)[i], IntCodes(ns)[i], ns[i]) {
      NumReads(ns[i], INT_SIZE);
    }
    EachReadsBefore(IntDecoders(|ns|), IntCodes(ns), ns, rest);
  }

  lemma {:induction false} IntsSize(ns: seq<nat>)
    ensures |Concat(IntCodes(ns))| == INT_SIZE * |ns|
  {
    if ns != [] {
      IntsSize(ns[..|ns| - 1]);
      assert IntCodes(ns)[..|ns| - 1] == IntCodes(ns[..|ns| - 1]);
    }
  }

  lemma PointerReads(k: nat, address: nat, target: seq<nat>, rest: seq<byte>)
    requires Fits(address, LONG_SIZE) && |target| == (if address == 0 then 0 else k)
    requires forall i :: 0 <= i < |target| ==> Fits(target[i], INT_SIZE)
    ensures DecPointer(Ints(k), EncPointer(address, target) + rest)
         == Some((Ref(address, target), |EncPointer(address, target)|))
  {
    var code, ints, n := LE(address, LONG_SIZE), Concat(IntCodes(target)), |EncPointer(address, target)|;
    if address == 0 {
      NullReads(Ints(k), code, ints, rest, n);
    } else {
      IntsRead(target, rest);
      PointeeReads(Ints(k), address, target, code, ints, rest, n);
    }
  }

  lemma NullReads(dec: Decoder<seq<nat>>, code: seq<byte>, ints: seq<byte>, rest: seq<byte>, n: nat)
    requires code == LE(0, LONG_SIZE) && ints == [] && n == LONG_SIZE
    ensures DecPointer(dec, code + ints + rest) == Some((Ref(0, []), n))
  {
    assert code + ints + rest == code + rest;
    DecNumRoundTrip(0, LONG_SIZE, rest);
  }

  lemma PointeeReads(dec: Decoder<seq<nat>>, address: nat, target: seq<nat>, code: seq<byte>, ints: seq<byte>,
                     rest: seq<byte>, n: nat)
    requires address != 0 && Fits(address, LONG_SIZE) && code == LE(address, LONG_SIZE) && n == LONG_SIZE + |ints|
    requires dec(ints + rest) == Some((target, |ints|))
    ensures DecPointer(dec, code + ints + rest) == Some((Ref(address, target), n))
  {
    var tail := ints + rest;
    assert code + ints + rest == code + tail;
    DecNumRoundTrip(address, LONG_SIZE, tail);
    assert Tail(code + tail, LONG_SIZE) == tail;
  }

  lemma BlobReads(f: Field, rest: seq<byte>)
    requires FieldFits(Blob, f)
    ensures DecBlob(EncField(Blob, f) + rest) == Some((f, |EncField(Blob, f)|))
  {
    var code, tail := LE(|f.bytes|, LONG_SIZE), f.bytes + rest;
    assert EncField(Blob, f) + rest == code + tail;
    DecNumRoundTrip(|f.bytes|, LONG_SIZE, tail);
    assert (code + tail)[LONG_SIZE..LONG_SIZE + |f.bytes|] == f.bytes;
  }

  lemma FieldReads(shape: Shape, f: Field)
    requires FieldFits(shape, f)
    ensures Reads(DecField(shape), EncField(shape, f), NormField(shape, f))
  {
    match shape {
      case Number(w) =>
        NumReads(f.n, w);
        MapReads(Codec.Num(w), NumField, LE(f.n, w), f.n);
      case Text =>
        StrReads(f.s);
        MapReads(DecStr, StrField, EncStr(f.s), NormStr(f.s));
      case Pointer(k) =>
        forall rest: seq<byte>
          ensures DecField(shape)(EncField(shape, f) + rest) == Some((f, |EncField(shape, f)|))
        {
          PointerReads(k, f.address, f.target, rest);
        }
      case Blob =>
        forall rest: seq<byte> ensures DecBlob(EncField(Blob, f) + rest) == Some((f, |EncField(Blob, f)|)) {
          BlobReads(f, rest);
        }
      case Table(kind) =>
        var code, norm := EncSection(kind, f.sec), NormSection(kind, f.sec);
        forall rest: seq<byte> ensures SectionDecoder(kind)(code + rest) == Some((norm, |code|)) {
          SectionRoundTrip(kind, f.sec, rest);
        }
        MapReads(SectionDecoder(kind), SecField, code, norm);
    }
  }

  lemma FieldSizeIsLength(shape: Shape, f: Field)
    requires FieldFits(shape, f)
    ensures FieldSize(shape, f) == |EncField(shape, f)| + Slack(shape, f)
  {
    match shape {
      case Pointer(_) => IntsSize(f.target);
      case Table(kind) => SectionSizeIsLength(kind, f.sec);
      case _ =>
    }
  }

  // ---------- packets ----------

  predicate PacketFits(shapes: seq<Shape>, fs: seq<Field>) {
    |shapes| == |fs| && forall i :: 0 <= i < |fs| ==> FieldFits(shapes[i], fs[i])
  }

  function FieldCodes(shapes: seq<Shape>, fs: seq<Field>): (r: seq<seq<byte>>)
    requires PacketFits(shapes, fs)
    ensures |r| == |fs|
  {
    seq(|fs|, i requires 0 <= i < |fs| => EncField(shapes[i], fs[i]))
  }

  function EncPacket(shapes: seq<Shape>, fs: seq<Field>): seq<byte>
    requires PacketFits(shapes, fs)
  {
    Concat(FieldCodes(shapes, fs))
  }

  function NormPacket(shapes: seq<Shape>, fs: seq<Field>): (r: seq<Field>)
    requires PacketFits(shapes, fs)
    ensures |r| == |fs|
    ensures forall i :: 0 <= i < |fs| ==> r[i] == NormField(shapes[i], fs[i])
  {
    seq(|fs|, i requires 0 <= i < |fs| => NormField(shapes[i], fs[i]))
  }

  function FieldDecoders(shapes: seq<Shape>): (r: seq<Decoder<Field>>)
    ensures |r| == |shapes|
    ensures forall i :: 0 <= i < |shapes| ==> r[i] == DecField(shapes[i])
  {
    seq(|shapes|, i requires 0 <= i < |shapes| => DecField(shapes[i]))
  }

  function DecPacket(shapes: seq<Shape>, b: seq<byte>): (r: Option<(seq<Field>, nat)>)
    ensures r.Some? ==> |r.value.0| == |shapes|
  {
    Each(FieldDecoders(shapes), b)
  }

  lemma FieldsRead(shapes: seq<Shape>, fs: seq<Field>)
    requires PacketFits(shapes, fs)
    ensures forall i :: 0 <= i < |fs| ==>
              Reads(FieldDecoders(shapes)[i], FieldCodes(shapes, fs)[i], NormPacket(shapes, fs)[i])
  {
    forall i | 0 <= i < |fs|
      ensures Reads(FieldDecoders(shapes)[i], FieldCodes(shapes, fs)[i], NormPacket(shapes, fs)[i])
    {
      FieldReads(shapes[i], fs[i]);
    }
  }

  /** Every packet comes back in normal form, consuming exactly its own bytes, whatever follows. */
  lemma PacketRoundTrip(shapes: seq<Shape>, fs: seq<Field>, rest: seq<byte>)
    requires PacketFits(shapes, fs)
    ensures DecPacket(shapes, EncPacket(shapes, fs) + rest) == Some((NormPacket(shapes, fs), |EncPacket(shapes, fs)|))
  {
    FieldsRead(shapes, fs);
    EachReadsBefore(FieldDecoders(shapes), FieldCodes(shapes, fs), NormPacket(shapes, fs), rest);
  }

  /** A packet with something behind it, as when a count of dependents follows. */
  lemma PacketBefore(shapes: seq<Shape>, fs: seq<Field>, code: seq<byte>, more: seq<byte>, rest: seq<byte>)
    requires PacketFits(shapes, fs) && code == EncPacket(shapes, fs)
    ensures DecPacket(shapes, code + more + rest) == Some((NormPacket(shapes, fs), |code|))
    ensures Tail(code + more + rest, |code|) == more + rest
  {
    assert code + more + rest == code + (more + rest);
    PacketRoundTrip(shapes, fs, more + rest);
  }

  /** The packet, with `more` behind it, and then `rest`. */
  lemma LastFieldTwice(shapes: seq<Shape>, fs: seq<Field>, packet: seq<byte>, more: seq<byte>, last: seq<byte>,
                       rest: seq<byte>, r: nat)
    requires PacketFits(shapes, fs) && fs != [] && r == |packet| - |more| + |last|
    requires packet == EncPacket(shapes, fs) + more && last == FieldCodes(shapes, fs)[|fs| - 1]
    ensures LastTwice(FieldDecoders(shapes), packet + rest) == Some(r)
  {
    FieldsRead(shapes, fs);
    Regroup(EncPacket(shapes, fs), more, rest);
    LastTwiceReads(FieldDecoders(shapes), FieldCodes(shapes, fs), NormPacket(shapes, fs), more + rest, packet + rest, r);
  }

  lemma Regroup(a: seq<byte>, b: seq<byte>, c: seq<byte>)
    ensures a + b + c == a + (b + c)
  {
  }

  function PacketSize(shapes: seq<Shape>, fs: seq<Field>): nat
    requires PacketFits(shapes, fs)
  {
    if fs == [] then 0
    else
      var n := |fs| - 1;
      PacketSize(shapes[..n], fs[..n]) + FieldSize(shapes[n], fs[n])
  }

  function PacketSlack(shapes: seq<Shape>, fs: seq<Field>): nat
    requires PacketFits(shapes, fs)
  {
    if fs == [] then 0
    else
      var n := |fs| - 1;
      PacketSlack(shapes[..n], fs[..n]) + Slack(shapes[n], fs[n])
  }

  lemma EncPacketLast(shapes: seq<Shape>, fs: seq<Field>)
    requires PacketFits(shapes, fs) && fs != []
    ensures var n := |fs| - 1;
            EncPacket(shapes, fs) == EncPacket(shapes[..n], fs[..n]) + EncField(shapes[n], fs[n])
  {
    var n := |fs| - 1;
    assert FieldCodes(shapes, fs)[..n] == FieldCodes(shapes[..n], fs[..n]);
  }

  lemma {:induction false} PacketSizeIsLength(shapes: seq<Shape>, fs: seq<Field>)
    requires PacketFits(shapes, fs)
    ensures PacketSize(shapes, fs) == |EncPacket(shapes, fs)| + PacketSlack(shapes, fs)
  {
    if fs != [] {
      var n := |fs| - 1;
      PacketSizeIsLength(shapes[..n], fs[..n]);
      EncPacketLast(shapes, fs);
      FieldSizeIsLength(shapes[n], fs[n]);
    }
  }

  lemma {:induction false} NoSlack(shapes: seq<Shape>, fs: seq<Field>)
    requires PacketFits(shapes, fs)
    requires forall i :: 0 <= i < |fs| ==> Slack(shapes[i], fs[i]) == 0
    ensures PacketSlack(shapes, fs) == 0
  {
    if fs != [] {
      NoSlack(shapes[..|fs| - 1], fs[..|fs| - 1]);
    }
  }

  // ---------- re-encoding ----------

  /** No entry that the pack pass writes for the field has an empty string. */
  predicate NothingEmpty(shape: Shape, f: Field) {
    shape.Table? && f.Sec? ==> NoEmptyStrings(shape.kind, f.sec)
  }

  lemma {:induction false} FieldFixed(shape: Shape, f: Field)
    requires FieldFits(shape, f)
    ensures FieldFits(shape, NormField(shape, f))
    ensures NothingEmpty(shape, f) ==> EncField(shape, NormField(shape, f)) == EncField(shape, f)
    ensures NormField(shape, NormField(shape, f)) == NormField(shape, f) ==> NothingEmpty(shape, f)
  {
    if shape.Table? {
      NormSectionFits(shape.kind, f.sec);
      ReencodingFixedIff(shape.kind, f.sec);
      if NormField(shape, NormField(shape, f)) == NormField(shape, f) {
        StableSection(shape.kind, f.sec);
      }
    }
  }

  /** Packing an unpacked packet again gives the same bytes exactly when nothing in it was empty. */
  lemma {:induction false} PacketFixedIff(shapes: seq<Shape>, fs: seq<Field>)
    requires PacketFits(shapes, fs)
    ensures PacketFits(shapes, NormPacket(shapes, fs))
    ensures EncPacket(shapes, NormPacket(shapes, fs)) == EncPacket(shapes, fs) <==>
            forall i :: 0 <= i < |fs| ==> NothingEmpty(shapes[i], fs[i])
  {
    var norm := NormPacket(shapes, fs);
    forall i | 0 <= i < |fs|
      ensures FieldFits(shapes[i], norm[i])
      ensures NothingEmpty(shapes[i], fs[i]) ==> EncField(shapes[i], norm[i]) == EncField(shapes[i], fs[i])
      ensures NormField(shapes[i], norm[i]) == norm[i] ==> NothingEmpty(shapes[i], fs[i])
    {
      FieldFixed(shapes[i], fs[i]);
    }
    if forall i :: 0 <= i < |fs| ==> NothingEmpty(shapes[i], fs[i]) {
      assert FieldCodes(shapes, norm) == FieldCodes(shapes, fs);
    }
    if EncPacket(shapes, norm) == EncPacket(shapes, fs) {
      PacketRoundTrip(shapes, fs, []);
      PacketRoundTrip(shapes, norm, []);
      assert NormPacket(shapes, norm) == norm;
    }
  }

  // ---------- the passes ----------

  /** The entry count that the size pass caches for a field. */
  function CountOf(shape: Shape, f: Field): nat {
    if shape.Table? && f.Sec? then |Counted(shape.kind, f.sec)| else 0
  }

  /** The pack pass can pack the field: its list, if it is one, passes the count assertion. */
  predicate FieldPacks(shape: Shape, f: Field) {
    FieldFits(shape, f) &&
    (shape.Table? && !IsArray(shape.kind) && f.sec.Entries? ==> CountHolds(shape.kind, f.sec.list))
  }

  method SizeField(shape: Shape, f: Field) returns (size: nat, count: nat)
    requires FieldFits(shape, f)
    ensures size == FieldSize(shape, f) && count == CountOf(shape, f)
  {
    count := 0;
    match shape {
      case Number(w) => size := w;
      case Text => size := StrSize(f.s);
      case Pointer(k) => size := if f.address == 0 then LONG_SIZE else LONG_SIZE + INT_SIZE * k;
      case Blob => size := LONG_SIZE + |f.bytes|;
      case Table(kind) =>
        if IsArray(kind) {
          size, count := SizeArray(kind, f.sec);
        } else {
          size, count := SizeList(kind, f.sec);
        }
    }
  }

  /** The size pass over a packet, with its cache of entry counts. */
  method SizePacket(shapes: seq<Shape>, fs: seq<Field>) returns (size: nat, counts: seq<nat>)
    requires PacketFits(shapes, fs)
    ensures size == PacketSize(shapes, fs)
    ensures |counts| == |fs| && forall i :: 0 <= i < |fs| ==> counts[i] == CountOf(shapes[i], fs[i])
  {
    size, counts := 0, [];
    for i := 0 to |fs|
      invariant size == PacketSize(shapes[..i], fs[..i])
      invariant |counts| == i && forall k :: 0 <= k < i ==> counts[k] == CountOf(shapes[k], fs[k])
    {
      assert shapes[..i + 1][..i] == shapes[..i] && fs[..i + 1][..i] == fs[..i];
      var s, c := SizeField(shapes[i], fs[i]);
      size, counts := size + s, counts + [c];
    }
    assert shapes[..|fs|] == shapes && fs[..|fs|] == fs;
  }

  method PackInts(dst: array<byte>, at: nat, ns: seq<nat>) returns (next: nat)
    requires at + INT_SIZE * |ns| <= dst.Length
    modifies dst
    ensures next == at + INT_SIZE * |ns| && dst[..next] == old(dst[..at]) + Concat(IntCodes(ns))
  {
    ghost var start := dst[..at];
    next := at;
    for i := 0 to |ns|
      invariant next == at + INT_SIZE * i && dst[..next] == start + Concat(IntCodes(ns[..i]))
    {
      assert IntCodes(ns[..i + 1])[..i] == IntCodes(ns[..i]) && IntCodes(ns[..i + 1])[i] == LE(ns[i], INT_SIZE);
      next := PutNum(dst, next, ns[i], INT_SIZE);
    }
    assert ns[..|ns|] == ns;
  }

  /** l_packUint3Ptr, l_packDim3Ptr, l_packIntPtr */
  method PackPointer(dst: array<byte>, at: nat, address: nat, target: seq<nat>) returns (next: nat)
    requires address == 0 ==> target == []
    requires at + |EncPointer(address, target)| <= dst.Length
    modifies dst
    ensures next == at + |EncPointer(address, target)|
    ensures dst[..next] == old(dst[..at]) + EncPointer(address, target)
  {
    next := PutNum(dst, at, address, LONG_SIZE);
    assert |target| == 0 ==> IntCodes(target) == [];
    if address != 0 {
      next := PackInts(dst, next, target);
    }
  }

  method PackBlob(dst: array<byte>, at: nat, bytes: seq<byte>) returns (next: nat)
    requires at + |EncBlob(bytes)| <= dst.Length
    modifies dst
    ensures next == at + |EncBlob(bytes)| && dst[..next] == old(dst[..at]) + EncBlob(bytes)
  {
    next := PutNum(dst, at, |bytes|, LONG_SIZE);
    next := PutBytes(dst, next, bytes);
  }

  method PackSection(dst: array<byte>, at: nat, kind: Kind, sec: Section, count: nat) returns (next: nat)
    requires SectionFits(kind, sec) && count == |Counted(kind, sec)|
    requires !IsArray(kind) && sec.Entries? ==> CountHolds(kind, sec.list)
    requires at + |EncSection(kind, sec)| <= dst.Length
    modifies dst
    ensures next == at + |EncSection(kind, sec)| && dst[..next] == old(dst[..at]) + EncSection(kind, sec)
  {
    if IsArray(kind) {
      next := PackArray(dst, at, kind, sec, count);
    } else {
      next := PackList(dst, at, kind, sec, count);
    }
  }

  /** One field through the advancing pointer. */
  method PackField(dst: array<byte>, at: nat, shape: Shape, f: Field, count: nat) returns (next: nat)
    requires FieldPacks(shape, f) && count == CountOf(shape, f)
    requires at + |EncField(shape, f)| <= dst.Length
    modifies dst
    ensures next == at + |EncField(shape, f)| && dst[..next] == old(dst[..at]) + EncField(shape, f)
  {
    match shape {
      case Number(w) => next := PutNum(dst, at, f.n, w);
      case Text => next := PackStr(dst, at, f.s);
      case Pointer(k) => next := PackPointer(dst, at, f.address, f.target);
      case Blob => next := PackBlob(dst, at, f.bytes);
      case Table(kind) => next := PackSection(dst, at, kind, f.sec, count);
    }
  }

  lemma PacketPrefixShorter(shapes: seq<Shape>, fs: seq<Field>, i: nat)
    requires PacketFits(shapes, fs) && i <= |fs|
    ensures |EncPacket(shapes[..i], fs[..i])| <= |EncPacket(shapes, fs)|
  {
    assert FieldCodes(shapes[..i], fs[..i]) == FieldCodes(shapes, fs)[..i];
    ConcatPrefixShorter(FieldCodes(shapes, fs), i);
  }

  /** The pack pass: field after field through the advancing pointer. */
  method PackPacket(dst: array<byte>, shapes: seq<Shape>, fs: seq<Field>, counts: seq<nat>) returns (next: nat)
    requires PacketFits(shapes, fs) && |counts| == |fs|
    requires forall i :: 0 <= i < |fs| ==> FieldPacks(shapes[i], fs[i]) && counts[i] == CountOf(shapes[i], fs[i])
    requires |EncPacket(shapes, fs)| <= dst.Length
    modifies dst
    ensures next == |EncPacket(shapes, fs)| && dst[..next] == EncPacket(shapes, fs)
  {
    next := 0;
    for i := 0 to |fs|
      invariant next <= dst.Length && dst[..next] == EncPacket(shapes[..i], fs[..i])
    {
      assert shapes[..i + 1][..i] == shapes[..i] && fs[..i + 1][..i] == fs[..i];
      EncPacketLast(shapes[..i + 1], fs[..i + 1]);
      PacketPrefixShorter(shapes, fs, i + 1);
      next := PackField(dst, next, shapes[i], fs[i], counts[i]);
    }
    assert shapes[..|fs|] == shapes && fs[..|fs|] == fs;
  }

  /** A buffer of exactly the computed size, then the pack pass, for packets without sections. */
  method PackRecord(shapes: seq<Shape>, fs: seq<Field>) returns (packet: array<byte>)
    requires PacketFits(shapes, fs) && forall i :: 0 <= i < |fs| ==> !shapes[i].Table?
    ensures fresh(packet) && packet[..] == EncPacket(shapes, fs)
  {
    var size, counts := SizePacket(shapes, fs);
    PacketSizeIsLength(shapes, fs);
    NoSlack(shapes, fs);
    packet := new byte[size];
    var next := PackPacket(packet, shapes, fs, counts);
    assert packet[..next] == packet[..];
  }

  /** l_unpackUint3Ptr, l_unpackDim3Ptr, l_unpackIntPtr */
  method UnpackPointer(src: seq<byte>, pos: nat, k: nat) returns (f: Field, next: nat)
    requires pos <= |src| && DecPointer(Ints(k), src[pos..]).Some?
    ensures pos <= next <= |src| && DecPointer(Ints(k), src[pos..]) == Some((f, next - pos))
  {
    var address;
    address, next := GetNum(src, pos, LONG_SIZE);
    if address == 0 {
      return Ref(0, []), next;
    }
    assert Tail(src[pos..], LONG_SIZE) == src[next..];
    var target;
    target, next := UnpackInts(src, next, k);
    f := Ref(address, target);
  }

  /** One turn of reading ints: int i behind the i ints already read. */
  method UnpackNextInt(src: seq<byte>, pos: nat, at: nat, ghost decs: seq<Decoder<nat>>, ghost i: nat, ghost ns: seq<nat>)
    returns (n: nat, next: nat)
    requires pos <= at <= |src| && i < |decs| && decs[i] == Codec.Num(INT_SIZE)
    requires Each(decs, src[pos..]).Some? && Each(decs[..i], src[pos..]) == Some((ns, at - pos))
    ensures at <= next <= |src| && Each(decs[..i + 1], src[pos..]) == Some((ns + [n], next - pos))
  {
    EachNext(decs, src[pos..], i);
    assert Tail(src[pos..], at - pos) == src[at..];
    n, next := GetNum(src, at, INT_SIZE);
  }

  method UnpackInts(src: seq<byte>, pos: nat, k: nat) returns (ns: seq<nat>, next: nat)
    requires pos <= |src| && Each(IntDecoders(k), src[pos..]).Some?
    ensures pos <= next <= |src| && Each(IntDecoders(k), src[pos..]) == Some((ns, next - pos))
  {
    ghost var decs := IntDecoders(k);
    ns, next := [], pos;
    for i := 0 to k
      invariant pos <= next <= |src|
      invariant Each(decs[..i], src[pos..]) == Some((ns, next - pos))
    {
      var n;
      n, next := UnpackNextInt(src, pos, next, decs, i, ns);
      ns := ns + [n];
    }
    Whole(decs);
  }

  method UnpackBlob(src: seq<byte>, pos: nat) returns (f: Field, next: nat)
    requires pos <= |src| && DecBlob(src[pos..]).Some?
    ensures pos <= next <= |src| && DecBlob(src[pos..]) == Some((f, next - pos))
  {
    var n, at := GetNum(src, pos, LONG_SIZE);
    next := at + n;
    assert src[pos..][LONG_SIZE..LONG_SIZE + n] == src[at..next];
    f := Data(src[at..next]);
  }

  method UnpackField(src: seq<byte>, pos: nat, shape: Shape) returns (f: Field, next: nat)
    requires pos <= |src| && DecField(shape)(src[pos..]).Some?
    ensures pos <= next <= |src| && DecField(shape)(src[pos..]) == Some((f, next - pos))
  {
    match shape {
      case Number(w) =>
        MapParts(Codec.Num(w), NumField, src[pos..]);
        var n;
        n, next := GetNum(src, pos, w);
        f := Num(n);
      case Text =>
        MapParts(DecStr, StrField, src[pos..]);
        var s;
        s, next := UnpackStr(src, pos);
        f := Str(s);
      case Pointer(k) => f, next := UnpackPointer(src, pos, k);
      case Blob => f, next := UnpackBlob(src, pos);
      case Table(kind) =>
        MapParts(SectionDecoder(kind), SecField, src[pos..]);
        var sec;
        sec, next := UnpackSection(src, pos, kind);
        f := Sec(sec);
    }
  }

  /** One turn of the unpack pass: field i behind the i fields already read. */
  method UnpackNext(src: seq<byte>, at: nat, shape: Shape, ghost decs: seq<Decoder<Field>>, ghost i: nat,
                    ghost fs: seq<Field>)
    returns (f: Field, next: nat)
    requires at <= |src| && i < |decs| && decs[i] == DecField(shape)
    requires Each(decs, src).Some? && Each(decs[..i], src) == Some((fs, at))
    ensures at <= next <= |src| && Each(decs[..i + 1], src) == Some((fs + [f], next))
  {
    ghost var tail := src[at..];
    assert Tail(src, at) == tail;
    NextIs(decs, src, i, fs, at, DecField(shape), tail);
    f, next := UnpackField(src, at, shape);
    TurnDone(decs, src, i, fs, at, DecField(shape), tail, f, next - at, next);
  }

  lemma Whole<T>(s: seq<T>)
    ensures s[..|s|] == s
  {
  }

  /** The unpack pass. `offset` is left at the bytes of the last field. */
  method UnpackPacket(src: seq<byte>, shapes: seq<Shape>) returns (fs: seq<Field>, next: nat, offset: nat)
    requires DecPacket(shapes, src).Some?
    ensures next <= |src| && DecPacket(shapes, src) == Some((fs, next))
    ensures shapes != [] ==> LastTwice(FieldDecoders(shapes), src) == Some(next + offset)
  {
    ghost var front, before;
    ghost var decs := FieldDecoders(shapes);
    fs, next, offset, front, before := UnpackFields(src, shapes, decs);
    if shapes != [] {
      LastTwiceIs(decs, src, front, before, fs, next, next + offset);
    }
  }

  /** All fields read, and all but the last, which used `offset` bytes. */
  method UnpackFields(src: seq<byte>, shapes: seq<Shape>, ghost decs: seq<Decoder<Field>>)
    returns (fs: seq<Field>, next: nat, offset: nat, ghost front: seq<Field>, ghost before: nat)
    requires |decs| == |shapes| && forall i :: 0 <= i < |shapes| ==> decs[i] == DecField(shapes[i])
    requires Each(decs, src).Some?
    ensures next <= |src| && Each(decs, src) == Some((fs, next))
    ensures shapes != [] ==> before + offset == next && Each(decs[..|decs| - 1], src) == Some((front, before))
  {
    front, before := [], 0;
    fs, next, offset := [], 0, 0;
    for i := 0 to |shapes|
      invariant next <= |src| && Each(decs[..i], src) == Some((fs, next))
      invariant i > 0 ==> before + offset == next && Each(decs[..i - 1], src) == Some((front, before))
    {
      front, before := fs, next;
      var f, end := UnpackNext(src, next, shapes[i], decs, i, fs);
      fs, next, offset := fs + [f], end, end - next;
    }
    Whole(decs);
  }
}
