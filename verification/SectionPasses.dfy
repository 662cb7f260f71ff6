/** The size, pack and unpack passes over one section, as the loops that advance through its entries and
    through the packet. */
module SectionPasses {
  import opened Wrappers
  import opened Wire
  import opened Codec
  import opened Sections

  /** One more entry's size. */
  lemma SizeFollows(kind: Kind, es: seq<Entry>, i: nat)
    requires i < |es|
    ensures EntriesSize(kind, es[..i + 1]) == EntriesSize(kind, es[..i]) + EntrySize(kind, es[i])
  {
    assert es[..i + 1][..i] == es[..i];
  }

  method SizeEntry(kind: Kind, e: Entry) returns (size: nat)
    ensures size == EntrySize(kind, e)
  {
    size := StrSize(e.name);
    if kind == Elf {
      size := size + e.size + INT_SIZE;
    } else if kind != Symbol {
      size := size + StrSize(e.body);
      if kind == Debug {
        size := size + INT_SIZE;
      }
    }
  }

  /** The loop over an array relies on the terminator and on nothing else. */
  method SizeArrayEntries(kind: Kind, list: seq<Entry>) returns (size: nat, count: nat)
    requires exists i :: 0 <= i < |list| && Stops(kind, list[i])
    ensures count == StopIndex(kind, list, 0) && size == EntriesSize(kind, list[..count])
  {
    ghost var stop := StopIndex(kind, list, 0);
    size, count := 0, 0;
    while !Stops(kind, list[count])
      invariant count <= stop < |list|
      invariant size == EntriesSize(kind, list[..count])
      decreases stop - count
    {
      SizeFollows(kind, list, count);
      var s := SizeEntry(kind, list[count]);
      size, count := size + s, count + 1;
    }
  }

  /** l_getSize__cudaFatPtxEntry, l_getSize__cudaFatCubinEntry, l_getSize__cudaFatSymbolEntry */
  method SizeArray(kind: Kind, sec: Section) returns (size: nat, count: nat)
    requires IsArray(kind) && SectionFits(kind, sec)
    ensures size == SectionSize(kind, sec) && count == |Counted(kind, sec)|
  {
    size, count := 0, 0;
    if sec.Entries? {
      size, count := SizeArrayEntries(kind, sec.list);
    }
    size := size + INT_SIZE;
    if kind == Symbol && count == 0 {
      size := size + INT_SIZE;
    }
  }

  /** l_getSize__cudaFatDebugEntry, l_getSize__cudaFatElfEntry: the list may also end with a NULL `next`. */
  method SizeList(kind: Kind, sec: Section) returns (size: nat, count: nat)
    requires !IsArray(kind) && SectionFits(kind, sec)
    ensures size == SectionSize(kind, sec) && count == |Counted(kind, sec)|
  {
    size, count := INT_SIZE, 0;
    if sec.Entries? {
      ghost var stop := StopIndex(kind, sec.list, 0);
      while count < |sec.list| && !Stops(kind, sec.list[count])
        invariant count <= stop
        invariant size == INT_SIZE + EntriesSize(kind, sec.list[..count])
      {
        SizeFollows(kind, sec.list, count);
        var s := SizeEntry(kind, sec.list[count]);
        size, count := size + s, count + 1;
      }
    }
  }

  /** The size of an elf, then as many bytes of it. */
  method PackCode(dst: array<byte>, at: nat, e: Entry) returns (next: nat)
    requires e.body.Chars? && |e.body.s| == e.size && at + INT_SIZE + e.size <= dst.Length
    modifies dst
    ensures next == at + INT_SIZE + e.size && dst[..next] == old(dst[..at]) + EncStr(e.body)
  {
    next := PutNum(dst, at, e.size, INT_SIZE);
    if e.size > 0 {
      next := PutBytes(dst, next, e.body.s);
    }
  }

  /** Two strings, one behind the other. */
  method PackStrs(dst: array<byte>, at: nat, a: CStr, b: CStr) returns (next: nat)
    requires at + |EncStr(a)| + |EncStr(b)| <= dst.Length
    modifies dst
    ensures next == at + |EncStr(a)| + |EncStr(b)| && dst[..next] == old(dst[..at]) + (EncStr(a) + EncStr(b))
  {
    next := PackStr(dst, at, a);
    next := PackStr(dst, next, b);
  }

  method PackElfEntry(dst: array<byte>, at: nat, e: Entry) returns (next: nat)
    requires e.body.Chars? && |e.body.s| == e.size && at + |EncEntry(Elf, e)| <= dst.Length
    modifies dst
    ensures next == at + |EncEntry(Elf, e)| && dst[..next] == old(dst[..at]) + EncEntry(Elf, e)
  {
    next := PackStr(dst, at, e.name);
    next := PackCode(dst, next, e);
  }

  method PackDebugEntry(dst: array<byte>, at: nat, e: Entry) returns (next: nat)
    requires at + |EncEntry(Debug, e)| <= dst.Length
    modifies dst
    ensures next == at + |EncEntry(Debug, e)| && dst[..next] == old(dst[..at]) + EncEntry(Debug, e)
  {
    next := PackStrs(dst, at, e.name, e.body);
    next := PutNum(dst, next, e.size, INT_SIZE);
  }

  /** Writes one entry, whose bytes are `code`, through the advancing pointer. */
  method PackEntry(dst: array<byte>, at: nat, kind: Kind, e: Entry, ghost code: seq<byte>) returns (next: nat)
    requires EntryFits(kind, e) && !PackStops(kind, e) && code == EncEntry(kind, e)
    requires at + |code| <= dst.Length
    modifies dst
    ensures next == at + |code| && dst[..next] == old(dst[..at]) + code
  {
    match kind {
      case Symbol => next := PackStr(dst, at, e.name);
      case Elf => next := PackElfEntry(dst, at, e);
      case Debug => next := PackDebugEntry(dst, at, e);
      case _ => next := PackStrs(dst, at, e.name, e.body);
    }
  }

  /** One turn of a packing loop: code i behind the i codes already written after `start`. */
  method PackNext(dst: array<byte>, at: nat, kind: Kind, e: Entry, ghost start: seq<byte>,
                  ghost codes: seq<seq<byte>>, ghost i: nat)
    returns (next: nat)
    requires EntryFits(kind, e) && !PackStops(kind, e) && i < |codes| && codes[i] == EncEntry(kind, e)
    requires at <= dst.Length && dst[..at] == start + Concat(codes[..i])
    requires |start| + |Concat(codes)| <= dst.Length
    modifies dst
    ensures next <= dst.Length && dst[..next] == start + Concat(codes[..i + 1])
  {
    ConcatNext(codes, i);
    NextFits(start, Concat(codes[..i]), codes[i], Concat(codes[..i + 1]), |Concat(codes)|, dst[..at], dst.Length);
    next := PackEntry(dst, at, kind, e, codes[i]);
  }

  lemma NextFits(start: seq<byte>, done: seq<byte>, code: seq<byte>, more: seq<byte>, all: nat, written: seq<byte>,
                 size: nat)
    requires more == done + code && |more| <= all && |start| + all <= size && written == start + done
    ensures |written| + |code| <= size && written + code == start + more
  {
  }

  /** l_packPtx, l_packCubin, l_packSymbol: n entries, counted by the size pass. */
  method PackArray(dst: array<byte>, at: nat, kind: Kind, sec: Section, n: nat) returns (next: nat)
    requires IsArray(kind) && SectionFits(kind, sec) && n == |Counted(kind, sec)|
    requires at + |EncSection(kind, sec)| <= dst.Length
    modifies dst
    ensures next == at + |EncSection(kind, sec)| && dst[..next] == old(dst[..at]) + EncSection(kind, sec)
  {
    CountedFit(kind, sec);
    next := PutNum(dst, at, n, INT_SIZE);
    if sec.Entries? {
      next := PackArrayEntries(dst, next, kind, sec.list, n);
    }
  }

  method PackArrayEntries(dst: array<byte>, at: nat, kind: Kind, list: seq<Entry>, n: nat) returns (next: nat)
    requires n <= |list| && Storable(kind, list[..n])
    requires at + |EncEntries(kind, list[..n])| <= dst.Length
    modifies dst
    ensures next == at + |EncEntries(kind, list[..n])|
    ensures dst[..next] == old(dst[..at]) + EncEntries(kind, list[..n])
  {
    ghost var codes, start := Codes(kind, list[..n]), dst[..at];
    next := at;
    assert codes[..0] == [] && start + [] == start;
    for i := 0 to n
      invariant next <= dst.Length && dst[..next] == start + Concat(codes[..i])
    {
      StorableAt(kind, list, n, i);
      next := PackNext(dst, next, kind, list[i], start, codes, i);
    }
    assert codes[..n] == codes;
  }

  lemma StorableAt(kind: Kind, list: seq<Entry>, n: nat, i: nat)
    requires i < n <= |list| && Storable(kind, list[..n])
    ensures EntryFits(kind, list[i]) && !PackStops(kind, list[i])
    ensures Codes(kind, list[..n])[i] == EncEntry(kind, list[i])
  {
    assert list[..n][i] == list[i];
  }

  /** l_packDebug, l_packElf: the entries up to the stop, whose number is then checked against n. */
  method PackList(dst: array<byte>, at: nat, kind: Kind, sec: Section, n: nat) returns (next: nat)
    requires !IsArray(kind) && SectionFits(kind, sec) && n == |Counted(kind, sec)|
    requires sec.Entries? ==> CountHolds(kind, sec.list)
    requires at + |EncSection(kind, sec)| <= dst.Length
    modifies dst
    ensures next == at + |EncSection(kind, sec)| && dst[..next] == old(dst[..at]) + EncSection(kind, sec)
  {
    ghost var codes, start, code := Codes(kind, Counted(kind, sec)), dst[..at], EncSection(kind, sec);
    ListReady(kind, sec, n, codes, code);
    next := PutNum(dst, at, n, INT_SIZE);
    if n == 0 || sec.Absent? {
      return;
    }
    Joined(start, LE(n, INT_SIZE), Concat(codes), code);
    next := PackListEntries(dst, next, kind, sec.list, n, codes);
  }

  lemma Joined(start: seq<byte>, head: seq<byte>, body: seq<byte>, code: seq<byte>)
    requires code == head + body
    ensures start + head + body == start + code
  {
  }

  lemma ListReady(kind: Kind, sec: Section, n: nat, codes: seq<seq<byte>>, code: seq<byte>)
    requires SectionFits(kind, sec) && n == |Counted(kind, sec)|
    requires codes == Codes(kind, Counted(kind, sec)) && code == EncSection(kind, sec)
    requires sec.Entries? ==> CountHolds(kind, sec.list)
    ensures code == LE(n, INT_SIZE) + Concat(codes) && (n == 0 ==> code == LE(n, INT_SIZE))
    ensures n > 0 ==> sec.Entries? && StopsBehind(kind, sec.list, n, codes)
  {
    if n > 0 {
      CountedFit(kind, sec);
      PackStopsAtCount(kind, sec.list);
      ListCodes(kind, sec.list, n, codes);
    }
  }

  /** The loop over a list goes on in front of entry n and stops there; these are the codes it writes. */
  ghost predicate StopsBehind(kind: Kind, list: seq<Entry>, n: nat, codes: seq<seq<byte>>) {
    && n == |codes| <= |list| && (n < |list| ==> PackStops(kind, list[n]))
    && forall i :: 0 <= i < n ==>
         EntryFits(kind, list[i]) && !PackStops(kind, list[i]) && codes[i] == EncEntry(kind, list[i])
  }

  lemma ListCodes(kind: Kind, list: seq<Entry>, n: nat, codes: seq<seq<byte>>)
    requires n <= |list| && Storable(kind, list[..n]) && codes == Codes(kind, list[..n])
    requires n < |list| ==> PackStops(kind, list[n])
    ensures StopsBehind(kind, list, n, codes)
  {
    forall i | 0 <= i < n
      ensures EntryFits(kind, list[i]) && !PackStops(kind, list[i]) && codes[i] == EncEntry(kind, list[i])
    {
      assert list[..n][i] == list[i];
    }
  }

  method PackListEntries(dst: array<byte>, at: nat, kind: Kind, list: seq<Entry>, n: nat, ghost codes: seq<seq<byte>>)
    returns (next: nat)
    requires StopsBehind(kind, list, n, codes)
    requires at + |Concat(codes)| <= dst.Length
    modifies dst
    ensures next == at + |Concat(codes)| && dst[..next] == old(dst[..at]) + Concat(codes)
  {
    ghost var start := dst[..at];
    next := at;
    var i := 0;
    assert codes[..0] == [] && start + [] == start;
    while i < |list| && !PackStops(kind, list[i])
      invariant i <= n
      invariant next <= dst.Length && dst[..next] == start + Concat(codes[..i])
    {
      next := PackNext(dst, next, kind, list[i], start, codes, i);
      i := i + 1;
    }
    assert i == n;  // the count assertion of the pack pass
    assert codes[..n] == codes;
  }

  // ---------- unpacking ----------

  method UnpackSymbolEntry(src: seq<byte>, pos: nat) returns (e: Entry, next: nat)
    requires pos <= |src| && DecEntry(Symbol)(src[pos..]).Some?
    ensures pos <= next <= |src| && DecEntry(Symbol)(src[pos..]) == Some((e, next - pos))
  {
    MapParts(DecStr, NameOnly, src[pos..]);
    var name;
    name, next := UnpackStr(src, pos);
    e := Entry(name, Null, 0);
  }

  /** Two strings, one behind the other. */
  method UnpackStrs(src: seq<byte>, pos: nat) returns (a: CStr, b: CStr, next: nat)
    requires pos <= |src| && Both(DecStr, DecStr)(src[pos..]).Some?
    ensures pos <= next <= |src| && Both(DecStr, DecStr)(src[pos..]) == Some(((a, b), next - pos))
  {
    BothParts(DecStr, DecStr, src[pos..]);
    a, next := UnpackStr(src, pos);
    assert Tail(src[pos..], next - pos) == src[next..];
    b, next := UnpackStr(src, next);
  }

  method UnpackDebugEntry(src: seq<byte>, pos: nat) returns (e: Entry, next: nat)
    requires pos <= |src| && DecEntry(Debug)(src[pos..]).Some?
    ensures pos <= next <= |src| && DecEntry(Debug)(src[pos..]) == Some((e, next - pos))
  {
    ghost var pair := Both(DecStr, DecStr);
    MapParts(Both(pair, Num(INT_SIZE)), NameBodySize, src[pos..]);
    BothParts(pair, Num(INT_SIZE), src[pos..]);
    var name, body, size;
    name, body, next := UnpackStrs(src, pos);
    assert Tail(src[pos..], next - pos) == src[next..];
    size, next := GetNum(src, next, INT_SIZE);
    e := Entry(name, body, size);
  }

  /** An entry of a ptx or cubin array or of an elf list. */
  method UnpackPairEntry(src: seq<byte>, pos: nat, kind: Kind) returns (e: Entry, next: nat)
    requires kind != Symbol && kind != Debug
    requires pos <= |src| && DecEntry(kind)(src[pos..]).Some?
    ensures pos <= next <= |src| && DecEntry(kind)(src[pos..]) == Some((e, next - pos))
  {
    MapParts(Both(DecStr, DecStr), if kind == Elf then NameCode else NameBody, src[pos..]);
    var name, body;
    name, body, next := UnpackStrs(src, pos);
    e := Entry(name, body, if kind == Elf then StrLen(body) else 0);
  }

  /** Reads one entry through the advancing pointer. */
  method UnpackEntry(src: seq<byte>, pos: nat, kind: Kind) returns (e: Entry, next: nat)
    requires pos <= |src| && DecEntry(kind)(src[pos..]).Some?
    ensures pos <= next <= |src| && DecEntry(kind)(src[pos..]) == Some((e, next - pos))
  {
    match kind {
      case Symbol => e, next := UnpackSymbolEntry(src, pos);
      case Debug => e, next := UnpackDebugEntry(src, pos);
      case _ => e, next := UnpackPairEntry(src, pos, kind);
    }
  }

  lemma TailIs(src: seq<byte>, pos: nat, b: seq<byte>, used: nat, at: nat)
    requires pos <= at <= |src| && b == src[pos..] && at == pos + used
    ensures Tail(b, used) == src[at..]
  {
  }

  /** One turn of an unpacking loop: entry i behind the i entries already read. */
  method UnpackNext(src: seq<byte>, at: nat, kind: Kind, ghost b: seq<byte>, ghost used: nat,
                    ghost decs: seq<Decoder<Entry>>, ghost i: nat, ghost es: seq<Entry>)
    returns (e: Entry, next: nat, ghost more: nat)
    requires at <= |src| && Tail(b, used) == src[at..] && i < |decs| && decs[i] == DecEntry(kind)
    requires Each(decs, b).Some? && Each(decs[..i], b) == Some((es, used))
    ensures at <= next <= |src| && next - at == more - used
    ensures Each(decs[..i + 1], b) == Some((es + [e], more))
  {
    NextIs(decs, b, i, es, used, DecEntry(kind), src[at..]);
    e, next := UnpackEntry(src, at, kind);
    more := used + (next - at);
    TurnDone(decs, b, i, es, used, DecEntry(kind), src[at..], e, next - at, more);
  }

  /** The entries an unpack pass reads after their count. */
  method UnpackEntries(src: seq<byte>, pos: nat, kind: Kind, n: nat) returns (es: seq<Entry>, next: nat)
    requires pos <= |src| && Each(Decoders(kind, n), src[pos..]).Some?
    ensures pos <= next <= |src| && Each(Decoders(kind, n), src[pos..]) == Some((es, next - pos))
  {
    ghost var decs, b, used := Decoders(kind, n), src[pos..], 0;
    es, next := [], pos;
    for i := 0 to n
      invariant pos <= next <= |src| && next == pos + used
      invariant Each(decs[..i], b) == Some((es, used))
    {
      var e;
      TailIs(src, pos, b, used, next);
      e, next, used := UnpackNext(src, next, kind, b, used, decs, i, es);
      es := es + [e];
    }
    assert decs[..n] == decs;
  }

  /** l_unpackPtx, l_unpackCubin, l_unpackDebug, l_unpackElf, l_unpackSymbol. */
  method UnpackSection(src: seq<byte>, pos: nat, kind: Kind) returns (sec: Section, next: nat)
    requires pos <= |src| && DecSection(kind, src[pos..]).Some?
    ensures pos <= next <= |src| && DecSection(kind, src[pos..]) == Some((sec, next - pos))
    ensures DecNum(src[pos..], INT_SIZE).Some?
    ensures var n := DecNum(src[pos..], INT_SIZE).value;
            && (sec == Absent <==> n == 0 && (kind == Debug || kind == Elf || kind == Symbol))
            && (sec.Entries? ==> |sec.list| == n + 1 && sec.list[n] == Entry(Null, Null, 0))
  {
    var n, es;
    n, next := GetNum(src, pos, INT_SIZE);
    if n == 0 && kind != Ptx && kind != Cubin {
      return Absent, next;
    }
    assert Tail(src[pos..], INT_SIZE) == src[next..];
    es, next := UnpackEntries(src, next, kind, n);
    sec := Entries(es + [TERMINATOR]);
  }
}
