/** The sections of a fat binary (ptx, cubin, debug, elf, symbols): what the size, pack and unpack passes
    compute for one of them, and how the three fit together. */
module Sections {
  import opened Wrappers
  import opened Wire
  import opened Codec

  datatype Kind = Ptx | Cubin | Debug | Elf | Symbol

  /** An entry of any section. Ptx and cubin use name and body; debug adds a size; the body of an elf
      entry is `size` bytes of code, not a string; a symbol is only a name. */
  datatype Entry = Entry(name: CStr, body: CStr, size: nat)

  /** A field of the fat binary: a NULL pointer, or the array or list it points to. Arrays (ptx, cubin,
      symbols) run up to and beyond their terminator; lists (debug, elf) end with a NULL `next`. */
  datatype Section = Absent | Entries(list: seq<Entry>)

  const TERMINATOR := Entry(Null, Null, 0)

  predicate IsArray(kind: Kind) {
    kind.Ptx? || kind.Cubin? || kind.Symbol?
  }

  // ---------- entries ----------

  /** Where the pack pass of a list stops: it does not look at the size of an elf. */
  predicate PackStops(kind: Kind, e: Entry) {
    e.name.Null? || (kind != Symbol && e.body.Null?)
  }

  /** Where the size pass stops. */
  predicate Stops(kind: Kind, e: Entry) {
    PackStops(kind, e) || (kind == Elf && e.size == 0)
  }

  predicate EntryFits(kind: Kind, e: Entry) {
    && StrFits(e.name)
    && StrFits(e.body)
    && Fits(e.size, INT_SIZE)
    && (kind == Elf && e.body.Chars? ==> |e.body.s| == e.size)
  }

  function EntrySize(kind: Kind, e: Entry): nat {
    match kind
    case Debug => StrSize(e.name) + StrSize(e.body) + INT_SIZE
    case Elf => StrSize(e.name) + e.size + INT_SIZE
    case Symbol => StrSize(e.name)
    case _ => StrSize(e.name) + StrSize(e.body)
  }

  /** The bytes of one entry. An elf is its name, its size, and as many bytes. */
  function EncEntry(kind: Kind, e: Entry): (r: seq<byte>) {
    match kind
    case Debug => EncStr(e.name) + EncStr(e.body) + LE(e.size, INT_SIZE)
    case Symbol => EncStr(e.name)
    case _ => EncStr(e.name) + EncStr(e.body)
  }

  /** An entry as it comes back: empty strings are NULL, fields its kind does not have are blank. */
  function NormEntry(kind: Kind, e: Entry): Entry {
    Entry(NormStr(e.name),
          if kind == Symbol then Null else NormStr(e.body),
          if kind == Debug || kind == Elf then e.size else 0)
  }

  function NameOnly(name: CStr): Entry { Entry(name, Null, 0) }
  function NameBody(p: (CStr, CStr)): Entry { Entry(p.0, p.1, 0) }
  function NameCode(p: (CStr, CStr)): Entry { Entry(p.0, p.1, StrLen(p.1)) }
  function NameBodySize(t: ((CStr, CStr), nat)): Entry { Entry(t.0.0, t.0.1, t.1) }

  function DecEntry(kind: Kind): Decoder<Entry> {
    match kind
    case Debug => Map(Both(Both(DecStr, DecStr), Num(INT_SIZE)), NameBodySize)
    case Elf => Map(Both(DecStr, DecStr), NameCode)
    case Symbol => Map(DecStr, NameOnly)
    case _ => Map(Both(DecStr, DecStr), NameBody)
  }

  lemma EntryReads(kind: Kind, e: Entry)
    requires EntryFits(kind, e) && !Stops(kind, e)
    ensures Reads(DecEntry(kind), EncEntry(kind, e), NormEntry(kind, e))
    ensures |EncEntry(kind, e)| == EntrySize(kind, e)
  {
    var name, body := EncStr(e.name), EncStr(e.body);
    StrReads(e.name);
    StrReads(e.body);
    BothReads(DecStr, DecStr, name, NormStr(e.name), body, NormStr(e.body));
    var pair := (NormStr(e.name), NormStr(e.body));
    match kind {
      case Debug =>
        NumReads(e.size, INT_SIZE);
        BothReads(Both(DecStr, DecStr), Num(INT_SIZE), name + body, pair, LE(e.size, INT_SIZE), e.size);
        MapReads(Both(Both(DecStr, DecStr), Num(INT_SIZE)), NameBodySize, EncEntry(kind, e), (pair, e.size));
      case Elf => MapReads(Both(DecStr, DecStr), NameCode, name + body, pair);
      case Symbol => MapReads(DecStr, NameOnly, name, NormStr(e.name));
      case _ => MapReads(Both(DecStr, DecStr), NameBody, name + body, pair);
    }
  }

  // ---------- runs of entries ----------

  predicate Storable(kind: Kind, es: seq<Entry>) {
    forall i :: 0 <= i < |es| ==> EntryFits(kind, es[i]) && !Stops(kind, es[i])
  }

  function Codes(kind: Kind, es: seq<Entry>): (r: seq<seq<byte>>)
    ensures |r| == |es|
  {
    seq(|es|, i requires 0 <= i < |es| => EncEntry(kind, es[i]))
  }

  function EncEntries(kind: Kind, es: seq<Entry>): seq<byte> {
    Concat(Codes(kind, es))
  }

  function NormEntries(kind: Kind, es: seq<Entry>): (r: seq<Entry>)
    ensures |r| == |es|
  {
    seq(|es|, i requires 0 <= i < |es| => NormEntry(kind, es[i]))
  }

  function Decoders(kind: Kind, n: nat): (r: seq<Decoder<Entry>>)
    ensures |r| == n
  {
    seq(n, _ => DecEntry(kind))
  }

  function EntriesSize(kind: Kind, es: seq<Entry>): nat {
    if es == [] then 0 else EntriesSize(kind, es[..|es| - 1]) + EntrySize(kind, es[|es| - 1])
  }

  lemma EncEntriesAppend(kind: Kind, es: seq<Entry>, e: Entry)
    ensures EncEntries(kind, es + [e]) == EncEntries(kind, es) + EncEntry(kind, e)
    ensures EntriesSize(kind, es + [e]) == EntriesSize(kind, es) + EntrySize(kind, e)
  {
    assert Codes(kind, es + [e])[..|es|] == Codes(kind, es);
    assert (es + [e])[..|es|] == es;
  }

  lemma {:induction false} EntriesSizeIsLength(kind: Kind, es: seq<Entry>)
    requires Storable(kind, es)
    ensures EntriesSize(kind, es) == |EncEntries(kind, es)|
  {
    if es != [] {
      EntriesSizeIsLength(kind, es[..|es| - 1]);
      LastEntrySize(kind, es, es[..|es| - 1], es[|es| - 1]);
    }
  }

  lemma LastEntrySize(kind: Kind, es: seq<Entry>, front: seq<Entry>, last: Entry)
    requires es == front + [last] && EntryFits(kind, last) && !Stops(kind, last)
    requires EntriesSize(kind, front) == |EncEntries(kind, front)|
    ensures EntriesSize(kind, es) == |EncEntries(kind, es)|
  {
    EncEntriesAppend(kind, front, last);
    EntryReads(kind, last);
  }

  // ---------- sections ----------

  /** The first index from `from` on where the size pass stops, or the end. */
  function StopIndex(kind: Kind, list: seq<Entry>, from: nat): (i: nat)
    requires from <= |list|
    ensures from <= i <= |list|
    ensures i < |list| ==> Stops(kind, list[i])
    ensures forall j :: from <= j < i ==> !Stops(kind, list[j])
    decreases |list| - from
  {
    if from == |list| || Stops(kind, list[from]) then from else StopIndex(kind, list, from + 1)
  }

  /** The entries the size pass counts. */
  function Counted(kind: Kind, sec: Section): (es: seq<Entry>)
    ensures forall i :: 0 <= i < |es| ==> !Stops(kind, es[i])
  {
    if sec.Absent? then [] else sec.list[..StopIndex(kind, sec.list, 0)]
  }

  /** What the C code needs of a section: fields within their widths, and a terminator for an array. */
  predicate SectionFits(kind: Kind, sec: Section) {
    sec.Entries? ==>
      && (forall i :: 0 <= i < |sec.list| ==> EntryFits(kind, sec.list[i]))
      && Fits(|Counted(kind, sec)|, INT_SIZE)
      && (IsArray(kind) ==> exists i :: 0 <= i < |sec.list| && Stops(kind, sec.list[i]))
  }

  /** The size pass: an empty symbol table is sized as if it held one empty name. */
  function SectionSize(kind: Kind, sec: Section): nat {
    INT_SIZE + EntriesSize(kind, Counted(kind, sec)) + SizeSlack(kind, sec)
  }

  function SizeSlack(kind: Kind, sec: Section): nat {
    if kind == Symbol && Counted(kind, sec) == [] then INT_SIZE else 0
  }

  /** The pack pass. */
  function EncSection(kind: Kind, sec: Section): seq<byte> {
    LE(|Counted(kind, sec)|, INT_SIZE) + EncEntries(kind, Counted(kind, sec))
  }

  /** Unpacked entries with the terminator the unpack pass puts behind them. */
  function Rebuilt(kind: Kind, es: seq<Entry>): Section {
    if es == [] && kind != Ptx && kind != Cubin then Absent else Entries(es + [TERMINATOR])
  }

  function NormSection(kind: Kind, sec: Section): Section {
    Rebuilt(kind, NormEntries(kind, Counted(kind, sec)))
  }

  /** The unpack pass. */
  function DecSection(kind: Kind, b: seq<byte>): Option<(Section, nat)> {
    var n :- DecNum(b, INT_SIZE);
    var (es, used) :- Each(Decoders(kind, n), Tail(b, INT_SIZE));
    Some((Rebuilt(kind, es), INT_SIZE + used))
  }

  lemma {:induction false} EntriesRead(kind: Kind, es: seq<Entry>, rest: seq<byte>)
    requires Storable(kind, es)
    ensures Each(Decoders(kind, |es|), EncEntries(kind, es) + rest)
         == Some((NormEntries(kind, es), |EncEntries(kind, es)|))
  {
    forall i | 0 <= i < |es|
      ensures Reads(Decoders(kind, |es|)[i], Codes(kind, es)[i], NormEntries(kind, es)[i])
    {
      EntryReads(kind, es[i]);
    }
    EachReadsBefore(Decoders(kind, |es|), Codes(kind, es), NormEntries(kind, es), rest);
  }

  lemma CountedFit(kind: Kind, sec: Section)
    requires SectionFits(kind, sec)
    ensures Storable(kind, Counted(kind, sec)) && Fits(|Counted(kind, sec)|, INT_SIZE)
  {
  }

  lemma CountedReads(kind: Kind, n: nat, body: seq<byte>, es: seq<Entry>, rest: seq<byte>)
    requires Fits(n, INT_SIZE)
    requires Each(Decoders(kind, n), body + rest) == Some((es, |body|))
    ensures DecSection(kind, LE(n, INT_SIZE) + body + rest) == Some((Rebuilt(kind, es), INT_SIZE + |body|))
  {
    var code, tail := LE(n, INT_SIZE), body + rest;
    assert code + body + rest == code + tail;
    DecNumRoundTrip(n, INT_SIZE, tail);
    assert Tail(code + tail, INT_SIZE) == tail;
  }

  /** A section comes back in normal form and consumes exactly its own bytes, whatever follows. */
  lemma SectionRoundTrip(kind: Kind, sec: Section, rest: seq<byte>)
    requires SectionFits(kind, sec)
    ensures DecSection(kind, EncSection(kind, sec) + rest) == Some((NormSection(kind, sec), |EncSection(kind, sec)|))
  {
    var es := Counted(kind, sec);
    CountedFit(kind, sec);
    EntriesRead(kind, es, rest);
    CountedReads(kind, |es|, EncEntries(kind, es), NormEntries(kind, es), rest);
  }

  /** Where the size pass stops at an entry: at a NULL name, at a NULL second string if the kind has one, and at an
      elf of size 0. */
  lemma StopsMeans(kind: Kind, e: Entry)
    ensures PackStops(kind, e) <==> e.name == Null || (kind != Symbol && e.body == Null)
    ensures Stops(kind, e) <==> e.name == Null || (kind != Symbol && e.body == Null) || (kind == Elf && e.size == 0)
  {
  }

  /** The bytes of an entry, in their order. */
  lemma EntryLayout(kind: Kind, e: Entry)
    ensures var name, body := LE(StrLen(e.name), 4) + StrBytes(e.name), LE(StrLen(e.body), 4) + StrBytes(e.body);
            EncEntry(kind, e) ==
            if kind == Symbol then name else if kind == Debug then name + body + LE(e.size, 4) else name + body
  {
  }

  /** The count, then the entries counted. */
  lemma SectionLayout(kind: Kind, sec: Section)
    ensures EncSection(kind, sec) == LE(|Counted(kind, sec)|, 4) + EncEntries(kind, Counted(kind, sec))
    ensures sec.Entries? ==>
              (exists n: nat :: n <= |sec.list| && Counted(kind, sec) == sec.list[..n] &&
                 (forall i :: 0 <= i < n ==> !Stops(kind, sec.list[i])) &&
                 (n < |sec.list| ==> Stops(kind, sec.list[n])))
    ensures sec.Absent? ==> Counted(kind, sec) == []
  {
    if sec.Entries? {
      var n := StopIndex(kind, sec.list, 0);
      assert Counted(kind, sec) == sec.list[..n];
    }
  }

  /** What comes back of one entry: empty strings as NULL, all else as it was, fields of other kinds blank. */
  lemma EntryComesBack(kind: Kind, e: Entry)
    ensures var r := NormEntry(kind, e);
            && r.name == (if e.name == Null || e.name == Chars([]) then Null else e.name)
            && r.body == (if kind == Symbol || e.body == Null || e.body == Chars([]) then Null else e.body)
            && r.size == (if kind == Debug || kind == Elf then e.size else 0)
  {
  }

  /** What comes back of a section is NULL exactly when nothing was counted and the kind is debug, elf or symbol.
      Otherwise it is a list of what each counted entry comes back as, and a blank terminator. */
  lemma SectionComesBack(kind: Kind, sec: Section)
    ensures var r, n := NormSection(kind, sec), |Counted(kind, sec)|;
            && (r == Absent <==> n == 0 && (kind == Debug || kind == Elf || kind == Symbol))
            && (r.Entries? ==>
                  && |r.list| == n + 1 && r.list[n] == Entry(Null, Null, 0)
                  && forall i :: 0 <= i < n ==> r.list[i] == NormEntry(kind, Counted(kind, sec)[i]))
  {
  }

  /** The same of what is read, by the count at its front. */
  lemma SectionRead(kind: Kind, b: seq<byte>)
    requires DecSection(kind, b).Some?
    ensures DecNum(b, INT_SIZE).Some?
    ensures var r, n := DecSection(kind, b).value.0, DecNum(b, INT_SIZE).value;
            && (r == Absent <==> n == 0 && (kind == Debug || kind == Elf || kind == Symbol))
            && (r.Entries? ==> |r.list| == n + 1 && r.list[n] == Entry(Null, Null, 0))
  {
  }

  /** A section of entries without empty strings or fields of other kinds, up to a blank terminator. */
  predicate Plain(kind: Kind, sec: Section) {
    if sec.Absent? then kind == Debug || kind == Elf || kind == Symbol
    else
      var n := |sec.list| - 1;
      && n >= (if kind == Ptx || kind == Cubin then 0 else 1)
      && sec.list[n] == Entry(Null, Null, 0)
      && forall i :: 0 <= i < n ==>
           && StrLen(sec.list[i].name) > 0
           && (if kind == Symbol then sec.list[i].body == Null else StrLen(sec.list[i].body) > 0)
           && (if kind == Elf then sec.list[i].size > 0 else kind == Debug || sec.list[i].size == 0)
  }

  /** Such a section comes back as it was. */
  lemma PlainComesBack(kind: Kind, sec: Section)
    requires Plain(kind, sec)
    ensures NormSection(kind, sec) == sec
  {
    if sec.Entries? {
      var n := |sec.list| - 1;
      StopIndexIs(kind, sec.list, n);
      var es := sec.list[..n];
      forall i | 0 <= i < n ensures NormEntry(kind, es[i]) == es[i] {
        assert es[i] == sec.list[i];
      }
      assert NormEntries(kind, es) == es;
      assert sec.list == es + [TERMINATOR];
    }
  }

  /** An empty symbol table is sized 4 bytes too large: one that is NULL or starts with a NULL name. */
  lemma SlackMeans(kind: Kind, sec: Section)
    ensures SizeSlack(kind, sec) ==
            if kind == Symbol && (sec.Absent? || sec.list == [] || sec.list[0].name == Null) then 4 else 0
  {
  }

  /** The size pass and the pack pass agree but for the slack of an empty symbol table. */
  lemma SectionSizeIsLength(kind: Kind, sec: Section)
    requires SectionFits(kind, sec)
    ensures SectionSize(kind, sec) == |EncSection(kind, sec)| + SizeSlack(kind, sec)
  {
    CountedFit(kind, sec);
    EntriesSizeIsLength(kind, Counted(kind, sec));
  }

  /** The first index from `from` on where the pack pass of a list stops, or the end. */
  function PackIndex(kind: Kind, list: seq<Entry>, from: nat): (i: nat)
    requires from <= |list|
    ensures from <= i <= |list|
    ensures i < |list| ==> PackStops(kind, list[i])
    ensures forall j :: from <= j < i ==> !PackStops(kind, list[j])
    decreases |list| - from
  {
    if from == |list| || PackStops(kind, list[from]) then from else PackIndex(kind, list, from + 1)
  }

  /** A named elf that has code, of size 0. */
  predicate NoCode(kind: Kind, e: Entry) {
    kind == Elf && !PackStops(kind, e) && e.size == 0
  }

  /** No elf with code of size 0 comes after the first entry and before the list stops, unless the first
      entry is one itself. */
  predicate CountHolds(kind: Kind, list: seq<Entry>) {
    forall i :: 0 < i < |list| && NoCode(kind, list[i]) && !NoCode(kind, list[0]) ==>
      exists j :: 0 <= j < i && PackStops(kind, list[j])
  }

  /** Whether the pack pass, given the count of the size pass, ends without a failed assertion; an empty
      count is not checked. */
  predicate AssertionPasses(kind: Kind, list: seq<Entry>) {
    var n := StopIndex(kind, list, 0);
    n == 0 || PackIndex(kind, list, 0) == n
  }

  lemma {:induction false} CountAssertionIff(kind: Kind, list: seq<Entry>)
    ensures AssertionPasses(kind, list) <==> CountHolds(kind, list)
  {
    var n, m := StopIndex(kind, list, 0), PackIndex(kind, list, 0);
    assert n <= m by {
      assert m < |list| ==> Stops(kind, list[m]);
    }
    if 0 < n < m {
      assert NoCode(kind, list[n]) && !NoCode(kind, list[0]);
    }
    if n == m {
      forall i | 0 < i < |list| && NoCode(kind, list[i]) && !NoCode(kind, list[0])
        ensures exists j :: 0 <= j < i && PackStops(kind, list[j])
      {
        assert n <= i && PackStops(kind, list[n]);
      }
    }
    if n == 0 && |list| > 0 && !NoCode(kind, list[0]) {
      assert PackStops(kind, list[0]);
    }
  }

  /** For example: an elf of one byte, then one with code of size 0. */
  lemma ElfWithoutCode() returns (list: seq<Entry>)
    ensures SectionFits(Elf, Entries(list)) && !AssertionPasses(Elf, list)
  {
    var name := Chars([65]);
    list := [Entry(name, Chars([1]), 1), Entry(name, Chars([]), 0)];
    SmallFits(Elf, Entries(list));
    assert NoCode(Elf, list[1]) && !NoCode(Elf, list[0]) && !PackStops(Elf, list[0]);
    CountAssertionIff(Elf, list);
  }

  lemma SmallFits(kind: Kind, sec: Section)
    requires sec.Entries? && |sec.list| < 256
    requires forall i :: 0 <= i < |sec.list| ==>
               StrLen(sec.list[i].name) < 256 && StrLen(sec.list[i].body) < 256 && sec.list[i].size < 256
    requires forall i :: 0 <= i < |sec.list| && kind == Elf && sec.list[i].body.Chars? ==>
               |sec.list[i].body.s| == sec.list[i].size
    requires IsArray(kind) ==> exists i :: 0 <= i < |sec.list| && Stops(kind, sec.list[i])
    ensures SectionFits(kind, sec)
  {
    assert Pow256(INT_SIZE) >= 256;
  }

  /** Where the size pass stops in front of the end, the pack pass of a list with a good count stops too. */
  lemma PackStopsAtCount(kind: Kind, list: seq<Entry>)
    requires CountHolds(kind, list)
    ensures var n := StopIndex(kind, list, 0); 0 < n < |list| ==> PackStops(kind, list[n])
  {
    CountAssertionIff(kind, list);
  }

  /** A list that fails its assertion has been written past the computed size by then. */
  lemma FailingListOverruns(kind: Kind, sec: Section)
    requires !IsArray(kind) && sec.Entries? && SectionFits(kind, sec) && !CountHolds(kind, sec.list)
    ensures INT_SIZE + |EncEntries(kind, sec.list[..PackIndex(kind, sec.list, 0)])| > SectionSize(kind, sec)
  {
    var list := sec.list;
    var n, m := StopIndex(kind, list, 0), PackIndex(kind, list, 0);
    CountAssertionIff(kind, list);
    assert n < m by {
      assert m < |list| ==> Stops(kind, list[m]);
    }
    CountedFit(kind, sec);
    EntriesSizeIsLength(kind, list[..n]);
    var codes := Codes(kind, list[..m]);
    assert codes[..n] == Codes(kind, list[..n]);
    ConcatNext(codes, n);
  }

  // ---------- re-encoding ----------

  /** A string of the entry that would come back as NULL. */
  predicate HasEmptyString(kind: Kind, e: Entry) {
    StrLen(e.name) == 0 || (kind != Symbol && StrLen(e.body) == 0)
  }

  /** The first entry, from `from` on, with an empty string, or the end. */
  function FirstEmpty(kind: Kind, es: seq<Entry>, from: nat): (i: nat)
    requires from <= |es|
    ensures from <= i <= |es|
    ensures i < |es| ==> HasEmptyString(kind, es[i])
    ensures forall j :: from <= j < i ==> !HasEmptyString(kind, es[j])
    decreases |es| - from
  {
    if from == |es| || HasEmptyString(kind, es[from]) then from else FirstEmpty(kind, es, from + 1)
  }

  function Kept(kind: Kind, sec: Section): seq<Entry> {
    var es := Counted(kind, sec);
    es[..FirstEmpty(kind, es, 0)]
  }

  lemma EmptyStringsStop(kind: Kind, e: Entry)
    requires EntryFits(kind, e) && !Stops(kind, e)
    ensures Stops(kind, NormEntry(kind, e)) <==> HasEmptyString(kind, e)
    ensures !HasEmptyString(kind, e) ==> EncEntry(kind, NormEntry(kind, e)) == EncEntry(kind, e)
  {
  }

  lemma StopIndexIs(kind: Kind, list: seq<Entry>, i: nat)
    requires i <= |list| && (i < |list| ==> Stops(kind, list[i]))
    requires forall j :: 0 <= j < i ==> !Stops(kind, list[j])
    ensures StopIndex(kind, list, 0) == i
  {
  }

  /** The terminator does not count. */
  lemma CountedOfRebuilt(kind: Kind, es: seq<Entry>)
    ensures Counted(kind, Rebuilt(kind, es)) == es[..StopIndex(kind, es, 0)]
  {
    var i := StopIndex(kind, es, 0);
    var list := es + [TERMINATOR];
    StopIndexIs(kind, list, i);
    assert list[..i] == es[..i];
  }

  lemma NormStopsAtEmpty(kind: Kind, es: seq<Entry>)
    requires Storable(kind, es)
    ensures StopIndex(kind, NormEntries(kind, es), 0) == FirstEmpty(kind, es, 0)
  {
    forall i | 0 <= i < |es| ensures Stops(kind, NormEntries(kind, es)[i]) <==> HasEmptyString(kind, es[i]) {
      EmptyStringsStop(kind, es[i]);
    }
    StopIndexIs(kind, NormEntries(kind, es), FirstEmpty(kind, es, 0));
  }

  lemma NormKeepsBytes(kind: Kind, es: seq<Entry>)
    requires Storable(kind, es) && forall i :: 0 <= i < |es| ==> !HasEmptyString(kind, es[i])
    ensures EncEntries(kind, NormEntries(kind, es)) == EncEntries(kind, es)
  {
    forall i | 0 <= i < |es| ensures Codes(kind, NormEntries(kind, es))[i] == Codes(kind, es)[i] {
      EmptyStringsStop(kind, es[i]);
    }
    assert Codes(kind, NormEntries(kind, es)) == Codes(kind, es);
  }

  /** Sizing and packing an unpacked section again gives the original cut at the first entry with an
      empty string, because that string came back as NULL. */
  lemma ReencodedCut(kind: Kind, sec: Section)
    requires SectionFits(kind, sec)
    ensures Counted(kind, NormSection(kind, sec)) == NormEntries(kind, Kept(kind, sec))
    ensures EncSection(kind, NormSection(kind, sec))
         == LE(|Kept(kind, sec)|, INT_SIZE) + EncEntries(kind, Kept(kind, sec))
  {
    var es := Counted(kind, sec);
    CountedFit(kind, sec);
    CountedOfRebuilt(kind, NormEntries(kind, es));
    NormStopsAtEmpty(kind, es);
    var n := FirstEmpty(kind, es, 0);
    assert NormEntries(kind, es)[..n] == NormEntries(kind, es[..n]);
    NormKeepsBytes(kind, es[..n]);
  }

  lemma SameBytesSameCount(kind: Kind, sec: Section)
    requires SectionFits(kind, sec)
    ensures EncSection(kind, NormSection(kind, sec)) == EncSection(kind, sec) ==>
              |Kept(kind, sec)| == |Counted(kind, sec)|
  {
    ReencodedCut(kind, sec);
    var kept, es := Kept(kind, sec), Counted(kind, sec);
    var a, b := LE(|kept|, INT_SIZE), LE(|es|, INT_SIZE);
    assert (a + EncEntries(kind, kept))[..INT_SIZE] == a && (b + EncEntries(kind, es))[..INT_SIZE] == b;
    LERoundTrip(|kept|, INT_SIZE);
    LERoundTrip(|es|, INT_SIZE);
  }

  predicate NoEmptyStrings(kind: Kind, sec: Section) {
    forall i :: 0 <= i < |Counted(kind, sec)| ==> !HasEmptyString(kind, Counted(kind, sec)[i])
  }

  /** The round trip is a fixed point of encoding exactly when no counted entry has an empty string. */
  lemma {:induction false} ReencodingFixedIff(kind: Kind, sec: Section)
    requires SectionFits(kind, sec)
    ensures EncSection(kind, NormSection(kind, sec)) == EncSection(kind, sec) <==> NoEmptyStrings(kind, sec)
  {
    var es := Counted(kind, sec);
    ReencodedCut(kind, sec);
    SameBytesSameCount(kind, sec);
    if FirstEmpty(kind, es, 0) == |es| {
      assert Kept(kind, sec) == es;
    }
  }

  /** For example: a symbol whose name is empty is lost when the table is packed again. */
  lemma EmptyName() returns (sec: Section)
    ensures SectionFits(Symbol, sec) && |Counted(Symbol, sec)| == 1
    ensures EncSection(Symbol, NormSection(Symbol, sec)) != EncSection(Symbol, sec)
  {
    sec := Entries([Entry(Chars([]), Null, 0), TERMINATOR]);
    assert Stops(Symbol, sec.list[1]);
    SmallFits(Symbol, sec);
    StopIndexIs(Symbol, sec.list, 1);
    assert Counted(Symbol, sec) == [sec.list[0]];
    assert HasEmptyString(Symbol, Counted(Symbol, sec)[0]);
    ReencodingFixedIff(Symbol, sec);
  }

  lemma NormSectionFits(kind: Kind, sec: Section)
    requires SectionFits(kind, sec)
    ensures SectionFits(kind, NormSection(kind, sec))
  {
    var es, norm := Counted(kind, sec), NormSection(kind, sec);
    CountedFit(kind, sec);
    CountedOfRebuilt(kind, NormEntries(kind, es));
    if norm.Entries? {
      assert Stops(kind, norm.list[|es|]);
      forall i | 0 <= i < |norm.list| ensures EntryFits(kind, norm.list[i]) {
        if i < |es| {
          NormEntryFits(kind, es[i]);
        }
      }
    }
  }

  lemma NormEntryFits(kind: Kind, e: Entry)
    requires EntryFits(kind, e) && !Stops(kind, e)
    ensures EntryFits(kind, NormEntry(kind, e))
  {
  }

  /** A section that has been unpacked passes the count assertion when it is packed again. */
  lemma NormSectionPacks(kind: Kind, sec: Section)
    requires SectionFits(kind, sec) && NormSection(kind, sec).Entries?
    ensures CountHolds(kind, NormSection(kind, sec).list)
  {
    var es, list := Counted(kind, sec), NormSection(kind, sec).list;
    forall i | 0 <= i < |list| ensures !NoCode(kind, list[i]) {
      if i < |es| {
        assert list[i] == NormEntry(kind, es[i]);
      }
    }
  }

  lemma StableSection(kind: Kind, sec: Section)
    requires SectionFits(kind, sec) && NormSection(kind, NormSection(kind, sec)) == NormSection(kind, sec)
    ensures NoEmptyStrings(kind, sec)
  {
    ReencodedCut(kind, sec);
    assert |Kept(kind, sec)| == |Counted(kind, sec)|;
  }
}
