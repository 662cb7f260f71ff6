/** Frames of the remote-call stream: a header that counts packets and bytes, the packets, the bytes. */
module Framing {
  import opened Wrappers
  import opened Wire
  import opened Codec

  const HDR_SIZE := 8                  // sizeof(strm_hdr_t)
  const RPKT_SIZE := 184               // sizeof(rpkt_t)
  const MAX_REMOTE_BATCH_SIZE := 1024
  const INT_MAX := 0x7fff_ffff

  type Packet = p: seq<byte> | |p| == RPKT_SIZE witness seq(RPKT_SIZE, _ => 0)
  type Payload = d: seq<byte> | |d| <= INT_MAX witness []

  datatype Frame = Frame(packets: seq<Packet>, data: Payload)

  /** The batch fits the server's packet array, and no bytes follow a header without packets, because the
      server goes on to the next header right away. */
  predicate WellFormed(f: Frame) {
    |f.packets| <= MAX_REMOTE_BATCH_SIZE && (f.packets == [] ==> f.data == [])
  }

  function EncHeader(packets: nat, bytes: nat): (r: seq<byte>)
    ensures |r| == HDR_SIZE
  {
    LE(packets, INT_SIZE) + LE(bytes, INT_SIZE)
  }

  function EncFrame(f: Frame): seq<byte> {
    EncHeader(|f.packets|, |f.data|) + Concat(f.packets) + f.data
  }

  function Codes(fs: seq<Frame>): (r: seq<seq<byte>>)
    ensures |r| == |fs|
  {
    seq(|fs|, i requires 0 <= i < |fs| => EncFrame(fs[i]))
  }

  function EncFrames(fs: seq<Frame>): seq<byte> {
    Concat(Codes(fs))
  }

  lemma Pow256Int()
    ensures Pow256(INT_SIZE) == 0x1_0000_0000
  {
    assert Pow256(1) == 256 && Pow256(2) == 0x1_0000 && Pow256(3) == 0x100_0000;
  }

  /** The header says how much to read. */
  lemma HeaderRoundTrip(packets: nat, bytes: nat)
    requires packets <= INT_MAX && bytes <= INT_MAX
    ensures FromLE(EncHeader(packets, bytes)[..INT_SIZE]) == packets
    ensures FromLE(EncHeader(packets, bytes)[INT_SIZE..]) == bytes
  {
    Pow256Int();
    LERoundTrip(packets, INT_SIZE);
    LERoundTrip(bytes, INT_SIZE);
    assert EncHeader(packets, bytes)[..INT_SIZE] == LE(packets, INT_SIZE);
    assert EncHeader(packets, bytes)[INT_SIZE..] == LE(bytes, INT_SIZE);
  }

  lemma {:induction false} PacketsLength(ps: seq<Packet>)
    ensures |Concat(ps)| == |ps| * RPKT_SIZE
  {
    if ps != [] {
      PacketsLength(ps[..|ps| - 1]);
    }
  }

  /** The i-th packet of a batch is where the array of packets has it. */
  lemma {:induction false} PacketAt(ps: seq<Packet>, i: nat)
    requires i < |ps|
    ensures (i + 1) * RPKT_SIZE <= |Concat(ps)|
    ensures Concat(ps)[i * RPKT_SIZE..(i + 1) * RPKT_SIZE] == ps[i]
  {
    PacketsLength(ps);
    PacketsLength(ps[..|ps| - 1]);
    if i < |ps| - 1 {
      PacketAt(ps[..|ps| - 1], i);
    }
  }

  /** The two counts, 184 bytes for each packet, and the data. */
  lemma FrameLayout(f: Frame, i: nat)
    ensures var n, code := |f.packets|, EncFrame(f);
            && |code| == 8 + 184 * n + |f.data|
            && code[..4] == LE(n, 4) && code[4..8] == LE(|f.data|, 4)
            && (i < n ==> code[8 + 184 * i..8 + 184 * i + 184] == f.packets[i])
            && code[8 + 184 * n..] == f.data
  {
    PacketsLength(f.packets);
    if i < |f.packets| {
      PacketAt(f.packets, i);
      FrameMiddle(EncHeader(|f.packets|, |f.data|), Concat(f.packets), f.data, 184 * i);
    }
  }

  lemma FrameMiddle(a: seq<byte>, b: seq<byte>, c: seq<byte>, at: nat)
    requires |a| == 8 && at + 184 <= |b|
    ensures (a + b + c)[8 + at..8 + at + 184] == b[at..at + 184]
  {
  }

  lemma {:induction false} ConcatSplit(codes: seq<seq<byte>>, i: nat)
    requires i < |codes|
    ensures Concat(codes) == Concat(codes[..i]) + codes[i] + Concat(codes[i + 1..])
  {
    var n := |codes| - 1;
    if i < n {
      ConcatSplit(codes[..n], i);
      assert codes[..n][..i] == codes[..i] && codes[..n][i + 1..] == codes[i + 1..n];
      assert codes[i + 1..][..n - i - 1] == codes[i + 1..n];
      assert Concat(codes[i + 1..]) == Concat(codes[i + 1..n]) + codes[n];
    }
  }

  /** The stream in front of frame i, the frame, and what comes behind it. */
  lemma StreamAt(fs: seq<Frame>, i: nat)
    requires i < |fs|
    ensures EncFrames(fs) == EncFrames(fs[..i]) + EncFrame(fs[i]) + EncFrames(fs[i + 1..])
  {
    ConcatSplit(Codes(fs), i);
    assert Codes(fs)[..i] == Codes(fs[..i]);
    assert Codes(fs)[i + 1..] == Codes(fs[i + 1..]);
  }

  lemma StreamUpTo(fs: seq<Frame>, i: nat)
    requires i < |fs|
    ensures EncFrames(fs[..i + 1]) == EncFrames(fs[..i]) + EncFrame(fs[i])
  {
    assert Codes(fs[..i + 1])[..i] == Codes(fs[..i]);
  }

  lemma StreamFrom(fs: seq<Frame>, i: nat)
    requires i < |fs|
    ensures EncFrames(fs[i..]) == EncFrame(fs[i]) + EncFrames(fs[i + 1..])
  {
    assert Codes(fs[i..])[1..] == Codes(fs[i + 1..]);
    ConcatFirst(Codes(fs[i..]), EncFrame(fs[i]), Codes(fs[i + 1..]));
  }

  lemma ConcatFirst(codes: seq<seq<byte>>, first: seq<byte>, rest: seq<seq<byte>>)
    requires codes != [] && codes[0] == first && codes[1..] == rest
    ensures Concat(codes) == first + Concat(rest)
  {
    ConcatSplit(codes, 0);
  }

  lemma StreamEmptyIff(fs: seq<Frame>)
    ensures EncFrames(fs) == [] <==> fs == []
  {
    if fs != [] {
      StreamAt(fs, 0);
    }
  }

  // ---------- framing ----------

  /** Two streams of frames with the same bytes have the same frames: a receiver that reads what headers
      announce stays in step, whatever the packets and data contain. */
  lemma {:induction false} FramesUnique(fs: seq<Frame>, gs: seq<Frame>)
    requires (forall i :: 0 <= i < |fs| ==> WellFormed(fs[i])) && forall i :: 0 <= i < |gs| ==> WellFormed(gs[i])
    requires EncFrames(fs) == EncFrames(gs)
    ensures fs == gs
  {
    StreamEmptyIff(fs);
    StreamEmptyIff(gs);
    if fs != [] {
      StreamFrom(fs, 0);
      StreamFrom(gs, 0);
      assert fs[0..] == fs && gs[0..] == gs;
      FrameUnique(fs[0], gs[0], EncFrames(fs[1..]), EncFrames(gs[1..]));
      SameRest(EncFrame(fs[0]), EncFrames(fs[1..]), EncFrames(gs[1..]));
      FramesUnique(fs[1..], gs[1..]);
      assert fs == [fs[0]] + fs[1..] && gs == [gs[0]] + gs[1..];
    }
  }

  lemma SameRest(front: seq<byte>, a: seq<byte>, b: seq<byte>)
    requires front + a == front + b
    ensures a == b
  {
    assert (front + a)[|front|..] == a && (front + b)[|front|..] == b;
  }

  /** No frame is a prefix of another. */
  lemma FrameUnique(f: Frame, g: Frame, restF: seq<byte>, restG: seq<byte>)
    requires WellFormed(f) && WellFormed(g) && EncFrame(f) + restF == EncFrame(g) + restG
    ensures f == g
  {
    var hf, hg := EncHeader(|f.packets|, |f.data|), EncHeader(|g.packets|, |g.data|);
    assert (EncFrame(f) + restF)[..HDR_SIZE] == hf && (EncFrame(g) + restG)[..HDR_SIZE] == hg;
    HeaderRoundTrip(|f.packets|, |f.data|);
    HeaderRoundTrip(|g.packets|, |g.data|);
    PacketsLength(f.packets);
    PacketsLength(g.packets);
    var n, all := |Concat(f.packets)|, EncFrame(f) + restF;
    assert all[HDR_SIZE..HDR_SIZE + n] == Concat(f.packets);
    assert (EncFrame(g) + restG)[HDR_SIZE..HDR_SIZE + n] == Concat(g.packets);
    assert all[HDR_SIZE + n..HDR_SIZE + n + |f.data|] == f.data;
    assert (EncFrame(g) + restG)[HDR_SIZE + n..HDR_SIZE + n + |g.data|] == g.data;
    forall i | 0 <= i < |f.packets| ensures f.packets[i] == g.packets[i] {
      PacketAt(f.packets, i);
      PacketAt(g.packets, i);
    }
  }
}
