/** The server's remote-call loop: receive a frame, execute its first packet, answer if an answer is
    expected. What executing does, and when the client expects an answer, are parameters. */
module RpcServer {
  import opened Wire
  import opened Codec
  import opened Framing
  import opened Transport

  /** The outcome of executing a batch: the new state of the server, the first packet with its results
      filled in, and a response buffer. */
  datatype Reply<S> = Reply(state: S, packet: Packet, response: Payload)

  /** pkt_execute, and strm_expects_response on the batch as it is after the execution. */
  datatype Rpc<!S> = Rpc(execute: (S, Frame) -> Reply<S>, expects: seq<Packet> -> bool)

  // ---------- what a stream of frames should do ----------

  function StepState<S>(rpc: Rpc<S>, s: S, f: Frame): S {
    if f.packets == [] then s else rpc.execute(s, f).state
  }

  function Answer(p: Packet, d: Payload): Frame { Frame([p], d) }

  function Answers<S>(rpc: Rpc<S>, s: S, f: Frame): seq<Frame> {
    if f.packets == [] then []
    else
      var r := rpc.execute(s, f);
      if rpc.expects(f.packets[0 := r.packet]) then [Answer(r.packet, r.response)] else []
  }

  function Calls(f: Frame): seq<Frame> {
    if f.packets == [] then [] else [f]
  }

  function StateAfter<S>(rpc: Rpc<S>, s: S, fs: seq<Frame>): S {
    if fs == [] then s else StepState(rpc, StateAfter(rpc, s, fs[..|fs| - 1]), fs[|fs| - 1])
  }

  /** The frames that are executed: those with packets, once each, in order. */
  function Executed(fs: seq<Frame>): seq<Frame> {
    if fs == [] then [] else Executed(fs[..|fs| - 1]) + Calls(fs[|fs| - 1])
  }

  function Replies<S>(rpc: Rpc<S>, s: S, fs: seq<Frame>): seq<Frame> {
    if fs == [] then []
    else
      var front := fs[..|fs| - 1];
      Replies(rpc, s, front) + Answers(rpc, StateAfter(rpc, s, front), fs[|fs| - 1])
  }

  /** At most one answer for a frame, and every answer is a well-formed frame of one packet. */
  lemma {:induction false} RepliesWellFormed<S>(rpc: Rpc<S>, s: S, fs: seq<Frame>)
    ensures |Replies(rpc, s, fs)| <= |Executed(fs)| <= |fs|
    ensures forall i :: 0 <= i < |Replies(rpc, s, fs)| ==>
              WellFormed(Replies(rpc, s, fs)[i]) && |Replies(rpc, s, fs)[i].packets| == 1
  {
    if fs != [] {
      RepliesWellFormed(rpc, s, fs[..|fs| - 1]);
    }
  }

  /** `vs` are what is due at the indices below n, in order: `at` says at which of them something is. */
  ghost predicate InOrder<T(!new)>(due: (nat, T) -> bool, n: nat, vs: seq<T>, at: seq<nat>) {
    && |at| == |vs| && (forall j, k :: 0 <= j < k < |at| ==> at[j] < at[k])
    && (forall k :: 0 <= k < |at| ==> at[k] < n && due(at[k], vs[k]))
    && forall i: nat, v :: i < n && due(i, v) ==> i in at
  }

  lemma OneMore<T(!new)>(due: (nat, T) -> bool, n: nat, vs: seq<T>, at: seq<nat>, v: T)
    requires InOrder(due, n, vs, at) && due(n, v)
    ensures InOrder(due, n + 1, vs + [v], at + [n])
  {
  }

  lemma NoneMore<T(!new)>(due: (nat, T) -> bool, n: nat, vs: seq<T>, at: seq<nat>)
    requires InOrder(due, n, vs, at) && forall v :: !due(n, v)
    ensures InOrder(due, n + 1, vs, at)
  {
  }

  ghost predicate Runs(fs: seq<Frame>, i: nat, f: Frame) {
    i < |fs| && f == fs[i] && f.packets != []
  }

  /** The frames with packets are executed, once each and in order, and no others: `at` says which they are. */
  lemma ExecutedInOrder(fs: seq<Frame>) returns (at: seq<nat>)
    ensures |at| == |Executed(fs)| && forall j, k :: 0 <= j < k < |at| ==> at[j] < at[k]
    ensures forall k :: 0 <= k < |at| ==> at[k] < |fs| && fs[at[k]].packets != [] && Executed(fs)[k] == fs[at[k]]
    ensures forall i :: 0 <= i < |fs| && fs[i].packets != [] ==> i in at
  {
    at := ExecutedUpTo(fs, (i: nat, f: Frame) => Runs(fs, i, f), |fs|);
    assert fs[..|fs|] == fs;
    assert forall i: nat :: i < |fs| && fs[i].packets != [] ==> Runs(fs, i, fs[i]);
  }

  lemma ExecutedNext(fs: seq<Frame>, n: nat, f: Frame)
    requires n < |fs| && f == fs[n]
    ensures f.packets == [] ==> Executed(fs[..n + 1]) == Executed(fs[..n])
    ensures f.packets != [] ==> Executed(fs[..n + 1]) == Executed(fs[..n]) + [f]
  {
    assert fs[..n + 1][..n] == fs[..n];
  }

  lemma {:induction false} ExecutedUpTo(fs: seq<Frame>, due: (nat, Frame) -> bool, n: nat) returns (at: seq<nat>)
    requires n <= |fs| && forall i, f :: due(i, f) <==> Runs(fs, i, f)
    ensures InOrder(due, n, Executed(fs[..n]), at)
  {
    at := [];
    if n > 0 {
      at := ExecutedUpTo(fs, due, n - 1);
      var f := fs[n - 1];
      ExecutedNext(fs, n - 1, f);
      if f.packets == [] {
        NoneMore(due, n - 1, Executed(fs[..n - 1]), at);
      } else {
        OneMore(due, n - 1, Executed(fs[..n - 1]), at, f);
        at := at + [n - 1];
      }
    }
  }

  /** Only execution changes the state, one frame after the other. */
  lemma StatesInOrder<S>(rpc: Rpc<S>, s: S, fs: seq<Frame>, i: nat)
    requires i < |fs|
    ensures StateAfter(rpc, s, []) == s
    ensures StateAfter(rpc, s, fs[..i + 1]) ==
            if fs[i].packets == [] then StateAfter(rpc, s, fs[..i])
            else rpc.execute(StateAfter(rpc, s, fs[..i]), fs[i]).state
  {
    assert fs[..i + 1][..i] == fs[..i];
  }

  /** Frame i is executed in the state the frames before it lead to, and its client expects an answer: `answer`,
      with the packet and the response that the execution returned. */
  ghost predicate Due<S>(rpc: Rpc<S>, s: S, fs: seq<Frame>, i: nat, answer: Frame) {
    && i < |fs| && fs[i].packets != []
    && var r := rpc.execute(StateAfter(rpc, s, fs[..i]), fs[i]);
       rpc.expects(fs[i].packets[0 := r.packet]) && answer == Frame([r.packet], r.response)
  }

  lemma RepliesNext<S>(rpc: Rpc<S>, s: S, fs: seq<Frame>, i: nat)
    requires i < |fs|
    ensures var front, next := Replies(rpc, s, fs[..i]), Replies(rpc, s, fs[..i + 1]);
            && (forall answer :: Due(rpc, s, fs, i, answer) ==> next == front + [answer])
            && ((forall answer :: !Due(rpc, s, fs, i, answer)) ==> next == front)
  {
    assert fs[..i + 1][..i] == fs[..i];
    var r := rpc.execute(StateAfter(rpc, s, fs[..i]), fs[i]);
    assert fs[i].packets != [] && rpc.expects(fs[i].packets[0 := r.packet]) ==>
           Due(rpc, s, fs, i, Frame([r.packet], r.response));
  }

  lemma {:induction false} AnswersUpTo<S>(rpc: Rpc<S>, s: S, fs: seq<Frame>, due: (nat, Frame) -> bool, n: nat)
    returns (at: seq<nat>)
    requires n <= |fs| && forall i, answer :: due(i, answer) <==> Due(rpc, s, fs, i, answer)
    ensures InOrder(due, n, Replies(rpc, s, fs[..n]), at)
  {
    at := [];
    if n > 0 {
      at := AnswersUpTo(rpc, s, fs, due, n - 1);
      RepliesNext(rpc, s, fs, n - 1);
      var r := rpc.execute(StateAfter(rpc, s, fs[..n - 1]), fs[n - 1]);
      var answer := Frame([r.packet], r.response);
      if due(n - 1, answer) {
        OneMore(due, n - 1, Replies(rpc, s, fs[..n - 1]), at, answer);
        at := at + [n - 1];
      } else {
        NoneMore(due, n - 1, Replies(rpc, s, fs[..n - 1]), at);
      }
    }
  }

  /** The answers sent are those due, in the order of their frames: `at` says which frames they are. */
  lemma AnswersInOrder<S>(rpc: Rpc<S>, s: S, fs: seq<Frame>) returns (at: seq<nat>)
    ensures |at| == |Replies(rpc, s, fs)| && forall j, k :: 0 <= j < k < |at| ==> at[j] < at[k]
    ensures forall k :: 0 <= k < |at| ==> Due(rpc, s, fs, at[k], Replies(rpc, s, fs)[k])
    ensures forall i, answer :: Due(rpc, s, fs, i, answer) ==> i in at
  {
    at := AnswersUpTo(rpc, s, fs, (i: nat, f: Frame) => Due(rpc, s, fs, i, f), |fs|);
    assert fs[..|fs|] == fs;
  }

  /** A client that always expects an answer gets one for each frame it has executed; one that never does gets
      none. */
  lemma {:induction false} AlwaysOrNever<S>(rpc: Rpc<S>, s: S, fs: seq<Frame>)
    ensures (forall ps :: rpc.expects(ps)) ==> |Replies(rpc, s, fs)| == |Executed(fs)|
    ensures (forall ps :: !rpc.expects(ps)) ==> Replies(rpc, s, fs) == []
  {
    if fs != [] {
      AlwaysOrNever(rpc, s, fs[..|fs| - 1]);
    }
  }

  /** The client can tell the answers apart again: the bytes sent determine them. */
  lemma AnswersRecoverable<S>(rpc: Rpc<S>, s: S, fs: seq<Frame>, answers: seq<Frame>)
    requires forall i :: 0 <= i < |answers| ==> WellFormed(answers[i])
    requires EncFrames(answers) == EncFrames(Replies(rpc, s, fs))
    ensures answers == Replies(rpc, s, fs)
  {
    RepliesWellFormed(rpc, s, fs);
    FramesUnique(answers, Replies(rpc, s, fs));
  }

  /** The three parts of an answer. */
  lemma AnswerParts(p: Packet, d: Payload, head: seq<byte>, whole: seq<byte>)
    requires head == EncHeader(1, |d|) && whole == EncFrame(Answer(p, d))
    ensures whole == head + p + d
  {
    assert Concat([p]) == Concat([p][..0]) + p;
  }

  /** While the parts of a message go out, what has been sent stays a prefix of the whole. */
  lemma Within(sent: seq<byte>, a: seq<byte>, b: seq<byte>, c: seq<byte>, output: seq<byte>, whole: seq<byte>)
    requires whole == a + b + c
    ensures sent <= output <= sent + a ==> sent <= output <= sent + whole
    ensures sent + a <= output <= sent + a + b ==> sent <= output <= sent + whole
    ensures sent + a + b <= output <= sent + a + b + c ==> sent <= output <= sent + whole
    ensures sent + a + b + c == sent + whole
  {
    assert sent + whole == sent + a + b + c;
  }

  lemma EncAppend(fs: seq<Frame>, gs: seq<Frame>)
    requires |gs| <= 1
    ensures EncFrames(fs + gs) == EncFrames(fs) + EncFrames(gs)
  {
    if gs != [] {
      StreamUpTo(fs + gs, |fs|);
      StreamUpTo(gs, 0);
      assert (fs + gs)[..|fs| + 1] == fs + gs && (fs + gs)[..|fs|] == fs;
      assert gs[..1] == gs && gs[..0] == [];
    } else {
      assert fs + gs == fs;
    }
  }

  lemma AnswerBytes(f: Frame)
    ensures EncFrames([f]) == EncFrame(f)
  {
    StreamUpTo([f], 0);
    assert [f][..1] == [f] && [f][..0] == [];
  }

  /** What one more frame adds. */
  lemma NextFrame<S>(rpc: Rpc<S>, s: S, frames: seq<Frame>, i: nat)
    requires i < |frames|
    ensures var front, next := frames[..i], frames[..i + 1];
            && Executed(next) == Executed(front) + Calls(frames[i])
            && StateAfter(rpc, s, next) == StepState(rpc, StateAfter(rpc, s, front), frames[i])
            && EncFrames(Replies(rpc, s, next)) ==
               EncFrames(Replies(rpc, s, front)) + EncFrames(Answers(rpc, StateAfter(rpc, s, front), frames[i]))
  {
    assert frames[..i + 1][..i] == frames[..i];
    EncAppend(Replies(rpc, s, frames[..i]), Answers(rpc, StateAfter(rpc, s, frames[..i]), frames[i]));
  }

  /** `served` frames are finished and `ran` have been executed: those calls and no others have been made,
      and what has been sent lies between the answers to the ones and to the others. */
  ghost predicate Sent<S>(rpc: Rpc<S>, s: S, frames: seq<Frame>, served: nat, ran: nat,
                          executed: seq<Frame>, state: S, output: seq<byte>) {
    && served <= ran <= served + 1 && ran <= |frames|
    && executed == Executed(frames[..ran]) && state == StateAfter(rpc, s, frames[..ran])
    && EncFrames(Replies(rpc, s, frames[..served])) <= output <= EncFrames(Replies(rpc, s, frames[..ran]))
  }

  /** The next frame has been executed; its answer may have been cut off. */
  lemma SentNext<S>(rpc: Rpc<S>, s: S, frames: seq<Frame>, i: nat,
                    executed: seq<Frame>, state: S, output: seq<byte>, after: seq<byte>)
    requires i < |frames| && Sent(rpc, s, frames, i, i, executed, state, output)
    requires output <= after <= output + EncFrames(Answers(rpc, state, frames[i]))
    ensures Sent(rpc, s, frames, i, i + 1, executed + Calls(frames[i]), StepState(rpc, state, frames[i]), after)
    ensures after == output + EncFrames(Answers(rpc, state, frames[i])) ==>
              Sent(rpc, s, frames, i + 1, i + 1, executed + Calls(frames[i]), StepState(rpc, state, frames[i]), after)
  {
    NextFrame(rpc, s, frames, i);
    BetweenPrefixes(output, EncFrames(Replies(rpc, s, frames[..i])), EncFrames(Answers(rpc, state, frames[i])), after);
  }

  lemma BetweenPrefixes(output: seq<byte>, due: seq<byte>, more: seq<byte>, after: seq<byte>)
    requires due <= output <= due && output <= after <= output + more
    ensures output == due && due <= after <= due + more
  {
  }

  // ---------- the loop ----------

  class Backend<S> {
    const rpc: Rpc<S>
    const conn: Socket
    const hdr: array<byte>
    const rpkts: array<byte>
    var state: S
    ghost var executed: seq<Frame>

    ghost predicate Valid() {
      && conn.fd >= 0
      && hdr.Length == HDR_SIZE && rpkts.Length == MAX_REMOTE_BATCH_SIZE * RPKT_SIZE
      && hdr != rpkts
    }

    constructor (rpc: Rpc<S>, conn: Socket, state: S)
      requires conn.fd >= 0
      ensures Valid() && this.rpc == rpc && this.conn == conn && this.state == state && executed == []
      ensures fresh(hdr) && fresh(rpkts)
    {
      this.rpc, this.conn, this.state, this.executed := rpc, conn, state, [];
      hdr := new byte[HDR_SIZE](_ => 0);
      rpkts := new byte[MAX_REMOTE_BATCH_SIZE * RPKT_SIZE](_ => 0);
    }

    /** get of bytes that come next on the stream if it goes on for long enough. */
    method ReadExact(buf: array<byte>, len: nat, ghost want: seq<byte>, ghost rest: seq<byte>) returns (ok: bool)
      requires Valid() && len == |want| <= buf.Length && conn.input <= want + rest
      modifies conn, buf
      ensures conn.output == old(conn.output)
      ensures ok ==> buf[..len] == want && want <= old(conn.input) && conn.input == old(conn.input)[len..] <= rest
      ensures conn.Reliable() && want <= old(conn.input) ==> ok
    {
      ghost var stream := conn.input;
      var ret, moved := Get(conn, buf, len);
      ok := ret == 1;
      if ok {
        assert stream[..len] == (want + rest)[..len];
        assert stream[len..] <= (want + rest)[len..];
      }
    }

    /** The batch as the server finds it in its array of packets. */
    method ReadPackets(n: nat) returns (packets: seq<Packet>)
      requires Valid() && n <= MAX_REMOTE_BATCH_SIZE
      ensures |packets| == n
      ensures forall i :: 0 <= i < n ==> packets[i] == rpkts[i * RPKT_SIZE..(i + 1) * RPKT_SIZE]
    {
      packets := [];
      for i := 0 to n
        invariant |packets| == i
        invariant forall k :: 0 <= k < i ==> packets[k] == rpkts[k * RPKT_SIZE..(k + 1) * RPKT_SIZE]
      {
        packets := packets + [rpkts[i * RPKT_SIZE..(i + 1) * RPKT_SIZE]];
      }
    }

    /** The header of the next frame. */
    method ReceiveHeader(ghost f: Frame, ghost rest: seq<byte>) returns (ok: bool, n: nat, size: nat)
      requires Valid() && conn.input <= EncHeader(|f.packets|, |f.data|) + rest && WellFormed(f)
      modifies conn, hdr
      ensures conn.output == old(conn.output)
      ensures ok ==> n == |f.packets| && size == |f.data|
      ensures ok ==> EncHeader(|f.packets|, |f.data|) <= old(conn.input)
      ensures ok ==> conn.input == old(conn.input)[HDR_SIZE..] <= rest
      ensures conn.Reliable() && EncHeader(|f.packets|, |f.data|) <= old(conn.input) ==> ok
    {
      ghost var want := EncHeader(|f.packets|, |f.data|);
      n, size := 0, 0;
      ok := ReadExact(hdr, HDR_SIZE, want, rest);
      if ok {
        HeaderRoundTrip(|f.packets|, |f.data|);
        assert hdr[..INT_SIZE] == want[..INT_SIZE] && hdr[INT_SIZE..HDR_SIZE] == want[INT_SIZE..];
        n, size := FromLE(hdr[..INT_SIZE]), FromLE(hdr[INT_SIZE..HDR_SIZE]);
      }
    }

    /** The packets of the frame. */
    method ReceivePackets(n: nat, ghost ps: seq<Packet>, ghost rest: seq<byte>) returns (ok: bool, packets: seq<Packet>)
      requires Valid() && n == |ps| <= MAX_REMOTE_BATCH_SIZE && conn.input <= Concat(ps) + rest
      modifies conn, rpkts
      ensures conn.output == old(conn.output)
      ensures ok ==> packets == ps && Concat(ps) <= old(conn.input)
      ensures ok ==> conn.input == old(conn.input)[|Concat(ps)|..] <= rest
      ensures conn.Reliable() && Concat(ps) <= old(conn.input) ==> ok
    {
      packets := [];
      PacketsLength(ps);
      ok := ReadExact(rpkts, n * RPKT_SIZE, Concat(ps), rest);
      if ok {
        packets := ReadPackets(n);
        forall i | 0 <= i < n ensures packets[i] == ps[i] {
          PacketAt(ps, i);
          assert rpkts[i * RPKT_SIZE..(i + 1) * RPKT_SIZE] == rpkts[..n * RPKT_SIZE][i * RPKT_SIZE..(i + 1) * RPKT_SIZE];
        }
      }
    }

    /** The request buffer of the frame, if any. */
    method ReceiveData(size: nat, ghost d: Payload, ghost rest: seq<byte>) returns (ok: bool, data: Payload)
      requires Valid() && size == |d| && conn.input <= d + rest
      modifies conn
      ensures conn.output == old(conn.output)
      ensures ok ==> data == d && d <= old(conn.input) && conn.input == old(conn.input)[|d|..] <= rest
      ensures conn.Reliable() && d <= old(conn.input) ==> ok
    {
      if size == 0 {
        assert d + rest == rest;
        return true, [];
      }
      data := [];
      var buffer := new byte[size];
      ok := ReadExact(buffer, size, d, rest);
      if ok {
        data := buffer[..size];
      }
    }

    /** put of a whole buffer; what gets out is a prefix of it. */
    method WriteExact(buf: array<byte>, len: nat) returns (ok: bool)
      requires Valid() && len <= buf.Length
      modifies conn
      ensures conn.input == old(conn.input)
      ensures old(conn.output) <= conn.output <= old(conn.output) + buf[..len]
      ensures ok ==> conn.output == old(conn.output) + buf[..len]
      ensures conn.Reliable() ==> ok
    {
      var ret, moved := Put(conn, buf, len);
      ok := ret == 1;
      assert buf[..len] == buf[..moved] + buf[moved..len];
    }

    /** conn_sendCudaPktHdr */
    method SendCudaPktHdr(packets: nat, size: nat) returns (ok: bool)
      requires Valid()
      modifies conn, hdr
      ensures conn.input == old(conn.input)
      ensures old(conn.output) <= conn.output <= old(conn.output) + EncHeader(packets, size)
      ensures ok ==> conn.output == old(conn.output) + EncHeader(packets, size)
      ensures conn.Reliable() ==> ok
    {
      var next := PutNum(hdr, 0, packets, INT_SIZE);
      next := PutNum(hdr, next, size, INT_SIZE);
      assert hdr[..HDR_SIZE] == EncHeader(packets, size);
      ok := WriteExact(hdr, HDR_SIZE);
    }

    method SendResponse(p: Packet, d: Payload, ghost whole: seq<byte>) returns (ok: bool)
      requires Valid() && rpkts[..RPKT_SIZE] == p && whole == EncFrame(Answer(p, d))
      modifies conn, hdr
      ensures conn.input == old(conn.input)
      ensures old(conn.output) <= conn.output <= old(conn.output) + whole
      ensures ok ==> conn.output == old(conn.output) + whole
      ensures conn.Reliable() ==> ok
    {
      ghost var sent, head := conn.output, EncHeader(1, |d|);
      AnswerParts(p, d, head, whole);
      ok := SendCudaPktHdr(1, |d|);
      Within(sent, head, p, d, conn.output, whole);
      if ok {
        ok := WriteExact(rpkts, RPKT_SIZE);
        Within(sent, head, p, d, conn.output, whole);
      }
      if ok {
        ok := SendBuffer(d);
        Within(sent, head, p, d, conn.output, whole);
      }
    }

    /** The response buffer, if there is anything in it. */
    method SendBuffer(d: Payload) returns (ok: bool)
      requires Valid()
      modifies conn
      ensures conn.input == old(conn.input)
      ensures old(conn.output) <= conn.output <= old(conn.output) + d
      ensures ok ==> conn.output == old(conn.output) + d
      ensures conn.Reliable() ==> ok
    {
      ok := true;
      if |d| > 0 {
        var buffer := new byte[|d|];
        var next := PutBytes(buffer, 0, d);
        ok := WriteExact(buffer, |d|);
      }
    }

    /** Executes the frame and answers it. */
    method Execute(f: Frame) returns (ok: bool)
      requires Valid() && f.packets != []
      modifies this, conn, hdr, rpkts
      ensures conn.input == old(conn.input)
      ensures state == StepState(rpc, old(state), f) && executed == old(executed) + [f]
      ensures old(conn.output) <= conn.output <= old(conn.output) + EncFrames(Answers(rpc, old(state), f))
      ensures ok ==> conn.output == old(conn.output) + EncFrames(Answers(rpc, old(state), f))
      ensures var r := rpc.execute(old(state), f);
              && state == r.state
              && (rpc.expects(f.packets[0 := r.packet]) && ok ==>
                    conn.output == old(conn.output) + EncFrame(Frame([r.packet], r.response)))
              && (!rpc.expects(f.packets[0 := r.packet]) ==> conn.output == old(conn.output))
      ensures conn.Reliable() ==> ok
    {
      var r := rpc.execute(state, f);
      state, executed := r.state, executed + [f];
      var next := PutBytes(rpkts, 0, r.packet);
      ok := true;
      AnswerBytes(Answer(r.packet, r.response));
      if rpc.expects(f.packets[0 := r.packet]) {
        ok := SendResponse(r.packet, r.response, EncFrame(Answer(r.packet, r.response)));
      }
    }

    /** One turn of the loop on a stream that goes on with `f` and then `rest`, as far as it goes. The turn
        has run when the frame needed no execution or was executed. */
    method ServeNext(ghost f: Frame, ghost rest: seq<byte>) returns (alive: bool, ghost ran: bool)
      requires Valid() && WellFormed(f) && conn.input <= EncFrame(f) + rest
      modifies this, conn, hdr, rpkts
      ensures alive ==> ran && EncFrame(f) <= old(conn.input)
      ensures alive ==> conn.input == old(conn.input)[|EncFrame(f)|..] <= rest
      ensures ran ==> state == StepState(rpc, old(state), f) && executed == old(executed) + Calls(f)
      ensures !ran ==> state == old(state) && executed == old(executed) && conn.output == old(conn.output)
      ensures ran ==> EncFrame(f) <= old(conn.input)
      ensures old(conn.output) <= conn.output
      ensures ran ==> conn.output <= old(conn.output) + EncFrames(Answers(rpc, old(state), f))
      ensures alive ==> conn.output == old(conn.output) + EncFrames(Answers(rpc, old(state), f))
      ensures conn.Reliable() && EncFrame(f) <= old(conn.input) ==> alive
    {
      ghost var stream, head, body := conn.input, EncHeader(|f.packets|, |f.data|), Concat(f.packets);
      assert EncFrame(f) + rest == head + (body + (f.data + rest));
      assert EncFrame(f) == head + (body + f.data);
      ran := false;
      var ok, n, size := ReceiveHeader(f, body + (f.data + rest));
      if !ok {
        return false, false;
      }
      assert EncFrame(f) <= stream ==> body + f.data <= conn.input by {
        assert EncFrame(f)[HDR_SIZE..] == body + f.data;
      }
      if n <= 0 {
        assert EncFrame(f) == head && body + (f.data + rest) == rest;
        return true, true;
      }
      var packets, data;
      ok, packets := ReceivePackets(n, f.packets, f.data + rest);
      if !ok {
        return false, false;
      }
      ok, data := ReceiveData(size, f.data, rest);
      if !ok {
        return false, false;
      }
      assert stream == EncFrame(f) + conn.input;
      ran := true;
      alive := Execute(Frame(packets, data));
    }

    ghost predicate Progress(s: S, frames: seq<Frame>, served: nat, ran: nat)
      reads this, conn
    {
      Sent(rpc, s, frames, served, ran, executed, state, conn.output)
    }

    /** All frames are executed and all answers sent. */
    ghost predicate Complete(s: S, frames: seq<Frame>)
      reads this, conn
    {
      && executed == Executed(frames) && state == StateAfter(rpc, s, frames)
      && conn.output == EncFrames(Replies(rpc, s, frames))
    }

    lemma Completed(s: S, frames: seq<Frame>, served: nat, ran: nat)
      requires Progress(s, frames, served, ran) && served == ran == |frames|
      ensures Complete(s, frames)
    {
      assert frames[..|frames|] == frames;
    }

    /** The stream goes on with the frames behind the first `served` ones, as far as it goes. */
    ghost predicate Ahead(frames: seq<Frame>, served: nat, whole: bool)
      reads conn
    {
      && served <= |frames| && conn.input <= EncFrames(frames[served..])
      && (whole ==> conn.input == EncFrames(frames[served..]))
    }

    /** One turn of the loop behind the first `served` frames; at the end of the stream it stops. */
    method Turn(ghost s: S, ghost frames: seq<Frame>, ghost served: nat, ghost whole: bool)
      returns (alive: bool, ghost ran: nat)
      requires Valid() && Progress(s, frames, served, served) && Ahead(frames, served, whole)
      requires forall i :: 0 <= i < |frames| ==> WellFormed(frames[i])
      modifies this, conn, hdr, rpkts
      ensures Progress(s, frames, if alive then served + 1 else served, ran)
      ensures alive ==> ran == served + 1 && Ahead(frames, served + 1, whole)
      ensures conn.Reliable() && whole && served < |frames| ==> alive
    {
      ghost var end := served == |frames|;
      ghost var f := if end then Frame([], []) else frames[served];
      ghost var rest := if end then [] else EncFrames(frames[served + 1..]);
      if !end {
        StreamFrom(frames, served);
      }
      ghost var calls, st, sent := executed, state, conn.output;
      ghost var did;
      alive, did := ServeNext(f, rest);
      ran := if did then served + 1 else served;
      if did {
        assert !end;
        SentNext(rpc, s, frames, served, calls, st, sent, conn.output);
      }
    }

    /** The loop of backend_thread. However the transfers turn out, whole frames are executed once each and in
        order, and the answers sent are a prefix of the ones due; at most the last executed frame lacks part
        of its answer. If all transfers succeed, nothing is left undone. */
    method Serve(ghost frames: seq<Frame>) returns (ghost served: nat, ghost ran: nat)
      requires Valid() && conn.output == [] && executed == []
      requires forall i :: 0 <= i < |frames| ==> WellFormed(frames[i])
      requires conn.input <= EncFrames(frames)
      modifies this, conn, hdr, rpkts
      ensures Progress(old(state), frames, served, ran)
      ensures conn.Reliable() && old(conn.input) == EncFrames(frames) ==>
                served == ran == |frames| && Complete(old(state), frames)
    {
      ghost var s, whole := state, conn.input == EncFrames(frames);
      assert frames[0..] == frames;
      served, ran := 0, 0;
      var alive := true;
      while alive
        invariant Progress(s, frames, served, ran)
        invariant alive ==> ran == served && Ahead(frames, served, whole)
        invariant conn.Reliable() && whole && !alive ==> served == |frames|
        decreases |frames| - served, alive
      {
        alive, ran := Turn(s, frames, served, whole);
        if alive {
          served := served + 1;
        }
      }
      if conn.Reliable() && whole {
        Completed(s, frames, served, ran);
      }
    }
  }
}
