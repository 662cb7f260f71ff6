/** Moving bytes over a socket that transfers as many of them at a time as it likes, or fails. */
module Transport {
  import opened Wire

  const PER_XFER_MAX := 1024
  const EINVAL := 22

  function Min(a: int, b: int): int { if a < b then a else b }

  /** `input` is all that the peer will ever send, then it closes; `chance(t)` is how the t-th call of send
      or recv turns out: an error code that is not positive, or how many bytes may move at most. */
  class Socket {
    const fd: int
    const chance: nat -> int
    var clock: nat
    var input: seq<byte>
    var output: seq<byte>

    constructor (fd: int, chance: nat -> int, input: seq<byte>)
      ensures this.fd == fd && this.chance == chance && this.input == input && output == [] && clock == 0
    {
      this.fd, this.chance, this.input, this.output, this.clock := fd, chance, input, [], 0;
    }

    ghost predicate Reliable() {
      forall t: nat :: chance(t) > 0
    }

    /** send(2) */
    method Send(bytes: seq<byte>) returns (n: int)
      requires bytes != []
      modifies this`clock, this`output
      ensures n == Min(chance(old(clock)), |bytes|)
      ensures output == old(output) + if n > 0 then bytes[..n] else []
    {
      n := Min(chance(clock), |bytes|);
      clock := clock + 1;
      if n > 0 {
        output := output + bytes[..n];
      }
    }

    /** recv(2) into the buffer at `at` */
    method Recv(msg: array<byte>, at: nat, most: nat) returns (n: int)
      requires most > 0 && at + most <= msg.Length
      modifies this`clock, this`input, msg
      ensures n == Min(chance(old(clock)), Min(most, |old(input)|))
      ensures n <= 0 ==> input == old(input) && msg[..] == old(msg[..])
      ensures n > 0 ==>
                && input == old(input)[n..]
                && msg[..at + n] == old(msg[..at]) + old(input)[..n]
                && msg[at + n..] == old(msg[at + n..])
    {
      n := Min(chance(clock), Min(most, |input|));
      clock := clock + 1;
      if n > 0 {
        Store(msg, at, input[..n]);
        input := input[n..];
      }
    }
  }

  /** What the system does to a buffer when bytes arrive. */
  method Store(msg: array<byte>, at: nat, bytes: seq<byte>)
    requires at + |bytes| <= msg.Length
    modifies msg
    ensures msg[..at + |bytes|] == old(msg[..at]) + bytes
    ensures msg[at + |bytes|..] == old(msg[at + |bytes|..])
  {
    for i := 0 to |bytes|
      invariant forall k :: 0 <= k < i ==> msg[at + k] == bytes[k]
      invariant forall k :: 0 <= k < msg.Length && !(at <= k < at + i) ==> msg[k] == old(msg[k])
    {
      msg[at + i] := bytes[i];
    }
  }

  lemma Further(stream: seq<byte>, at: nat, n: nat)
    requires at + n <= |stream|
    ensures stream[at..][n..] == stream[at + n..] && stream[..at] + stream[at..][..n] == stream[..at + n]
  {
  }

  lemma SameTail(a: seq<byte>, b: seq<byte>, at: nat, n: nat)
    requires |a| == |b| && at + n <= |a| && a[at..] == b[at..]
    ensures a[at + n..] == b[at + n..]
  {
    assert a[at + n..] == a[at..][n..] && b[at + n..] == b[at..][n..];
  }

  predicate ValidArgs(conn: Socket?, msg: array?<byte>, len: int) {
    conn != null && conn.fd >= 0 && msg != null && len >= 0
  }

  /** Sends exactly len bytes in order and returns 1, or stops behind a proper prefix of them. */
  method Put(conn: Socket?, msg: array?<byte>, len: int) returns (ret: int, ghost moved: nat)
    requires msg != null ==> len <= msg.Length
    modifies conn
    ensures conn != null ==> conn.input == old(conn.input)
    ensures !ValidArgs(conn, msg, len) ==> ret == -EINVAL && (conn != null ==> conn.output == old(conn.output))
    ensures ValidArgs(conn, msg, len) ==>
              && moved <= len && conn.output == old(conn.output) + msg[..moved]
              && (ret == 1 <==> moved == len) && (ret == 1 || ret <= 0)
              && (conn.Reliable() ==> ret == 1)
  {
    moved := 0;
    if conn == null || conn.fd < 0 || msg == null || len < 0 {
      return -EINVAL, 0;
    }
    var at, remain := 0, len;
    while remain > 0
      invariant 0 <= remain && at + remain == len
      invariant conn.input == old(conn.input) && conn.output == old(conn.output) + msg[..at]
    {
      var sent := conn.Send(msg[at..at + if remain > PER_XFER_MAX then PER_XFER_MAX else remain]);
      if sent <= 0 {
        return sent, at;
      }
      remain := remain - sent;
      at := at + sent;
    }
    ret, moved := 1, len;
  }

  /** Fills the first len bytes of the buffer from the stream and returns 1, or stops after fewer. */
  method Get(conn: Socket?, msg: array?<byte>, len: int) returns (ret: int, ghost moved: nat)
    requires msg != null ==> len <= msg.Length
    modifies conn, msg
    ensures conn != null ==> conn.output == old(conn.output)
    ensures !ValidArgs(conn, msg, len) ==>
              ret == -EINVAL && (conn != null ==> conn.input == old(conn.input)) &&
              (msg != null ==> msg[..] == old(msg[..]))
    ensures ValidArgs(conn, msg, len) ==>
              && moved <= len && moved <= |old(conn.input)|
              && conn.input == old(conn.input)[moved..] && msg[..moved] == old(conn.input)[..moved]
              && msg[moved..] == old(msg[moved..])
              && (ret == 1 <==> moved == len) && (ret == 1 || ret <= 0)
              && (conn.Reliable() ==> (ret == 1 <==> len <= |old(conn.input)|))
  {
    moved := 0;
    if conn == null || conn.fd < 0 || msg == null || len < 0 {
      return -EINVAL, 0;
    }
    var at, remain := 0, len;
    while remain > 0
      invariant 0 <= remain && at + remain == len && at <= |old(conn.input)|
      invariant conn.input == old(conn.input)[at..] && conn.output == old(conn.output)
      invariant msg[..at] == old(conn.input)[..at] && msg[at..] == old(msg[..])[at..]
    {
      ghost var was := msg[..];
      var recvd := conn.Recv(msg, at, if remain > PER_XFER_MAX then PER_XFER_MAX else remain);
      if recvd <= 0 {
        return recvd, at;
      }
      Further(old(conn.input), at, recvd);
      SameTail(was, old(msg[..]), at, recvd);
      remain := remain - recvd;
      at := at + recvd;
    }
    ret, moved := 1, len;
  }
}
