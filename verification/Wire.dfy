/** Bytes on the wire: fixed-width numbers, length-prefixed strings, and writing through an advancing
    pointer into a buffer. Widths are those of x86_64. */
module Wire {
  import opened Wrappers

  type byte = x: int | 0 <= x < 256

  const INT_SIZE := 4    // int, unsigned int, size_pkt_field_t
  const LONG_SIZE := 8   // unsigned long, pointers

  // ---------- numbers ----------

  function Pow256(w: nat): (r: nat)
    ensures r > 0
  {
    if w == 0 then 1 else 256 * Pow256(w - 1)
  }

  /** `n` in `w` bytes, least significant first; higher digits are cut off. */
  function LE(n: nat, w: nat): (r: seq<byte>)
    ensures |r| == w
    decreases w, n
  {
    if w == 0 then [] else [n % 256] + LE(n / 256, w - 1)
  }

  function FromLE(b: seq<byte>): nat {
    if b == [] then 0 else b[0] + 256 * FromLE(b[1..])
  }

  lemma {:induction false} LERoundTrip(n: nat, w: nat)
    requires n < Pow256(w)
    ensures FromLE(LE(n, w)) == n
  {
    if w > 0 {
      LERoundTrip(n / 256, w - 1);
      assert LE(n, w)[1..] == LE(n / 256, w - 1);
    }
  }

  /** Byte i is the digit of weight 256 to the power i. */
  lemma {:induction false} LEDigit(n: nat, w: nat, i: nat)
    requires i < w
    ensures LE(n, w)[i] == n / Pow256(i) % 256
  {
    if i > 0 {
      LEDigit(n / 256, w - 1, i - 1);
      DivideTwice(n, Pow256(i - 1));
    }
  }

  lemma DivideTwice(n: nat, p: nat)
    requires p > 0
    ensures n / 256 / p == n / (256 * p)
  {
    var q, r := n / 256, n % 256;
    var a, b := q / p, q % p;
    assert n == 256 * (a * p + b) + r;
    assert n == a * (256 * p) + (256 * b + r) && 256 * b + r < 256 * p;
    QuotientIs(n, 256 * p, a, 256 * b + r);
  }

  lemma QuotientIs(n: nat, d: nat, q: nat, r: nat)
    requires n == q * d + r && r < d
    ensures n / d == q
  {
    var k := n / d;
    assert (k - q) * d == r - n % d;
    AtLeastOnce(k - q, d);
    AtLeastOnce(q - k, d);
  }

  lemma AtLeastOnce(x: int, d: nat)
    ensures x >= 1 ==> x * d >= d
  {
    if x >= 1 {
      assert x * d == d + (x - 1) * d;
    }
  }

  predicate Fits(n: nat, w: nat) {
    n < Pow256(w)
  }

  /** Reading a number of width `w` off the front of `b`. */
  function DecNum(b: seq<byte>, w: nat): Option<nat> {
    if |b| < w then None else Some(FromLE(b[..w]))
  }

  lemma DecNumRoundTrip(n: nat, w: nat, rest: seq<byte>)
    requires Fits(n, w)
    ensures DecNum(LE(n, w) + rest, w) == Some(n)
  {
    assert (LE(n, w) + rest)[..w] == LE(n, w);
    LERoundTrip(n, w);
  }

  // ---------- strings ----------

  /** A C string pointer: NULL, or the characters before the terminator. */
  datatype CStr = Null | Chars(s: seq<byte>)

  function StrLen(s: CStr): nat {
    if s.Null? then 0 else |s.s|
  }

  function StrBytes(s: CStr): seq<byte> {
    if s.Null? then [] else s.s
  }

  predicate StrFits(s: CStr) {
    Fits(StrLen(s), INT_SIZE)
  }

  /** l_getStringPktSize */
  function StrSize(s: CStr): nat {
    INT_SIZE + StrLen(s)
  }

  /** What l_packStr writes. */
  function EncStr(s: CStr): (r: seq<byte>)
    ensures |r| == StrSize(s)
  {
    LE(StrLen(s), INT_SIZE) + StrBytes(s)
  }

  /** What l_unpackStr makes of it: the empty string comes back as NULL. */
  function NormStr(s: CStr): CStr {
    if StrLen(s) == 0 then Null else s
  }

  function DecStr(b: seq<byte>): (r: Option<(CStr, nat)>)
    ensures r.Some? ==> r.value.1 <= |b|
  {
    var n :- DecNum(b, INT_SIZE);
    if |b| < INT_SIZE + n then None
    else Some((if n == 0 then Null else Chars(b[INT_SIZE..INT_SIZE + n]), INT_SIZE + n))
  }

  /** A length, as many bytes, and whatever follows. */
  lemma DecStrParts(head: seq<byte>, body: seq<byte>, rest: seq<byte>, b: seq<byte>, s: CStr, n: nat)
    requires |head| == INT_SIZE && FromLE(head) == |body| && b == head + body + rest && n == INT_SIZE + |body|
    requires s == if body == [] then Null else Chars(body)
    ensures DecStr(b) == Some((s, n))
  {
    assert b[..INT_SIZE] == head && b[INT_SIZE..n] == body;
  }

  /** A string comes back as it was, but the empty one as NULL. */
  lemma DecStrRoundTrip(s: CStr, rest: seq<byte>)
    requires StrFits(s)
    ensures DecStr(EncStr(s) + rest) == Some((NormStr(s), |EncStr(s)|))
    ensures NormStr(s) == if s == Null || s == Chars([]) then Null else s
  {
    LERoundTrip(StrLen(s), INT_SIZE);
    DecStrParts(LE(StrLen(s), INT_SIZE), StrBytes(s), rest, EncStr(s) + rest, NormStr(s), |EncStr(s)|);
  }

  // ---------- writing through a pointer ----------

  /** memcpy into the buffer; returns the advanced position. What precedes `at` is kept. */
  method PutBytes(dst: array<byte>, at: nat, bytes: seq<byte>) returns (next: nat)
    requires at + |bytes| <= dst.Length
    modifies dst
    ensures next == at + |bytes| && dst[..next] == old(dst[..at]) + bytes
  {
    for i := 0 to |bytes|
      invariant forall k :: 0 <= k < i ==> dst[at + k] == bytes[k]
      invariant forall k :: 0 <= k < at ==> dst[k] == old(dst[k])
    {
      dst[at + i] := bytes[i];
    }
    next := at + |bytes|;
  }

  method PutNum(dst: array<byte>, at: nat, n: nat, w: nat) returns (next: nat)
    requires at + w <= dst.Length
    modifies dst
    ensures next == at + w && dst[..next] == old(dst[..at]) + LE(n, w)
  {
    next := PutBytes(dst, at, LE(n, w));
  }

  /** l_packStr */
  method PackStr(dst: array<byte>, at: nat, s: CStr) returns (next: nat)
    requires at + |EncStr(s)| <= dst.Length
    modifies dst
    ensures next == at + |EncStr(s)| && dst[..next] == old(dst[..at]) + EncStr(s)
  {
    var length := if s.Null? || |s.s| == 0 then 0 else |s.s|;
    next := PutNum(dst, at, length, INT_SIZE);
    if length > 0 {
      next := PutBytes(dst, next, s.s);
    }
  }

  /** Reading a number at `pos`. */
  method GetNum(src: seq<byte>, pos: nat, w: nat) returns (n: nat, next: nat)
    requires pos <= |src| && DecNum(src[pos..], w).Some?
    ensures DecNum(src[pos..], w) == Some(n) && next == pos + w <= |src|
  {
    next := pos + w;
    n := FromLE(src[pos..next]);
    assert src[pos..][..w] == src[pos..next];
  }

  /** l_unpackStr */
  method UnpackStr(src: seq<byte>, pos: nat) returns (s: CStr, next: nat)
    requires pos <= |src| && DecStr(src[pos..]).Some?
    ensures pos <= next <= |src| && DecStr(src[pos..]) == Some((s, next - pos))
  {
    var length;
    length, next := GetNum(src, pos, INT_SIZE);
    if length == 0 {
      return Null, next;
    }
    assert src[pos..][INT_SIZE..INT_SIZE + length] == src[next..next + length];
    s := Chars(src[next..next + length]);
    next := next + length;
  }
}
