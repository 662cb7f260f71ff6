/** Decoders that read a value off the front of a byte sequence, and how they compose. */
module Codec {
  import opened Wrappers
  import opened Wire

  /** The value read and the number of bytes used, or None when the bytes run out. */
  type Decoder<!T> = seq<byte> -> Option<(T, nat)>

  function Tail(b: seq<byte>, n: nat): seq<byte> {
    if n <= |b| then b[n..] else []
  }

  /** `dec` reads `v` from `code` and uses exactly `code`, whatever bytes follow. */
  ghost predicate Reads<T>(dec: Decoder<T>, code: seq<byte>, v: T) {
    forall rest: seq<byte> :: dec(code + rest) == Some((v, |code|))
  }

  function Both<A, B>(a: Decoder<A>, b: Decoder<B>): Decoder<(A, B)> {
    bytes =>
      match a(bytes)
      case None => None
      case Some((x, n)) =>
        match b(Tail(bytes, n))
        case None => None
        case Some((y, m)) => Some(((x, y), n + m))
  }

  function Map<A, B>(a: Decoder<A>, f: A -> B): Decoder<B> {
    bytes =>
      var (x, n) :- a(bytes);
      Some((f(x), n))
  }

  lemma BothParts<A, B>(a: Decoder<A>, b: Decoder<B>, bytes: seq<byte>)
    requires Both(a, b)(bytes).Some?
    ensures a(bytes).Some? && b(Tail(bytes, a(bytes).value.1)).Some?
    ensures var x, y := a(bytes).value, b(Tail(bytes, a(bytes).value.1)).value;
            Both(a, b)(bytes) == Some(((x.0, y.0), x.1 + y.1))
  {
  }

  lemma MapParts<A, B>(a: Decoder<A>, f: A -> B, bytes: seq<byte>)
    requires Map(a, f)(bytes).Some?
    ensures a(bytes).Some? && Map(a, f)(bytes) == Some((f(a(bytes).value.0), a(bytes).value.1))
  {
  }

  /** One decoder after the other. */
  function Each<T>(decs: seq<Decoder<T>>, b: seq<byte>): (r: Option<(seq<T>, nat)>)
    ensures r.Some? ==> |r.value.0| == |decs|
  {
    if decs == [] then Some(([], 0))
    else
      var (front, n) :- Each(decs[..|decs| - 1], b);
      var (last, m) :- decs[|decs| - 1](Tail(b, n));
      Some((front + [last], n + m))
  }

  function Concat(codes: seq<seq<byte>>): seq<byte> {
    if codes == [] then [] else Concat(codes[..|codes| - 1]) + codes[|codes| - 1]
  }

  /** One more code behind the first i, all within the whole. */
  lemma ConcatNext(codes: seq<seq<byte>>, i: nat)
    requires i < |codes|
    ensures Concat(codes[..i + 1]) == Concat(codes[..i]) + codes[i]
    ensures |Concat(codes[..i + 1])| <= |Concat(codes)|
  {
    assert codes[..i + 1][..i] == codes[..i];
    ConcatPrefixShorter(codes, i + 1);
  }

  lemma {:induction false} ConcatPrefixShorter(codes: seq<seq<byte>>, i: nat)
    requires i <= |codes|
    ensures |Concat(codes[..i])| <= |Concat(codes)|
    decreases |codes|
  {
    if i < |codes| {
      var front := codes[..|codes| - 1];
      ConcatPrefixShorter(front, i);
      assert front[..i] == codes[..i];
    } else {
      assert codes[..i] == codes;
    }
  }

  lemma BothReads<A, B>(a: Decoder<A>, b: Decoder<B>, ca: seq<byte>, va: A, cb: seq<byte>, vb: B)
    requires Reads(a, ca, va) && Reads(b, cb, vb)
    ensures Reads(Both(a, b), ca + cb, (va, vb))
  {
    forall rest: seq<byte>
      ensures Both(a, b)(ca + cb + rest) == Some(((va, vb), |ca + cb|))
    {
      assert ca + cb + rest == ca + (cb + rest);
      assert Tail(ca + (cb + rest), |ca|) == cb + rest;
    }
  }

  lemma MapReads<A, B>(a: Decoder<A>, f: A -> B, code: seq<byte>, v: A)
    requires Reads(a, code, v)
    ensures Reads(Map(a, f), code, f(v))
  {
  }

  lemma {:induction false} EachReadsBefore<T>(decs: seq<Decoder<T>>, codes: seq<seq<byte>>, vs: seq<T>, rest: seq<byte>)
    requires |decs| == |codes| == |vs|
    requires forall i :: 0 <= i < |vs| ==> Reads(decs[i], codes[i], vs[i])
    ensures Each(decs, Concat(codes) + rest) == Some((vs, |Concat(codes)|))
  {
    if vs != [] {
      var n := |vs| - 1;
      var front, tail := Concat(codes[..n]), codes[n] + rest;
      assert Concat(codes) + rest == front + tail;
      EachReadsBefore(decs[..n], codes[..n], vs[..n], tail);
      assert Tail(front + tail, |front|) == tail;
      assert vs == vs[..n] + [vs[n]];
    }
  }

  /** Decoding the first i of several things succeeds when decoding all of them does. */
  lemma {:induction false} EachPrefix<T>(decs: seq<Decoder<T>>, b: seq<byte>, i: nat)
    requires i <= |decs| && Each(decs, b).Some?
    ensures Each(decs[..i], b).Some?
    ensures Each(decs[..i], b).value.0 == Each(decs, b).value.0[..i]
  {
    if i < |decs| {
      var front := decs[..|decs| - 1];
      EachPrefix(front, b, i);
      assert front[..i] == decs[..i];
    } else {
      assert decs[..i] == decs;
    }
  }

  /** One more turn of a loop that decodes things one by one. */
  lemma EachNext<T>(decs: seq<Decoder<T>>, b: seq<byte>, i: nat)
    requires i < |decs| && Each(decs, b).Some?
    ensures Each(decs[..i], b).Some?
    ensures var (front, n) := Each(decs[..i], b).value;
            && decs[i](Tail(b, n)).Some?
            && var (v, m) := decs[i](Tail(b, n)).value;
               Each(decs[..i + 1], b) == Some((front + [v], n + m))
  {
    EachPrefix(decs, b, i + 1);
    assert decs[..i + 1][..i] == decs[..i];
  }

  /** What that turn must have read. */
  lemma NextIs<T>(decs: seq<Decoder<T>>, b: seq<byte>, i: nat, front: seq<T>, n: nat, dec: Decoder<T>, tail: seq<byte>)
    requires i < |decs| && Each(decs, b).Some? && Each(decs[..i], b) == Some((front, n))
    requires dec == decs[i] && tail == Tail(b, n)
    ensures dec(tail).Some?
  {
    EachNext(decs, b, i);
  }

  lemma TurnDone<T>(decs: seq<Decoder<T>>, b: seq<byte>, i: nat, front: seq<T>, n: nat, dec: Decoder<T>,
                    tail: seq<byte>, v: T, m: nat, used: nat)
    requires i < |decs| && Each(decs, b).Some? && Each(decs[..i], b) == Some((front, n))
    requires dec == decs[i] && tail == Tail(b, n) && dec(tail) == Some((v, m)) && used == n + m
    ensures Each(decs[..i + 1], b) == Some((front + [v], used))
  {
    EachNext(decs, b, i);
  }

  /** The bytes used by all the decoders, and those of the last one once more. */
  function LastTwice<T>(decs: seq<Decoder<T>>, b: seq<byte>): Option<nat>
    requires decs != []
  {
    var (_, before) :- Each(decs[..|decs| - 1], b);
    var (_, n) :- Each(decs, b);
    if before <= n then Some(n + (n - before)) else None
  }

  lemma LastTwiceIs<T>(decs: seq<Decoder<T>>, b: seq<byte>, front: seq<T>, before: nat, all: seq<T>, n: nat, r: nat)
    requires decs != [] && before <= n && r == n + (n - before)
    requires Each(decs[..|decs| - 1], b) == Some((front, before)) && Each(decs, b) == Some((all, n))
    ensures LastTwice(decs, b) == Some(r)
  {
  }

  lemma LastTwiceReads<T>(decs: seq<Decoder<T>>, codes: seq<seq<byte>>, vs: seq<T>, rest: seq<byte>, src: seq<byte>, r: nat)
    requires |decs| == |codes| == |vs| > 0 && r == |Concat(codes)| + |codes[|codes| - 1]|
    requires forall i :: 0 <= i < |vs| ==> Reads(decs[i], codes[i], vs[i])
    requires src == Concat(codes) + rest
    ensures LastTwice(decs, src) == Some(r)
  {
    var n := |vs| - 1;
    var front, tail := Concat(codes[..n]), codes[n] + rest;
    assert src == front + tail;
    EachReadsBefore(decs[..n], codes[..n], vs[..n], tail);
    EachReadsBefore(decs, codes, vs, rest);
    LastTwiceIs(decs, src, vs[..n], |front|, vs, |Concat(codes)|, r);
  }

  // ---------- numbers and strings ----------

  function Num(w: nat): Decoder<nat> {
    b => var n :- DecNum(b, w); Some((n, w))
  }

  lemma NumReads(n: nat, w: nat)
    requires Fits(n, w)
    ensures Reads(Num(w), LE(n, w), n)
  {
    forall rest: seq<byte> ensures Num(w)(LE(n, w) + rest) == Some((n, w)) {
      DecNumRoundTrip(n, w, rest);
    }
  }

  lemma StrReads(s: CStr)
    requires StrFits(s)
    ensures Reads(DecStr, EncStr(s), NormStr(s))
  {
    forall rest: seq<byte> ensures DecStr(EncStr(s) + rest) == Some((NormStr(s), |EncStr(s)|)) {
      DecStrRoundTrip(s, rest);
    }
  }
}
