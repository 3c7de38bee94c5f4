/** UTF-8 (RFC 3629 section 3) on Unicode scalar values, as `str.encode("utf-8")` writes it. */
module Utf8 {
  import opened Wrappers

  type byte = b: int | 0 <= b < 256

  predicate Ascii(s: string) {
    forall i | 0 <= i < |s| :: s[i] as int < 0x80
  }

  function EncodeChar(c: char): (bs: seq<byte>)
    ensures 1 <= |bs| <= 4
  {
    var n := c as int;
    if n < 0x80 then [n]
    else if n < 0x800 then [0xC0 + n / 64, 0x80 + n % 64]
    else if n < 0x10000 then [0xE0 + n / 4096, 0x80 + n / 64 % 64, 0x80 + n % 64]
    else [0xF0 + n / 262144, 0x80 + n / 4096 % 64, 0x80 + n / 64 % 64, 0x80 + n % 64]
  }

  function Encode(s: string): (bs: seq<byte>)
    ensures |bs| >= |s|
  {
    if s == "" then [] else EncodeChar(s[0]) + Encode(s[1..])
  }

  predicate Tail(bs: seq<byte>, k: nat) {
    k <= |bs| && forall i | 1 <= i < k :: 0x80 <= bs[i] < 0xC0
  }

  function Continue(high: int, b: byte): int {
    high * 64 + (b as int - 0x80)
  }

  /** The code point at the head of `bs` and its encoded length, if `bs` starts with a well-formed sequence. */
  function HeadCode(bs: seq<byte>): (r: Option<(int, nat)>)
    ensures r.Some? ==> 1 <= r.value.1 <= |bs|
  {
    if bs == [] then None else
      var lead := bs[0] as int;
      if lead < 0x80 then Some((lead, 1))
      else if 0xC0 <= lead < 0xE0 && Tail(bs, 2) then Some((Continue(lead - 0xC0, bs[1]), 2))
      else if 0xE0 <= lead < 0xF0 && Tail(bs, 3) then
        Some((Continue(Continue(lead - 0xE0, bs[1]), bs[2]), 3))
      else if 0xF0 <= lead < 0xF8 && Tail(bs, 4) then
        Some((Continue(Continue(Continue(lead - 0xF0, bs[1]), bs[2]), bs[3]), 4))
      else None
  }

  /** Surrogates and overlong forms are not characters (RFC 3629 section 3). */
  predicate ScalarOfLength(n: int, k: nat) {
    (0 <= n < 0xD800 || 0xE000 <= n < 0x110000)
    && k == (if n < 0x80 then 1 else if n < 0x800 then 2 else if n < 0x10000 then 3 else 4)
  }

  function Decode(bs: seq<byte>): Option<string> {
    if bs == [] then Some("") else
      match HeadCode(bs)
      case None => None
      case Some((n, k)) =>
        if !ScalarOfLength(n, k) then None else
          match Decode(bs[k..])
          case None => None
          case Some(rest) => Some([n as char] + rest)
  }

  lemma Regroup(n: nat)
    ensures n / 4096 == n / 64 / 64 && n / 262144 == n / 4096 / 64
    ensures n == n / 64 * 64 + n % 64
  {
  }

  lemma HeadCodeEncode(c: char, rest: seq<byte>)
    ensures HeadCode(EncodeChar(c) + rest) == Some((c as int, |EncodeChar(c)|))
    ensures ScalarOfLength(c as int, |EncodeChar(c)|)
  {
    var n := c as int;
    var head := EncodeChar(c);
    var bs := head + rest;
    assert forall i | 0 <= i < |head| :: bs[i] == head[i];
    Regroup(n);
    Regroup(n / 64);
    Regroup(n / 4096);
  }

  /** Decoding undoes encoding, so a request body's bytes determine its text. */
  lemma {:induction false} DecodeEncode(s: string)
    ensures Decode(Encode(s)) == Some(s)
  {
    if s != "" {
      var head, rest := EncodeChar(s[0]), Encode(s[1..]);
      HeadCodeEncode(s[0], rest);
      assert (head + rest)[|head|..] == rest;
      DecodeEncode(s[1..]);
      assert s == [s[0]] + s[1..];
    }
  }

  lemma {:induction false} EncodeConcat(a: string, b: string)
    ensures Encode(a + b) == Encode(a) + Encode(b)
  {
    if a == "" {
      assert a + b == b;
    } else {
      assert (a + b)[1..] == a[1..] + b;
      EncodeConcat(a[1..], b);
    }
  }

  lemma {:induction false} EncodeAscii(s: string)
    requires Ascii(s)
    ensures |Encode(s)| == |s|
  {
    if s != "" {
      EncodeAscii(s[1..]);
    }
  }
}
