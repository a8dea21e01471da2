/**
 UTF-8 text: the encoder of section 3 of RFC 3629 and the decoder of the WHATWG Encoding Standard,
 which replaces malformed input instead of failing. Strings are sequences of Unicode scalar values.
 */
module Utf8 {

  type byte = b: int | 0 <= b < 256

  function EncodeChar(c: char): (r: seq<byte>)
    ensures 1 <= |r| <= 4
  {
    var n := c as int;
    if n < 0x80 then [n]
    else if n < 0x800 then [0xC0 + n / 64, 0x80 + n % 64]
    else if n < 0x10000 then [0xE0 + n / 4096, 0x80 + n / 64 % 64, 0x80 + n % 64]
    else [0xF0 + n / 262144, 0x80 + n / 4096 % 64, 0x80 + n / 64 % 64, 0x80 + n % 64]
  }

  /** `TextEncoder.encode` */
  function Encode(s: string): seq<byte> {
    if s == "" then [] else EncodeChar(s[0]) + Encode(s[1..])
  }

  // ---------------------------------------------------------------------------------------------
  // Decoder
  // ---------------------------------------------------------------------------------------------

  const REPLACEMENT: char := '\U{FFFD}'
  const BOM: char := '\U{FEFF}'

  /** The decoder's variables: code point so far, continuation bytes still needed, and their bounds. */
  datatype State = State(codePoint: nat, needed: nat, lower: int, upper: int)

  const START := State(0, 0, 0x80, 0xBF)

  /** The state after a lead byte, or `needed == 0` when the byte cannot start a sequence. */
  function Lead(b: byte): State {
    if 0xC2 <= b <= 0xDF then State(b - 0xC0, 1, 0x80, 0xBF)
    else if 0xE0 <= b <= 0xEF then
      State(b - 0xE0, 2, if b == 0xE0 then 0xA0 else 0x80, if b == 0xED then 0x9F else 0xBF)
    else if 0xF0 <= b <= 0xF4 then
      State(b - 0xF0, 3, if b == 0xF0 then 0x90 else 0x80, if b == 0xF4 then 0x8F else 0xBF)
    else START
  }

  predicate IsScalar(n: int) {
    0 <= n < 0xD800 || 0xE000 <= n < 0x110000
  }

  /** A completed code point is always a scalar value; see `DecodeEncodedChar` for encoded text. */
  function ToChar(n: int): char {
    if IsScalar(n) then n as char else REPLACEMENT
  }

  /** The decoder's handler, applied to the rest of the input. */
  function Run(bs: seq<byte>, st: State): string
    decreases |bs|, st.needed
  {
    if bs == [] then (if st.needed == 0 then "" else [REPLACEMENT])
    else if st.needed == 0 then
      if bs[0] <= 0x7F then [bs[0] as char] + Run(bs[1..], START)
      else if Lead(bs[0]).needed == 0 then [REPLACEMENT] + Run(bs[1..], START)
      else Run(bs[1..], Lead(bs[0]))
    else if !(st.lower <= bs[0] <= st.upper) then [REPLACEMENT] + Run(bs, START)
    else
      var codePoint := st.codePoint * 64 + bs[0] as int % 64;
      if st.needed == 1 then [ToChar(codePoint)] + Run(bs[1..], START)
      else Run(bs[1..], State(codePoint, st.needed - 1, 0x80, 0xBF))
  }

  predicate IsMarked(s: string) {
    s != "" && s[0] == BOM
  }

  /** The text without one leading byte order mark. */
  function WithoutMark(s: string): string {
    if IsMarked(s) then s[1..] else s
  }

  /** `TextDecoder.decode`, which also drops one leading byte order mark. */
  function Decode(bs: seq<byte>): string {
    WithoutMark(Run(bs, START))
  }

  // ---------------------------------------------------------------------------------------------
  // Round trip
  // ---------------------------------------------------------------------------------------------

  lemma RunStep(bs: seq<byte>, st: State)
    requires bs != [] && st.needed > 0 && st.lower <= bs[0] <= st.upper
    ensures Run(bs, st) ==
            var codePoint := st.codePoint * 64 + bs[0] as int % 64;
            if st.needed == 1 then [ToChar(codePoint)] + Run(bs[1..], START)
            else Run(bs[1..], State(codePoint, st.needed - 1, 0x80, 0xBF))
  {
    hide ToChar, Lead;
  }

  lemma {:induction false} RunContinuation(b: byte, rest: seq<byte>, st: State)
    requires st.needed > 0 && st.lower <= b <= st.upper && 0x80 <= b < 0xC0
    ensures Run([b] + rest, st) ==
            var codePoint := st.codePoint * 64 + (b - 0x80);
            if st.needed == 1 then [ToChar(codePoint)] + Run(rest, START)
            else Run(rest, State(codePoint, st.needed - 1, 0x80, 0xBF))
  {
    hide Run, ToChar, Lead;
    var bs := [b] + rest;
    assert bs[0] == b && bs[1..] == rest;
    assert b as int % 64 == b - 0x80;
    RunStep(bs, st);
  }

  lemma {:induction false} RunLead(b: byte, rest: seq<byte>)
    requires Lead(b).needed > 0
    ensures Run([b] + rest, START) == Run(rest, Lead(b))
  {
    assert ([b] + rest)[1..] == rest;
  }

  lemma {:induction false} DecodeTwo(n: nat, b0: byte, b1: byte, rest: seq<byte>)
    requires 0x80 <= n < 0x800 && b0 == 0xC0 + n / 64 && b1 == 0x80 + n % 64
    ensures Run([b0, b1] + rest, START) == [n as char] + Run(rest, START)
  {
    hide Run;
    assert [b0, b1] + rest == [b0] + ([b1] + rest);
    RunLead(b0, [b1] + rest);
    RunContinuation(b1, rest, Lead(b0));
  }

  lemma {:induction false} DecodeThree(n: nat, b0: byte, b1: byte, b2: byte, rest: seq<byte>)
    requires 0x800 <= n < 0x10000 && IsScalar(n)
    requires b0 == 0xE0 + n / 4096 && b1 == 0x80 + n / 64 % 64 && b2 == 0x80 + n % 64
    ensures Run([b0, b1, b2] + rest, START) == [n as char] + Run(rest, START)
  {
    hide Run;
    assert [b0, b1, b2] + rest == [b0] + ([b1] + ([b2] + rest));
    assert n / 64 == (b0 - 0xE0) * 64 + (b1 - 0x80);
    RunLead(b0, [b1] + ([b2] + rest));
    RunContinuation(b1, [b2] + rest, Lead(b0));
    RunContinuation(b2, rest, State(n / 64, 1, 0x80, 0xBF));
  }

  lemma {:induction false} DecodeFour(n: nat, b0: byte, b1: byte, b2: byte, b3: byte, rest: seq<byte>)
    requires 0x10000 <= n < 0x110000
    requires b0 == 0xF0 + n / 262144 && b1 == 0x80 + n / 4096 % 64
    requires b2 == 0x80 + n / 64 % 64 && b3 == 0x80 + n % 64
    ensures Run([b0, b1, b2, b3] + rest, START) == [n as char] + Run(rest, START)
  {
    hide Run;
    assert [b0, b1, b2, b3] + rest == [b0] + ([b1] + ([b2] + ([b3] + rest)));
    assert n / 4096 == (b0 - 0xF0) * 64 + (b1 - 0x80);
    assert n / 64 == n / 4096 * 64 + (b2 - 0x80);
    RunLead(b0, [b1] + ([b2] + ([b3] + rest)));
    RunContinuation(b1, [b2] + ([b3] + rest), Lead(b0));
    RunContinuation(b2, [b3] + rest, State(n / 4096, 2, 0x80, 0xBF));
    RunContinuation(b3, rest, State(n / 64, 1, 0x80, 0xBF));
  }

  /** Decoding an encoded character yields that character and leaves the decoder at its start. */
  lemma {:induction false} DecodeEncodedChar(c: char, rest: seq<byte>)
    ensures Run(EncodeChar(c) + rest, START) == [c] + Run(rest, START)
  {
    var n, e := c as int, EncodeChar(c);
    if n < 0x80 {
      assert (e + rest)[1..] == rest;
    } else if n < 0x800 {
      DecodeTwo(n, e[0], e[1], rest);
    } else if n < 0x10000 {
      DecodeThree(n, e[0], e[1], e[2], rest);
    } else {
      DecodeFour(n, e[0], e[1], e[2], e[3], rest);
    }
  }

  lemma {:induction false} RunEncoded(s: string)
    ensures Run(Encode(s), START) == s
  {
    if s != "" {
      DecodeEncodedChar(s[0], Encode(s[1..]));
      RunEncoded(s[1..]);
    }
  }

  /** Text survives a round trip exactly when it does not start with a byte order mark. */
  lemma {:induction false} DecodeEncoded(s: string)
    ensures Decode(Encode(s)) == WithoutMark(s)
    ensures WithoutMark(s) == if s != "" && s[0] == '\U{FEFF}' then s[1..] else s
    ensures Decode(Encode(s)) == s <==> !IsMarked(s)
  {
    RunEncoded(s);
  }
}
