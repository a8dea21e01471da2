/**
 What the UTF-8 decoder makes of malformed bytes: the longest beginning of an encoded character, or else
 one byte, is replaced by U+FFFD, and decoding goes on behind it.
 */
module Utf8Malformed {
  import opened Utf8

  /** The bytes begin the encoding of some character. */
  ghost predicate Begins(bs: seq<byte>) {
    exists c: char :: bs <= EncodeChar(c)
  }

  /** The number of bytes that a sequence with this lead byte has, or 0. */
  function Length(lead: byte): nat {
    if lead <= 0x7F then 1 else if Lead(lead).needed == 0 then 0 else 1 + Lead(lead).needed
  }

  /** The bytes are those of a sequence that is not longer than its lead byte says. */
  predicate Allowed(bs: seq<byte>) {
    bs == [] ||
    (&& |bs| <= Length(bs[0])
     && (|bs| >= 2 ==> Lead(bs[0]).lower <= bs[1] <= Lead(bs[0]).upper)
     && (|bs| >= 3 ==> 0x80 <= bs[2] <= 0xBF)
     && (|bs| >= 4 ==> 0x80 <= bs[3] <= 0xBF))
  }

  lemma AllowedThree(x: nat, y: nat, z: nat)
    requires x < 16 && y < 64 && z < 64 && 0x800 <= x * 4096 + y * 64 + z && IsScalar(x * 4096 + y * 64 + z)
    ensures Allowed([0xE0 + x, 0x80 + y, 0x80 + z]) && Length(0xE0 + x) == 3
  {
  }

  lemma AllowedFour(w: nat, x: nat, y: nat, z: nat)
    requires x < 64 && y < 64 && z < 64 && 0x10000 <= w * 262144 + x * 4096 + y * 64 + z < 0x110000
    ensures w <= 4 && Allowed([0xF0 + w, 0x80 + x, 0x80 + y, 0x80 + z]) && Length(0xF0 + w) == 4
  {
  }

  lemma InBase64(n: nat)
    ensures n == n / 64 * 64 + n % 64
    ensures n / 64 == n / 4096 * 64 + n / 64 % 64
    ensures n / 4096 == n / 262144 * 64 + n / 4096 % 64
  {
  }

  lemma EncodedThree(c: char)
    requires 0x800 <= c as int < 0x10000
    ensures Allowed(EncodeChar(c)) && |EncodeChar(c)| == Length(EncodeChar(c)[0])
  {
    hide Allowed, Length, Lead;
    var n := c as int;
    InBase64(n);
    AllowedThree(n / 4096, n / 64 % 64, n % 64);
  }

  lemma EncodedFour(c: char)
    requires 0x10000 <= c as int
    ensures Allowed(EncodeChar(c)) && |EncodeChar(c)| == Length(EncodeChar(c)[0])
  {
    hide Allowed, Length, Lead;
    var n := c as int;
    InBase64(n);
    AllowedFour(n / 262144, n / 4096 % 64, n / 64 % 64, n % 64);
  }

  lemma EncodedIsAllowed(c: char)
    ensures Allowed(EncodeChar(c)) && |EncodeChar(c)| == Length(EncodeChar(c)[0])
  {
    if c as int >= 0x10000 {
      EncodedFour(c);
    } else if c as int >= 0x800 {
      EncodedThree(c);
    } else {
      InBase64(c as int);
    }
  }

  lemma AllowedBeginning(bs: seq<byte>, more: seq<byte>)
    requires bs <= more && Allowed(more)
    ensures Allowed(bs)
  {
  }

  lemma CompleteTwo(b0: byte, b1: byte) returns (c: char)
    requires 0xC2 <= b0 <= 0xDF && 0x80 <= b1 <= 0xBF
    ensures EncodeChar(c) == [b0, b1]
  {
    var n := (b0 - 0xC0) * 64 + (b1 - 0x80);
    c := n as char;
  }

  lemma CompleteThree(b0: byte, b1: byte, b2: byte) returns (c: char)
    requires 0xE0 <= b0 <= 0xEF && Lead(b0).lower <= b1 <= Lead(b0).upper && 0x80 <= b2 <= 0xBF
    ensures EncodeChar(c) == [b0, b1, b2]
  {
    var n := (b0 - 0xE0) * 4096 + (b1 - 0x80) * 64 + (b2 - 0x80);
    assert n / 64 == (b0 - 0xE0) * 64 + (b1 - 0x80);
    assert 0x800 <= n < 0x10000 && IsScalar(n);
    c := n as char;
  }

  lemma CompleteFour(b0: byte, b1: byte, b2: byte, b3: byte) returns (c: char)
    requires 0xF0 <= b0 <= 0xF4 && Lead(b0).lower <= b1 <= Lead(b0).upper
    requires 0x80 <= b2 <= 0xBF && 0x80 <= b3 <= 0xBF
    ensures EncodeChar(c) == [b0, b1, b2, b3]
  {
    var w, x, y, z := b0 - 0xF0, b1 - 0x80, b2 - 0x80, b3 - 0x80;
    var n := w * 262144 + x * 4096 + y * 64 + z;
    assert 0x10000 <= n < 0x110000 && 0 <= x < 64 && 0 <= y < 64 && 0 <= z < 64;
    hide Lead;
    InBase64(n);
    assert n / 64 == w * 4096 + x * 64 + y && n / 4096 == w * 64 + x;
    c := n as char;
  }

  /** Every allowed sequence of bytes can be completed to the encoding of a character. */
  lemma Complete(bs: seq<byte>) returns (c: char)
    requires Allowed(bs) && bs != []
    ensures bs <= EncodeChar(c) && |EncodeChar(c)| == Length(bs[0])
  {
    var b0 := bs[0];
    var b1 := if |bs| >= 2 then bs[1] else Lead(b0).lower;
    var b2 := if |bs| >= 3 then bs[2] else 0x80;
    var b3 := if |bs| >= 4 then bs[3] else 0x80;
    if b0 <= 0x7F {
      c := b0 as char;
    } else if Length(b0) == 2 {
      c := CompleteTwo(b0, b1);
    } else if Length(b0) == 3 {
      c := CompleteThree(b0, b1, b2);
    } else {
      c := CompleteFour(b0, b1, b2, b3);
    }
  }

  lemma BeginsIffAllowed(bs: seq<byte>)
    ensures Begins(bs) <==> Allowed(bs)
  {
    hide EncodeChar;
    if Begins(bs) {
      var c :| bs <= EncodeChar(c);
      EncodedIsAllowed(c);
      AllowedBeginning(bs, EncodeChar(c));
    }
    if Allowed(bs) {
      if bs == [] {
        assert bs <= EncodeChar('a');
      } else {
        var c := Complete(bs);
      }
    }
  }

  /** Allowed bytes hold a whole encoding, or more bytes belong to it. */
  lemma CompleteOrLonger(bs: seq<byte>, n: nat) returns (c: char)
    requires 1 <= n <= |bs| && Allowed(bs[..n])
    ensures EncodeChar(c) <= bs || n < Length(bs[0])
  {
    hide EncodeChar;
    c := Complete(bs[..n]);
    assert |bs[..n]| == |EncodeChar(c)| ==> bs[..n] == EncodeChar(c);
  }

  lemma {:induction false} RunStops(bs: seq<byte>, st: State)
    requires st.needed > 0 && (bs == [] || !(st.lower <= bs[0] <= st.upper))
    ensures Run(bs, st) == ['\U{FFFD}'] + Run(bs, START)
  {
  }

  /** The decoder after `n` bytes of a sequence that is longer. */
  lemma {:induction false} RunInside(bs: seq<byte>, n: nat) returns (st: State)
    requires 1 <= n <= |bs| && Allowed(bs[..n]) && n < Length(bs[0])
    ensures Run(bs, START) == Run(bs[n..], st) && st.needed == Length(bs[0]) - n
    ensures st.lower == (if n == 1 then Lead(bs[0]).lower else 0x80)
    ensures st.upper == (if n == 1 then Lead(bs[0]).upper else 0xBF)
  {
    if n == 1 {
      st := Lead(bs[0]);
    } else {
      assert bs[..n][..n - 1] == bs[..n - 1];
      var before := RunInside(bs, n - 1);
      var rest := bs[n - 1..];
      assert rest[0] == bs[..n][n - 1] && rest[1..] == bs[n..];
      hide Run;
      RunStep(rest, before);
      st := State(before.codePoint * 64 + rest[0] as int % 64, before.needed - 1, 0x80, 0xBF);
    }
  }

  /**
   Malformed bytes: `n` bytes begin the encoding of a character, or are a single byte that does not, and
   no longer beginning of the bytes does.
   */
  lemma {:induction false} MalformedIsReplaced(bs: seq<byte>, n: nat)
    requires 1 <= n <= |bs| && forall c: char :: !(EncodeChar(c) <= bs)
    requires n == 1 || Begins(bs[..n])
    requires n == |bs| || !Begins(bs[..n + 1])
    ensures Run(bs, START) == ['\U{FFFD}'] + Run(bs[n..], START)
  {
    hide EncodeChar;
    BeginsIffAllowed(bs[..n]);
    if n < |bs| {
      BeginsIffAllowed(bs[..n + 1]);
    }
    if bs[0] > 0x7F && Lead(bs[0]).needed == 0 {
      assert n == 1;
    } else {
      var c := CompleteOrLonger(bs, n);
      var st := RunInside(bs, n);
      hide Run;
      RunStops(bs[n..], st);
    }
  }

  /** Every sequence of bytes starts with an encoded character or is malformed in this sense. */
  lemma {:induction false} LongestBeginning(bs: seq<byte>) returns (n: nat)
    requires bs != []
    ensures 1 <= n <= |bs| && (n == 1 || Begins(bs[..n])) && (n == |bs| || !Begins(bs[..n + 1]))
  {
    n := 1;
    while n < |bs| && Begins(bs[..n + 1])
      invariant 1 <= n <= |bs| && (n == 1 || Begins(bs[..n]))
    {
      n := n + 1;
    }
  }
}
