/**
 `btoa` and `atob`: base64 with padding (sections 3.2 and 4 of RFC 4648), and the forgiving decoder
 of the WHATWG Infra Standard. The binary strings in between are sequences of bytes here.
 */
module Base64 {
  import opened Options
  import opened Utf8

  // ---------------------------------------------------------------------------------------------
  // The alphabet
  // ---------------------------------------------------------------------------------------------

  type sextet = v: int | 0 <= v < 64

  function ToDigit(v: sextet): char {
    if v < 26 then (v + 65) as char
    else if v < 52 then (v + 71) as char
    else if v < 62 then (v - 4) as char
    else if v == 62 then '+'
    else '/'
  }

  function FromDigit(c: char): (r: Option<sextet>)
  {
    if 'A' <= c <= 'Z' then Some(c as int - 65)
    else if 'a' <= c <= 'z' then Some(c as int - 71)
    else if '0' <= c <= '9' then Some(c as int + 4)
    else if c == '+' then Some(62)
    else if c == '/' then Some(63)
    else None
  }

  lemma DigitRoundTrip(v: sextet)
    ensures FromDigit(ToDigit(v)) == Some(v)
  {
  }

  /** Upper-case letters, lower-case letters, digits, '+' and '/' stand for 0 to 63, and no others do. */
  lemma Alphabet(v: sextet, c: char)
    ensures v < 26 ==> ToDigit(v) == 'A' + v as char
    ensures 26 <= v < 52 ==> ToDigit(v) == 'a' + (v - 26) as char
    ensures 52 <= v < 62 ==> ToDigit(v) == '0' + (v - 52) as char
    ensures ToDigit(62) == '+' && ToDigit(63) == '/'
    ensures FromDigit(c) == Some(v) <==> c == ToDigit(v)
  {
  }

  // ---------------------------------------------------------------------------------------------
  // Encoder
  // ---------------------------------------------------------------------------------------------

  function Quad(a: byte, b: byte, c: byte): (r: string)
    ensures |r| == 4
  {
    [ToDigit(a / 4), ToDigit(a % 4 * 16 + b / 16), ToDigit(b % 16 * 4 + c / 64), ToDigit(c % 64)]
  }

  /** The digits without padding. */
  function Digits(bs: seq<byte>): string {
    if bs == [] then ""
    else if |bs| == 1 then Quad(bs[0], 0, 0)[..2]
    else if |bs| == 2 then Quad(bs[0], bs[1], 0)[..3]
    else Quad(bs[0], bs[1], bs[2]) + Digits(bs[3..])
  }

  /** The padding that fills the last group of four. */
  function Padding(n: nat): string {
    if n % 4 == 2 then "==" else if n % 4 == 3 then "=" else ""
  }

  /** `btoa` */
  function Btoa(bs: seq<byte>): string {
    if bs == [] then ""
    else if |bs| == 1 then Quad(bs[0], 0, 0)[..2] + "=="
    else if |bs| == 2 then Quad(bs[0], bs[1], 0)[..3] + "="
    else Quad(bs[0], bs[1], bs[2]) + Btoa(bs[3..])
  }

  predicate IsDigits(s: string) {
    forall i :: 0 <= i < |s| ==> FromDigit(s[i]).Some?
  }

  lemma QuadIsDigits(a: byte, b: byte, c: byte)
    ensures IsDigits(Quad(a, b, c))
  {
    DigitRoundTrip(a / 4);
    DigitRoundTrip(a % 4 * 16 + b / 16);
    DigitRoundTrip(b % 16 * 4 + c / 64);
    DigitRoundTrip(c % 64);
  }

  lemma {:induction false} DigitsAreDigits(bs: seq<byte>)
    ensures IsDigits(Digits(bs))
    ensures |Digits(bs)| % 4 != 1
    ensures |Digits(bs)| == (|bs| * 4 + 2) / 3
  {
    hide FromDigit, ToDigit;
    if 1 <= |bs| <= 2 {
      QuadIsDigits(bs[0], if |bs| == 2 then bs[1] else 0, 0);
    } else if |bs| >= 3 {
      QuadIsDigits(bs[0], bs[1], bs[2]);
      DigitsAreDigits(bs[3..]);
    }
  }

  lemma PaddingRepeats(n: nat)
    ensures Padding(n + 4) == Padding(n)
  {
  }

  /** Encoding is the digits followed by padding up to a multiple of four. */
  lemma {:induction false} BtoaPads(bs: seq<byte>)
    ensures Btoa(bs) == Digits(bs) + Padding(|Digits(bs)|)
    ensures |Btoa(bs)| % 4 == 0
  {
    hide Quad;
    if |bs| >= 3 {
      hide Padding;
      BtoaPads(bs[3..]);
      var group, n := Quad(bs[0], bs[1], bs[2]), |Digits(bs[3..])|;
      assert group + (Digits(bs[3..]) + Padding(n)) == group + Digits(bs[3..]) + Padding(n);
      PaddingRepeats(n);
    }
  }

  // ---------------------------------------------------------------------------------------------
  // Decoder
  // ---------------------------------------------------------------------------------------------

  predicate IsWhitespace(c: char) {
    c == ' ' || c == '\t' || c == '\n' || c == '\r' || c == 12 as char
  }

  function RemoveWhitespace(s: string): string {
    if s == "" then ""
    else (if IsWhitespace(s[0]) then "" else [s[0]]) + RemoveWhitespace(s[1..])
  }

  /** Drops one or two trailing '=' when the length is a multiple of four. */
  function DropPadding(s: string): string {
    if |s| % 4 != 0 || s == "" || s[|s| - 1] != '=' then s
    else if s[|s| - 2] == '=' then s[..|s| - 2]
    else s[..|s| - 1]
  }

  function Value(c: char): int {
    var v := FromDigit(c);
    if v.Some? then v.value else 0
  }

  function Bytes(s: string): (r: seq<byte>)
    requires IsDigits(s) && |s| % 4 != 1
  {
    if s == "" then []
    else
      var x, y := Value(s[0]), Value(s[1]);
      if |s| == 2 then [x * 4 + y / 16]
      else
        var z := Value(s[2]);
        if |s| == 3 then [x * 4 + y / 16, y % 16 * 16 + z / 4]
        else [x * 4 + y / 16, y % 16 * 16 + z / 4, z % 4 * 64 + Value(s[3])] + Bytes(s[4..])
  }

  /** `atob`; `None` is the thrown InvalidCharacterError. */
  function Atob(s: string): Option<seq<byte>> {
    var d := DropPadding(RemoveWhitespace(s));
    if |d| % 4 == 1 || !IsDigits(d) then None else Some(Bytes(d))
  }

  lemma QuadRoundTrip(a: byte, b: byte, c: byte)
    ensures var q := Quad(a, b, c);
            && Value(q[0]) == a / 4 && Value(q[1]) == a % 4 * 16 + b / 16
            && Value(q[2]) == b % 16 * 4 + c / 64 && Value(q[3]) == c % 64
            && IsDigits(q)
  {
    QuadIsDigits(a, b, c);
    DigitRoundTrip(a / 4);
    DigitRoundTrip(a % 4 * 16 + b / 16);
    DigitRoundTrip(b % 16 * 4 + c / 64);
    DigitRoundTrip(c % 64);
  }

  /** The arithmetic of one group of three bytes. */
  lemma Regroup(a: byte, b: byte, c: byte)
    ensures var x, y, z, w := a / 4, a % 4 * 16 + b / 16, b % 16 * 4 + c / 64, c % 64;
            && x * 4 + y / 16 == a
            && y % 16 * 16 + z / 4 == b
            && z % 4 * 64 + w == c
  {
  }

  lemma {:induction false} BytesOfGroup(s: string)
    requires IsDigits(s) && |s| % 4 != 1 && |s| >= 4
    ensures IsDigits(s[4..]) && |s[4..]| % 4 != 1
    ensures var x, y, z, w := Value(s[0]), Value(s[1]), Value(s[2]), Value(s[3]);
            Bytes(s) == [x * 4 + y / 16, y % 16 * 16 + z / 4, z % 4 * 64 + w] + Bytes(s[4..])
  {
  }

  lemma {:induction false} BytesOfQuad(a: byte, b: byte, c: byte, rest: string)
    requires IsDigits(rest) && |rest| % 4 != 1
    ensures IsDigits(Quad(a, b, c) + rest)
    ensures Bytes(Quad(a, b, c) + rest) == [a, b, c] + Bytes(rest)
  {
    hide FromDigit, ToDigit, Value, Bytes;
    var q := Quad(a, b, c);
    var s := q + rest;
    assert forall i :: 0 <= i < |s| ==> s[i] == if i < 4 then q[i] else rest[i - 4];
    assert s[4..] == rest;
    QuadRoundTrip(a, b, c);
    Regroup(a, b, c);
    BytesOfGroup(s);
  }

  lemma {:induction false} BytesOfDigits(bs: seq<byte>)
    ensures IsDigits(Digits(bs)) && |Digits(bs)| % 4 != 1
    ensures Bytes(Digits(bs)) == bs
  {
    DigitsAreDigits(bs);
    hide FromDigit, ToDigit, Value;
    if bs != [] && |bs| < 3 {
      var b := if |bs| == 2 then bs[1] else 0;
      QuadRoundTrip(bs[0], b, 0);
      Regroup(bs[0], b, 0);
    } else if |bs| >= 3 {
      hide Quad, Bytes, IsDigits;
      BytesOfDigits(bs[3..]);
      BytesOfQuad(bs[0], bs[1], bs[2], Digits(bs[3..]));
      assert bs == [bs[0], bs[1], bs[2]] + bs[3..];
    }
  }

  lemma {:induction false} NothingToRemove(s: string)
    requires forall i :: 0 <= i < |s| ==> !IsWhitespace(s[i])
    ensures RemoveWhitespace(s) == s
  {
    if s != "" {
      NothingToRemove(s[1..]);
    }
  }

  lemma DropsOwnPadding(d: string)
    requires IsDigits(d) && |d| % 4 != 1
    ensures DropPadding(d + Padding(|d|)) == d
  {
    var s := d + Padding(|d|);
    assert s[..|d|] == d;
    if d != "" {
      assert FromDigit(d[|d| - 1]).Some?;
    }
  }

  lemma PlainIsNotWhitespace(c: char)
    ensures FromDigit(c).Some? || c == '=' ==> !IsWhitespace(c)
  {
  }

  lemma {:induction false} PaddedHasNoWhitespace(d: string)
    requires IsDigits(d)
    ensures RemoveWhitespace(d + Padding(|d|)) == d + Padding(|d|)
  {
    hide FromDigit, IsWhitespace, RemoveWhitespace;
    var s := d + Padding(|d|);
    forall i | 0 <= i < |s|
      ensures !IsWhitespace(s[i])
    {
      PlainIsNotWhitespace(s[i]);
      if i < |d| {
        assert s[i] == d[i] && FromDigit(d[i]).Some?;
      } else {
        assert s[i] == '=';
      }
    }
    NothingToRemove(s);
  }

  lemma {:induction false} RemovedAppend(a: string, b: string)
    ensures RemoveWhitespace(a + b) == RemoveWhitespace(a) + RemoveWhitespace(b)
  {
    if a == "" {
      assert a + b == b;
    } else {
      hide IsWhitespace;
      assert (a + b)[1..] == a[1..] + b;
      RemovedAppend(a[1..], b);
    }
  }

  lemma {:induction false} RemovedOne(a: string, c: char, b: string)
    ensures RemoveWhitespace(a + [c] + b) ==
            RemoveWhitespace(a) + (if IsWhitespace(c) then "" else [c]) + RemoveWhitespace(b)
  {
    RemovedAppend(a + [c], b);
    RemovedAppend(a, [c]);
    assert [c][1..] == "" && RemoveWhitespace("") == "";
    hide IsWhitespace;
  }

  /** A space, tab, line feed, carriage return or form feed anywhere in a text makes no difference. */
  lemma {:induction false} WhitespaceIsIgnored(a: string, c: char, b: string)
    requires c == ' ' || c == '\t' || c == '\n' || c == '\r' || c == '\U{000C}'
    ensures Atob(a + [c] + b) == Atob(a + b)
  {
    RemovedOne(a, c, b);
    RemovedAppend(a, b);
    assert RemoveWhitespace(a) + "" == RemoveWhitespace(a);
    hide DropPadding, Bytes, RemoveWhitespace, IsDigits;
  }

  /** Any other character that is no digit, padding apart, makes the decoder refuse the text. */
  lemma {:induction false} ForeignIsRefused(a: string, c: char, b: string)
    requires c != ' ' && c != '\t' && c != '\n' && c != '\r' && c != '\U{000C}'
    requires c != '=' && forall v: sextet :: ToDigit(v) != c
    ensures Atob(a + [c] + b) == None
  {
    RemovedOne(a, c, b);
    var before, r := RemoveWhitespace(a), RemoveWhitespace(a + [c] + b);
    hide RemoveWhitespace, Bytes, ToDigit;
    assert r[|before|] == c;
    var d := DropPadding(r);
    assert |before| < |d| && d[|before|] == c;
    assert FromDigit(c).None? by {
      if FromDigit(c).Some? {
        Alphabet(FromDigit(c).value, c);
      }
    }
  }

  lemma {:induction false} PaddedIsAccepted(d: string)
    requires IsDigits(d) && |d| % 4 != 1
    ensures Atob(d + Padding(|d|)) == Some(Bytes(d))
  {
    PaddedHasNoWhitespace(d);
    DropsOwnPadding(d);
    hide FromDigit, RemoveWhitespace, DropPadding, Bytes;
  }

  /** Three padding characters cannot make up for a missing digit. */
  lemma {:induction false} LoneDigitIsRefused(d: string)
    requires IsDigits(d) && |d| % 4 == 1
    ensures Atob(d + "===") == None
  {
    var s := d + "===";
    forall i | 0 <= i < |s|
      ensures !IsWhitespace(s[i])
    {
      PlainIsNotWhitespace(s[i]);
      if i < |d| {
        assert s[i] == d[i] && FromDigit(d[i]).Some?;
      } else {
        assert s[i] == '=';
      }
    }
    NothingToRemove(s);
    assert DropPadding(s) == s[..|s| - 2];
    assert s[..|s| - 2][|d|] == '=' && FromDigit('=').None?;
  }

  /** `atob` undoes `btoa`. */
  lemma {:induction false} AtobUndoesBtoa(bs: seq<byte>)
    ensures Atob(Btoa(bs)) == Some(bs)
  {
    hide Btoa, Digits, Bytes, DropPadding, RemoveWhitespace, Padding;
    BtoaPads(bs);
    BytesOfDigits(bs);
    DropsOwnPadding(Digits(bs));
    PaddedHasNoWhitespace(Digits(bs));
  }
}
