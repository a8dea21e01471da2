/**
 The SSE resume cursor: (timestamp, event id) as an opaque base64url string.
 */
module Cursor {
  import opened Options
  import opened SafeIntegers
  import opened Strings
  import Utf8
  import Base64

  datatype StreamCursor = StreamCursor(ts: int, id: string)

  // ---------------------------------------------------------------------------------------------
  // base64url
  // ---------------------------------------------------------------------------------------------

  function ReplaceAll(s: string, from: char, to: char): string {
    seq(|s|, i requires 0 <= i < |s| => if s[i] == from then to else s[i])
  }

  function ToUrl(s: string): string {
    ReplaceAll(ReplaceAll(s, '+', '-'), '/', '_')
  }

  function FromUrl(s: string): string {
    ReplaceAll(ReplaceAll(s, '-', '+'), '_', '/')
  }

  /** `replace(/=+$/, '')` */
  function StripPadding(s: string): string {
    if s != "" && s[|s| - 1] == '=' then StripPadding(s[..|s| - 1]) else s
  }

  function PadEnd(s: string, length: nat, c: char): string {
    if length <= |s| then s else s + seq(length - |s|, _ => c)
  }

  function EncodeBase64Url(input: string): string {
    StripPadding(ToUrl(Base64.Btoa(Utf8.Encode(input))))
  }

  function Repad(base64: string): string {
    PadEnd(base64, |base64| + (4 - |base64| % 4) % 4, '=')
  }

  /** `None` stands for the exception that `atob` throws. */
  function DecodeBase64Url(encoded: string): Option<string> {
    var bytes := Base64.Atob(Repad(FromUrl(encoded)));
    if bytes.None? then None else Some(Utf8.Decode(bytes.value))
  }

  /** The URL- and filename-safe alphabet of section 5 of RFC 4648. */
  predicate IsUrlSafe(c: char) {
    'A' <= c <= 'Z' || 'a' <= c <= 'z' || '0' <= c <= '9' || c == '-' || c == '_'
  }

  lemma UrlRoundTrip(digits: string)
    requires Base64.IsDigits(digits)
    ensures FromUrl(ToUrl(digits)) == digits
    ensures forall i :: 0 <= i < |digits| ==> IsUrlSafe(ToUrl(digits)[i])
  {
    forall i | 0 <= i < |digits|
      ensures FromUrl(ToUrl(digits))[i] == digits[i] && IsUrlSafe(ToUrl(digits)[i])
    {
      assert Base64.FromDigit(digits[i]).Some?;
    }
  }

  lemma StripsOwnPadding(digits: string)
    requires Base64.IsDigits(digits)
    ensures StripPadding(ToUrl(digits + Base64.Padding(|digits|))) == ToUrl(digits)
  {
    var u, pad := ToUrl(digits), Base64.Padding(|digits|);
    UrlRoundTrip(digits);
    assert ToUrl(digits + pad) == u + pad;
    assert StripPadding(u) == u;
    assert (u + "=")[..|u|] == u && (u + "==")[..|u| + 1] == u + "=";
    assert u + "" == u;
  }

  /** What the encoder produces, and what the decoder makes of it before calling `atob`. */
  lemma {:induction false} EncodedForm(input: string)
    ensures var digits, encoded := Base64.Digits(Utf8.Encode(input)), EncodeBase64Url(input);
            && encoded == ToUrl(digits)
            && FromUrl(encoded) == digits
            && Repad(digits) == Base64.Btoa(Utf8.Encode(input))
            && forall i :: 0 <= i < |encoded| ==> IsUrlSafe(encoded[i])
  {
    var bytes := Utf8.Encode(input);
    var digits := Base64.Digits(bytes);
    Base64.DigitsAreDigits(bytes);
    Base64.BtoaPads(bytes);
    StripsOwnPadding(digits);
    UrlRoundTrip(digits);
    RepadRestores(digits);
  }

  /** The decoder's re-padding restores exactly the padding that the encoder stripped. */
  lemma RepadRestores(digits: string)
    requires |digits| % 4 != 1
    ensures Repad(digits) == digits + Base64.Padding(|digits|)
  {
  }

  /** Decoding undoes encoding, except that a leading byte order mark is lost. */
  lemma Base64UrlRoundTrip(input: string)
    ensures DecodeBase64Url(EncodeBase64Url(input)) ==
            Some(Utf8.WithoutMark(input))
  {
    hide Utf8.Encode, Utf8.Decode;
    EncodedForm(input);
    Base64.AtobUndoesBtoa(Utf8.Encode(input));
    Utf8.DecodeEncoded(input);
  }

  lemma FromUrlIsDigits(s: string)
    requires forall i :: 0 <= i < |s| ==> IsUrlSafe(s[i])
    ensures Base64.IsDigits(FromUrl(s)) && |FromUrl(s)| == |s|
  {
  }

  /** A text of the URL-safe alphabet is refused exactly when its length leaves a single digit over. */
  lemma UrlSafeDecodes(s: string)
    requires forall i :: 0 <= i < |s| ==> IsUrlSafe(s[i])
    ensures DecodeBase64Url(s).Some? <==> |s| % 4 != 1
  {
    hide Utf8.Decode, FromUrl, Base64.FromDigit;
    FromUrlIsDigits(s);
    var d := FromUrl(s);
    if |s| % 4 != 1 {
      RepadRestores(d);
      Base64.PaddedIsAccepted(d);
    } else {
      assert Repad(d) == d + "===";
      Base64.LoneDigitIsRefused(d);
    }
  }

  // ---------------------------------------------------------------------------------------------
  // Numbers
  // ---------------------------------------------------------------------------------------------

  function Digits(n: nat): string {
    if n < 10 then [(48 + n) as char] else Digits(n / 10) + [(48 + n % 10) as char]
  }

  /** A safe integer in a template string: plain decimal notation. */
  function NumberToString(n: int): string {
    if n < 0 then "-" + Digits(-n) else Digits(n)
  }

  predicate IsDecimal(s: string) {
    s != "" && forall i :: 0 <= i < |s| ==> '0' <= s[i] <= '9'
  }

  function DecimalValue(s: string): nat
    requires IsDecimal(s)
  {
    (if |s| == 1 then 0 else 10 * DecimalValue(s[..|s| - 1])) + (s[|s| - 1] as int - 48)
  }

  /** The safe integer that an optionally negated digit string denotes. */
  function SafeInteger(s: string): Option<int> {
    if IsDecimal(s) && DecimalValue(s) <= MAX_SAFE_INTEGER then Some(DecimalValue(s))
    else if s != "" && s[0] == '-' && IsDecimal(s[1..]) && DecimalValue(s[1..]) <= MAX_SAFE_INTEGER
    then Some(-(DecimalValue(s[1..]) as int))
    else None
  }

  /**
   `Number(s)` for the strings with an integer meaning: the empty string is 0. All other syntax of
   ECMAScript numbers is left to `other`, where `None` is NaN or an infinity.
   */
  function Number(s: string, other: string -> Option<int>): Option<int> {
    if s == "" then Some(0)
    else if SafeInteger(s).Some? then SafeInteger(s)
    else other(s)
  }

  lemma {:induction false} DigitsAreDecimal(n: nat)
    ensures IsDecimal(Digits(n)) && DecimalValue(Digits(n)) == n
  {
    if n >= 10 {
      DigitsAreDecimal(n / 10);
    } else {
      DecimalDigit(n);
    }
  }

  lemma {:induction false} DecimalDigit(d: nat)
    requires d < 10
    ensures var s := [(48 + d) as char]; IsDecimal(s) && DecimalValue(s) == d
  {
  }

  lemma {:induction false} DigitsStart(n: nat)
    ensures Digits(n)[0] != '0' || n == 0
  {
    if n >= 10 {
      DigitsStart(n / 10);
    }
  }

  /** A timestamp is printed in plain decimal notation: no leading zero, and a minus sign only before a number. */
  lemma {:induction false} NumberIsPlain(n: nat)
    ensures NumberToString(0) == "0"
    ensures n > 0 ==> NumberToString(n)[0] != '0' && NumberToString(-(n as int)) == "-" + NumberToString(n)
    ensures IsDecimal(NumberToString(n)) && DecimalValue(NumberToString(n)) == n
  {
    DigitsStart(n);
    DigitsAreDecimal(n);
  }

  lemma NumberRoundTrip(n: int, other: string -> Option<int>)
    requires -9007199254740991 <= n <= 9007199254740991
    ensures Number(NumberToString(n), other) == Some(n)
    ensures forall i :: 0 <= i < |NumberToString(n)| ==> NumberToString(n)[i] != ':'
    ensures NumberToString(n) != "" && NumberToString(n)[0] < 128 as char
  {
    var digits := Digits(if n < 0 then -n else n);
    DigitsAreDecimal(if n < 0 then -n else n);
    hide Digits, DecimalValue, SafeInteger, Number, IsDecimal;
    if n < 0 {
      assert NumberToString(n) == "-" + digits;
      NegativeInteger(digits, other);
    } else {
      PositiveInteger(digits, other);
    }
  }

  lemma {:induction false} PositiveInteger(digits: string, other: string -> Option<int>)
    requires IsDecimal(digits) && DecimalValue(digits) <= MAX_SAFE_INTEGER
    ensures Number(digits, other) == Some(DecimalValue(digits))
    ensures digits != "" && digits[0] < 128 as char && forall i :: 0 <= i < |digits| ==> digits[i] != ':'
  {
    hide DecimalValue;
  }

  lemma {:induction false} NegativeInteger(digits: string, other: string -> Option<int>)
    requires IsDecimal(digits) && DecimalValue(digits) <= MAX_SAFE_INTEGER
    ensures Number("-" + digits, other) == Some(-(DecimalValue(digits) as int))
    ensures forall i :: 0 <= i < |digits| + 1 ==> ("-" + digits)[i] != ':'
  {
    hide DecimalValue;
    var s := "-" + digits;
    assert s[1..] == digits;
    assert s[0] == '-' && !IsDecimal(s);
    assert forall i :: 1 <= i < |s| ==> s[i] == digits[i - 1];
  }

  // ---------------------------------------------------------------------------------------------
  // The cursor
  // ---------------------------------------------------------------------------------------------

  function EncodeCursor(c: StreamCursor): string {
    EncodeBase64Url(NumberToString(c.ts) + ":" + c.id)
  }

  /** `None` is null. */
  function DecodeCursor(encoded: string, other: string -> Option<int>): Option<StreamCursor> {
    var decoded := DecodeBase64Url(encoded);
    if decoded.None? then None
    else
      var k := IndexOf(decoded.value, ':');
      if k == |decoded.value| then None
      else
        var ts := Number(decoded.value[..k], other);
        var id := decoded.value[k + 1..];
        if ts.None? || id == "" then None else Some(StreamCursor(ts.value, id))
  }

  /** Decoding a cursor's text, whatever stands before the first colon. */
  lemma DecodeText(prefix: string, id: string, other: string -> Option<int>)
    requires forall i :: 0 <= i < |prefix| ==> prefix[i] != ':'
    requires !Utf8.IsMarked(prefix)
    ensures DecodeCursor(EncodeBase64Url(prefix + ":" + id), other) ==
            (var ts := Number(prefix, other);
             if ts.None? || id == "" then None else Some(StreamCursor(ts.value, id)))
  {
    hide EncodeBase64Url, DecodeBase64Url, Number, IndexOf;
    Base64UrlRoundTrip(prefix + ":" + id);
    CutAtFirst(prefix, ':', id);
  }

  /**
   What the decoder returns, for every text: null exactly when the text is no base64, its bytes hold no
   colon, no number with an integer meaning stands before the first colon, or nothing behind it.
   */
  lemma DecodedForm(encoded: string, other: string -> Option<int>)
    ensures var text, r := DecodeBase64Url(encoded), DecodeCursor(encoded, other);
            && (text.None? || ':' !in text.value ==> r == None)
            && (text.Some? && ':' in text.value ==>
                  exists prefix, id :: text.value == prefix + ":" + id && ':' !in prefix)
            && forall prefix, id :: text == Some(prefix + ":" + id) && ':' !in prefix ==>
                 && (r == None <==> Number(prefix, other) == None || id == "")
                 && (r.Some? ==> r.value.id == id && Some(r.value.ts) == Number(prefix, other))
  {
    hide DecodeBase64Url, Number, IndexOf;
    var text := DecodeBase64Url(encoded);
    forall prefix, id | text == Some(prefix + ":" + id) && ':' !in prefix
      ensures IndexOf(text.value, ':') == |prefix| < |text.value|
      ensures text.value[..|prefix|] == prefix && text.value[|prefix| + 1..] == id
    {
      CutAtFirst(prefix, ':', id);
    }
    if text.Some? && ':' in text.value {
      var k := IndexOf(text.value, ':');
      assert text.value == text.value[..k] + ":" + text.value[k + 1..];
    }
  }

  /** A cursor with a safe timestamp survives the round trip exactly when its id is not empty. */
  lemma CursorRoundTrip(c: StreamCursor, other: string -> Option<int>)
    requires -9007199254740991 <= c.ts <= 9007199254740991
    ensures DecodeCursor(EncodeCursor(c), other) == if c.id == "" then None else Some(c)
  {
    hide EncodeBase64Url, DecodeBase64Url, Number, NumberToString;
    NumberRoundTrip(c.ts, other);
    DecodeText(NumberToString(c.ts), c.id, other);
  }

  /** Different cursors have different encodings, with or without an id. */
  lemma CursorIsInjective(c: StreamCursor, d: StreamCursor)
    requires -9007199254740991 <= c.ts <= 9007199254740991
    requires -9007199254740991 <= d.ts <= 9007199254740991
    requires EncodeCursor(c) == EncodeCursor(d)
    ensures c == d
  {
    hide EncodeBase64Url, DecodeBase64Url, NumberToString, Number;
    var s, t := NumberToString(c.ts), NumberToString(d.ts);
    NumberRoundTrip(c.ts, _ => None);
    NumberRoundTrip(d.ts, _ => None);
    var a, b := s + ":" + c.id, t + ":" + d.id;
    assert a[0] == s[0] && b[0] == t[0];
    Base64UrlRoundTrip(a);
    Base64UrlRoundTrip(b);
    assert a == b;
    assert a[|s|] == ':' && b[|t|] == ':';
    assert |s| == |t|;
    assert s == a[..|s|] && t == b[..|t|];
    assert c.id == a[|s| + 1..] && d.id == b[|t| + 1..];
  }

  /** The encoding uses the section 5 alphabet only, without padding. */
  lemma CursorIsUrlSafe(c: StreamCursor)
    ensures forall i :: 0 <= i < |EncodeCursor(c)| ==> IsUrlSafe(EncodeCursor(c)[i])
  {
    EncodedForm(NumberToString(c.ts) + ":" + c.id);
  }

  /** The decoder accepts more than the encoder produces: a missing timestamp reads as 0. */
  lemma MissingTimestampIsZero(id: string, other: string -> Option<int>)
    requires id != ""
    ensures DecodeCursor(EncodeBase64Url(":" + id), other) == Some(StreamCursor(0, id))
    ensures EncodeBase64Url(":" + id) != EncodeCursor(StreamCursor(0, id))
  {
    hide EncodeBase64Url, DecodeBase64Url;
    assert "" + ":" + id == ":" + id;
    DecodeText("", id, other);
    var text := NumberToString(0) + ":" + id;
    assert (":" + id)[0] == ':' && text[0] == '0';
    Base64UrlRoundTrip(":" + id);
    Base64UrlRoundTrip(text);
  }
}
