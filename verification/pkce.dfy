/** PKCE's encoding: base64url with the padding taken off, and its length. */
module Pkce {
  import opened Octets
  import opened Options
  import opened Text

  function Digit(n: int): char
    requires 0 <= n < 64
  {
    if n < 26 then 'A' + n as char
    else if n < 52 then 'a' + (n - 26) as char
    else if n < 62 then '0' + (n - 52) as char
    else if n == 62 then '-' else '_'
  }

  function DigitValue(c: char): (r: Option<int>)
    ensures r.Some? ==> 0 <= r.value < 64
  {
    if 'A' <= c <= 'Z' then Some(c as int - 'A' as int)
    else if 'a' <= c <= 'z' then Some(c as int - 'a' as int + 26)
    else if '0' <= c <= '9' then Some(c as int - '0' as int + 52)
    else if c == '-' then Some(62)
    else if c == '_' then Some(63)
    else None
  }

  lemma DigitRoundTrip(n: int)
    requires 0 <= n < 64
    ensures DigitValue(Digit(n)) == Some(n) && Digit(n) != '='
  {
  }

  /** Table 2 of RFC 4648: upper-case letters, lower-case letters and digits in their order, then `-` and `_`. */
  lemma DigitsAreTable2(n: int)
    requires 0 <= n < 63
    ensures Digit(0) == 'A' && Digit(25) == 'Z' && Digit(26) == 'a' && Digit(51) == 'z'
    ensures Digit(52) == '0' && Digit(61) == '9' && Digit(62) == '-' && Digit(63) == '_'
    ensures n !in {25, 51, 61, 62} ==> Digit(n + 1) as int == Digit(n) as int + 1
  {
  }

  /** `base64.urlsafe_b64encode`. */
  function Encode(b: Bytes): string {
    if b == [] then ""
    else if |b| == 1 then [Digit(b[0] / 4), Digit(b[0] % 4 * 16), '=', '=']
    else if |b| == 2 then [Digit(b[0] / 4), Digit(b[0] % 4 * 16 + b[1] / 16), Digit(b[1] % 16 * 4), '=']
    else [Digit(b[0] / 4), Digit(b[0] % 4 * 16 + b[1] / 16), Digit(b[1] % 16 * 4 + b[2] / 64), Digit(b[2] % 64)]
         + Encode(b[3..])
  }

  /** What the library sends: the encoding without its padding. */
  function Unpadded(b: Bytes): string {
    RStrip(Encode(b), '=')
  }

  /** The padding a reader puts back: up to a multiple of four characters. */
  function Repad(s: string): string {
    s + (match |s| % 4 case 0 => "" case 1 => "===" case 2 => "==" case _ => "=")
  }

  /** Strict decoding of padded text, four characters at a time. */
  function Decode(s: string): Option<Bytes> {
    if s == "" then Some([])
    else if |s| < 4 || DigitValue(s[0]).None? || DigitValue(s[1]).None? then None
    else
      var a, b := DigitValue(s[0]).value, DigitValue(s[1]).value;
      if s[2..] == "==" then
        if b % 16 == 0 then Some([a * 4 + b / 16]) else None
      else if DigitValue(s[2]).None? then None
      else
        var c := DigitValue(s[2]).value;
        if s[3..] == "=" then
          if c % 4 == 0 then Some([a * 4 + b / 16, b % 16 * 16 + c / 4]) else None
        else if DigitValue(s[3]).None? || Decode(s[4..]).None? then None
        else
          var d := DigitValue(s[3]).value;
          Some([a * 4 + b / 16, b % 16 * 16 + c / 4, c % 4 * 64 + d] + Decode(s[4..]).value)
  }

  lemma Regroup(x: Byte, y: Byte, z: Byte)
    ensures
      var b, c := x % 4 * 16 + y / 16, y % 16 * 4 + z / 64;
      && 0 <= b < 64 && 0 <= c < 64
      && x / 4 * 4 + b / 16 == x && b % 16 * 16 + c / 4 == y && c % 4 * 64 + z % 64 == z
  {
    assert (x % 4 * 16 + y / 16) / 16 == x % 4 && (x % 4 * 16 + y / 16) % 16 == y / 16;
    assert (y % 16 * 4 + z / 64) / 4 == y % 16 && (y % 16 * 4 + z / 64) % 4 == z / 64;
  }

  lemma DecodeOne(x: Byte)
    ensures Decode(Encode([x])) == Some([x])
  {
  }

  lemma DecodeTwo(x: Byte, y: Byte)
    ensures Decode(Encode([x, y])) == Some([x, y])
  {
    var a, b, c := x / 4, x % 4 * 16 + y / 16, y % 16 * 4;
    Regroup(x, y, 0);
    DigitRoundTrip(a);
    DigitRoundTrip(b);
    DigitRoundTrip(c);
    DecodeShort([Digit(a), Digit(b), Digit(c), '='], a, b, c);
  }

  lemma DecodeShort(s: string, a: int, b: int, c: int)
    requires |s| == 4 && s[3] == '=' && c % 4 == 0
    requires DigitValue(s[0]) == Some(a) && DigitValue(s[1]) == Some(b) && DigitValue(s[2]) == Some(c)
    ensures Decode(s) == Some([a * 4 + b / 16, b % 16 * 16 + c / 4])
  {
    assert s[2..][0] == s[2] != '=' && s[3..] == "=";
  }

  lemma DecodeGroup(s: string, a: int, b: int, c: int, d: int)
    requires |s| >= 4 && Decode(s[4..]).Some?
    requires DigitValue(s[0]) == Some(a) && DigitValue(s[1]) == Some(b)
    requires DigitValue(s[2]) == Some(c) && DigitValue(s[3]) == Some(d)
    ensures Decode(s) == Some([a * 4 + b / 16, b % 16 * 16 + c / 4, c % 4 * 64 + d] + Decode(s[4..]).value)
  {
    assert s[2..][0] == s[2] != '=' && s[3..][0] == s[3] != '=';
  }

  lemma DecodeThree(x: Byte, y: Byte, z: Byte, rest: string)
    requires Decode(rest).Some?
    ensures Decode([Digit(x / 4), Digit(x % 4 * 16 + y / 16), Digit(y % 16 * 4 + z / 64), Digit(z % 64)] + rest)
         == Some([x, y, z] + Decode(rest).value)
  {
    var a, b, c, d := x / 4, x % 4 * 16 + y / 16, y % 16 * 4 + z / 64, z % 64;
    Regroup(x, y, z);
    DigitRoundTrip(a);
    DigitRoundTrip(b);
    DigitRoundTrip(c);
    DigitRoundTrip(d);
    var s := [Digit(a), Digit(b), Digit(c), Digit(d)] + rest;
    assert s[4..] == rest;
    DecodeGroup(s, a, b, c, d);
  }

  lemma {:induction false} DecodeEncode(b: Bytes)
    ensures Decode(Encode(b)) == Some(b)
  {
    if |b| == 1 {
      DecodeOne(b[0]);
      assert b == [b[0]];
    } else if |b| == 2 {
      DecodeTwo(b[0], b[1]);
      assert b == [b[0], b[1]];
    } else if |b| > 2 {
      var rest := Encode(b[3..]);
      DecodeEncode(b[3..]);
      DecodeThree(b[0], b[1], b[2], rest);
      assert b == [b[0], b[1], b[2]] + b[3..];
    }
  }

  /** The number of characters that carry `n` bytes: four thirds, rounded up. */
  function Length(n: nat): nat {
    (4 * n + 2) / 3
  }

  predicate IsDigits(s: string) {
    forall i | 0 <= i < |s| :: DigitValue(s[i]).Some?
  }

  /** The digits of the encoding, counted off without any padding. */
  function Digits(b: Bytes): string {
    if b == [] then ""
    else if |b| == 1 then [Digit(b[0] / 4), Digit(b[0] % 4 * 16)]
    else if |b| == 2 then [Digit(b[0] / 4), Digit(b[0] % 4 * 16 + b[1] / 16), Digit(b[1] % 16 * 4)]
    else [Digit(b[0] / 4), Digit(b[0] % 4 * 16 + b[1] / 16), Digit(b[1] % 16 * 4 + b[2] / 64), Digit(b[2] % 64)]
         + Digits(b[3..])
  }

  lemma {:induction false} DigitsLength(b: Bytes)
    ensures |Digits(b)| == Length(|b|)
  {
    if |b| > 2 {
      DigitsLength(b[3..]);
    }
  }

  lemma EveryDigitIsOne()
    ensures forall n | 0 <= n < 64 :: DigitValue(Digit(n)).Some?
  {
  }

  lemma {:induction false} DigitsAreDigits(b: Bytes)
    ensures IsDigits(Digits(b))
  {
    EveryDigitIsOne();
    if |b| > 2 {
      DigitsAreDigits(b[3..]);
    }
  }

  lemma RepadAfterGroup(group: string, rest: string)
    requires |group| == 4
    ensures Repad(group + rest) == group + Repad(rest)
  {
  }

  lemma {:induction false} EncodeIsRepadded(b: Bytes)
    ensures Encode(b) == Repad(Digits(b))
  {
    if |b| > 2 {
      EncodeIsRepadded(b[3..]);
      RepadAfterGroup(Digits(b)[..4], Digits(b[3..]));
      assert Digits(b) == Digits(b)[..4] + Digits(b[3..]);
    }
  }

  lemma StripRepadded(digits: string)
    requires IsDigits(digits)
    ensures RStrip(Repad(digits), '=') == digits
  {
    var padded := Repad(digits);
    var stripped := RStrip(padded, '=');
    assert forall i | 0 <= i < |digits| :: padded[i] != '=';
    assert forall i | |digits| <= i < |padded| :: padded[i] == '=';
    assert |stripped| < |padded| ==> padded[|stripped|] == '=';
    assert |stripped| > 0 ==> stripped[|stripped| - 1] == padded[|stripped| - 1];
  }

  lemma UnpaddedIsDigits(b: Bytes)
    ensures Unpadded(b) == Digits(b)
  {
    EncodeIsRepadded(b);
    DigitsAreDigits(b);
    StripRepadded(Digits(b));
  }

  /** Exactly so many characters, each of them unreserved, and a reader that pads and decodes gets the bytes back. */
  lemma UnpaddedRoundTrip(b: Bytes)
    ensures |Unpadded(b)| == Length(|b|) && IsDigits(Unpadded(b))
    ensures Decode(Repad(Unpadded(b))) == Some(b)
  {
    DigitsLength(b);
    DigitsAreDigits(b);
    EncodeIsRepadded(b);
    UnpaddedIsDigits(b);
    DecodeEncode(b);
  }

  /** Distinct digests have distinct challenges. */
  lemma ChallengesTellDigestsApart(a: Bytes, b: Bytes)
    ensures Unpadded(a) == Unpadded(b) <==> a == b
  {
    UnpaddedRoundTrip(a);
    UnpaddedRoundTrip(b);
  }

  /** The example of Appendix A of RFC 7636. */
  lemma AppendixA(b: Bytes)
    requires |b| == 5 && b[0] == 3 && b[1] == 236 && b[2] == 255 && b[3] == 224 && b[4] == 193
    ensures Unpadded(b) == "A-z_4ME"
  {
    UnpaddedIsDigits(b);
    assert b[3..] == [b[3], b[4]];
  }

  /** RFC 7636's window for a verifier is met by exactly 32 to 96 bytes of entropy; a SHA-256 challenge has 43 characters. */
  lemma VerifierWindow(b: Bytes)
    ensures 43 <= |Unpadded(b)| <= 128 <==> 32 <= |b| <= 96
    ensures |b| == 32 ==> |Unpadded(b)| == 43
    ensures |b| == 48 ==> |Unpadded(b)| == 64
  {
    UnpaddedRoundTrip(b);
  }
}
