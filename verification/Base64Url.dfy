/**
 * Base64URL (section 5 of RFC 4648) as the web and the iOS client write it, on top of the
 * platforms' standard base64 (section 4), whose decoders differ in how forgiving they are.
 */
module Base64Url {
  import opened Wrappers

  type Byte = x: int | 0 <= x < 256
  type Sextet = x: int | 0 <= x < 64

  // ------------------------------------------------------------ standard base64

  function Digit(v: Sextet): char {
    if v < 26 then ('A' as int + v) as char
    else if v < 52 then ('a' as int + (v - 26)) as char
    else if v < 62 then ('0' as int + (v - 52)) as char
    else if v == 62 then '+' else '/'
  }

  predicate IsDigit(c: char) {
    'A' <= c <= 'Z' || 'a' <= c <= 'z' || '0' <= c <= '9' || c == '+' || c == '/'
  }

  function Value(c: char): Sextet
    requires IsDigit(c)
  {
    if 'A' <= c <= 'Z' then c as int - 'A' as int
    else if 'a' <= c <= 'z' then c as int - 'a' as int + 26
    else if '0' <= c <= '9' then c as int - '0' as int + 52
    else if c == '+' then 62 else 63
  }

  lemma DigitValue(v: Sextet)
    ensures IsDigit(Digit(v)) && Value(Digit(v)) == v
  {
  }

  /** Three bytes as four digits. */
  function Quad(x: Byte, y: Byte, z: Byte): (r: string)
    ensures |r| == 4
  {
    [Digit(x / 4), Digit(x % 4 * 16 + y / 16), Digit(y % 16 * 4 + z / 64), Digit(z % 64)]
  }

  /** A last group of one or two bytes is filled with zero bits, its missing digits with padding. */
  function Encode(b: seq<Byte>): string {
    if |b| == 0 then ""
    else if |b| == 1 then Quad(b[0], 0, 0)[..2] + "=="
    else if |b| == 2 then Quad(b[0], b[1], 0)[..3] + "="
    else Quad(b[0], b[1], b[2]) + Encode(b[3..])
  }

  /** Digits without padding; leftover bits of the last digit are dropped. */
  function Decode(s: string): Option<seq<Byte>>
    decreases |s|
  {
    if |s| == 0 then Some([])
    else if |s| == 1 || !IsDigit(s[0]) || !IsDigit(s[1]) then None
    else
      var first := Value(s[0]) * 4 + Value(s[1]) / 16;
      if |s| == 2 then Some([first])
      else if !IsDigit(s[2]) then None
      else
        var second := Value(s[1]) % 16 * 16 + Value(s[2]) / 4;
        if |s| == 3 then Some([first, second])
        else if !IsDigit(s[3]) then None
        else
          match Decode(s[4..])
          case None => None
          case Some(rest) => Some([first, second, Value(s[2]) % 4 * 64 + Value(s[3])] + rest)
  }

  /** Drops the padding of a text whose length is a multiple of four. */
  function Unpadded(s: string): string {
    if |s| % 4 != 0 || |s| == 0 || s[|s| - 1] != '=' then s
    else if s[|s| - 2] == '=' then s[..|s| - 2]
    else s[..|s| - 1]
  }

  predicate IsSpace(c: char) {
    c == ' ' || c == '\t' || c == '\n' || c == '\r' || c == '\U{0C}'
  }

  function WithoutSpaces(s: string): string {
    if s == "" then "" else if IsSpace(s[0]) then WithoutSpaces(s[1..]) else [s[0]] + WithoutSpaces(s[1..])
  }

  /** The browser's atob: forgiving about white space and missing padding. */
  function Atob(s: string): Option<seq<Byte>> {
    Decode(Unpadded(WithoutSpaces(s)))
  }

  /** Foundation's base64 decoder without options: padded text only. */
  function FoundationDecode(s: string): Option<seq<Byte>> {
    if |s| % 4 != 0 then None else Decode(Unpadded(s))
  }

  // ------------------------------------------------------------ string steps of the two clients

  function Replace(s: string, from: char, to: char): (r: string)
    ensures |r| == |s| && forall i | 0 <= i < |s| :: r[i] == if s[i] == from then to else s[i]
  {
    seq(|s|, i requires 0 <= i < |s| => if s[i] == from then to else s[i])
  }

  /** replace(/=+$/, "") */
  function TrimPadding(s: string): string {
    if s != "" && s[|s| - 1] == '=' then TrimPadding(s[..|s| - 1]) else s
  }

  /** replacingOccurrences(of: "=", with: "") */
  function RemovePadding(s: string): string {
    if s == "" then "" else if s[0] == '=' then RemovePadding(s[1..]) else [s[0]] + RemovePadding(s[1..])
  }

  function Repeat(c: char, n: nat): (r: string)
    ensures |r| == n && forall i | 0 <= i < n :: r[i] == c
  {
    seq(n, i => c)
  }

  function ToUrl(s: string): string {
    Replace(Replace(s, '+', '-'), '/', '_')
  }

  function FromUrl(s: string): string {
    Replace(Replace(s, '-', '+'), '_', '/')
  }

  /** How many padding signs complete a length to a multiple of four. */
  function Missing(n: nat): nat {
    if n % 4 == 0 then 0 else 4 - n % 4
  }

  /** Both clients' re-padding step. */
  function Padded(s: string): string {
    s + Repeat('=', Missing(|s|))
  }

  function WebDecode(s: string): Option<seq<Byte>> {
    Atob(Padded(FromUrl(s)))
  }

  function IosDecode(s: string): Option<seq<Byte>> {
    FoundationDecode(Padded(FromUrl(s)))
  }

  function WebEncode(b: seq<Byte>): string {
    TrimPadding(ToUrl(Encode(b)))
  }

  function IosEncode(b: seq<Byte>): string {
    RemovePadding(ToUrl(Encode(b)))
  }

  // ------------------------------------------------------------ the methods

  /** The web client's base64URLToBuffer; atob throws where `ok` is false. */
  method Base64UrlToBuffer(base64url: string) returns (ok: bool, buffer: array<Byte>)
    ensures fresh(buffer)
    ensures ok <==> WebDecode(base64url).Some?
    ensures ok ==> buffer[..] == WebDecode(base64url).value
  {
    var base64 := Replace(Replace(base64url, '-', '+'), '_', '/');
    var pad := |base64| % 4;
    var padded := if pad != 0 then base64 + Repeat('=', 4 - pad) else base64;
    assert padded == Padded(base64);
    var binary := Atob(padded);
    ok := binary.Some?;
    buffer := Filled(if ok then binary.value else []);
  }

  /** The loop that copies the decoded text into a Uint8Array. */
  method Filled(binary: seq<Byte>) returns (bytes: array<Byte>)
    ensures fresh(bytes) && bytes[..] == binary
  {
    bytes := new Byte[|binary|];
    for i := 0 to |binary|
      invariant bytes[..i] == binary[..i]
    {
      bytes[i] := binary[i];
    }
  }

  /** The web client's bufferToBase64URL. */
  method BufferToBase64Url(bytes: array<Byte>) returns (r: string)
    ensures r == WebEncode(bytes[..])
  {
    var str: seq<Byte> := [];
    for i := 0 to bytes.Length
      invariant str == bytes[..i]
    {
      str := str + [bytes[i]];
    }
    assert bytes[..bytes.Length] == bytes[..];
    r := TrimPadding(Replace(Replace(Encode(str), '+', '-'), '/', '_'));
  }

  /** The iOS initialiser, which appends to a local variable. */
  method DataFromBase64Url(text: string) returns (r: Option<seq<Byte>>)
    ensures r == IosDecode(text)
  {
    var base64 := Replace(Replace(text, '-', '+'), '_', '/');
    var remainder := |base64| % 4;
    if remainder > 0 {
      base64 := base64 + Repeat('=', 4 - remainder);
    }
    assert base64 == Padded(FromUrl(text));
    r := FoundationDecode(base64);
  }

  // ------------------------------------------------------------ lemmas

  /** The digits of the encoding, without its padding. */
  function Body(b: seq<Byte>): string {
    if |b| == 0 then ""
    else if |b| == 1 then Quad(b[0], 0, 0)[..2]
    else if |b| == 2 then Quad(b[0], b[1], 0)[..3]
    else Quad(b[0], b[1], b[2]) + Body(b[3..])
  }

  lemma QuadDigits(x: Byte, y: Byte, z: Byte)
    ensures forall i | 0 <= i < 4 :: IsDigit(Quad(x, y, z)[i])
  {
    DigitValue(x / 4);
    DigitValue(x % 4 * 16 + y / 16);
    DigitValue(y % 16 * 4 + z / 64);
    DigitValue(z % 64);
  }

  lemma {:induction false} BodyDigits(b: seq<Byte>)
    ensures |Body(b)| == (4 * |b| + 2) / 3
    ensures forall i | 0 <= i < |Body(b)| :: IsDigit(Body(b)[i])
    decreases |b|
  {
    if |b| == 1 {
      QuadDigits(b[0], 0, 0);
    } else if |b| == 2 {
      QuadDigits(b[0], b[1], 0);
    } else if |b| > 2 {
      QuadDigits(b[0], b[1], b[2]);
      BodyDigits(b[3..]);
    }
  }

  lemma {:induction false} EncodeIsPaddedBody(b: seq<Byte>)
    ensures Encode(b) == Padded(Body(b))
    decreases |b|
  {
    if |b| == 1 {
      assert Repeat('=', 2) == "==";
    } else if |b| == 2 {
      assert Repeat('=', 1) == "=";
    } else if |b| > 2 {
      EncodeIsPaddedBody(b[3..]);
      PaddedConcat(Quad(b[0], b[1], b[2]), Body(b[3..]));
    }
  }

  lemma PaddedConcat(four: string, s: string)
    requires |four| == 4
    ensures Padded(four + s) == four + Padded(s)
  {
    assert Missing(|four + s|) == Missing(|s|);
  }

  lemma Sextets(x: Byte, y: Byte, z: Byte)
    ensures var s0, s1, s2, s3 := x / 4, x % 4 * 16 + y / 16, y % 16 * 4 + z / 64, z % 64;
            s0 * 4 + s1 / 16 == x && s1 % 16 * 16 + s2 / 4 == y && s2 % 4 * 64 + s3 == z
  {
  }

  /** Three bytes through four digits and back. */
  lemma Group(x: Byte, y: Byte, z: Byte)
    ensures var q := Quad(x, y, z);
            && IsDigit(q[0]) && IsDigit(q[1]) && IsDigit(q[2]) && IsDigit(q[3])
            && Value(q[0]) * 4 + Value(q[1]) / 16 == x
            && Value(q[1]) % 16 * 16 + Value(q[2]) / 4 == y
            && Value(q[2]) % 4 * 64 + Value(q[3]) == z
  {
    Sextets(x, y, z);
    DigitValue(x / 4);
    DigitValue(x % 4 * 16 + y / 16);
    DigitValue(y % 16 * 4 + z / 64);
    DigitValue(z % 64);
  }

  lemma DecodeGroup(x: Byte, y: Byte, z: Byte, rest: string, b: seq<Byte>)
    requires Decode(rest) == Some(b)
    ensures Decode(Quad(x, y, z) + rest) == Some([x, y, z] + b)
  {
    Group(x, y, z);
    var s := Quad(x, y, z) + rest;
    assert s[4..] == rest;
  }

  lemma DecodeShort(q: string)
    requires |q| == 4 && IsDigit(q[0]) && IsDigit(q[1]) && IsDigit(q[2])
    ensures Decode(q[..2]) == Some([Value(q[0]) * 4 + Value(q[1]) / 16])
    ensures Decode(q[..3]) == Some([Value(q[0]) * 4 + Value(q[1]) / 16, Value(q[1]) % 16 * 16 + Value(q[2]) / 4])
  {
    var two, three := q[..2], q[..3];
    assert two[0] == q[0] && two[1] == q[1];
    assert three[0] == q[0] && three[1] == q[1] && three[2] == q[2];
  }

  lemma DecodeLast(x: Byte, y: Byte)
    ensures Decode(Quad(x, y, 0)[..3]) == Some([x, y])
    ensures y == 0 ==> Decode(Quad(x, y, 0)[..2]) == Some([x])
  {
    Group(x, y, 0);
    DecodeShort(Quad(x, y, 0));
  }

  lemma {:induction false} DecodeBody(b: seq<Byte>)
    ensures Decode(Body(b)) == Some(b)
    decreases |b|
  {
    if |b| >= 3 {
      DecodeBody(b[3..]);
      DecodeGroup(b[0], b[1], b[2], Body(b[3..]), b[3..]);
      assert b == [b[0], b[1], b[2]] + b[3..];
    } else if |b| == 2 {
      DecodeLast(b[0], b[1]);
      assert b == [b[0], b[1]];
    } else if |b| == 1 {
      DecodeLast(b[0], 0);
      assert b == [b[0]];
    }
  }

  lemma UnpaddedPadded(s: string)
    requires forall i | 0 <= i < |s| :: s[i] != '='
    requires |s| % 4 != 1
    ensures Unpadded(Padded(s)) == s && |Padded(s)| % 4 == 0
  {
    var p := Padded(s);
    if |s| % 4 == 0 {
      assert p == s;
    } else if |s| % 4 == 2 {
      assert p[..|p| - 2] == s;
    } else {
      assert p[|p| - 2] == s[|s| - 1];
      assert p[..|p| - 1] == s;
    }
  }

  lemma {:induction false} NoSpaces(s: string)
    requires forall i | 0 <= i < |s| :: !IsSpace(s[i])
    ensures WithoutSpaces(s) == s
  {
    if s != "" {
      NoSpaces(s[1..]);
    }
  }

  lemma {:induction false} TrimTail(s: string, n: nat)
    requires forall i | 0 <= i < |s| :: s[i] != '='
    ensures TrimPadding(s + Repeat('=', n)) == s
    decreases n
  {
    var t := s + Repeat('=', n);
    if n == 0 {
      assert t == s;
    } else {
      assert t[..|t| - 1] == s + Repeat('=', n - 1);
      TrimTail(s, n - 1);
    }
  }

  lemma {:induction false} RemoveTail(s: string, n: nat)
    requires forall i | 0 <= i < |s| :: s[i] != '='
    ensures RemovePadding(s + Repeat('=', n)) == s
    decreases |s| + n
  {
    var t := s + Repeat('=', n);
    if s != "" {
      assert t[1..] == s[1..] + Repeat('=', n);
      RemoveTail(s[1..], n);
    } else if n > 0 {
      assert t[1..] == s + Repeat('=', n - 1);
      RemoveTail(s, n - 1);
    }
  }

  predicate IsUrlDigit(c: char) {
    'A' <= c <= 'Z' || 'a' <= c <= 'z' || '0' <= c <= '9' || c == '-' || c == '_'
  }

  lemma UrlBody(b: seq<Byte>)
    ensures var u := ToUrl(Body(b));
            && ToUrl(Encode(b)) == u + Repeat('=', Missing(|u|))
            && FromUrl(u) == Body(b)
            && forall i | 0 <= i < |u| :: IsUrlDigit(u[i])
  {
    BodyDigits(b);
    EncodeIsPaddedBody(b);
  }

  // ------------------------------------------------------------ results

  /** The two encoders agree, and what they drop is exactly the padding the decoders put back. */
  lemma EncodersAgree(b: seq<Byte>)
    ensures WebEncode(b) == IosEncode(b) == ToUrl(Body(b))
    ensures Padded(FromUrl(WebEncode(b))) == Encode(b)
  {
    UrlBody(b);
    EncodeIsPaddedBody(b);
    var u := ToUrl(Body(b));
    TrimTail(u, Missing(|u|));
    RemoveTail(u, Missing(|u|));
  }

  /** URL-safe characters only, no padding, and ceil(4n/3) of them. */
  lemma EncodedForm(b: seq<Byte>)
    ensures forall i | 0 <= i < |WebEncode(b)| :: IsUrlDigit(WebEncode(b)[i])
    ensures |WebEncode(b)| == (4 * |b| + 2) / 3
  {
    EncodersAgree(b);
    UrlBody(b);
    BodyDigits(b);
  }

  /** Main result: whichever client encodes and whichever decodes, every byte string comes back. */
  lemma DecodeUndoesEncode(b: seq<Byte>)
    ensures WebDecode(WebEncode(b)) == Some(b) && IosDecode(WebEncode(b)) == Some(b)
    ensures WebDecode(IosEncode(b)) == Some(b) && IosDecode(IosEncode(b)) == Some(b)
  {
    EncodersAgree(b);
    StandardRoundTrip(b);
  }

  /** What the platforms guarantee: both decoders undo the standard encoder. */
  lemma StandardRoundTrip(b: seq<Byte>)
    ensures Atob(Encode(b)) == Some(b) && FoundationDecode(Encode(b)) == Some(b)
  {
    UnpaddedEncode(b);
    DecodeBody(b);
    EncodeNoSpaces(b);
  }

  lemma UnpaddedEncode(b: seq<Byte>)
    ensures Unpadded(Encode(b)) == Body(b) && |Encode(b)| % 4 == 0
  {
    EncodeIsPaddedBody(b);
    BodyDigits(b);
    LengthNotOne(|b|);
    UnpaddedPadded(Body(b));
  }

  lemma EncodeNoSpaces(b: seq<Byte>)
    ensures WithoutSpaces(Encode(b)) == Encode(b)
  {
    EncodeIsPaddedBody(b);
    BodyDigits(b);
    NoSpaces(Encode(b));
  }

  lemma LengthNotOne(n: nat)
    ensures (4 * n + 2) / 3 % 4 != 1
  {
    var k := n / 3;
    assert n == 3 * k + n % 3;
    assert (4 * n + 2) / 3 == 4 * k + (4 * (n % 3) + 2) / 3;
  }

  lemma {:induction false} DecodeDefined(s: string)
    ensures Decode(s).Some? <==> |s| % 4 != 1 && forall i | 0 <= i < |s| :: IsDigit(s[i])
    decreases |s|
  {
    if |s| >= 4 {
      DecodeDefined(s[4..]);
      assert forall i | 4 <= i < |s| :: s[i] == s[4..][i - 4];
    }
  }

  lemma PaddedLength(s: string)
    ensures |Padded(s)| % 4 == 0
  {
  }

  /** The decoders agree on every text without white space, well formed or not. */
  lemma DecodersAgree(s: string)
    requires forall i | 0 <= i < |s| :: !IsSpace(s[i])
    ensures WebDecode(s) == IosDecode(s)
  {
    PaddedLength(FromUrl(s));
    NoSpaces(Padded(FromUrl(s)));
  }

  /**
   * Which unpadded texts are accepted: those of either alphabet whose length is not one more
   * than a multiple of four; re-padding such a text with three signs does not rescue it.
   */
  lemma AcceptedTexts(s: string)
    requires forall i | 0 <= i < |s| :: s[i] != '='
    ensures IosDecode(s).Some? <==> |s| % 4 != 1 && forall i | 0 <= i < |s| :: IsUrlDigit(s[i]) || IsDigit(s[i])
  {
    var t := FromUrl(s);
    PaddedLength(t);
    assert forall i | 0 <= i < |s| :: IsDigit(t[i]) <==> IsUrlDigit(s[i]) || IsDigit(s[i]);
    if |s| % 4 == 1 {
      var core := Unpadded(Padded(t));
      assert core[|t|] == '=';
      DecodeDefined(core);
    } else {
      UnpaddedPadded(t);
      DecodeDefined(t);
    }
  }

  // ------------------------------------------------------------ against the standard's tables

  const UPPER := "ABCDEFGHIJKLMNOPQRSTUVWXYZ"
  const LOWER := "abcdefghijklmnopqrstuvwxyz"
  const FIGURES := "0123456789"

  /** Tables 1 and 2 of RFC 4648. */
  const ALPHABET := UPPER + LOWER + FIGURES + "+/"
  const URL_ALPHABET := UPPER + LOWER + FIGURES + "-_"

  lemma DigitIsTable(v: Sextet)
    ensures |ALPHABET| == |URL_ALPHABET| == 64
    ensures Digit(v) == ALPHABET[v]
    ensures ToUrl([Digit(v)]) == [URL_ALPHABET[v]]
  {
    assert |UPPER| == 26 && |LOWER| == 26 && |FIGURES| == 10;
    if v < 26 {
      assert ALPHABET[v] == URL_ALPHABET[v] == UPPER[v];
    } else if v < 52 {
      assert ALPHABET[v] == URL_ALPHABET[v] == LOWER[v - 26];
    } else if v < 62 {
      assert ALPHABET[v] == URL_ALPHABET[v] == FIGURES[v - 52];
    }
  }

  function ByteAt(b: seq<Byte>, i: nat): Byte {
    if i < |b| then b[i] else 0
  }

  function SextetAt(digits: seq<Sextet>, i: nat): Sextet {
    if i < |digits| then digits[i] else 0
  }

  /** Three bytes as one number of 24 bits; what is missing at the end is zero. */
  function OfBytes(b: seq<Byte>, g: nat): nat {
    ByteAt(b, 3 * g) * 65536 + ByteAt(b, 3 * g + 1) * 256 + ByteAt(b, 3 * g + 2)
  }

  /** Four digits as one number of 24 bits. */
  function OfSextets(digits: seq<Sextet>, g: nat): nat {
    SextetAt(digits, 4 * g) * 262144 + SextetAt(digits, 4 * g + 1) * 4096
    + SextetAt(digits, 4 * g + 2) * 64 + SextetAt(digits, 4 * g + 3)
  }

  lemma SameNumber(x: Byte, y: Byte, z: Byte)
    ensures x / 4 * 262144 + (x % 4 * 16 + y / 16) * 4096 + (y % 16 * 4 + z / 64) * 64 + z % 64
            == x * 65536 + y * 256 + z
  {
  }

  lemma FirstGroup(b: seq<Byte>) returns (digits: seq<Sextet>)
    requires |b| > 0
    ensures var three := if |b| < 3 then b else b[..3];
            && |digits| == |Body(three)|
            && (forall i | 0 <= i < |digits| :: Body(three)[i] == Digit(digits[i]))
            && OfSextets(digits, 0) == OfBytes(b, 0)
  {
    var x, y, z := ByteAt(b, 0), ByteAt(b, 1), ByteAt(b, 2);
    SameNumber(x, y, z);
    var four: seq<Sextet> := [x / 4, x % 4 * 16 + y / 16, y % 16 * 4 + z / 64, z % 64];
    if |b| == 1 {
      digits := four[..2];
    } else if |b| == 2 {
      digits := four[..3];
    } else {
      digits := four;
      assert Body(b[..3]) == Quad(x, y, z) + Body(b[..3][3..]);
      assert Body(b[..3][3..]) == "";
    }
  }

  lemma {:induction false} BodyNumbers(b: seq<Byte>) returns (digits: seq<Sextet>)
    ensures |digits| == |Body(b)|
    ensures forall i | 0 <= i < |digits| :: Body(b)[i] == Digit(digits[i])
    ensures forall g: nat | 3 * g < |b| :: OfSextets(digits, g) == OfBytes(b, g)
    decreases |b|
  {
    if b == [] {
      digits := [];
    } else {
      var first := FirstGroup(b);
      if |b| < 3 {
        digits := first;
        assert forall g: nat | 3 * g < |b| :: g == 0;
      } else {
        var rest := BodyNumbers(b[3..]);
        digits := first + rest;
        assert Body(b[..3]) == Quad(b[0], b[1], b[2]) + Body(b[..3][3..]);
        assert Body(b) == Quad(b[0], b[1], b[2]) + Body(b[3..]);
        forall g: nat | 3 * g < |b|
          ensures OfSextets(digits, g) == OfBytes(b, g)
        {
          if g == 0 {
            assert OfSextets(first + rest, 0) == OfSextets(first, 0);
          } else {
            LaterGroup(first, rest, b, g);
          }
        }
      }
    }
  }

  lemma LaterGroup(first: seq<Sextet>, rest: seq<Sextet>, b: seq<Byte>, g: nat)
    requires |first| == 4 && |b| >= 3 && g > 0
    ensures OfSextets(first + rest, g) == OfSextets(rest, g - 1)
    ensures OfBytes(b, g) == OfBytes(b[3..], g - 1)
  {
    assert forall i: nat :: SextetAt(first + rest, i + 4) == SextetAt(rest, i);
    assert forall i: nat :: ByteAt(b, i + 3) == ByteAt(b[3..], i);
  }

  /**
   * Main result on the alphabet. What both clients write are the entries of the URL-safe table for
   * the digits, to the base 64, of each three bytes taken as one number, most significant first.
   */
  lemma EncodedNumbers(b: seq<Byte>) returns (digits: seq<Sextet>)
    ensures |WebEncode(b)| == |digits| && WebEncode(b) == IosEncode(b) && |URL_ALPHABET| == 64
    ensures forall i | 0 <= i < |digits| :: WebEncode(b)[i] == URL_ALPHABET[digits[i]]
    ensures forall g: nat | 3 * g < |b| :: OfSextets(digits, g) == OfBytes(b, g)
  {
    EncodersAgree(b);
    digits := BodyNumbers(b);
    DigitIsTable(0);
    forall i | 0 <= i < |digits|
      ensures WebEncode(b)[i] == URL_ALPHABET[digits[i]]
    {
      DigitIsTable(digits[i]);
      assert ToUrl([Digit(digits[i])])[0] == URL_ALPHABET[digits[i]];
    }
  }
}
