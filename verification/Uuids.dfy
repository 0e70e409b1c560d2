/** 128-bit identifiers and their canonical text form (8-4-4-4-12 hexadecimal digits). */
module Uuids {
  import opened Wrappers

  type Nibble = n: int | 0 <= n < 16

  const NIL_DIGITS: seq<Nibble> := [0, 0, 0, 0, 0, 0, 0, 0, 0, 0, 0, 0, 0, 0, 0, 0,
    0, 0, 0, 0, 0, 0, 0, 0, 0, 0, 0, 0, 0, 0, 0, 0]

  type Uuid = s: seq<Nibble> | |s| == 32 witness NIL_DIGITS

  const NIL: Uuid := NIL_DIGITS

  /** Length of the canonical text form. */
  const TEXT_LENGTH := 36

  function HexDigit(n: Nibble): char {
    if n < 10 then ('0' as int + n) as char else ('a' as int + n - 10) as char
  }

  /** Both letter cases are read; only lower case is ever printed. */
  function HexValue(c: char): Option<Nibble> {
    if '0' <= c <= '9' then Some(c as int - '0' as int)
    else if 'a' <= c <= 'f' then Some(c as int - 'a' as int + 10)
    else if 'A' <= c <= 'F' then Some(c as int - 'A' as int + 10)
    else None
  }

  function Hex(ns: seq<Nibble>): (s: string)
    ensures |s| == |ns|
  {
    seq(|ns|, i requires 0 <= i < |ns| => HexDigit(ns[i]))
  }

  function Unhex(s: string): Option<seq<Nibble>> {
    if forall i | 0 <= i < |s| :: HexValue(s[i]).Some? then
      Some(seq(|s|, i requires 0 <= i < |s| && HexValue(s[i]).Some? => HexValue(s[i]).value))
    else None
  }

  function Print(u: Uuid): (s: string)
    ensures |s| == TEXT_LENGTH
  {
    Hex(u[..8]) + "-" + Hex(u[8..12]) + "-" + Hex(u[12..16]) + "-" + Hex(u[16..20]) + "-" + Hex(u[20..])
  }

  /** Reads the canonical form; anything else is an error. */
  function Parse(s: string): Option<Uuid> {
    if |s| != TEXT_LENGTH || s[8] != '-' || s[13] != '-' || s[18] != '-' || s[23] != '-' then None
    else
      var digits := s[..8] + s[9..13] + s[14..18] + s[19..23] + s[24..];
      match Unhex(digits)
      case None => None
      case Some(ns) => Some(ns)
  }

  lemma HexValueHexDigit(n: Nibble)
    ensures HexValue(HexDigit(n)) == Some(n)
  {
  }

  lemma UnhexHex(ns: seq<Nibble>)
    ensures Unhex(Hex(ns)) == Some(ns)
  {
    forall i | 0 <= i < |ns|
      ensures HexValue(Hex(ns)[i]) == Some(ns[i])
    {
      HexValueHexDigit(ns[i]);
    }
    assert Unhex(Hex(ns)).Some?;
    assert Unhex(Hex(ns)).value == ns;
  }

  /** Printing and reading back is the identity. */
  lemma ParsePrint(u: Uuid)
    ensures Parse(Print(u)) == Some(u)
  {
    var s := Print(u);
    assert s[..8] == Hex(u[..8]);
    assert s[9..13] == Hex(u[8..12]);
    assert s[14..18] == Hex(u[12..16]);
    assert s[19..23] == Hex(u[16..20]);
    assert s[24..] == Hex(u[20..]);
    assert s[..8] + s[9..13] + s[14..18] + s[19..23] + s[24..] == Hex(u);
    UnhexHex(u);
  }

  /** A printed identifier consists of hexadecimal digits and dashes only. */
  lemma PrintCharacters(u: Uuid, i: nat)
    requires i < TEXT_LENGTH
    ensures Print(u)[i] == '-' || HexValue(Print(u)[i]).Some?
  {
    forall n: Nibble
      ensures HexValue(HexDigit(n)) == Some(n)
    {
      HexValueHexDigit(n);
    }
  }

  /** The text itself: the digits in lower case, in their order, with dashes after 8, 12, 16 and 20 of them. */
  lemma PrintedText(u: Uuid)
    ensures forall i | 0 <= i < 32 ::
              Print(u)[i + (if i < 8 then 0 else if i < 12 then 1 else if i < 16 then 2 else if i < 20 then 3 else 4)]
              == "0123456789abcdef"[u[i]]
    ensures Print(u)[8] == '-' && Print(u)[13] == '-' && Print(u)[18] == '-' && Print(u)[23] == '-'
  {
    var s := Print(u);
    assert s[..8] == Hex(u[..8]);
    assert s[9..13] == Hex(u[8..12]);
    assert s[14..18] == Hex(u[12..16]);
    assert s[19..23] == Hex(u[16..20]);
    assert s[24..] == Hex(u[20..]);
    forall i | 0 <= i < 32
      ensures s[i + (if i < 8 then 0 else if i < 12 then 1 else if i < 16 then 2 else if i < 20 then 3 else 4)]
              == "0123456789abcdef"[u[i]]
    {
      assert HexDigit(u[i]) == "0123456789abcdef"[u[i]];
      if i < 8 {
        assert s[i] == s[..8][i];
      } else if i < 12 {
        assert s[i + 1] == s[9..13][i - 8];
      } else if i < 16 {
        assert s[i + 2] == s[14..18][i - 12];
      } else if i < 20 {
        assert s[i + 3] == s[19..23][i - 16];
      } else {
        assert s[i + 4] == s[24..][i - 20];
      }
    }
  }
}
