/**
 * Key normalisation. A mirror key arrives either as raw bytes or as a hex
 * string; the service canonicalises it to lower-case hex (Buffer#toString('hex'))
 * for set membership and persistence, and parses hex strings back into bytes
 * with Buffer.from(s, 'hex').
 */
module HexKeys {
  type Byte = b: int | 0 <= b < 256

  /** A key as it reaches the service: a hex string or a byte buffer. */
  datatype Key = HexString(text: string) | Bytes(bytes: seq<Byte>)

  predicate IsLowerHexChar(c: char) {
    '0' <= c <= '9' || 'a' <= c <= 'f'
  }

  /** Characters Buffer.from(_, 'hex') accepts as a digit. */
  predicate IsHexChar(c: char) {
    IsLowerHexChar(c) || 'A' <= c <= 'F'
  }

  /** Even-length, lower-case hex: exactly the strings toString('hex') produces. */
  predicate IsCanonicalHex(s: string) {
    |s| % 2 == 0 && forall i :: 0 <= i < |s| ==> IsLowerHexChar(s[i])
  }

  function DigitChar(n: int): (c: char)
    requires 0 <= n < 16
    ensures IsLowerHexChar(c)
    ensures DigitValue(c) == n
  {
    if n < 10 then ('0' as int + n) as char else ('a' as int + n - 10) as char
  }

  function DigitValue(c: char): (n: int)
    requires IsHexChar(c)
    ensures 0 <= n < 16
  {
    if '0' <= c <= '9' then c as int - '0' as int
    else if 'a' <= c <= 'f' then c as int - 'a' as int + 10
    else c as int - 'A' as int + 10
  }

  lemma DigitCharOfValue(c: char)
    requires IsLowerHexChar(c)
    ensures DigitChar(DigitValue(c)) == c
  {
  }

  /** Buffer#toString('hex'): two lower-case digits per byte, high nibble first. */
  function ToHex(bytes: seq<Byte>): (s: string)
    ensures |s| == 2 * |bytes|
    ensures IsCanonicalHex(s)
  {
    if bytes == [] then []
    else [DigitChar(bytes[0] / 16), DigitChar(bytes[0] % 16)] + ToHex(bytes[1..])
  }

  /**
   * Buffer.from(s, 'hex'): decodes digit pairs from the front and stops at the
   * first pair holding a non-hex character, or when fewer than two characters
   * remain (so an odd trailing digit is dropped).
   */
  function FromHex(s: string): (bytes: seq<Byte>)
    ensures 2 * |bytes| <= |s|
    ensures (forall i :: 0 <= i < |s| ==> IsHexChar(s[i])) ==> |bytes| == |s| / 2
  {
    if |s| < 2 || !IsHexChar(s[0]) || !IsHexChar(s[1]) then []
    else [DigitValue(s[0]) * 16 + DigitValue(s[1])] + FromHex(s[2..])
  }

  /** Every byte buffer survives toString('hex') followed by Buffer.from(_, 'hex'). */
  lemma {:induction false} FromHexToHex(bytes: seq<Byte>)
    ensures FromHex(ToHex(bytes)) == bytes
  {
    if bytes != [] {
      var s := ToHex(bytes);
      assert s[2..] == ToHex(bytes[1..]);
      FromHexToHex(bytes[1..]);
      assert bytes[0] == bytes[0] / 16 * 16 + bytes[0] % 16;
    }
  }

  /** Every canonical hex string survives Buffer.from(_, 'hex') followed by toString('hex'). */
  lemma {:induction false} ToHexFromHex(s: string)
    requires IsCanonicalHex(s)
    ensures ToHex(FromHex(s)) == s
  {
    if s != [] {
      assert IsLowerHexChar(s[0]) && IsLowerHexChar(s[1]);
      var b := DigitValue(s[0]) * 16 + DigitValue(s[1]);
      assert b / 16 == DigitValue(s[0]) && b % 16 == DigitValue(s[1]);
      DigitCharOfValue(s[0]);
      DigitCharOfValue(s[1]);
      assert IsCanonicalHex(s[2..]) by {
        forall i | 0 <= i < |s[2..]| ensures IsLowerHexChar(s[2..][i]) {
          assert s[2..][i] == s[i + 2];
        }
      }
      ToHexFromHex(s[2..]);
      assert s == [s[0], s[1]] + s[2..];
    }
  }

  /** The string a key stands for where it is used as given (`_mirrorCore`, `_unmirrorCore`, `_status`). */
  function KeyString(key: Key): (s: string)
    ensures key.Bytes? ==> IsCanonicalHex(s) && FromHex(s) == key.bytes
    ensures key.HexString? ==> s == key.text
  {
    match key
    case HexString(text) => text
    case Bytes(bytes) => FromHexToHex(bytes); ToHex(bytes)
  }

  /** The buffer `_mirror` and `_unmirror` turn a key into before using it. */
  function KeyBytes(key: Key): (bytes: seq<Byte>)
    ensures key.Bytes? ==> bytes == key.bytes
    ensures key.HexString? && IsCanonicalHex(key.text) ==> ToHex(bytes) == key.text
  {
    match key
    case HexString(text) =>
      if IsCanonicalHex(text) then ToHexFromHex(text); FromHex(text) else FromHex(text)
    case Bytes(bytes) => bytes
  }

  /** Even-length text made only of hex digits, in either case of letters. */
  predicate IsHexKey(s: string) {
    |s| % 2 == 0 && forall i :: 0 <= i < |s| ==> IsHexChar(s[i])
  }

  function LowerChar(c: char): char {
    if 'A' <= c <= 'F' then (c as int - 'A' as int + 'a' as int) as char else c
  }

  /** The text with the upper-case hex letters A-F turned into a-f. */
  function Lower(s: string): (r: string)
    ensures |r| == |s|
  {
    if s == [] then [] else [LowerChar(s[0])] + Lower(s[1..])
  }

  lemma LowerPair(s: string)
    requires |s| >= 2
    ensures Lower(s) == [LowerChar(s[0]), LowerChar(s[1])] + Lower(s[2..])
  {
    assert s[1..][1..] == s[2..];
  }

  lemma HexKeyTail(s: string)
    requires IsHexKey(s) && s != []
    ensures IsHexKey(s[2..])
  {
    forall i | 0 <= i < |s[2..]| ensures IsHexChar(s[2..][i]) {
      assert s[2..][i] == s[i + 2];
    }
  }

  /** Lower-casing even-length hex text gives canonical hex. */
  lemma {:induction false} LowerCanonical(s: string)
    requires IsHexKey(s)
    ensures IsCanonicalHex(Lower(s))
  {
    if s != [] {
      HexKeyTail(s);
      LowerCanonical(s[2..]);
      LowerPair(s);
    }
  }

  lemma LowerDigit(c: char)
    requires IsHexChar(c)
    ensures IsLowerHexChar(LowerChar(c)) && DigitValue(LowerChar(c)) == DigitValue(c)
  {
  }

  lemma FromHexCons(s: string)
    requires |s| >= 2 && IsHexChar(s[0]) && IsHexChar(s[1])
    ensures FromHex(s) == [DigitValue(s[0]) * 16 + DigitValue(s[1])] + FromHex(s[2..])
  {
  }

  /** Buffer.from(_, 'hex') reads a digit the same in either case of letters. */
  lemma {:induction false} FromHexIgnoresCase(s: string)
    requires IsHexKey(s)
    ensures FromHex(s) == FromHex(Lower(s))
  {
    if s != [] {
      var t := Lower(s);
      HexKeyTail(s);
      FromHexIgnoresCase(s[2..]);
      LowerPair(s);
      LowerDigit(s[0]);
      LowerDigit(s[1]);
      assert t[0] == LowerChar(s[0]) && t[1] == LowerChar(s[1]) && t[2..] == Lower(s[2..]);
      FromHexCons(s);
      FromHexCons(t);
    }
  }

  /**
   * Buffer.from(_, 'hex') followed by toString('hex') lower-cases any
   * even-length hex text, whatever the case of its letters.
   */
  lemma ToHexFromHexAnyCase(s: string)
    requires IsHexKey(s)
    ensures ToHex(FromHex(s)) == Lower(s)
  {
    FromHexIgnoresCase(s);
    LowerCanonical(s);
    ToHexFromHex(Lower(s));
  }

  /**
   * A key given as bytes and the same key given as hex text in either case of
   * letters normalise to the same buffer and the same key string.
   */
  lemma NormaliseAgrees(bytes: seq<Byte>, text: string)
    requires IsHexKey(text) && Lower(text) == ToHex(bytes)
    ensures KeyBytes(HexString(text)) == bytes
    ensures KeyString(Bytes(bytes)) == Lower(text)
  {
    ToHexFromHexAnyCase(text);
    FromHexToHex(FromHex(text));
    FromHexToHex(bytes);
  }

  /** An instance of NormaliseAgrees: upper-case digits are accepted and come back lower-case. */
  lemma UpperCaseNormalised()
    ensures ToHex(KeyBytes(HexString("AB0f"))) == "ab0f"
  {
    assert FromHex("AB0f") == [171, 15] by {
      assert FromHex("0f") == [15] by { assert FromHex("0f"[2..]) == []; }
      assert "AB0f"[2..] == "0f";
    }
    assert ToHex([171, 15]) == "ab0f" by {
      assert ToHex([15]) == "0f" by { assert [15 as Byte][1..] == []; }
      assert [171 as Byte, 15][1..] == [15];
    }
  }
}
