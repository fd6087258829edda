/** The string operations the handlers lean on: `trim`, `split(',')`,
    case-insensitive matching, `parseInt(x) || 0`, decimal and upper-case
    hexadecimal rendering. Whitespace is JavaScript's; case folding covers
    ASCII letters only. */
module Text {
  import opened Common

  /** JavaScript's white space and line terminators, the characters `trim`
      and `parseInt` skip: tab, line feed, vertical tab, form feed, carriage
      return, the byte order mark, the two line and paragraph separators and
      every space separator of Unicode. */
  predicate IsSpace(c: char)
  {
    || c == '\t' || c == '\n' || c == '\U{B}' || c == '\U{C}' || c == '\r'
    || c == ' ' || c == '\U{A0}' || c == '\U{1680}' || '\U{2000}' <= c <= '\U{200A}'
    || c == '\U{2028}' || c == '\U{2029}' || c == '\U{202F}' || c == '\U{205F}'
    || c == '\U{3000}' || c == '\U{FEFF}'
  }

  predicate IsDigit(c: char)
  {
    '0' <= c <= '9'
  }

  /** `needle` occurs in `hay` at position i. */
  predicate OccursAt(hay: string, needle: string, i: int)
  {
    0 <= i <= |hay| - |needle| && hay[i..i + |needle|] == needle
  }

  /** A character outside the Basic Multilingual Plane, which UTF-16
      stores as a surrogate pair. */
  predicate IsAstral(c: char)
  {
    c > '\U{FFFF}'
  }

  /** `String.prototype.length`: UTF-16 code units, two for every astral
      character. Validator's `isLength` counts a surrogate pair as one
      character instead, which is `|s|`. */
  function Utf16Length(s: string): (n: nat)
    ensures |s| <= n <= 2 * |s|
    ensures n == |s| <==> forall i :: 0 <= i < |s| ==> !IsAstral(s[i])
    ensures n == 2 * |s| <==> forall i :: 0 <= i < |s| ==> IsAstral(s[i])
  {
    if s == [] then 0
    else
      var init := s[..|s| - 1];
      assert forall i :: 0 <= i < |init| ==> init[i] == s[i];
      Utf16Length(init) + (if IsAstral(s[|s| - 1]) then 2 else 1)
  }

  // ------------------------------------------------------------ trimming

  function TrimStart(s: string): (r: string)
    ensures |r| <= |s| && r == s[|s| - |r|..]
    ensures r == [] || !IsSpace(r[0])
    ensures forall k :: 0 <= k < |s| - |r| ==> IsSpace(s[k])
  {
    if s != [] && IsSpace(s[0]) then TrimStart(s[1..]) else s
  }

  function TrimEnd(s: string): (r: string)
    ensures |r| <= |s| && r == s[..|r|]
    ensures r == [] || !IsSpace(r[|r| - 1])
    ensures forall k :: |r| <= k < |s| ==> IsSpace(s[k])
  {
    if s != [] && IsSpace(s[|s| - 1]) then TrimEnd(s[..|s| - 1]) else s
  }

  /** `String.prototype.trim`: the longest infix with no space at either end. */
  function Trim(s: string): (r: string)
    ensures |r| <= |s|
    ensures r == [] || (!IsSpace(r[0]) && !IsSpace(r[|r| - 1]))
    ensures OccursAt(s, r, |s| - |TrimStart(s)|)
    ensures (forall k :: 0 <= k < |s| ==> IsSpace(s[k])) <==> r == []
  {
    InfixOfSuffix(s, TrimStart(s), TrimEnd(TrimStart(s)));
    TrimEmptyOnlySpaces(s);
    TrimEnd(TrimStart(s))
  }

  /** A string with no space at either end is its own trim. */
  lemma TrimOfTrimmed(s: string)
    requires s == [] || (!IsSpace(s[0]) && !IsSpace(s[|s| - 1]))
    ensures Trim(s) == s
  {
    assert TrimStart(s) == s;
  }

  /** A prefix of a suffix is an infix. */
  lemma InfixOfSuffix(s: string, t: string, r: string)
    requires |t| <= |s| && t == s[|s| - |t|..]
    requires |r| <= |t| && r == t[..|r|]
    ensures OccursAt(s, r, |s| - |t|)
  {
    SliceOfSuffix(s, |s| - |t|, |r|);
  }

  lemma SliceOfSuffix(s: string, a: nat, n: nat)
    requires a + n <= |s|
    ensures s[a..][..n] == s[a..a + n]
  {
  }

  lemma TrimEmptyOnlySpaces(s: string)
    ensures TrimEnd(TrimStart(s)) == [] ==> forall k :: 0 <= k < |s| ==> IsSpace(s[k])
  {
    var t := TrimStart(s);
    if TrimEnd(t) == [] && t != [] {
      assert false;
    }
  }

  // ----------------------------------------------------------- splitting

  /** Joining pieces with a separator; the inverse of `Split`. */
  function Join(parts: seq<string>, sep: char): string
    requires |parts| >= 1
  {
    if |parts| == 1 then parts[0] else parts[0] + [sep] + Join(parts[1..], sep)
  }

  /** `String.prototype.split` with a one-character separator: "" gives [""],
      and adjacent separators give empty pieces. */
  function Split(s: string, sep: char): (parts: seq<string>)
    ensures |parts| >= 1
    ensures forall i :: 0 <= i < |parts| ==> sep !in parts[i]
    ensures Join(parts, sep) == s
  {
    if s == [] then [""]
    else
      var rest := Split(s[1..], sep);
      if s[0] == sep then
        assert s == [sep] + s[1..];
        [""] + rest
      else
        var parts := [[s[0]] + rest[0]] + rest[1..];
        assert parts[1..] == rest[1..];
        assert s == [s[0]] + s[1..];
        parts
  }

  // -------------------------------------------------- case-insensitive match

  function LowerChar(c: char): char
  {
    if 'A' <= c <= 'Z' then (c as int + 32) as char else c
  }

  function Lower(s: string): (r: string)
    ensures |r| == |s|
    ensures forall i :: 0 <= i < |s| ==> r[i] == LowerChar(s[i])
  {
    if s == [] then [] else [LowerChar(s[0])] + Lower(s[1..])
  }

  /** Lower-casing neither makes nor removes white space. */
  lemma LowerKeepsSpace(t: string)
    ensures forall i :: 0 <= i < |t| ==> IsSpace(Lower(t)[i]) == IsSpace(t[i])
  {
    forall i | 0 <= i < |t|
      ensures IsSpace(Lower(t)[i]) == IsSpace(t[i])
    {
      var c := t[i];
      assert Lower(t)[i] == LowerChar(c);
    }
  }

  /** Lower-casing leaves a string without upper-case letters as it is. */
  lemma LowerOfLowerCase(s: string)
    requires forall i :: 0 <= i < |s| ==> !('A' <= s[i] <= 'Z')
    ensures Lower(s) == s
  {
  }

  /** `needle` occurs in `hay` starting at the front. */
  predicate StartsWith(hay: string, needle: string)
  {
    |needle| <= |hay| && hay[..|needle|] == needle
  }

  /** `needle` occurs somewhere in `hay`, searching from the left. */
  predicate Contains(hay: string, needle: string)
  {
    StartsWith(hay, needle) || (hay != [] && Contains(hay[1..], needle))
  }

  /** The recursive search agrees with the positional definition of a substring. */
  lemma {:induction false} ContainsAt(hay: string, needle: string)
    ensures Contains(hay, needle) <==> exists i :: OccursAt(hay, needle, i)
  {
    if hay != [] {
      ContainsAt(hay[1..], needle);
      if exists i :: OccursAt(hay, needle, i) {
        var i :| OccursAt(hay, needle, i);
        if i > 0 {
          assert hay[1..][i - 1..i - 1 + |needle|] == hay[i..i + |needle|];
          assert OccursAt(hay[1..], needle, i - 1);
        }
      }
      if Contains(hay[1..], needle) && !StartsWith(hay, needle) {
        var i :| OccursAt(hay[1..], needle, i);
        assert hay[1..][i..i + |needle|] == hay[i + 1..i + 1 + |needle|];
        assert OccursAt(hay, needle, i + 1);
      }
      if StartsWith(hay, needle) {
        assert OccursAt(hay, needle, 0);
      }
    } else {
      if exists i :: OccursAt(hay, needle, i) {
        var i :| OccursAt(hay, needle, i);
        assert needle == [] && StartsWith(hay, needle);
      }
      if Contains(hay, needle) {
        assert OccursAt(hay, needle, 0);
      }
    }
  }

  /** `new RegExp(pattern, 'i').test(s)` for a pattern without metacharacters. */
  predicate ContainsIgnoreCase(s: string, pattern: string)
  {
    Contains(Lower(s), Lower(pattern))
  }

  // ------------------------------------------------------- decimal numbers

  function DigitChar(d: nat): (c: char)
    requires d < 10
    ensures IsDigit(c)
  {
    ('0' as int + d) as char
  }

  function DigitValue(c: char): (d: nat)
    requires IsDigit(c)
    ensures d < 10 && DigitChar(d) == c
  {
    c as int - '0' as int
  }

  lemma DigitIsNotSpace(c: char)
    requires IsDigit(c)
    ensures !IsSpace(c)
  {
  }

  predicate AllDigits(s: string)
  {
    forall i :: 0 <= i < |s| ==> IsDigit(s[i])
  }

  /** Decimal rendering of a natural number, without leading zeros. */
  function NatToDecimal(n: nat): (s: string)
    ensures |s| >= 1 && AllDigits(s)
    ensures s[0] == '0' ==> n == 0 && s == "0"
  {
    if n < 10 then [DigitChar(n)] else NatToDecimal(n / 10) + [DigitChar(n % 10)]
  }

  function DecimalValue(s: string): nat
    requires AllDigits(s)
  {
    if s == [] then 0 else DecimalValue(s[..|s| - 1]) * 10 + DigitValue(s[|s| - 1])
  }

  lemma {:induction false} DecimalRoundTrip(n: nat)
    ensures DecimalValue(NatToDecimal(n)) == n
  {
    if n >= 10 {
      DecimalRoundTrip(n / 10);
      var s := NatToDecimal(n);
      assert s[..|s| - 1] == NatToDecimal(n / 10);
    }
  }

  /** The longest prefix of digits. */
  function LeadingDigits(s: string): (r: string)
    ensures AllDigits(r) && StartsWith(s, r)
    ensures |r| < |s| ==> !IsDigit(s[|r|])
  {
    if s != [] && IsDigit(s[0]) then [s[0]] + LeadingDigits(s[1..]) else []
  }

  /** `parseInt(x) || 0` without a radix: leading white space and one sign
      are skipped; after "0x" or "0X" the longest run of hexadecimal digits
      is read, otherwise the longest run of decimal digits. No digit at all
      (NaN), an absent value and -0 all give 0. */
  function ParseIntOrZero(x: Option<string>): (n: int)
    ensures x.None? ==> n == 0
    ensures x.Some? && (forall i :: 0 <= i < |x.value| ==> !IsDigit(x.value[i])) ==> n == 0
  {
    if x.None? then 0
    else
      var t := TrimStart(x.value);
      var negative := t != [] && t[0] == '-';
      var unsigned := if t != [] && (t[0] == '-' || t[0] == '+') then t[1..] else t;
      assert unsigned == x.value[|x.value| - |unsigned|..];
      var v: int :=
        if HasHexPrefix(unsigned) then
          assert unsigned[0] in x.value;
          HexNumeral(LeadingHexDigits(unsigned[2..]))
        else
          var digits := LeadingDigits(unsigned);
          if digits == [] then 0
          else
            assert digits[0] == unsigned[0];
            assert unsigned[0] in x.value;
            DecimalValue(digits);
      if negative then -v else v
  }

  /** The "0x" or "0X" that switches `parseInt` to base 16. */
  predicate HasHexPrefix(s: string)
  {
    |s| >= 2 && s[0] == '0' && (s[1] == 'x' || s[1] == 'X')
  }

  predicate IsHexDigit(c: char)
  {
    IsDigit(c) || 'a' <= c <= 'f' || 'A' <= c <= 'F'
  }

  function HexDigitValue(c: char): (d: nat)
    requires IsHexDigit(c)
    ensures d < 16
    ensures IsDigit(c) ==> d == DigitValue(c)
  {
    if IsDigit(c) then c as int - '0' as int
    else if 'a' <= c <= 'f' then c as int - 'a' as int + 10
    else c as int - 'A' as int + 10
  }

  /** The longest prefix of hexadecimal digits. */
  function LeadingHexDigits(s: string): (r: string)
    ensures forall i :: 0 <= i < |r| ==> IsHexDigit(r[i])
    ensures StartsWith(s, r)
    ensures |r| < |s| ==> !IsHexDigit(s[|r|])
  {
    if s != [] && IsHexDigit(s[0]) then [s[0]] + LeadingHexDigits(s[1..]) else []
  }

  function HexNumeral(s: string): nat
    requires forall i :: 0 <= i < |s| ==> IsHexDigit(s[i])
  {
    if s == [] then 0 else HexNumeral(s[..|s| - 1]) * 16 + HexDigitValue(s[|s| - 1])
  }

  /** After "0x" the digits are read in base 16: "0x1F" is 31. */
  lemma ParseIntHexExample()
    ensures ParseIntOrZero(Some("0x1F")) == 31
  {
    assert TrimStart("0x1F") == "0x1F";
    assert LeadingHexDigits("1F") == "1F" by {
      assert LeadingHexDigits("F") == "F";
    }
    assert HexNumeral("1F") == 31 by {
      assert "1F"[..1] == "1";
      assert HexNumeral("1") == 1 by {
        assert "1"[..0] == "";
      }
    }
  }

  /** Reading stops at the first non-digit, after the sign: " -12px" is -12. */
  lemma ParseIntDecimalExample()
    ensures ParseIntOrZero(Some(" -12px")) == -12
  {
    var t := " -12px";
    assert !IsSpace(t[1]);
    assert TrimStart(t[1..]) == t[1..];
    assert IsSpace(t[0]);
    assert TrimStart(t) == "-12px";
    assert LeadingDigits("12px") == "12" by {
      assert "12px"[1..] == "2px";
      assert LeadingDigits("2px") == "2" by {
        assert "2px"[1..] == "px";
      }
    }
    assert DecimalValue("12") == 12 by {
      assert "12"[..1] == "1";
      assert DecimalValue("1") == 1 by {
        assert "1"[..0] == "";
      }
    }
  }

  /** `parseInt` reads back the decimal rendering of every natural number. */
  lemma ParseIntOfDecimal(n: nat)
    ensures ParseIntOrZero(Some(NatToDecimal(n))) == n
  {
    var s := NatToDecimal(n);
    assert !IsSpace(s[0]) by {
      DigitIsNotSpace(s[0]);
    }
    assert TrimStart(s) == s;
    assert LeadingDigits(s) == s by {
      LeadingDigitsOfDigits(s);
    }
    DecimalRoundTrip(n);
  }

  lemma {:induction false} LeadingDigitsOfDigits(s: string)
    requires AllDigits(s)
    ensures LeadingDigits(s) == s
  {
    if s != [] {
      LeadingDigitsOfDigits(s[1..]);
    }
  }

  // ------------------------------------------- upper-case hexadecimal bytes

  type Byte = b: int | 0 <= b < 256

  predicate IsUpperHex(c: char)
  {
    IsDigit(c) || 'A' <= c <= 'F'
  }

  function HexDigit(d: nat): (c: char)
    requires d < 16
    ensures IsUpperHex(c)
  {
    if d < 10 then ('0' as int + d) as char else ('A' as int + d - 10) as char
  }

  function HexValue(c: char): (d: nat)
    requires IsUpperHex(c)
    ensures d < 16 && HexDigit(d) == c
  {
    if IsDigit(c) then c as int - '0' as int else c as int - 'A' as int + 10
  }

  /** `buffer.toString('hex').toUpperCase()`: two digits per byte, high nibble first. */
  function HexUpper(bytes: seq<Byte>): (s: string)
    ensures |s| == 2 * |bytes|
    ensures forall i :: 0 <= i < |s| ==> IsUpperHex(s[i])
  {
    if bytes == [] then []
    else [HexDigit(bytes[0] / 16), HexDigit(bytes[0] % 16)] + HexUpper(bytes[1..])
  }

  function HexBytes(s: string): seq<Byte>
    requires |s| % 2 == 0
    requires forall i :: 0 <= i < |s| ==> IsUpperHex(s[i])
  {
    if s == [] then [] else [HexValue(s[0]) * 16 + HexValue(s[1])] + HexBytes(s[2..])
  }

  lemma {:induction false} HexRoundTrip(bytes: seq<Byte>)
    ensures HexBytes(HexUpper(bytes)) == bytes
  {
    if bytes != [] {
      HexRoundTrip(bytes[1..]);
      var s := HexUpper(bytes);
      assert s[2..] == HexUpper(bytes[1..]);
    }
  }
}
