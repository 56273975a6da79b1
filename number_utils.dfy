/** `NumberUtils.hex`: the hexadecimal rendering of a number that the error
    messages use (`value.toString(16)`, upper-cased, left-padded with zeros to
    two digits per byte, behind a prefix). */
module NumberUtils {
  import opened Text

  /** Lower-case digit of `Number.prototype.toString(16)`. */
  function HexDigit(d: nat): (c: char)
    requires d < 16
  {
    if d < 10 then (48 + d) as char else (87 + d) as char
  }

  /** `n.toString(16)` for a natural number: no leading zeros, lower case. */
  function ToString16(n: nat): (s: string)
    ensures |s| >= 1
    ensures ParseHex(s) == n
  {
    if n < 16 then [HexDigit(n)]
    else
      var hi := ToString16(n / 16);
      var s := hi + [HexDigit(n % 16)];
      assert s[..|s| - 1] == hi;
      s
  }

  /** `value.toString(16)`: a negative value keeps its `-` sign. */
  function RadixString16(value: int): string
  {
    if value < 0 then "-" + ToString16(-value) else ToString16(value)
  }

  /** ASCII `toUpperCase` of one character. */
  function UpperChar(c: char): char
  {
    if 'a' <= c <= 'z' then (c as int - 32) as char else c
  }

  /** `toUpperCase` (only ASCII letters can occur in the text it is given here). */
  function ToUpperCase(s: string): (r: string)
    ensures |r| == |s|
  {
    seq(|s|, i requires 0 <= i < |s| => UpperChar(s[i]))
  }

  /** `count` copies of `c`. */
  function Repeat(c: char, count: nat): (r: string)
    ensures |r| == count
    ensures forall i :: 0 <= i < count ==> r[i] == c
  {
    if count == 0 then [] else [c] + Repeat(c, count - 1)
  }

  /** `s.padStart(target, fill)` with a one-character fill. */
  function PadStart(s: string, target: int, fill: char): (r: string)
    ensures |r| == if |s| >= target then |s| else target
    ensures r[|r| - |s|..] == s
    ensures forall i :: 0 <= i < |r| - |s| ==> r[i] == fill
  {
    if |s| >= target then s else Repeat(fill, target - |s|) + s
  }

  /** `NumberUtils.hex(value, bytes, prefix = '0x')`. */
  function Hex(value: int, bytes: int, prefix: string := "0x"): (r: string)
    ensures r == prefix + HexDigits(value, bytes)
  {
    prefix + HexDigits(value, bytes)
  }

  /** The digit part that `Hex` puts after the prefix: never shorter than
      two digits per byte, and never shorter than the unpadded digits. */
  function HexDigits(value: int, bytes: int): (d: string)
    ensures |d| >= bytes * 2 && |d| >= |ToUpperCase(RadixString16(value))|
  {
    PadStart(ToUpperCase(RadixString16(value)), bytes * 2, '0')
  }

  /** Value of a hexadecimal digit of either case, or -1. */
  function DigitValue(c: char): int
  {
    if '0' <= c <= '9' then c as int - 48
    else if 'A' <= c <= 'F' then c as int - 55
    else if 'a' <= c <= 'f' then c as int - 87
    else -1
  }

  predicate IsUpperHexDigit(c: char)
  {
    ('0' <= c <= '9') || ('A' <= c <= 'F')
  }

  /** Reference reading of a string of hexadecimal digits. */
  function ParseHex(s: string): (r: int)
  {
    if s == [] then 0 else ParseHex(s[..|s| - 1]) * 16 + DigitValue(s[|s| - 1])
  }

  /** A string of `k` upper-case hexadecimal digits reads as a number in
      `[0, 16^k)`. */
  lemma {:induction false} ParseHexBound(s: string)
    requires forall i :: 0 <= i < |s| ==> IsUpperHexDigit(s[i])
    ensures 0 <= ParseHex(s) < Pow16(|s|)
  {
    if s != [] {
      ParseHexBound(s[..|s| - 1]);
    }
  }

  lemma ToUpperCaseAppend(a: string, b: string)
    ensures ToUpperCase(a + b) == ToUpperCase(a) + ToUpperCase(b)
  {
  }

  /** `toString(16)`, upper-cased, is all upper-case hexadecimal digits and
      reads back as the number. */
  lemma {:induction false} UpperHexRoundTrip(n: nat)
    ensures forall i :: 0 <= i < |ToUpperCase(ToString16(n))| ==> IsUpperHexDigit(ToUpperCase(ToString16(n))[i])
    ensures ParseHex(ToUpperCase(ToString16(n))) == n
  {
    var u := ToUpperCase(ToString16(n));
    if n >= 16 {
      UpperHexRoundTrip(n / 16);
      var hi := ToUpperCase(ToString16(n / 16));
      ToUpperCaseAppend(ToString16(n / 16), [HexDigit(n % 16)]);
      assert u == hi + [UpperChar(HexDigit(n % 16))];
      assert u[..|u| - 1] == hi;
    }
  }

  lemma {:induction false} ParseHexZeros(k: nat)
    ensures ParseHex(Repeat('0', k)) == 0
  {
    if k > 0 {
      var z := Repeat('0', k);
      assert z[..k - 1] == Repeat('0', k - 1);
      ParseHexZeros(k - 1);
    }
  }

  /** Leading zeros do not change the value of a digit string. */
  lemma {:induction false} ParseHexLeadingZeros(k: nat, s: string)
    ensures ParseHex(Repeat('0', k) + s) == ParseHex(s)
  {
    var z := Repeat('0', k);
    if s == [] {
      assert z + s == z;
      ParseHexZeros(k);
    } else {
      var t := z + s;
      assert t[..|t| - 1] == z + s[..|s| - 1];
      ParseHexLeadingZeros(k, s[..|s| - 1]);
    }
  }

  /** For a non-negative value the digit part is upper-case hexadecimal,
      exactly `max(2 * bytes, |toString(16)|)` long (padded, never truncated),
      ends with the unpadded digits, and reads back as the value. */
  lemma HexDigitsFacts(value: nat, bytes: int)
    ensures var d := HexDigits(value, bytes);
            var plain := ToUpperCase(ToString16(value));
            && |d| == (if |plain| >= bytes * 2 then |plain| else bytes * 2)
            && d[|d| - |plain|..] == plain
            && (forall i :: 0 <= i < |d| ==> IsUpperHexDigit(d[i]))
            && ParseHex(d) == value
  {
    var plain := ToUpperCase(ToString16(value));
    UpperHexRoundTrip(value);
    var d := HexDigits(value, bytes);
    assert RadixString16(value) == ToString16(value);
    if |plain| < bytes * 2 {
      var k := bytes * 2 - |plain|;
      assert d == Repeat('0', k) + plain;
      ParseHexLeadingZeros(k, plain);
      forall i | 0 <= i < |d| ensures IsUpperHexDigit(d[i]) {
        if i >= k {
          assert d[i] == plain[i - k];
        }
      }
    } else {
      assert d == plain;
    }
  }

  function Pow16(k: nat): nat
  {
    if k == 0 then 1 else 16 * Pow16(k - 1)
  }

  /** `toString(16)` of a number below `16^k` has at most `k` digits. */
  lemma {:induction false} ToString16Length(n: nat, k: nat)
    requires 1 <= k && n < Pow16(k)
    ensures |ToString16(n)| <= k
  {
    if n >= 16 {
      assert k >= 2;
      assert n / 16 < Pow16(k - 1);
      ToString16Length(n / 16, k - 1);
    }
  }

  /** The example in the doc comment claims `'0x539'`; the code pads the three
      digits to two bytes' worth. */
  lemma HexOf1337()
    ensures Hex(1337, 2) == "0x0539"
  {
    assert ToString16(1337) == ToString16(83) + [HexDigit(9)];
    assert ToString16(83) == ToString16(5) + [HexDigit(3)];
    assert ToString16(1337) == "539";
  }
}
