/**
 * The light control element and its colour slider
 * (js/modules/elements/lightcontrolelement.js): the 24-bit saturation colour
 * of the slider, its mode, the capability buttons a light type enables, and
 * the edits the four popups make to the light state being configured.
 *
 * Numbers are integers or NaN: the slider positions that the popups scale by
 * 65535 or 254 and round reach this model as integer inputs.
 */
module LightControl {
  import opened Js

  /** A JavaScript number that is an integer or NaN. */
  datatype Number = Int(i: int) | NaN

  /** What the `satColor` setter may be given: a number or a string. */
  datatype SatValue = NumberValue(n: Number) | Text(s: string)

  const Two24: int := 0x100_0000
  const Two31: int := 0x8000_0000
  const Two32: int := 0x1_0000_0000

  /** The operand conversion of the bitwise operators: NaN becomes 0, an
      integer wraps to 32-bit two's complement. */
  function ToInt32(n: Number): (x: int)
    ensures -Two31 <= x < Two31
    ensures n.Int? ==> (x - n.i) % Two32 == 0
    ensures n.NaN? ==> x == 0
  {
    match n
    case NaN => 0
    case Int(i) => (i + Two31) % Two32 - Two31
  }

  function Pow2(k: nat): (p: nat)
    ensures p >= 1
  {
    if k == 0 then 1 else 2 * Pow2(k - 1)
  }

  /** `a << b`: the shift count is taken modulo 32 and the result wraps. */
  function ShiftLeft(a: Number, b: nat): int
  {
    ToInt32(Int(ToInt32(a) * Pow2(b % 32)))
  }

  // ---------------------------------------------------------------- parsing

  /** The white space `parseInt` skips (the Unicode space separators other
      than U+00A0 and U+FEFF are not modelled). */
  predicate IsSpace(c: char)
  {
    c == ' ' || c == '\t' || c == '\n' || c == '\r' || c == '\U{000B}' || c == '\U{000C}'
    || c == '\U{00A0}' || c == '\U{FEFF}' || c == '\U{2028}' || c == '\U{2029}'
  }

  /** The value of a digit in bases up to 36, letters in either case. */
  function DigitValue(c: char): (d: int)
    ensures -1 <= d < 36
  {
    if '0' <= c <= '9' then c as int - '0' as int
    else if 'a' <= c <= 'z' then c as int - 'a' as int + 10
    else if 'A' <= c <= 'Z' then c as int - 'A' as int + 10
    else -1
  }

  predicate IsDigit(c: char, radix: nat)
  {
    0 <= DigitValue(c) < radix
  }

  function TrimStart(s: string): (r: string)
    ensures |r| <= |s|
    ensures r == [] || !IsSpace(r[0])
  {
    if s != [] && IsSpace(s[0]) then TrimStart(s[1..]) else s
  }

  /** The number of leading digits of `s` in base `radix`. */
  function DigitRun(s: string, radix: nat): (n: nat)
    ensures n <= |s|
    ensures forall i :: 0 <= i < n ==> IsDigit(s[i], radix)
    ensures n < |s| ==> !IsDigit(s[n], radix)
  {
    if s != [] && IsDigit(s[0], radix) then 1 + DigitRun(s[1..], radix) else 0
  }

  /** The value of a string of digits, most significant first. */
  function DigitsValue(s: string, radix: nat): (v: nat)
    requires radix == 10 || radix == 16
    requires forall i :: 0 <= i < |s| ==> IsDigit(s[i], radix)
  {
    if s == [] then 0
    else
      var low := DigitValue(s[|s| - 1]);
      assert IsDigit(s[|s| - 1], radix);
      var high: nat := DigitsValue(s[..|s| - 1], radix);
      var scaled: nat := if radix == 10 then high * 10 else high * 16;
      scaled + low
  }

  /** `parseInt(s, radix)` for radix 10 and 16: leading white space, an
      optional sign and, in base 16, an optional "0x" are skipped; the
      longest run of digits is read; no digit at all gives NaN. */
  function ParseInt(s: string, radix: nat): Number
    requires radix == 10 || radix == 16
  {
    var t := TrimStart(s);
    var negative := t != [] && t[0] == '-';
    var u := if t != [] && (t[0] == '-' || t[0] == '+') then t[1..] else t;
    var w := if radix == 16 && |u| >= 2 && u[0] == '0' && (u[1] == 'x' || u[1] == 'X') then u[2..] else u;
    var n := DigitRun(w, radix);
    if n == 0 then Number.NaN
    else
      var v: int := DigitsValue(w[..n], radix);
      Int(if negative then 0 - v else v)
  }

  /** `parseInt` reads exactly the decimal number a plain digit string
      spells, and nothing past the digits matters. */
  lemma ParseIntDigitsThenRest(digits: string, rest: string)
    requires digits != [] && forall i :: 0 <= i < |digits| ==> IsDigit(digits[i], 10)
    requires rest == [] || !IsDigit(rest[0], 10)
    ensures ParseInt(digits + rest, 10) == Int(DigitsValue(digits, 10))
  {
    var s := digits + rest;
    assert !IsSpace(s[0]) && s[0] != '-' && s[0] != '+' by {
      assert s[0] == digits[0];
    }
    DigitRunOfPrefix(digits, rest, 10);
    assert s[..|digits|] == digits;
  }

  lemma {:induction false} DigitRunOfPrefix(digits: string, rest: string, radix: nat)
    requires forall i :: 0 <= i < |digits| ==> IsDigit(digits[i], radix)
    requires rest == [] || !IsDigit(rest[0], radix)
    ensures DigitRun(digits + rest, radix) == |digits|
  {
    if digits != [] {
      assert (digits + rest)[1..] == digits[1..] + rest;
      DigitRunOfPrefix(digits[1..], rest, radix);
    } else {
      assert digits + rest == rest;
    }
  }

  /** `s.substring(a, b)`: both ends clamped to the string, swapped when
      the first is past the second. */
  function Substring(s: string, a: int, b: int): (r: string)
  {
    var lo := if a < 0 then 0 else if a > |s| then |s| else a;
    var hi := if b < 0 then 0 else if b > |s| then |s| else b;
    if lo <= hi then s[lo..hi] else s[hi..lo]
  }

  /** `s.split(sep)` for a one-character separator. */
  function Split(s: string, sep: char): (parts: seq<string>)
    ensures |parts| >= 1
    ensures forall i :: 0 <= i < |parts| ==> sep !in parts[i]
  {
    if s == [] then [""]
    else
      var tail := Split(s[1..], sep);
      if s[0] == sep then [""] + tail
      else [[s[0]] + tail[0]] + tail[1..]
  }

  /** `parts.join(sep)` */
  function Join(parts: seq<string>, sep: char): string
    requires |parts| >= 1
  {
    if |parts| == 1 then parts[0] else parts[0] + [sep] + Join(parts[1..], sep)
  }

  /** Splitting loses nothing: joining the pieces gives the string back. */
  lemma {:induction false} SplitJoin(s: string, sep: char)
    ensures Join(Split(s, sep), sep) == s
  {
    if s != [] {
      var tail := Split(s[1..], sep);
      SplitJoin(s[1..], sep);
      if s[0] != sep {
        if |tail| == 1 {
          assert s == [s[0]] + s[1..];
        } else {
          assert Join([[s[0]] + tail[0]] + tail[1..], sep) == [s[0]] + tail[0] + [sep] + Join(tail[1..], sep);
          assert s == [s[0]] + s[1..];
        }
      } else {
        assert s == [s[0]] + s[1..];
      }
    }
  }

  /** The `reduceRight` of an "rgb(…)" string: component `i` shifted left by
      `8 * i` bits, all added up; the first component lands in the lowest
      byte. */
  function ShiftedSum(parts: seq<string>, from: nat): int
    decreases |parts|
  {
    if parts == [] then 0
    else ShiftLeft(ParseInt(parts[0], 10), 8 * from) + ShiftedSum(parts[1..], from + 1)
  }

  /** The parts of an "rgb(…)" string in reverse order. */
  function Reversed(parts: seq<string>): (r: seq<string>)
    ensures |r| == |parts|
    ensures forall i :: 0 <= i < |parts| ==> r[i] == parts[|parts| - 1 - i]
  {
    if parts == [] then [] else Reversed(parts[1..]) + [parts[0]]
  }

  /** The number an "rgb(…)" string spells as the setter is written: the
      `reduceRight` packing, first component in the low byte. */
  function AsWrittenRgbNumber(s: string): Number
  {
    Int(ShiftedSum(Split(Substring(s, 4, |s| - 1), ','), 0))
  }

  /** The number an "rgb(…)" string is meant to spell: the last component in
      the low byte and the first in the high byte, as in "#rrggbb". The
      setter does not use it; it is the corrected reading. */
  function RgbNumber(s: string): Number
  {
    Int(ShiftedSum(Reversed(Split(Substring(s, 4, |s| - 1), ',')), 0))
  }

  /** The number the `satColor` setter works with: a "#" string is read in
      base 16, an "rgb(" string by components, any other string in base 10,
      and a number as it is. */
  function SatNumber(v: SatValue): Number
  {
    match v
    case NumberValue(n) => n
    case Text(s) =>
      if |s| >= 1 && s[0] == '#' then ParseInt(Substring(s, 1, |s|), 16)
      else if |s| >= 4 && s[..4] == "rgb(" then AsWrittenRgbNumber(s)
      else ParseInt(s, 10)
  }

  /** The text "rgb(x,y,z)" for three component spellings. */
  function RgbSpelling(x: string, y: string, z: string): string
  {
    "rgb(" + x + "," + y + "," + z + ")"
  }

  /** The decimal "rgb(r,g,b)" spelling of three bytes. */
  function RgbText(r: nat, g: nat, b: nat): string
    requires r < 256 && g < 256 && b < 256
  {
    RgbSpelling(Dec(r), Dec(g), Dec(b))
  }

  /** The three parts `split(",")` gives for "rgb(x,y,z)". */
  lemma RgbSpellingParts(x: string, y: string, z: string)
    requires ',' !in x && ',' !in y && ',' !in z
    ensures var s := RgbSpelling(x, y, z); Split(Substring(s, 4, |s| - 1), ',') == [x, y, z]
  {
    var body := x + [','] + y + [','] + z;
    assert RgbSpelling(x, y, z) == "rgb(" + body + ")";
    InsideRgb(body);
    SplitThree(x, y, z, ',');
  }

  /** The text between "rgb(" and the closing parenthesis. */
  lemma InsideRgb(body: string)
    ensures var s := "rgb(" + body + ")"; Substring(s, 4, |s| - 1) == body
  {
    var s := "rgb(" + body + ")";
    assert s[4..|s| - 1] == body;
  }

  /** Three separator-free texts joined by the separator split back apart. */
  lemma SplitThree(a: string, b: string, c: string, sep: char)
    requires sep !in a && sep !in b && sep !in c
    ensures Split(a + [sep] + b + [sep] + c, sep) == [a, b, c]
  {
    SplitWithoutSeparator(c, sep);
    SplitAtSeparator(b, sep, c);
    assert a + [sep] + b + [sep] + c == a + [sep] + (b + [sep] + c);
    SplitAtSeparator(a, sep, b + [sep] + c);
  }

  lemma DecNoComma(n: nat)
    requires n < 256
    ensures ',' !in Dec(n)
  {
    assert forall i :: 0 <= i < |Dec(n)| ==> '0' <= Dec(n)[i] <= '9';
  }

  /** Splitting at the first separator peels off the text before it. */
  lemma {:induction false} SplitAtSeparator(a: string, sep: char, rest: string)
    requires sep !in a
    ensures Split(a + [sep] + rest, sep) == [a] + Split(rest, sep)
  {
    var s := a + [sep] + rest;
    if a == [] {
      assert s == [sep] + rest;
      assert s[1..] == rest;
    } else {
      assert s[0] == a[0] && s[1..] == a[1..] + [sep] + rest;
      SplitAtSeparator(a[1..], sep, rest);
      assert [a[0]] + a[1..] == a;
    }
  }

  /** A text without the separator splits into itself. */
  lemma {:induction false} SplitWithoutSeparator(a: string, sep: char)
    requires sep !in a
    ensures Split(a, sep) == [a]
  {
    if a != [] {
      SplitWithoutSeparator(a[1..], sep);
      assert [a[0]] + a[1..] == a;
    }
  }

  /** The components the setter stores for a number made of three bytes. */
  lemma ComponentsOfBytes(x: nat, y: nat, z: nat)
    requires x < 256 && y < 256 && z < 256
    ensures Components(Int(x * 0x1_0000 + y * 0x100 + z)) == (x, y, z)
  {
    var v := x * 0x1_0000 + y * 0x100 + z;
    ToInt32Small(v);
    DivMod(v, 0x1_0000, x, y * 0x100 + z);
    DivMod(x, 256, 0, x);
    DivMod(v, 0x100, x * 0x100 + y, z);
    DivMod(x * 0x100 + y, 256, x, y);
    DivMod(v, 256, x * 0x100 + y, z);
  }

  /** The setter packs "rgb(r,g,b)" as r + (g << 8) + (b << 16). */
  lemma SatNumberOfRgb(r: nat, g: nat, b: nat)
    requires r < 256 && g < 256 && b < 256
    ensures SatNumber(Text(RgbText(r, g, b))) == Int(r + g * 256 + b * 65536)
  {
    RgbTextIsRgb(r, g, b);
    AsWrittenRgbTextNumber(r, g, b);
  }

  /** The setter stores "rgb(r,g,b)" as the components (b, g, r): red and
      blue trade places, so "rgb(255,0,0)" shows blue where "#ff0000" is
      red. */
  lemma AsWrittenRgbSwapsRedAndBlue(r: nat, g: nat, b: nat)
    requires r < 256 && g < 256 && b < 256
    ensures Components(SatNumber(Text(RgbText(r, g, b)))) == (b, g, r)
    ensures r != b ==> Components(SatNumber(Text(RgbText(r, g, b)))) != (r, g, b)
  {
    var n := SatNumber(Text(RgbText(r, g, b)));
    assert n == Int(b * 0x1_0000 + g * 0x100 + r) by {
      SatNumberOfRgb(r, g, b);
    }
    ComponentsOfBytes(b, g, r);
  }

  /** The intended reading, first component high: "rgb(r,g,b)" stores
      exactly (r, g, b). */
  lemma RgbComponentsInOrder(r: nat, g: nat, b: nat)
    requires r < 256 && g < 256 && b < 256
    ensures Components(RgbNumber(RgbText(r, g, b))) == (r, g, b)
  {
    RgbTextNumber(r, g, b);
    ComponentsOfBytes(r, g, b);
  }

  /** "rgb(r,g,b)" takes the setter's "rgb(" branch. */
  lemma RgbTextIsRgb(r: nat, g: nat, b: nat)
    requires r < 256 && g < 256 && b < 256
    ensures SatNumber(Text(RgbText(r, g, b))) == AsWrittenRgbNumber(RgbText(r, g, b))
  {
    RgbSpellingIsRgb(Dec(r), Dec(g), Dec(b));
  }

  /** As written, "rgb(r,g,b)" is r + 256g + 65536b. */
  lemma AsWrittenRgbTextNumber(r: nat, g: nat, b: nat)
    requires r < 256 && g < 256 && b < 256
    ensures AsWrittenRgbNumber(RgbText(r, g, b)) == Int(r + g * 256 + b * 65536)
  {
    var parts := [Dec(r), Dec(g), Dec(b)];
    assert AsWrittenRgbNumber(RgbText(r, g, b)) == Int(ShiftedSum(parts, 0)) by {
      DecNoCommas(r, g, b);
      AsWrittenRgbNumberOf(Dec(r), Dec(g), Dec(b));
    }
    RgbComponentsPacking(r, g, b);
  }

  /** Read first component high, "rgb(r,g,b)" is 65536r + 256g + b. */
  lemma RgbTextNumber(r: nat, g: nat, b: nat)
    requires r < 256 && g < 256 && b < 256
    ensures RgbNumber(RgbText(r, g, b)) == Int(r * 0x1_0000 + g * 0x100 + b)
  {
    var parts := [Dec(b), Dec(g), Dec(r)];
    assert RgbNumber(RgbText(r, g, b)) == Int(ShiftedSum(parts, 0)) by {
      DecNoCommas(r, g, b);
      RgbNumberOf(Dec(r), Dec(g), Dec(b));
    }
    RgbComponentsPacking(b, g, r);
  }

  lemma DecNoCommas(r: nat, g: nat, b: nat)
    requires r < 256 && g < 256 && b < 256
    ensures ',' !in Dec(r) && ',' !in Dec(g) && ',' !in Dec(b)
  {
    DecNoComma(r);
    DecNoComma(g);
    DecNoComma(b);
  }

  /** Every "rgb(" text takes the setter's "rgb(" branch. */
  lemma RgbSpellingIsRgb(x: string, y: string, z: string)
    ensures SatNumber(Text(RgbSpelling(x, y, z))) == AsWrittenRgbNumber(RgbSpelling(x, y, z))
  {
    var s := RgbSpelling(x, y, z);
    assert s[0] == 'r' && s[..4] == "rgb(";
  }

  /** As written, "rgb(x,y,z)" packs its parts in the order given. */
  lemma AsWrittenRgbNumberOf(x: string, y: string, z: string)
    requires ',' !in x && ',' !in y && ',' !in z
    ensures AsWrittenRgbNumber(RgbSpelling(x, y, z)) == Int(ShiftedSum([x, y, z], 0))
  {
    RgbSpellingParts(x, y, z);
  }

  /** Read first component high, "rgb(x,y,z)" packs its parts last first. */
  lemma RgbNumberOf(x: string, y: string, z: string)
    requires ',' !in x && ',' !in y && ',' !in z
    ensures RgbNumber(RgbSpelling(x, y, z)) == Int(ShiftedSum([z, y, x], 0))
  {
    RgbSpellingParts(x, y, z);
    var rev := Reversed([x, y, z]);
    assert rev == [z, y, x] by {
      assert |rev| == 3 && rev[0] == z && rev[1] == y && rev[2] == x;
    }
  }

  /** For three decimal components, the packing puts the first in the low
      byte and the third in the high byte. */
  lemma RgbComponentsPacking(r: nat, g: nat, b: nat)
    requires r < 256 && g < 256 && b < 256
    ensures ShiftedSum([Dec(r), Dec(g), Dec(b)], 0) == r + g * 256 + b * 65536
  {
    DecParses(r);
    DecParses(g);
    DecParses(b);
    ShiftedSumOfBytes([Dec(r), Dec(g), Dec(b)], r, g, b);
  }

  lemma ShiftedSumOfBytes(parts: seq<string>, r: nat, g: nat, b: nat)
    requires r < 256 && g < 256 && b < 256 && |parts| == 3
    requires ParseInt(parts[0], 10) == Int(r)
    requires ParseInt(parts[1], 10) == Int(g)
    requires ParseInt(parts[2], 10) == Int(b)
    ensures ShiftedSum(parts, 0) == r + g * 256 + b * 65536
  {
    ShiftByte(r, 0);
    ShiftByte(g, 1);
    ShiftByte(b, 2);
    Pow2Values();
    var t1, t2 := parts[1..], parts[1..][1..];
    assert t1[0] == parts[1] && t2[0] == parts[2] && |t2| == 1;
    assert ShiftedSum(t2[1..], 3) == 0;
    assert ShiftedSum(t2, 2) == b * 65536;
    assert ShiftedSum(t1, 1) == g * 256 + b * 65536;
  }

  lemma Pow2Values()
    ensures Pow2(0) == 1 && Pow2(8) == 256 && Pow2(16) == 65536
  {
    Pow2Add(8, 8);
  }

  /** A byte shifted by 0, 8 or 16 bits neither wraps nor changes sign. */
  lemma ShiftByte(v: nat, k: nat)
    requires v < 256 && k <= 2
    ensures ShiftLeft(Int(v), 8 * k) == v * Pow2(8 * k)
  {
    ToInt32Small(v);
    Pow2Values();
    assert 8 * k % 32 == 8 * k;
    assert v * Pow2(8 * k) < Two31 by {
      assert Pow2(8 * k) <= 65536;
    }
    ToInt32Small(v * Pow2(8 * k));
  }

  /** A 32-bit integer converts to itself. */
  lemma ToInt32Small(x: int)
    requires -Two31 <= x < Two31
    ensures ToInt32(Int(x)) == x
  {
    DivMod(x + Two31, Two32, 0, x + Two31);
  }

  /** The decimal spelling of a number below 256. */
  function Dec(n: nat): (s: string)
    requires n < 256
  {
    if n < 10 then [Digit(n)]
    else if n < 100 then [Digit(n / 10), Digit(n % 10)]
    else [Digit(n / 100), Digit(n / 10 % 10), Digit(n % 10)]
  }

  function Digit(d: nat): (c: char)
    requires d < 10
    ensures DigitValue(c) == d
    ensures '0' <= c <= '9'
  {
    ('0' as int + d) as char
  }

  lemma DecParses(n: nat)
    requires n < 256
    ensures ParseInt(Dec(n), 10) == Int(n)
  {
    var s := Dec(n);
    ParseIntDigitsThenRest(s, []);
    assert s + [] == s;
    if n < 10 {
      assert s[..0] == [];
    } else if n < 100 {
      TwoDigitsValue(n);
    } else {
      ThreeDigitsValue(n);
    }
  }

  /** The digits of a two-digit number are worth that number. */
  lemma TwoDigitsValue(n: nat)
    requires 10 <= n < 100
    ensures DigitsValue(Dec(n), 10) == n
  {
    var s := Dec(n);
    assert s[..1] == [Digit(n / 10)];
    assert s[..1][..0] == [];
    assert DigitsValue(s[..1], 10) == n / 10;
  }

  /** The digits of a three-digit number are worth that number. */
  lemma ThreeDigitsValue(n: nat)
    requires 100 <= n < 256
    ensures DigitsValue(Dec(n), 10) == n
  {
    var s := Dec(n);
    assert s[..2] == [Digit(n / 100), Digit(n / 10 % 10)];
    assert s[..2][..1] == [Digit(n / 100)];
    assert s[..2][..1][..0] == [];
    assert DigitsValue(s[..2][..1], 10) == n / 100;
    assert DigitsValue(s[..2], 10) == DigitsValue(s[..2][..1], 10) * 10 + n / 10 % 10;
    assert n / 10 == (n / 100) * 10 + n / 10 % 10;
  }

  lemma {:induction false} Pow2Add(a: nat, b: nat)
    ensures Pow2(a + b) == Pow2(a) * Pow2(b)
  {
    if a > 0 {
      Pow2Add(a - 1, b);
    }
  }

  // --------------------------------------------------------- 24-bit colour

  /** The three bytes the setter stores: `(v & 0xFF0000) >> 16`,
      `(v & 0xFF00) >> 8` and `v & 0xFF`. On a 32-bit two's complement value,
      masking and shifting extracts a byte, which is floor division and a
      non-negative remainder. */
  function Components(n: Number): (c: (int, int, int))
    ensures 0 <= c.0 < 256 && 0 <= c.1 < 256 && 0 <= c.2 < 256
  {
    var x := ToInt32(n);
    ((x / 0x1_0000) % 256, (x / 0x100) % 256, x % 256)
  }

  /** The getter's recombination `(c0 << 16) + (c1 << 8) + c2`; with bytes
      for components no shift overflows. */
  function Pack(c: (int, int, int)): int
  {
    c.0 * 0x1_0000 + c.1 * 0x100 + c.2
  }

  /** Euclidean division is determined by a quotient and a remainder in
      range. */
  lemma DivMod(x: int, d: int, q: int, r: int)
    requires d > 0 && 0 <= r < d && x == q * d + r
    ensures x / d == q && x % d == r
  {
    var q', r' := x / d, x % d;
    assert x == q' * d + r';
    assert (q - q') * d == r' - r;
    MulAwayFromZero(q - q', d);
  }

  lemma MulAwayFromZero(k: int, d: int)
    requires d > 0
    ensures k >= 1 ==> k * d >= d
    ensures k <= -1 ==> k * d <= -d
  {
    if k >= 1 {
      assert k * d == (k - 1) * d + d;
    } else if k <= -1 {
      assert k * d == (k + 1) * d - d;
    }
  }

  /** Taking a byte out of `x`: the remainder of `x / d` modulo 256 is
      the remainder of `x % (256 * d)` divided by `d`. */
  lemma ByteOf(x: int, d: int)
    requires d == 0x100 || d == 0x1_0000
    ensures (x / d) % 256 == (x % Two24) / d % 256
  {
    var q, u := x / Two24, x % Two24;
    var e := Two24 / d;
    assert Two24 == e * d;
    var a, c := u / d, u % d;
    assert x == (q * e + a) * d + c by {
      assert x == q * Two24 + u;
      assert u == a * d + c;
      assert q * Two24 == q * e * d;
    }
    DivMod(x, d, q * e + a, c);
    var a1, a0 := a / 256, a % 256;
    assert q * e + a == (q * (e / 256) + a1) * 256 + a0 by {
      assert e == (e / 256) * 256;
      assert a == a1 * 256 + a0;
    }
    DivMod(q * e + a, 256, q * (e / 256) + a1, a0);
  }

  /** The three bytes of a number in [0, 2^24) recombine into it. */
  lemma ByteSplit(u: int)
    requires 0 <= u < Two24
    ensures (u / 0x1_0000) % 256 * 0x1_0000 + (u / 0x100) % 256 * 0x100 + u % 256 == u
  {
    var a, r1 := u / 0x1_0000, u % 0x1_0000;
    var b, c := r1 / 0x100, r1 % 0x100;
    assert u == a * 0x1_0000 + b * 0x100 + c;
    assert 0 <= a < 256;
    DivMod(u, 0x100, a * 0x100 + b, c);
    DivMod(a * 0x100 + b, 256, a, b);
  }

  /** After setting any integer, the getter gives back its low 24 bits. */
  lemma PackComponents(v: int)
    ensures Pack(Components(Int(v))) == v % Two24
  {
    var x := ToInt32(Int(v));
    var u := x % Two24;
    ByteOf(x, 0x1_0000);
    ByteOf(x, 0x100);
    assert x % 256 == u % 256 by {
      DivMod(x, 256, (x / Two24) * 0x1_0000 + u / 256, u % 256);
    }
    ByteSplit(u);
    assert u == v % Two24 by {
      var k := (x - v) / Two32;
      assert x == v + k * Two32;
      DivMod(x, Two24, v / Two24 + k * 256, v % Two24);
    }
  }

  /** A number that already fits in 24 bits comes back unchanged. */
  lemma PackComponentsSmall(v: int)
    requires 0 <= v < Two24
    ensures Pack(Components(Int(v))) == v
  {
    PackComponents(v);
    DivMod(v, Two24, 0, v);
  }

  /** NaN (an unparsable string) is stored as black. */
  lemma NaNIsBlack()
    ensures Components(Number.NaN) == (0, 0, 0)
  {
  }

  const ModeHue: string := "hue"
  const ModeBw: string := "bw"
  const ModeSat: string := "sat"

  /** The colour slider (`ColorRange`): a mode and, once set, the three
      bytes of the saturation colour. */
  class ColorRange {
    var mode: string
    /** `_satComponents`; `None` before the first set. */
    var satComponents: Option<(int, int, int)>

    constructor ()
      ensures mode == ModeHue && satComponents == None
      ensures SatColor() == None
    {
      mode := ModeHue;
      satComponents := None;
    }

    /** The `satColor` getter: null before any set. */
    function SatColor(): Option<int>
      reads this
    {
      if satComponents.None? then None else Some(Pack(satComponents.value))
    }

    /** The `satColor` setter: the value is parsed, then stored as bytes;
        the getter gives back its low 24 bits (0 for NaN). */
    method SetSatColor(v: SatValue)
      modifies this`satComponents
      ensures satComponents == Some(Components(SatNumber(v)))
      ensures SatNumber(v).Int? ==> SatColor() == Some(SatNumber(v).i % Two24)
      ensures SatNumber(v).NaN? ==> SatColor() == Some(0)
    {
      satComponents := Some(Components(SatNumber(v)));
      if SatNumber(v).Int? {
        PackComponents(SatNumber(v).i);
      }
    }

    /** The `mode` setter: "hue" and "bw" are kept; "sat" is kept and, when
        the saturation colour is unset or black, sets it to magenta; any
        other value becomes "hue". */
    method SetMode(value: string)
      modifies this
      ensures mode == (if value == ModeHue || value == ModeBw || value == ModeSat then value else ModeHue)
      ensures value == ModeSat && (old(SatColor()) == None || old(SatColor()) == Some(0)) ==>
        SatColor() == Some(0xFF00FF)
      ensures !(value == ModeSat && (old(SatColor()) == None || old(SatColor()) == Some(0))) ==>
        satComponents == old(satComponents)
    {
      if value == ModeHue || value == ModeBw {
        mode := value;
      } else if value == ModeSat {
        if SatColor() == None || SatColor() == Some(0) {
          SetSatColor(NumberValue(Int(0xFF00FF)));
        }
        mode := value;
      } else {
        mode := ModeHue;
      }
    }
  }

  // ----------------------------------------------------- capability table

  /** The four buttons a light type supports. */
  datatype Caps = Caps(on: bool, bri: bool, color: bool, ct: bool)

  /** The ASCII case fold of one character: 'A'..'Z' become 'a'..'z',
      everything else stays. */
  function Fold(c: char): (d: char)
    ensures !('A' <= d <= 'Z')
    ensures 'A' <= c <= 'Z' ==> d as int == c as int + 32
    ensures !('A' <= c <= 'Z') ==> d == c
  {
    if 'A' <= c <= 'Z' then (c as int + 32) as char else c
  }

  /** `toLowerCase` on ASCII letters (other letters are not modelled): every
      character folded, so no capital is left. */
  function Lower(s: string): (r: string)
    ensures |r| == |s|
    ensures forall i :: 0 <= i < |s| ==> r[i] == Fold(s[i])
    ensures forall i :: 0 <= i < |r| ==> !('A' <= r[i] <= 'Z')
  {
    seq(|s|, i requires 0 <= i < |s| => Fold(s[i]))
  }

  /** Lower-casing twice is lower-casing once: a folded character has no
      capital left to fold. */
  lemma LowerIdempotent(s: string)
    ensures Lower(Lower(s)) == Lower(s)
  {
    assert forall i :: 0 <= i < |s| ==> Lower(Lower(s))[i] == Fold(Lower(s)[i]) == Lower(s)[i];
  }

  /** The capability table over the lower-cased type; `None` for a type it
      does not list. */
  function Capabilities(lowered: string): Option<Caps>
  {
    if lowered == "on/off plug-in unit" || lowered == "on/off light" then Some(Caps(true, false, false, false))
    else if lowered == "dimmable light" then Some(Caps(true, true, false, false))
    else if lowered == "color temperature light" then Some(Caps(true, true, false, true))
    else if lowered == "color light" then Some(Caps(true, true, true, false))
    else if lowered == "extended color light" then Some(Caps(true, true, true, true))
    else None
  }

  /** Every listed type supports on; all but the on/off ones support
      brightness; colour needs a colour or extended colour light; colour
      temperature a colour temperature or extended colour light. */
  lemma CapabilitiesTable(t: string)
    requires Capabilities(t).Some?
    ensures var c := Capabilities(t).value;
      c.on
      && (c.bri <==> t != "on/off plug-in unit" && t != "on/off light")
      && (c.color <==> t == "color light" || t == "extended color light")
      && (c.ct <==> t == "color temperature light" || t == "extended color light")
  {
  }

  // ----------------------------------------------------- popup edits

  /** How a popup ended: confirmed with the value of its inputs, by the
      Remove button, or dismissed. */
  datatype Outcome<T> = Confirmed(value: T) | Removed | Dismissed

  function NumberValueOf(n: Number): JsValue
  {
    match n
    case Int(i) => Num(i)
    case NaN => JsValue.NaN
  }

  /** The on popup: confirming stores the checkbox as a boolean. */
  function EditOn(ls: State, outcome: Outcome<bool>): State
  {
    match outcome
    case Confirmed(checked) => ls["on" := Bool(checked)]
    case Removed => ls - {"on"}
    case Dismissed => ls
  }

  /** The brightness popup: confirming stores the parsed slider value. */
  function EditBri(ls: State, outcome: Outcome<Number>): State
  {
    match outcome
    case Confirmed(bri) => ls["bri" := NumberValueOf(bri)]
    case Removed => ls - {"bri"}
    case Dismissed => ls
  }

  /** The colour temperature popup: confirming drops the hue and saturation
      and stores the temperature. */
  function EditCt(ls: State, outcome: Outcome<Number>): State
  {
    match outcome
    case Confirmed(ct) => (ls - {"hue", "sat"})["ct" := NumberValueOf(ct)]
    case Removed => ls - {"ct"}
    case Dismissed => ls
  }

  /** The colour popup: confirming drops the temperature and the xy colour
      and stores hue and saturation. */
  function EditColor(ls: State, outcome: Outcome<(int, int)>): State
  {
    match outcome
    case Confirmed(hs) => (ls - {"ct", "xy"})["hue" := Num(hs.0)]["sat" := Num(hs.1)]
    case Removed => ls - {"sat", "hue"}
    case Dismissed => ls
  }

  /** Confirming a colour choice leaves hue and saturation but no colour
      temperature or xy colour; confirming a temperature leaves a
      temperature but no hue or saturation. The two are exclusive. */
  lemma ColorAndCtExclusive(ls: State, hs: (int, int), ct: Number)
    ensures var c := EditColor(ls, Confirmed(hs));
      "hue" in c && "sat" in c && "ct" !in c && "xy" !in c
    ensures var t := EditCt(ls, Confirmed(ct));
      "ct" in t && "hue" !in t && "sat" !in t
    ensures forall k :: k in ls && k !in {"ct", "xy", "hue", "sat"} ==>
      k in EditColor(ls, Confirmed(hs)) && EditColor(ls, Confirmed(hs))[k] == ls[k]
    ensures forall k :: k in ls && k !in {"ct", "hue", "sat"} ==>
      k in EditCt(ls, Confirmed(ct)) && EditCt(ls, Confirmed(ct))[k] == ls[k]
  {
  }

  /** Each Remove button deletes exactly its own fields and leaves every
      other field as it was. */
  lemma RemoveDeletesOnlyItsFields(ls: State)
    ensures EditOn(ls, Removed) == ls - {"on"}
    ensures EditBri(ls, Removed) == ls - {"bri"}
    ensures EditCt(ls, Removed) == ls - {"ct"}
    ensures EditColor(ls, Removed) == ls - {"hue", "sat"}
    ensures forall k :: k in ls && k != "on" ==> k in EditOn(ls, Removed) && EditOn(ls, Removed)[k] == ls[k]
  {
  }

  /** The control for one light's entry in a scene's target state. */
  class LightControlElement {
    /** The "supported" class of the on, brightness, colour and colour
        temperature buttons. */
    var supported: Caps
    /** The "active" class of the same buttons. */
    var active: Caps
    var lightstate: State

    constructor (lightType: string, ls: State)
      ensures Capabilities(Lower(lightType)).Some? ==> supported == Capabilities(Lower(lightType)).value
      ensures Capabilities(Lower(lightType)).None? ==> supported == Caps(false, false, false, false)
      ensures lightstate == ls && active == ActiveButtons(ls)
    {
      supported := Caps(false, false, false, false);
      active := Caps(false, false, false, false);
      lightstate := map[];
      new;
      SetType(lightType);
      SetLightstate(ls);
    }

    /** The `type` setter: the table is looked up case-insensitively; an
        unknown type leaves the four buttons as they were. */
    method SetType(value: string)
      modifies this`supported
      ensures Capabilities(Lower(value)).Some? ==> supported == Capabilities(Lower(value)).value
      ensures Capabilities(Lower(value)).None? ==> supported == old(supported)
    {
      var caps := Capabilities(Lower(value));
      if caps.Some? {
        supported := caps.value;
      }
    }

    /** The `lightstate` setter: a button is active exactly when its field
        is defined. */
    method SetLightstate(value: State)
      modifies this`active, this`lightstate
      ensures lightstate == value && active == ActiveButtons(value)
    {
      active := ActiveButtons(value);
      lightstate := value;
    }

    /** The on popup closed; the edited state is stored back. */
    method OnClosed(outcome: Outcome<bool>)
      modifies this`active, this`lightstate
      ensures lightstate == EditOn(old(lightstate), outcome) && active == ActiveButtons(lightstate)
    {
      SetLightstate(EditOn(lightstate, outcome));
    }

    /** The brightness popup closed. */
    method BriClosed(outcome: Outcome<Number>)
      modifies this`active, this`lightstate
      ensures lightstate == EditBri(old(lightstate), outcome) && active == ActiveButtons(lightstate)
    {
      SetLightstate(EditBri(lightstate, outcome));
    }

    /** The colour temperature popup closed. */
    method CtClosed(outcome: Outcome<Number>)
      modifies this`active, this`lightstate
      ensures lightstate == EditCt(old(lightstate), outcome) && active == ActiveButtons(lightstate)
    {
      SetLightstate(EditCt(lightstate, outcome));
    }

    /** The colour popup closed. */
    method ColorClosed(outcome: Outcome<(int, int)>)
      modifies this`active, this`lightstate
      ensures lightstate == EditColor(old(lightstate), outcome) && active == ActiveButtons(lightstate)
    {
      SetLightstate(EditColor(lightstate, outcome));
    }
  }

  /** The buttons the `lightstate` setter marks active: on for `on`,
      brightness for `bri`, colour for `hue`, temperature for `ct`. */
  function ActiveButtons(ls: State): (c: Caps)
    ensures c.on <==> Get(ls, "on") != Undefined
    ensures c.bri <==> Get(ls, "bri") != Undefined
    ensures c.color <==> Get(ls, "hue") != Undefined
    ensures c.ct <==> Get(ls, "ct") != Undefined
  {
    Caps(Get(ls, "on") != Undefined, Get(ls, "bri") != Undefined,
         Get(ls, "hue") != Undefined, Get(ls, "ct") != Undefined)
  }

  /** Two types that differ only in the case of ASCII letters lower-case
      to the same string, and conversely. */
  lemma LowerSameIffFoldsAgree(t: string, u: string)
    ensures Lower(t) == Lower(u) <==> |t| == |u| && forall i :: 0 <= i < |t| ==> Fold(t[i]) == Fold(u[i])
  {
    var lt, lu := Lower(t), Lower(u);
    if |t| == |u| && forall i :: 0 <= i < |t| ==> Fold(t[i]) == Fold(u[i]) {
      forall i | 0 <= i < |t|
        ensures lt[i] == lu[i]
      {
        assert lt[i] == Fold(t[i]) && lu[i] == Fold(u[i]);
      }
      assert lt == lu;
    }
    if lt == lu {
      forall i | 0 <= i < |t|
        ensures Fold(t[i]) == Fold(u[i])
      {
        assert lt[i] == Fold(t[i]) && lu[i] == Fold(u[i]);
      }
    }
  }

  /** The type setter does not care about case: types that differ only in
      the case of ASCII letters ("Dimmable light", "DIMMABLE LIGHT") select
      the same row of the table. */
  lemma CapabilitiesCaseInsensitive(t: string, u: string)
    requires |t| == |u|
    requires forall i :: 0 <= i < |t| ==> Fold(t[i]) == Fold(u[i])
    ensures Capabilities(Lower(t)) == Capabilities(Lower(u))
  {
    LowerSameIffFoldsAgree(t, u);
  }

  /** An example of the above: a capitalised spelling of a listed type. */
  lemma DimmableAnyCase()
    ensures Capabilities(Lower("Dimmable Light")) == Some(Caps(true, true, false, false))
  {
    CapabilitiesCaseInsensitive("Dimmable Light", "dimmable light");
    LowerIdempotent("dimmable light");
  }
}
