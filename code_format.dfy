/** What the ticket and draw code generators share
    (frontend/src/utils/ticketCodeGenerator.ts,
    frontend/src/utils/drawCodeGenerator.ts): a code is a three-letter
    prefix, the date as `YYYYMMDD` and six characters drawn from an
    alphabet of 36, joined by dashes, and the validators test it against
    `^PREFIX-\d{8}-[A-Z0-9]{6}$`. The clock is given as the year, the
    zero-based month and the day it reads, and each `Math.random()` draw as
    the alphabet index `Math.floor(Math.random() * 36)` it produces. */
module CodeFormat {
  import Text

  /** The `chars` both generators draw from. */
  const Alphabet: string := "ABCDEFGHIJKLMNOPQRSTUVWXYZ0123456789"

  /** The character at position `k` of the alphabet: the letters, then the
      digits. */
  function AlphabetChar(k: int): char
    requires 0 <= k < 36
  {
    if k < 26 then (65 + k) as char else (48 + k - 26) as char
  }

  lemma AlphabetAt()
    ensures |Alphabet| == 36
    ensures forall k :: 0 <= k < 36 ==> Alphabet[k] == AlphabetChar(k)
  {
    assert Alphabet == seq(36, k requires 0 <= k < 36 => AlphabetChar(k));
  }

  /** `[A-Z0-9]`. */
  predicate IsCodeChar(c: char) {
    Text.IsAsciiUpper(c) || Text.IsAsciiDigit(c)
  }

  /** `s.charAt(k)`: the character at `k`, or the empty string outside `s`. */
  function CharAt(s: string, k: int): string {
    if 0 <= k < |s| then [s[k]] else ""
  }

  function DigitChar(d: int): (c: char)
    requires 0 <= d < 10
    ensures Text.IsAsciiDigit(c)
  {
    (48 + d) as char
  }

  /** `String(n)` for a natural number: its decimal digits, most
      significant first, without leading zeros. */
  function DecimalString(n: nat): (r: string)
    ensures |r| >= 1
    ensures forall i :: 0 <= i < |r| ==> Text.IsAsciiDigit(r[i])
  {
    if n < 10 then [DigitChar(n)] else DecimalString(n / 10) + [DigitChar(n % 10)]
  }

  /** `String(n)` for an integer. */
  function IntString(n: int): string {
    if n < 0 then "-" + DecimalString(-n) else DecimalString(n)
  }

  function Pow10(k: nat): nat {
    if k == 0 then 1 else 10 * Pow10(k - 1)
  }

  /** A number has at most `k` digits exactly when it is below `10^k`. */
  lemma {:induction false} DecimalLength(n: nat, k: nat)
    requires k >= 1
    ensures |DecimalString(n)| <= k <==> n < Pow10(k)
  {
    if n >= 10 {
      if k == 1 {
        assert |DecimalString(n)| == |DecimalString(n / 10)| + 1;
      } else {
        DecimalLength(n / 10, k - 1);
      }
    } else {
      PowAtLeastTen(k);
    }
  }

  lemma {:induction false} PowAtLeastTen(k: nat)
    requires k >= 1
    ensures Pow10(k) >= 10
  {
    if k > 1 {
      PowAtLeastTen(k - 1);
    }
  }

  /** `${year}${month}${day}` with `month` and `day` padded to two digits;
      `monthIndex` is `getMonth()`, counted from 0. */
  function DatePart(year: int, monthIndex: nat, day: nat): string {
    IntString(year) + Text.PadStart(DecimalString(monthIndex + 1), 2, '0') + Text.PadStart(DecimalString(day), 2, '0')
  }

  /** The random part the loop builds from the given draws. */
  function RandomChars(indices: seq<int>): string {
    if indices == [] then "" else RandomChars(indices[..|indices| - 1]) + CharAt(Alphabet, indices[|indices| - 1])
  }

  /** The loop of both generators: six draws, one character each. */
  method RandomPart(indices: seq<int>) returns (randomPart: string)
    requires |indices| == 6
    ensures randomPart == RandomChars(indices)
  {
    randomPart := "";
    for i := 0 to 6
      invariant randomPart == RandomChars(indices[..i])
    {
      assert indices[..i + 1][..i] == indices[..i];
      randomPart := randomPart + CharAt(Alphabet, indices[i]);
    }
    assert indices[..6] == indices;
  }

  /** Every draw in `[0, 36)`. */
  predicate IndicesInRange(indices: seq<int>) {
    forall i :: 0 <= i < |indices| ==> 0 <= indices[i] < 36
  }

  /** With every draw in range, the random part has one character per
      draw, the alphabet's character at that draw; so it is made of `[A-Z0-9]`
      and different draws give different parts. */
  lemma {:induction false} RandomCharsSpec(indices: seq<int>)
    requires IndicesInRange(indices)
    ensures var r := RandomChars(indices);
            |r| == |indices| &&
            (forall i :: 0 <= i < |r| ==> r[i] == Alphabet[indices[i]] && IsCodeChar(r[i]))
  {
    if indices != [] {
      var n := |indices| - 1;
      var init := indices[..n];
      var prev := RandomChars(init);
      RandomCharsSpec(init);
      AlphabetCodeChar(indices[n]);
      var c := Alphabet[indices[n]];
      assert RandomChars(indices) == prev + [c];
      forall i | 0 <= i < n + 1
        ensures (prev + [c])[i] == Alphabet[indices[i]] && IsCodeChar((prev + [c])[i])
      {
        if i < n {
          assert (prev + [c])[i] == prev[i] && init[i] == indices[i];
        }
      }
    }
  }

  /** Every character of the alphabet is in `[A-Z0-9]`. */
  lemma AlphabetCodeChar(k: int)
    requires 0 <= k < 36
    ensures IsCodeChar(Alphabet[k])
  {
    AlphabetAt();
  }

  /** The draws can be read back from the random part. */
  lemma RandomCharsInjective(a: seq<int>, b: seq<int>)
    requires IndicesInRange(a) && IndicesInRange(b)
    requires RandomChars(a) == RandomChars(b)
    ensures a == b
  {
    RandomCharsSpec(a);
    RandomCharsSpec(b);
    forall i | 0 <= i < |a| ensures a[i] == b[i] {
      AlphabetDistinct(a[i], b[i]);
    }
  }

  lemma AlphabetDistinct(j: int, k: int)
    requires 0 <= j < 36 && 0 <= k < 36 && Alphabet[j] == Alphabet[k]
    ensures j == k
  {
    AlphabetAt();
  }

  /** The code the generator with `prefix` returns. */
  function CodeOf(prefix: string, year: int, monthIndex: nat, day: nat, indices: seq<int>): string {
    prefix + "-" + DatePart(year, monthIndex, day) + "-" + RandomChars(indices)
  }

  /** `^PREFIX-\d{8}-[A-Z0-9]{6}$`. */
  predicate Matches(prefix: string, code: string) {
    var n := |prefix|;
    |code| == n + 16 && code[..n] == prefix && code[n] == '-' &&
    (forall i :: n + 1 <= i < n + 9 ==> Text.IsAsciiDigit(code[i])) &&
    code[n + 9] == '-' &&
    (forall i :: n + 10 <= i < n + 16 ==> IsCodeChar(code[i]))
  }

  /** `code` is `prefix-date-part` with eight digits and six code
      characters. */
  ghost predicate Shaped(prefix: string, code: string, date: string, part: string) {
    code == prefix + "-" + date + "-" + part &&
    |date| == 8 && (forall i :: 0 <= i < 8 ==> Text.IsAsciiDigit(date[i])) &&
    |part| == 6 && (forall i :: 0 <= i < 6 ==> IsCodeChar(part[i]))
  }

  /** The validator accepts exactly the codes made of the prefix, a dash,
      eight digits, a dash and six characters of `[A-Z0-9]`. */
  lemma MatchesSpec(prefix: string, code: string)
    ensures Matches(prefix, code) <==> exists date, part :: Shaped(prefix, code, date, part)
  {
    var n := |prefix|;
    if Matches(prefix, code) {
      var date, part := code[n + 1..n + 9], code[n + 10..];
      assert code == prefix + "-" + date + "-" + part;
      assert Shaped(prefix, code, date, part);
    }
    if exists date, part :: Shaped(prefix, code, date, part) {
      var date, part :| Shaped(prefix, code, date, part);
      assert forall i :: n + 1 <= i < n + 9 ==> code[i] == date[i - n - 1];
      assert forall i :: n + 10 <= i < n + 16 ==> code[i] == part[i - n - 10];
    }
  }

  /** A month or day of one or two digits, padded, is two digits. */
  lemma PaddedTwoDigits(n: nat)
    requires n <= 99
    ensures var r := Text.PadStart(DecimalString(n), 2, '0');
            |r| == 2 && Text.IsAsciiDigit(r[0]) && Text.IsAsciiDigit(r[1])
  {
    DecimalLength(n, 2);
    var d := DecimalString(n);
    var r := Text.PadStart(d, 2, '0');
    if |d| < 2 {
      assert r[1] == d[0];
    }
  }

  /** For a real date (month index 0 to 11, day 1 to 31) and draws in
      range, the generated code passes the validator exactly when the year
      has four digits. */
  lemma GeneratedMatches(prefix: string, year: int, monthIndex: nat, day: nat, indices: seq<int>)
    requires monthIndex <= 11 && 1 <= day <= 31
    requires |indices| == 6 && IndicesInRange(indices)
    ensures Matches(prefix, CodeOf(prefix, year, monthIndex, day, indices)) <==> 1000 <= year <= 9999
  {
    var mm := Text.PadStart(DecimalString(monthIndex + 1), 2, '0');
    var dd := Text.PadStart(DecimalString(day), 2, '0');
    var part := RandomChars(indices);
    PaddedTwoDigits(monthIndex + 1);
    PaddedTwoDigits(day);
    RandomCharsSpec(indices);
    assert CodeOf(prefix, year, monthIndex, day, indices) == prefix + "-" + (IntString(year) + mm + dd) + "-" + part;
    if 1000 <= year <= 9999 {
      DecimalLength(year, 4);
      DecimalLength(year, 3);
      FourDigitYear(prefix, IntString(year), mm, dd, part);
    } else if year < 0 {
      NoDigitAfterPrefix(prefix, IntString(year), mm, dd, part);
    } else {
      DecimalLength(year, 4);
      DecimalLength(year, 3);
    }
  }

  /** A four-digit year with a two-digit month and day and a six-character
      part gives a matching code. */
  lemma FourDigitYear(prefix: string, y: string, mm: string, dd: string, part: string)
    requires |y| == 4 && forall i :: 0 <= i < 4 ==> Text.IsAsciiDigit(y[i])
    requires |mm| == 2 && Text.IsAsciiDigit(mm[0]) && Text.IsAsciiDigit(mm[1])
    requires |dd| == 2 && Text.IsAsciiDigit(dd[0]) && Text.IsAsciiDigit(dd[1])
    requires |part| == 6 && forall i :: 0 <= i < 6 ==> IsCodeChar(part[i])
    ensures Matches(prefix, prefix + "-" + (y + mm + dd) + "-" + part)
  {
    var date := y + mm + dd;
    forall i | 0 <= i < 8 ensures Text.IsAsciiDigit(date[i]) {
      if i < 4 {
        assert date[i] == y[i];
      } else if i < 6 {
        assert date[i] == mm[i - 4];
      } else {
        assert date[i] == dd[i - 6];
      }
    }
    assert Shaped(prefix, prefix + "-" + date + "-" + part, date, part);
    MatchesSpec(prefix, prefix + "-" + date + "-" + part);
  }

  /** A sign after the prefix's dash fails the digit check. */
  lemma NoDigitAfterPrefix(prefix: string, y: string, mm: string, dd: string, part: string)
    requires |y| > 0 && y[0] == '-'
    ensures !Matches(prefix, prefix + "-" + (y + mm + dd) + "-" + part)
  {
    assert (prefix + "-" + (y + mm + dd) + "-" + part)[|prefix| + 1] == '-';
  }

  /** A code that passes the validator holds no lower-case letter when its
      prefix holds none. */
  lemma MatchesNoLower(prefix: string, code: string)
    requires forall i :: 0 <= i < |prefix| ==> !Text.IsAsciiLower(prefix[i])
    requires Matches(prefix, code)
    ensures forall i :: 0 <= i < |code| ==> !Text.IsAsciiLower(code[i])
  {
    var n := |prefix|;
    forall i | 0 <= i < |code| ensures !Text.IsAsciiLower(code[i]) {
      if i < n {
        assert code[i] == code[..n][i];
      }
    }
  }

  /** A code passes the validator of at most one of two prefixes of the
      same length. */
  lemma MatchesOnePrefix(p: string, q: string, code: string)
    requires |p| == |q| && p != q
    ensures !(Matches(p, code) && Matches(q, code))
  {
  }
}
