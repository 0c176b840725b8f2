/** How the reference to an official lottery draw is shown
    (frontend/src/utils/contestOfficialRefUtils.ts): the drawn numbers as
    two-digit tokens, and the draw date as `dd/mm/aaaa`. `None` is a null
    or undefined input. */
module OfficialRef {
  import opened Wrappers
  import opened Seqs
  import Text

  /** `!s?.trim()`: no input, or one that is only white space. */
  predicate Blank(s: Option<string>) {
    s.None? || Text.Trim(s.value) == ""
  }

  /** `s.replace(/\D/g, '')`: the ASCII digits of `s`, in order. */
  function Digits(s: string): (d: string)
    ensures forall i :: 0 <= i < |d| ==> Text.IsAsciiDigit(d[i])
  {
    Filter(s, Text.IsAsciiDigit)
  }

  /** `d.match(/.{1,2}/g)` with every match padded: pairs from the left,
      the last one alone when `|d|` is odd. */
  function Pairs(d: string): seq<string>
    decreases |d|
  {
    if |d| <= 2 then (if d == [] then [] else [Text.PadStart(d, 2, '0')])
    else [d[..2]] + Pairs(d[2..])
  }

  /** `tokens.join(' ')`. */
  function JoinSpaced(tokens: seq<string>): string {
    if tokens == [] then ""
    else if |tokens| == 1 then tokens[0]
    else tokens[0] + " " + JoinSpaced(tokens[1..])
  }

  /** The tokens put side by side. */
  function Concat(tokens: seq<string>): string {
    if tokens == [] then "" else tokens[0] + Concat(tokens[1..])
  }

  /** `formatOfficialRefNumbers`: the result holds only digits and the
      spaces between the pairs. */
  function FormatOfficialRefNumbers(s: Option<string>): (r: string)
    ensures forall i :: 0 <= i < |r| ==> Text.IsAsciiDigit(r[i]) || r[i] == ' '
  {
    if Blank(s) then ""
    else
      var digits := Digits(s.value);
      if |digits| == 0 then ""
      else
        PairsSpec(digits);
        JoinSpacedChars(Pairs(digits));
        JoinSpaced(Pairs(digits))
  }

  /** Two-digit tokens joined by spaces give only digits and spaces. */
  lemma {:induction false} JoinSpacedChars(tokens: seq<string>)
    requires TwoDigitTokens(tokens)
    ensures forall i :: 0 <= i < |JoinSpaced(tokens)| ==> Text.IsAsciiDigit(JoinSpaced(tokens)[i]) || JoinSpaced(tokens)[i] == ' '
  {
    if |tokens| > 1 {
      var rest := JoinSpaced(tokens[1..]);
      JoinSpacedChars(tokens[1..]);
      var t := tokens[0];
      assert JoinSpaced(tokens) == t + " " + rest;
      forall i | 0 <= i < |t + " " + rest|
        ensures Text.IsAsciiDigit((t + " " + rest)[i]) || (t + " " + rest)[i] == ' '
      {
        if i >= |t| + 1 {
          assert (t + " " + rest)[i] == rest[i - |t| - 1];
        }
      }
    }
  }

  /** Every token is two ASCII digits. */
  predicate TwoDigitTokens(tokens: seq<string>) {
    forall i :: 0 <= i < |tokens| ==> |tokens[i]| == 2 && Text.IsAsciiDigit(tokens[i][0]) && Text.IsAsciiDigit(tokens[i][1])
  }

  /** `Pairs` cuts a digit string into ceil(d/2) tokens of two digits whose
      concatenation is the string, with a '0' put before its last digit when
      its length is odd. */
  lemma {:induction false} PairsSpec(d: string)
    requires forall i :: 0 <= i < |d| ==> Text.IsAsciiDigit(d[i])
    ensures TwoDigitTokens(Pairs(d))
    ensures |Pairs(d)| == (|d| + 1) / 2
    ensures Concat(Pairs(d)) == PaddedDigits(d)
    decreases |d|
  {
    if |d| > 2 {
      var rest := d[2..];
      PairsSpec(rest);
      TwoDigitCons(d[..2], Pairs(rest));
      assert Concat(Pairs(d)) == d[..2] + Concat(Pairs(rest));
      PaddedDigitsCons(d);
    } else if |d| == 1 {
      assert Text.PadStart(d, 2, '0') == "0" + d;
    }
  }

  /** The digit string with a '0' put before its last digit when its length
      is odd. */
  function PaddedDigits(d: string): string {
    if |d| % 2 == 0 then d else d[..|d| - 1] + "0" + [d[|d| - 1]]
  }

  lemma PaddedDigitsCons(d: string)
    requires |d| > 2
    ensures PaddedDigits(d) == d[..2] + PaddedDigits(d[2..])
  {
    var rest := d[2..];
    if |d| % 2 == 0 {
      assert d == d[..2] + rest;
    } else {
      assert d[..2] + (rest[..|rest| - 1] + "0" + [rest[|rest| - 1]]) == d[..|d| - 1] + "0" + [d[|d| - 1]];
    }
  }

  lemma TwoDigitCons(t: string, ts: seq<string>)
    requires |t| == 2 && Text.IsAsciiDigit(t[0]) && Text.IsAsciiDigit(t[1]) && TwoDigitTokens(ts)
    ensures TwoDigitTokens([t] + ts)
  {
    assert forall i :: 1 <= i < |ts| + 1 ==> ([t] + ts)[i] == ts[i - 1];
  }

  /** Cutting the concatenation of two-digit tokens gives the tokens back. */
  lemma {:induction false} PairsOfConcat(tokens: seq<string>)
    requires TwoDigitTokens(tokens)
    ensures Pairs(Concat(tokens)) == tokens
  {
    if tokens != [] {
      var rest := tokens[1..];
      assert TwoDigitTokens(rest) by {
        forall i | 0 <= i < |rest| ensures |rest[i]| == 2 && Text.IsAsciiDigit(rest[i][0]) && Text.IsAsciiDigit(rest[i][1]) {
          assert rest[i] == tokens[i + 1];
        }
      }
      PairsOfConcat(rest);
      var c := Concat(tokens);
      assert c == tokens[0] + Concat(rest);
      if rest == [] {
        assert c == tokens[0];
      } else {
        assert |Concat(rest)| > 0 by { ConcatLength(rest); }
        assert c[..2] == tokens[0] && c[2..] == Concat(rest);
      }
    }
  }

  lemma {:induction false} ConcatLength(tokens: seq<string>)
    requires TwoDigitTokens(tokens)
    ensures |Concat(tokens)| == 2 * |tokens|
  {
    if tokens != [] {
      var rest := tokens[1..];
      assert TwoDigitTokens(rest) by {
        forall i | 0 <= i < |rest| ensures |rest[i]| == 2 && Text.IsAsciiDigit(rest[i][0]) && Text.IsAsciiDigit(rest[i][1]) {
          assert rest[i] == tokens[i + 1];
        }
      }
      ConcatLength(rest);
    }
  }

  /** The digits of the spaced tokens are the tokens side by side. */
  lemma {:induction false} DigitsOfJoin(tokens: seq<string>)
    requires TwoDigitTokens(tokens)
    ensures Digits(JoinSpaced(tokens)) == Concat(tokens)
  {
    if tokens != [] {
      var t := tokens[0];
      var rest := tokens[1..];
      assert TwoDigitTokens(rest) by {
        forall i | 0 <= i < |rest| ensures |rest[i]| == 2 && Text.IsAsciiDigit(rest[i][0]) && Text.IsAsciiDigit(rest[i][1]) {
          assert rest[i] == tokens[i + 1];
        }
      }
      assert t == [t[0]] + [t[1]];
      FilterAll(t, Text.IsAsciiDigit);
      if |tokens| == 1 {
        assert JoinSpaced(tokens) == t;
        assert Concat(tokens) == t + Concat(rest);
      } else {
        DigitsOfJoin(rest);
        FilterConcat(t + " ", JoinSpaced(rest), Text.IsAsciiDigit);
        FilterConcat(t, " ", Text.IsAsciiDigit);
        assert Filter(" ", Text.IsAsciiDigit) == [];
      }
    }
  }

  /** A string with a character that is not white space does not trim to
      the empty string. */
  lemma TrimKeeps(s: string, k: int)
    requires 0 <= k < |s| && !Text.IsJsWhitespace(s[k])
    ensures Text.Trim(s) != ""
  {
    Text.TrimSpec(s);
    var i, j :| Text.SliceOf(s, Text.Trim(s), i, j);
    assert i <= k < j;
  }

  /** No input, a blank one, or one without digits shows as the empty
      string; otherwise the result is the digits in two-digit tokens
      separated by single spaces, ceil(d/2) of them for d digits, which
      side by side give the digits with a '0' put before the last one when
      there is an odd number of them. */
  lemma FormatNumbersSpec(s: Option<string>)
    ensures Blank(s) ==> FormatOfficialRefNumbers(s) == ""
    ensures s.Some? && Digits(s.value) == "" ==> FormatOfficialRefNumbers(s) == ""
    ensures s.Some? && Digits(s.value) != "" ==>
              var d := Digits(s.value);
              exists tokens :: TokensOf(FormatOfficialRefNumbers(s), d, tokens)
  {
    if s.Some? && Digits(s.value) != "" {
      var d := Digits(s.value);
      FilterMembership(s.value, Text.IsAsciiDigit);
      assert d[0] in s.value;
      var k :| 0 <= k < |s.value| && s.value[k] == d[0];
      TrimKeeps(s.value, k);
      PairsSpec(d);
      assert TokensOf(FormatOfficialRefNumbers(s), d, Pairs(d));
    }
  }

  /** `r` is `tokens` joined by spaces, and the tokens are the pairs of the
      digit string `d` as described above. */
  ghost predicate TokensOf(r: string, d: string, tokens: seq<string>) {
    r == JoinSpaced(tokens) && TwoDigitTokens(tokens) && |tokens| == (|d| + 1) / 2 &&
    Concat(tokens) == PaddedDigits(d)
  }

  /** Formatting an already formatted reference changes nothing. */
  lemma FormatNumbersIdempotent(s: Option<string>)
    ensures FormatOfficialRefNumbers(Some(FormatOfficialRefNumbers(s))) == FormatOfficialRefNumbers(s)
  {
    if FormatOfficialRefNumbers(s) == "" {
      assert Text.Trim("") == "";
    } else {
      var d := Digits(s.value);
      PairsSpec(d);
      FormatJoined(Pairs(d));
    }
  }

  /** Two-digit tokens joined by spaces format to themselves. */
  lemma FormatJoined(tokens: seq<string>)
    requires tokens != [] && TwoDigitTokens(tokens)
    ensures FormatOfficialRefNumbers(Some(JoinSpaced(tokens))) == JoinSpaced(tokens)
  {
    var r := JoinSpaced(tokens);
    DigitsOfJoin(tokens);
    ConcatLength(tokens);
    PairsOfConcat(tokens);
    assert r[0] == tokens[0][0];
    TrimKeeps(r, 0);
  }

  // ---------------------------------------------------------------------
  // formatOfficialRefDate

  /** The characters that send the input to the date parser first. */
  predicate HasDateSeparator(s: string) {
    '-' in s || '/' in s || 'T' in s
  }

  /** `dd/mm/aaaa` from eight digits `ddmmaaaa`. */
  function DayMonthYear(digits: string): string
    requires |digits| == 8
  {
    digits[..2] + "/" + digits[2..4] + "/" + digits[4..8]
  }

  /** `formatOfficialRefDate`. `parse(s)` is what `new Date(s)` followed by
      `toLocaleDateString('pt-BR', ...)` shows, `None` when the date is
      invalid. No input or a blank one shows as the empty string; otherwise
      the result is what the parser shows, the `dd/mm/aaaa` form of its
      eight digits, or the input itself. */
  function FormatOfficialRefDate(s: Option<string>, parse: string -> Option<string>): (r: string)
    ensures Blank(s) ==> r == ""
    ensures !Blank(s) ==>
              parse(s.value) == Some(r) || (|Digits(s.value)| == 8 && r == DayMonthYear(Digits(s.value))) || r == s.value
  {
    if Blank(s) then ""
    else if HasDateSeparator(s.value) && parse(s.value).Some? then parse(s.value).value
    else
      var digits := Digits(s.value);
      if |digits| == 8 then DayMonthYear(digits)
      else if parse(s.value).Some? then parse(s.value).value
      else s.value
  }

  /** An input without '-', '/' or 'T' and with exactly eight digits shows
      as those digits in the form `dd/mm/aaaa`, without consulting the
      parser. */
  lemma FormatDateBranches(s: Option<string>, parse: string -> Option<string>)
    ensures !Blank(s) && !HasDateSeparator(s.value) && |Digits(s.value)| == 8 ==>
              forall other: string -> Option<string> ::
                FormatOfficialRefDate(s, parse) == FormatOfficialRefDate(s, other) == DayMonthYear(Digits(s.value))
  {
  }

  /** The `dd/mm/aaaa` form: ten characters, slashes at positions 2 and 5,
      digits elsewhere, and its digits are the eight it was built from in
      their order. */
  lemma DayMonthYearSpec(digits: string)
    requires |digits| == 8 && forall i :: 0 <= i < 8 ==> Text.IsAsciiDigit(digits[i])
    ensures var r := DayMonthYear(digits);
            |r| == 10 && r[2] == '/' && r[5] == '/' &&
            (forall i :: 0 <= i < 10 && i != 2 && i != 5 ==> Text.IsAsciiDigit(r[i])) &&
            Digits(r) == digits
  {
    var r := DayMonthYear(digits);
    var dd, mm, yyyy := digits[..2], digits[2..4], digits[4..8];
    assert r == dd + "/" + mm + "/" + yyyy;
    FilterAll(dd, Text.IsAsciiDigit);
    FilterAll(mm, Text.IsAsciiDigit);
    FilterAll(yyyy, Text.IsAsciiDigit);
    FilterConcat(dd + "/" + mm + "/", yyyy, Text.IsAsciiDigit);
    FilterConcat(dd + "/" + mm, "/", Text.IsAsciiDigit);
    FilterConcat(dd + "/", mm, Text.IsAsciiDigit);
    FilterConcat(dd, "/", Text.IsAsciiDigit);
    assert Filter("/", Text.IsAsciiDigit) == [];
    assert digits == dd + mm + yyyy;
  }
}
