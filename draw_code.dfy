/** Draw codes (frontend/src/utils/drawCodeGenerator.ts):
    `DRW-YYYYMMDD-XXXXXX`. */
module DrawCode {
  import Text
  import CodeFormat
  import TicketCode

  /** `generateDrawCode` for the date the clock reads (`monthIndex` is
      `getMonth()`) and the alphabet indices of its six random draws. */
  method GenerateDrawCode(year: int, monthIndex: nat, day: nat, indices: seq<int>) returns (code: string)
    requires |indices| == 6
    ensures code == CodeFormat.CodeOf("DRW", year, monthIndex, day, indices)
  {
    var datePart := CodeFormat.DatePart(year, monthIndex, day);
    var randomPart := CodeFormat.RandomPart(indices);
    code := "DRW-" + datePart + "-" + randomPart;
  }

  /** `isValidDrawCode`: `^DRW-\d{8}-[A-Z0-9]{6}$`. A valid draw code is
      "DRW-", eight digits, "-" and six characters of `[A-Z0-9]`, nineteen in
      all, and nothing else is valid. */
  predicate IsValidDrawCode(code: string)
    ensures IsValidDrawCode(code) <==> exists date, part :: CodeFormat.Shaped("DRW", code, date, part)
    ensures IsValidDrawCode(code) ==> |code| == 19
  {
    CodeFormat.MatchesSpec("DRW", code);
    CodeFormat.Matches("DRW", code)
  }

  /** On a real date and with draws in `[0, 36)`, the generated code is
      valid exactly when the year has four digits. */
  lemma GeneratedDrawValid(year: int, monthIndex: nat, day: nat, indices: seq<int>)
    requires monthIndex <= 11 && 1 <= day <= 31
    requires |indices| == 6 && CodeFormat.IndicesInRange(indices)
    ensures IsValidDrawCode(CodeFormat.CodeOf("DRW", year, monthIndex, day, indices)) <==> 1000 <= year <= 9999
  {
    CodeFormat.GeneratedMatches("DRW", year, monthIndex, day, indices);
  }

  /** A valid draw code has no lower-case letter and is never a valid
      ticket code. */
  lemma DrawCodeRejects(code: string)
    ensures IsValidDrawCode(code) ==> forall i :: 0 <= i < |code| ==> !Text.IsAsciiLower(code[i])
    ensures IsValidDrawCode(code) ==> !TicketCode.IsValidTicketCode(code)
  {
    if IsValidDrawCode(code) {
      CodeFormat.MatchesNoLower("DRW", code);
      CodeFormat.MatchesOnePrefix("DRW", "TKT", code);
    }
  }
}
