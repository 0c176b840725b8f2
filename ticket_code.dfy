/** Participation ticket codes (frontend/src/utils/ticketCodeGenerator.ts):
    `TKT-YYYYMMDD-XXXXXX`. */
module TicketCode {
  import Text
  import CodeFormat

  /** `generateTicketCode` for the date the clock reads (`monthIndex` is
      `getMonth()`) and the alphabet indices of its six random draws. */
  method GenerateTicketCode(year: int, monthIndex: nat, day: nat, indices: seq<int>) returns (code: string)
    requires |indices| == 6
    ensures code == CodeFormat.CodeOf("TKT", year, monthIndex, day, indices)
  {
    var datePart := CodeFormat.DatePart(year, monthIndex, day);
    var randomPart := CodeFormat.RandomPart(indices);
    code := "TKT-" + datePart + "-" + randomPart;
  }

  /** `isValidTicketCode`: `^TKT-\d{8}-[A-Z0-9]{6}$`. A valid ticket code is
      "TKT-", eight digits, "-" and six characters of `[A-Z0-9]`, nineteen in
      all, and nothing else is valid. */
  predicate IsValidTicketCode(code: string)
    ensures IsValidTicketCode(code) <==> exists date, part :: CodeFormat.Shaped("TKT", code, date, part)
    ensures IsValidTicketCode(code) ==> |code| == 19
  {
    CodeFormat.MatchesSpec("TKT", code);
    CodeFormat.Matches("TKT", code)
  }

  /** On a real date and with draws in `[0, 36)`, the generated code is
      valid exactly when the year has four digits. */
  lemma GeneratedTicketValid(year: int, monthIndex: nat, day: nat, indices: seq<int>)
    requires monthIndex <= 11 && 1 <= day <= 31
    requires |indices| == 6 && CodeFormat.IndicesInRange(indices)
    ensures IsValidTicketCode(CodeFormat.CodeOf("TKT", year, monthIndex, day, indices)) <==> 1000 <= year <= 9999
  {
    CodeFormat.GeneratedMatches("TKT", year, monthIndex, day, indices);
  }

  /** A valid ticket code has no lower-case letter and is never a valid
      draw code. */
  lemma TicketCodeRejects(code: string)
    ensures IsValidTicketCode(code) ==> forall i :: 0 <= i < |code| ==> !Text.IsAsciiLower(code[i])
    ensures IsValidTicketCode(code) ==> !CodeFormat.Matches("DRW", code)
  {
    if IsValidTicketCode(code) {
      CodeFormat.MatchesNoLower("TKT", code);
      CodeFormat.MatchesOnePrefix("TKT", "DRW", code);
    }
  }
}
