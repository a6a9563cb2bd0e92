/** truncateOutput: an over-long output is cut so that it and a notice, which prints how much
    is shown and so depends on itself, fill the limit exactly. */
module Truncation {
  import opened Wrappers
  import opened Numerals
  import opened Text

  /** The largest length of a JavaScript string is below this. */
  const JS_SAFE := 0x20_0000_0000_0000

  const HEAD := "\n\n[Output truncated - showing first "
  const MIDDLE := " characters of "

  function NoticeText(shown: nat, total: nat): string {
    HEAD + Decimal(shown) + MIDDLE + Decimal(total) + "]"
  }

  /** The notice in code units: one for each character, for it is plain ASCII. */
  function Notice(shown: nat, total: nat): (n: seq<CodeUnit>)
    ensures |n| == 52 + DigitCount(shown) + DigitCount(total)
  {
    NoticeIsAscii(shown, total);
    Units(NoticeText(shown, total))
  }

  predicate Ascii(s: string) {
    forall i :: 0 <= i < |s| ==> s[i] as int < 0x80
  }

  lemma NoticeIsAscii(shown: nat, total: nat)
    ensures |Units(NoticeText(shown, total))| == |NoticeText(shown, total)| == 52 + DigitCount(shown) + DigitCount(total)
  {
    hide Decimal, Units, AstralCount;
    LiteralsAscii();
    AsciiConcat(HEAD, Decimal(shown), MIDDLE, Decimal(total), "]");
    UnitsLength(NoticeText(shown, total));
  }

  lemma LiteralsAscii()
    ensures Ascii(HEAD) && Ascii(MIDDLE) && Ascii("]") && |HEAD| + |MIDDLE| == 51
  {
  }

  lemma AsciiConcat(a: string, m: string, b: string, n: string, c: string)
    requires Ascii(a) && AllDigits(m) && Ascii(b) && AllDigits(n) && Ascii(c)
    ensures Ascii(a + m + b + n + c) && |a + m + b + n + c| == |a| + |m| + |b| + |n| + |c|
  {
    assert Ascii(a + m + b);
  }

  // --- reading a notice back ---

  /** What follows a given opening. */
  function Expect(opening: string, s: string): Option<string> {
    if opening <= s then Some(s[|opening|..]) else None
  }

  /** The digits that a text starts with. */
  function DigitRun(s: string): (d: string)
    ensures AllDigits(d) && |d| <= |s|
  {
    if s == "" || !IsDigit(s[0]) then "" else [s[0]] + DigitRun(s[1..])
  }

  /** The number that a text starts with, and what follows it. */
  function ReadNumber(s: string): Option<(nat, string)> {
    var d := DigitRun(s);
    if d == "" then None else Some((ParseDecimal(d), s[|d|..]))
  }

  /** The two numbers in a text of the form opening, number, middle, number, closing. */
  function ReadNumbers(opening: string, middle: string, closing: string, s: string): Option<(nat, nat)> {
    match Expect(opening, s)
    case None => None
    case Some(first) =>
      match ReadNumber(first)
      case None => None
      case Some((m, behind)) =>
        match Expect(middle, behind)
        case None => None
        case Some(second) =>
          match ReadNumber(second)
          case None => None
          case Some((n, end)) => if end == closing then Some((m, n)) else None
  }

  /** The count and the total that a reader finds in a notice. */
  function ReadNotice(s: string): Option<(nat, nat)> {
    ReadNumbers("\n\n[Output truncated - showing first ", " characters of ", "]", s)
  }

  lemma {:induction false} DigitRunStops(d: string, rest: string)
    requires AllDigits(d) && (rest == "" || !IsDigit(rest[0]))
    ensures DigitRun(d + rest) == d
  {
    if d == "" {
      assert d + rest == rest;
    } else {
      assert (d + rest)[1..] == d[1..] + rest;
      DigitRunStops(d[1..], rest);
    }
  }

  lemma ReadsNumber(n: nat, rest: string)
    requires rest != "" && !IsDigit(rest[0])
    ensures ReadNumber(Decimal(n) + rest) == Some((n, rest))
  {
    hide Decimal, DigitRun, ParseDecimal, DigitCount;
    DigitRunStops(Decimal(n), rest);
    Expects(Decimal(n), rest);
    ParseOfDecimal(n);
  }

  lemma Expects(opening: string, rest: string)
    ensures Expect(opening, opening + rest) == Some(rest) && (opening + rest)[|opening|..] == rest
  {
  }

  lemma ReadsNumbers(opening: string, first: nat, middle: string, second: nat, closing: string)
    requires middle != "" && !IsDigit(middle[0]) && closing != "" && !IsDigit(closing[0])
    ensures ReadNumbers(opening, middle, closing, opening + Decimal(first) + middle + Decimal(second) + closing)
            == Some((first, second))
  {
    hide Decimal, Expect, ReadNumber;
    var ending := Decimal(second) + closing;
    FiveParts(opening, Decimal(first), middle, Decimal(second), closing);
    Expects(opening, Decimal(first) + (middle + ending));
    ReadsNumber(first, middle + ending);
    Expects(middle, ending);
    ReadsNumber(second, closing);
  }

  lemma FiveParts(a: string, b: string, c: string, d: string, e: string)
    ensures a + b + c + d + e == a + (b + (c + (d + e)))
  {
  }

  /** A notice decodes to a text in which a reader finds the count shown and the total. */
  lemma NoticeReads(shown: nat, total: nat)
    ensures CodePoints(Notice(shown, total)).Decoded?
    ensures ReadNotice(CodePoints(Notice(shown, total)).s) == Some((shown, total))
  {
    hide Decimal, Units, CodePoints, ReadNumbers;
    UnitsDecode(NoticeText(shown, total));
    ReadsNumbers(HEAD, shown, MIDDLE, total, "]");
  }

  /** What is left for the output when the notice prints the given count. */
  function Budget(limit: nat, shown: nat, total: nat): int {
    limit - |Notice(shown, total)|
  }

  function Limit(maxOutputChars: int): nat {
    if maxOutputChars < 1 then 1 else maxOutputChars
  }

  // --- the result in closed form ---

  /** The count that the notice ends up printing. */
  function PrintedCount(limit: nat, total: nat): nat
    requires Budget(limit, limit, total) > 0
  {
    var first := Budget(limit, limit, total);
    Max0(Budget(limit, first, total))
  }

  /** How much of the output is kept. */
  function PayloadLength(limit: nat, total: nat): int
    requires Budget(limit, limit, total) > 0
  {
    Budget(limit, PrintedCount(limit, total), total)
  }

  /** String.prototype.substring(0, end), which clamps. */
  function Substring(s: seq<CodeUnit>, end: int): seq<CodeUnit> {
    if end < 0 then [] else if end < |s| then s[..end] else s
  }

  function Max0(n: int): nat {
    if n < 0 then 0 else n
  }

  function Truncated(output: seq<CodeUnit>, maxOutputChars: int): seq<CodeUnit> {
    var limit := Limit(maxOutputChars);
    if |output| <= limit then output
    else if Budget(limit, limit, |output|) <= 0 then output[..limit]
    else
      var payload := PayloadLength(limit, |output|);
      if 0 <= payload <= |output| then output[..payload] + Notice(PrintedCount(limit, |output|), |output|)
      else output[..limit]
  }

  // --- the search for a count that agrees with itself ---

  lemma {:induction false} Pow10Sum(a: nat, b: nat)
    ensures Pow10(a + b) == Pow10(a) * Pow10(b)
  {
    if a > 0 {
      Pow10Sum(a - 1, b);
      assert Pow10(a + b) == 10 * Pow10((a - 1) + b);
      assert 10 * (Pow10(a - 1) * Pow10(b)) == (10 * Pow10(a - 1)) * Pow10(b);
    }
  }

  lemma TotalDigits(total: nat)
    requires total < JS_SAFE
    ensures DigitCount(total) <= 16
  {
    assert Pow10(2) == 10 * Pow10(1) && Pow10(1) == 10 * Pow10(0);
    Pow10Sum(2, 2);
    Pow10Sum(4, 4);
    Pow10Sum(8, 8);
    DigitCountBound(total, 16);
  }

  /** From the second guess on the guesses either stay put or alternate between two
      neighbours, the upper one a power of ten. */
  lemma GuessesSettle(limit: nat, total: nat)
    requires limit < total < JS_SAFE
    requires Budget(limit, limit, total) > 0
    ensures var b1 := Budget(limit, limit, total);
      var b2 := Budget(limit, b1, total);
      && 0 < b1 <= b2 <= b1 + 1
      && (DigitCount(b2) == DigitCount(b1) ==> Budget(limit, b2, total) == b2)
      && (DigitCount(b2) != DigitCount(b1) ==>
            b2 == b1 + 1 && b2 == Pow10(DigitCount(b1)) && DigitCount(b2) == DigitCount(b1) + 1 && Budget(limit, b2, total) == b1)
  {
    var b1 := Budget(limit, limit, total);
    TotalDigits(total);
    DigitCountMonotone(limit, total);
    DigitCountSmallStep(b1, limit - b1);
    var b2 := Budget(limit, b1, total);
    DigitCountSmallStep(b1, b2 - b1);
    if DigitCount(b2) != DigitCount(b1) {
      DigitCountStepIsPower(b1);
    }
  }

  /** The loop of the source, with its four attempts and its early exits. */
  method TruncateOutput(output: seq<CodeUnit>, maxOutputChars: int) returns (r: seq<CodeUnit>)
    ensures |output| < JS_SAFE ==> r == Truncated(output, maxOutputChars)
    ensures |output| > Limit(maxOutputChars) ==> |r| == Limit(maxOutputChars)
  {
    hide Notice, Decimal, DigitCount, Pow10;
    var limit := Limit(maxOutputChars);
    var total := |output|;
    if total <= limit {
      return output;
    }
    var notice := Notice(limit, total);
    var payloadBudget := limit - |notice|;
    if payloadBudget <= 0 {
      return Substring(output, limit);
    }
    if total < JS_SAFE { GuessesSettle(limit, total); }
    ghost var b1 := Budget(limit, limit, total);
    ghost var b2 := Budget(limit, b1, total);
    var attempt := 0;
    while attempt < 4
      invariant 0 <= attempt <= 4
      invariant payloadBudget > 0 && payloadBudget + |notice| == limit
      invariant total < JS_SAFE && attempt == 0 ==> payloadBudget == b1
      invariant total < JS_SAFE && attempt > 0 ==>
        || (attempt % 2 == 1 && payloadBudget == b2 && notice == Notice(b1, total))
        || (attempt % 2 == 0 && payloadBudget == b1 && notice == Notice(b2, total) && b2 != b1)
      invariant total < JS_SAFE && attempt >= 2 ==> DigitCount(b1) != DigitCount(b2)
    {
      var shownChars := Max0(payloadBudget);
      notice := Notice(shownChars, total);
      var nextBudget := limit - |notice|;
      if nextBudget == payloadBudget {
        break;
      }
      payloadBudget := nextBudget;
      if payloadBudget <= 0 {
        return Substring(output, limit);
      }
      attempt := attempt + 1;
    }
    var bounded := Substring(output, Max0(payloadBudget)) + notice;
    r := if |bounded| <= limit then bounded else Substring(bounded, limit);
  }

  // --- what the result is worth ---

  /** An output within the limit is left alone; a longer one is cut to the limit exactly. */
  lemma ExactLength(output: seq<CodeUnit>, maxOutputChars: int)
    ensures |output| <= Limit(maxOutputChars) <==> Truncated(output, maxOutputChars) == output
    ensures |output| > Limit(maxOutputChars) ==> |Truncated(output, maxOutputChars)| == Limit(maxOutputChars)
  {
  }

  /** A count that a notice can print truthfully. */
  predicate SelfConsistent(limit: nat, total: nat, count: nat) {
    Budget(limit, count, total) == count
  }

  /** Where there is room for a notice, the result is a prefix of the output and a text that reads
      as a notice of the output's length and the length of that prefix, or one more: one more
      exactly when no count at all would be true, and then the printed count is a power of ten. */
  lemma NoticeAccuracy(output: seq<CodeUnit>, maxOutputChars: int)
    requires |output| < JS_SAFE && |output| > Limit(maxOutputChars)
    requires Budget(Limit(maxOutputChars), Limit(maxOutputChars), |output|) > 0
    ensures var limit, total := Limit(maxOutputChars), |output|;
      var kept, printed := PayloadLength(limit, total), PrintedCount(limit, total);
      && 0 < kept <= total
      && Truncated(output, maxOutputChars) == output[..kept] + Notice(printed, total)
      && (var read := CodePoints(Truncated(output, maxOutputChars)[kept..]);
          read.Decoded? && ReadNotice(read.s) == Some((printed, total)))
      && (printed == kept || printed == kept + 1)
      && (printed == kept <==> exists count: nat :: SelfConsistent(limit, total, count))
      && (printed == kept + 1 <==> exists k: nat :: TwoCycle(limit, total, k))
      && (printed == kept + 1 ==> printed == Pow10(DigitCount(kept)))
  {
    var limit, total := Limit(maxOutputChars), |output|;
    var kept, printed := PayloadLength(limit, total), PrintedCount(limit, total);
    hide Notice, Decimal, DigitCount, Pow10, CodePoints, ReadNotice;
    GuessesSettle(limit, total);
    TwoCycleExactly(limit, total);
    NoticeReads(printed, total);
    assert (output[..kept] + Notice(printed, total))[kept..] == Notice(printed, total);
    if printed == kept {
      assert SelfConsistent(limit, total, kept);
    } else {
      forall count: nat ensures !SelfConsistent(limit, total, count) {
        NoCountIsTrue(limit, total, count);
      }
    }
  }

  lemma NoCountIsTrue(limit: nat, total: nat, count: nat)
    requires limit < total < JS_SAFE && Budget(limit, limit, total) > 0
    requires PrintedCount(limit, total) != PayloadLength(limit, total)
    ensures !SelfConsistent(limit, total, count)
  {
    GuessesSettle(limit, total);
    var kept := PayloadLength(limit, total);
    if count <= kept {
      DigitCountMonotone(count, kept);
    } else {
      DigitCountMonotone(kept + 1, count);
    }
  }

  /** The limits under which every guess is wrong: what they leave for the count is a power of
      ten when the notice prints the number below it. */
  predicate TwoCycle(limit: nat, total: nat, k: nat) {
    k >= 1 && limit == 52 + DigitCount(total) + Pow10(k) + k
  }

  lemma TwoCycleExactly(limit: nat, total: nat)
    requires limit < total < JS_SAFE && Budget(limit, limit, total) > 0
    ensures PrintedCount(limit, total) == PayloadLength(limit, total) + 1 <==> exists k: nat :: TwoCycle(limit, total, k)
  {
    GuessesSettle(limit, total);
    var b1 := Budget(limit, limit, total);
    var b2 := Budget(limit, b1, total);
    if b2 != b1 && DigitCount(b2) != DigitCount(b1) {
      assert TwoCycle(limit, total, DigitCount(b1));
    }
    if k: nat :| TwoCycle(limit, total, k) {
      TwoCycleGuesses(limit, total, k);
    }
  }

  /** From Pow10(k) - 1 the next guess is Pow10(k), and from there the guess before. */
  lemma TwoCycleGuesses(limit: nat, total: nat, k: nat)
    requires limit < total < JS_SAFE && Budget(limit, limit, total) > 0 && TwoCycle(limit, total, k)
    ensures PrintedCount(limit, total) == PayloadLength(limit, total) + 1 == Pow10(k)
  {
    hide Notice, Decimal, DigitCount, Pow10;
    GuessesSettle(limit, total);
    var kept := PayloadLength(limit, total);
    AroundPower(kept, k);
  }

  /** A number and its digits never add up to a power of ten and its exponent; a number and its
      successor's digits only do just below the power. */
  lemma AroundPower(n: nat, k: nat)
    requires k >= 1
    ensures n + DigitCount(n) != Pow10(k) + k
    ensures n + DigitCount(n + 1) == Pow10(k) + k <==> n + 1 == Pow10(k)
  {
    hide DigitCount, Pow10;
    DigitCountOfPower(k);
    if n < Pow10(k) {
      DigitCountMonotone(n, Pow10(k) - 1);
    } else {
      DigitCountMonotone(Pow10(k), n);
      DigitCountMonotone(Pow10(k), n + 1);
    }
    if n + 1 < Pow10(k) { DigitCountMonotone(n + 1, Pow10(k) - 1); }
  }

  /** A limit of 66 on 100 units keeps 9 of them and says 10. */
  lemma OneTooHighExample(output: seq<CodeUnit>)
    requires |output| == 100
    ensures Truncated(output, 66) == output[..9] + Notice(10, 100)
  {
    hide Notice, Decimal, DigitCount;
    ExampleDigits();
  }

  lemma ExampleDigits()
    ensures DigitCount(66) == 2 && DigitCount(100) == 3 && DigitCount(10) == 2 && DigitCount(9) == 1
  {
  }

  /** The notice is dropped exactly when it would leave no room for output: only then is the
      result a prefix of whatever the output is. */
  lemma NoRoomForNotice(total: nat, maxOutputChars: int)
    requires Limit(maxOutputChars) < total < JS_SAFE
    ensures Limit(maxOutputChars) <= |Notice(Limit(maxOutputChars), total)|
       <==> forall output: seq<CodeUnit> :: (
              |output| == total ==> Truncated(output, maxOutputChars) == output[..Limit(maxOutputChars)])
  {
    hide Notice, Decimal, DigitCount, Pow10, PrintedCount, PayloadLength;
    var limit := Limit(maxOutputChars);
    if limit > |Notice(limit, total)| {
      var zeros: seq<CodeUnit> := seq(total, _ => 0);
      NoticeAccuracy(zeros, maxOutputChars);
      var kept, printed := PayloadLength(limit, total), PrintedCount(limit, total);
      NoticeStart(printed, total);
      assert Truncated(zeros, maxOutputChars)[kept] == Notice(printed, total)[0];
    }
  }

  /** A notice starts with a line break. */
  lemma NoticeStart(shown: nat, total: nat)
    ensures Notice(shown, total)[0] == 10
  {
    hide Decimal;
    assert NoticeText(shown, total)[0] == HEAD[0] == '\n';
  }
}
