/** From fit_output to the text that the host shows: Python prints the dict, Node receives it
    as a JavaScript string and truncates it to the session's limit. */
module EndToEnd {
  import opened Numerals
  import opened Text
  import opened JsonText
  import opened Compaction
  import opened FitOutput
  import opened Bmp
  import Truncation

  /** _stringify_output on a JSON value. */
  function StringifyOutput(v: Json): string {
    match v
    case Null => ""
    case Str(s) => s
    case _ => Dumps(Indented, v, 0)
  }

  /** The complete frame's output with no printed stdout before it, cut by the executor. */
  function ShownOutput(v: Json, session: int): seq<CodeUnit> {
    Truncation.Truncated(Units(StringifyOutput(v)), session)
  }

  /** A limit below the size of the last resort leaves nothing else. */
  lemma SmallBudget(v: Json, lim: Limits)
    requires lim.Ok() && lim.maxChars < LAST_RESORT_CHARS
    ensures Fitted(v, lim) == LastResort
  {
    hide Measure, WithText, Preview, Dumps;
    var r := Fitted(v, lim);
    BudgetRespected(InitialResult(v, lim), lim.maxChars);
    if r != LastResort { OthersAreLonger(r); }
  }

  /** A fitted value reaches the host uncut exactly when the session limit can hold the last
      resort and the extra code units of characters outside the BMP fit as well. */
  lemma FittedPassesUncut(v: Json, lim: Limits, session: int)
    requires lim.Ok() && lim.maxChars <= Truncation.Limit(session)
    ensures var r := ToJson(Fitted(v, lim));
      && StringifyOutput(r) == Dumps(Indented, r, 0)
      && (ShownOutput(r, session) == Units(StringifyOutput(r))
          <==> session >= LAST_RESORT_CHARS && MeasureJsonChars(r) + AstralCount(StringifyOutput(r)) <= session)
      && (BmpJson(v) ==> (ShownOutput(r, session) == Units(StringifyOutput(r)) <==> session >= LAST_RESORT_CHARS))
  {
    hide Dumps, Fitted, Units, BmpJson, AllBmp;
    var fitted := Fitted(v, lim);
    var text := StringifyOutput(ToJson(fitted));
    UnitsLength(text);
    Truncation.ExactLength(Units(text), session);
    FittedSize(v, lim);
    LastResortSize();
    if session < LAST_RESORT_CHARS {
      SmallBudget(v, lim);
    }
    if BmpJson(v) {
      FittedBmp(v, lim);
      DumpsBmp(Indented, ToJson(fitted), 0);
    }
  }

  lemma FittedSize(v: Json, lim: Limits)
    requires lim.Ok()
    ensures Measure(Fitted(v, lim)) <= lim.maxChars || Fitted(v, lim) == LastResort
  {
    BudgetRespected(InitialResult(v, lim), lim.maxChars);
  }

  // --- for the limits that fit_output itself derives ---

  /** What fit_output returns for these arguments is shown as it was printed. */
  predicate ArrivesWhole(v: Json, maxChars: Arg, maxItems: Arg, maxDepth: Arg, session: int)
    requires NormalizeLimits(maxChars, maxItems, maxDepth, session).Ok?
  {
    var r := ToJson(Fitted(v, NormalizeLimits(maxChars, maxItems, maxDepth, session).value));
    ShownOutput(r, session) == Units(StringifyOutput(r))
  }

  /** A value without characters outside the BMP always arrives whole when the session allows
      at least 47 characters, and never when it allows fewer. */
  lemma FitOutputArrivesWhole(v: Json, maxChars: Arg, maxItems: Arg, maxDepth: Arg, session: int)
    requires NormalizeLimits(maxChars, maxItems, maxDepth, session).Ok? && BmpJson(v)
    ensures ArrivesWhole(v, maxChars, maxItems, maxDepth, session) <==> session >= LAST_RESORT_CHARS
  {
    hide Dumps, Fitted, Units, StringifyOutput, ShownOutput, BmpJson;
    LimitsClamped(maxChars, maxItems, maxDepth, session);
    FittedPassesUncut(v, NormalizeLimits(maxChars, maxItems, maxDepth, session).value, session);
  }

  /** The promise that fitted output is never cut, for every session that can hold the last
      resort and for all arguments, is kept for exactly the values within the BMP. */
  lemma NeverCutExactlyForBmp(v: Json)
    ensures BmpJson(v)
      <==> forall maxChars: Arg, maxItems: Arg, maxDepth: Arg, session: int :: (
             session >= LAST_RESORT_CHARS && NormalizeLimits(maxChars, maxItems, maxDepth, session).Ok?
             ==> ArrivesWhole(v, maxChars, maxItems, maxDepth, session))
  {
    hide BmpJson, NormalizeLimits, ArrivesWhole;
    if BmpJson(v) {
      forall maxChars: Arg, maxItems: Arg, maxDepth: Arg, session: int
        | session >= LAST_RESORT_CHARS && NormalizeLimits(maxChars, maxItems, maxDepth, session).Ok?
        ensures ArrivesWhole(v, maxChars, maxItems, maxDepth, session)
      {
        FitOutputArrivesWhole(v, maxChars, maxItems, maxDepth, session);
      }
    } else {
      var session, limit := AstralIsCut(v);
    }
  }

  // --- a session that just holds a value, in Python's count ---

  lemma {:induction false} SizeGrows(v: Json, level: nat)
    ensures Size(v, level) <= Size(v, level + 1)
    decreases v, 1
  {
    hide BracketSize, IntText, Escape, ItemsSize, FieldsSize;
    match v
    case Arr(items) =>
      ItemsGrow(items, level + 1);
      BracketGrows(level, |items|, ItemsSize(items, level + 1), ItemsSize(items, level + 2));
    case Obj(fields) =>
      FieldsGrow(fields, level + 1);
      BracketGrows(level, |fields|, FieldsSize(fields, level + 1), FieldsSize(fields, level + 2));
    case _ =>
  }

  lemma BracketGrows(level: nat, children: nat, total: nat, more: nat)
    requires total <= more
    ensures BracketSize(level, children, total) <= BracketSize(level + 1, children, more)
  {
    assert children * (2 * level + 4) <= children * (2 * (level + 1) + 4);
  }

  lemma {:induction false} ItemsGrow(items: seq<Json>, level: nat)
    ensures ItemsSize(items, level) <= ItemsSize(items, level + 1)
    decreases items, 0
  {
    if items != [] {
      SizeGrows(items[0], level);
      ItemsGrow(items[1..], level);
    }
  }

  lemma {:induction false} FieldsGrow(fields: seq<Field>, level: nat)
    ensures FieldsSize(fields, level) <= FieldsSize(fields, level + 1)
    decreases fields, 0
  {
    if fields != [] {
      SizeGrows(fields[0].value, level);
      FieldsGrow(fields[1..], level);
    }
  }

  lemma {:induction false} ItemSize(items: seq<Json>, i: nat, level: nat)
    requires i < |items|
    ensures Size(items[i], level) <= ItemsSize(items, level)
  {
    hide Size;
    if i > 0 { ItemSize(items[1..], i - 1, level); }
  }

  lemma MemberSize(fields: seq<Field>, i: nat, level: nat)
    requires i < |fields|
    ensures Size(fields[i].value, level) <= FieldsSize(fields, level)
  {
    hide Size;
    FieldsSizeAt(fields, i, level);
  }

  /** A container prints longer than its children are many, and longer than each of them. */
  lemma KidSize(v: Json, i: nat, level: nat)
    requires v.IsContainer() && i < |Kids(v)|
    ensures Size(Kids(v)[i], level + 1) < Size(v, level) && |Kids(v)| < Size(v, level)
  {
    hide BracketSize, ItemsSize, FieldsSize;
    match v
    case Arr(items) =>
      ItemSize(items, i, level + 1);
      BracketHolds(level, |items|, ItemsSize(items, level + 1));
    case Obj(fields) =>
      MemberSize(fields, i, level + 1);
      BracketHolds(level, |fields|, FieldsSize(fields, level + 1));
  }

  lemma BracketHolds(level: nat, children: nat, total: nat)
    requires children > 0
    ensures BracketSize(level, children, total) > total && BracketSize(level, children, total) > children
  {
    assert children * (2 * level + 4) >= children * 1;
  }

  /** A value is within all limits that are at least its printed size. */
  lemma {:induction false} WithinItsSize(v: Json, level: nat, lim: Limits)
    requires Size(v, level) <= lim.maxChars && Size(v, level) <= lim.maxItems && Size(v, level) <= lim.maxDepth
    ensures Within(v, lim)
    decreases v
  {
    if v.IsContainer() {
      assert Size(v, level) >= 2;
      forall i | 0 <= i < |Kids(v)| ensures Within(Kids(v)[i], lim.Inner()) && |Kids(v)| <= lim.maxItems {
        KidSize(v, i, level);
        KidBelow(v, i);
        WithinItsSize(Kids(v)[i], level + 1, lim.Inner());
      }
    }
  }

  lemma KidBelow(v: Json, i: nat)
    requires v.IsContainer() && i < |Kids(v)|
    ensures Kids(v)[i] < v
  {
    if v.Obj? { assert v.fields[i] < v; }
  }

  /** The result for a value that is within all limits, and within the budget. */
  function WholeResult(v: Json, maxChars: nat): FitResult {
    var n := Size(v, 0);
    Full(DescribeKind(v), v, false, Limits(maxChars, n, n), FitStats(n, n, 0, 0, false, false))
  }

  lemma LargeLimits(v: Json, maxChars: nat)
    requires maxChars >= Size(v, 0) >= 1
    ensures InitialResult(v, Limits(maxChars, Size(v, 0), Size(v, 0))) == WholeResult(v, maxChars)
  {
    hide Size, Dumps, Preview, Within;
    var lim := Limits(maxChars, Size(v, 0), Size(v, 0));
    WithinItsSize(v, 0, lim);
    Faithful(v, lim);
    DumpsLength(v, 0);
  }

  /** The limit shows in the printout only by its own digits. */
  lemma WholeSize(v: Json, maxChars: nat)
    ensures Measure(WholeResult(v, maxChars)) == Measure(WholeResult(v, 0)) + DigitCount(maxChars) - 1
    ensures Measure(WholeResult(v, maxChars)) >= Size(v, 0)
  {
    hide Size, Dumps, FieldsSize, FieldSize, StatsJson, DigitCount;
    var n := Size(v, 0);
    var a, b := ToJson(WholeResult(v, 0)).fields, ToJson(WholeResult(v, maxChars)).fields;
    var la, lb := LimitsJson(Limits(0, n, n)).fields, LimitsJson(Limits(maxChars, n, n)).fields;
    DumpsLength(Obj(a), 0);
    DumpsLength(Obj(b), 0);
    ReplaceMember(la, lb, 0, 1);
    ReplaceMember(a, b, 4, 0);
    NumberSize(0, 2);
    NumberSize(maxChars, 2);
    SizeGrows(v, 0);
    MemberSize(b, 2, 1);
    ObjectSize(b);
  }

  lemma NumberSize(n: nat, level: nat)
    ensures Size(Int(n), level) == DigitCount(n) && DigitCount(0) == 1
  {
  }

  lemma ObjectSize(fields: seq<Field>)
    ensures FieldsSize(fields, 1) <= Size(Obj(fields), 0) || fields == []
  {
  }

  lemma {:induction false} FewDigits(n: nat)
    ensures DigitCount(n) <= 1 + n / 10
  {
    if n >= 10 { FewDigits(n / 10); }
  }

  /** Some limit is what a base and its own digits add up to. */
  lemma SelfMeasuring(base: nat) returns (limit: nat)
    ensures limit == base + DigitCount(limit)
  {
    hide DigitCount;
    var top := 2 * base + 10;
    FewDigits(top);
    limit := base + 1;
    while limit != base + DigitCount(limit)
      invariant limit <= base + DigitCount(limit) && limit <= top
      decreases top - limit
    {
      DigitCountMonotone(limit, limit + 1);
      limit := limit + 1;
    }
  }

  /** A value with a character outside the BMP: there is a session that holds all of it in
      Python's count, so that Python returns it unreduced, and that cuts it in JavaScript's. */
  lemma AstralIsCut(v: Json) returns (session: int, limit: int)
    requires !BmpJson(v)
    ensures session > LAST_RESORT_CHARS && limit >= 1
    ensures NormalizeLimits(NoneArg, IntArg(limit), IntArg(limit), session).Ok?
    ensures var r := Fitted(v, NormalizeLimits(NoneArg, IntArg(limit), IntArg(limit), session).value);
      r.Full? && r.preview == v && !r.truncated && Measure(r) == session
    ensures !ArrivesWhole(v, NoneArg, IntArg(limit), IntArg(limit), session)
  {
    hide Dumps, Units, BmpJson, AllBmp, Size, Measure, InitialResult, DigitCount, LimitsJson, StatsJson;
    limit := Size(v, 0);
    SizePositive(v);
    WholeSize(v, 0);
    session := SelfMeasuring(Measure(WholeResult(v, 0)) - 1);
    WholeSize(v, session);
    LargeLimits(v, session);
    var r := WholeResult(v, session);
    OthersAreLonger(r);
    assert Fitted(v, Limits(session, limit, limit)) == r;
    WholeResultBmp(v, session);
    CutAsAstral(r, session);
  }

  lemma SizePositive(v: Json)
    requires !BmpJson(v)
    ensures Size(v, 0) >= 1
  {
    DumpsLength(v, 0);
    DumpsBmp(Indented, v, 0);
    hide Dumps, Size, BmpJson;
  }

  lemma WholeResultBmp(v: Json, maxChars: nat)
    ensures BmpJson(ToJson(WholeResult(v, maxChars))) ==> BmpJson(v)
  {
    hide Size, AllBmp;
    var fields := ToJson(WholeResult(v, maxChars)).fields;
    assert fields[2].value == v;
  }

  lemma CutAsAstral(r: FitResult, session: int)
    requires !BmpJson(ToJson(r)) && session == Measure(r) >= 1
    ensures ShownOutput(ToJson(r), session) != Units(StringifyOutput(ToJson(r)))
  {
    hide Dumps, Units, BmpJson, AllBmp;
    var text := Dumps(Indented, ToJson(r), 0);
    DumpsBmp(Indented, ToJson(r), 0);
    UnitsLength(text);
    Truncation.ExactLength(Units(text), session);
  }

  /** Such a value: a string of one emoji. */
  lemma AstralExample() returns (session: int, limit: int)
    ensures session > LAST_RESORT_CHARS && NormalizeLimits(NoneArg, IntArg(limit), IntArg(limit), session).Ok?
    ensures !ArrivesWhole(Str([0x1_F600 as char]), NoneArg, IntArg(limit), IntArg(limit), session)
  {
    hide ArrivesWhole, NormalizeLimits;
    var s := [0x1_F600 as char];
    assert !IsBmp(s[0]);
    session, limit := AstralIsCut(Str(s));
  }
}
