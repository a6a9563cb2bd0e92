/** JSON values and Python's json.dumps(..., ensure_ascii=False, sort_keys=True), in the
    indented style that measures and prints outputs and in the compact style. */
module JsonText {
  import opened Numerals
  import opened Text

  /** A value that has been through json.loads: object members in insertion order,
      floats by their repr. */
  datatype Json =
    | Null
    | Bool(b: bool)
    | Int(n: int)
    | Float(repr: string)
    | Str(s: string)
    | Arr(items: seq<Json>)
    | Obj(fields: seq<Field>)
  {
    predicate IsContainer() {
      Arr? || Obj?
    }
  }

  datatype Field = Field(key: string, value: Json)

  function Values(fields: seq<Field>): (vs: seq<Json>)
    ensures |vs| == |fields|
  {
    seq(|fields|, i requires 0 <= i < |fields| => fields[i].value)
  }

  /** The children of a container: list items, or the values of a dict. */
  function Kids(v: Json): seq<Json> {
    match v
    case Arr(items) => items
    case Obj(fields) => Values(fields)
    case _ => []
  }

  /** A container of the same kind and with the same leading keys, holding other children. */
  function WithKids(v: Json, kids: seq<Json>): Json
    requires v.IsContainer() && |kids| <= |Kids(v)|
  {
    match v
    case Arr(_) => Arr(kids)
    case Obj(fields) => Obj(seq(|kids|, i requires 0 <= i < |kids| => Field(fields[i].key, kids[i])))
  }

  lemma KidsOfRebuilt(v: Json, kids: seq<Json>)
    requires v.IsContainer() && |kids| <= |Kids(v)|
    ensures Kids(WithKids(v, kids)) == kids
    ensures WithKids(v, kids).Arr? == v.Arr?
  {
  }

  /** Rebuilding gives the same container back exactly when the children are the same. */
  lemma RebuiltSame(v: Json, kids: seq<Json>)
    requires v.IsContainer() && |kids| == |Kids(v)|
    ensures WithKids(v, kids) == v <==> kids == Kids(v)
  {
    if kids == Kids(v) && v.Obj? {
      assert WithKids(v, kids).fields == v.fields;
    }
  }

  /** A member whose key and value are printed already. */
  datatype Member = Member(key: string, text: string)

  /** Indented: indent=2. Compact: separators=(",", ":"). */
  datatype Style = Indented | Compact

  // --- string escaping, section 7 of RFC 8259 as Python does it with ensure_ascii=False ---

  function HexChar(d: nat): char
    requires d < 16
  {
    if d < 10 then '0' + d as char else 'a' + (d - 10) as char
  }

  function EscapeChar(c: char): (e: string)
    ensures 1 <= |e| <= 6
  {
    var n := c as int;
    if c == '"' then "\\\""
    else if c == '\\' then "\\\\"
    else if n == 0x0A then "\\n"
    else if n == 0x0D then "\\r"
    else if n == 0x09 then "\\t"
    else if n == 0x0C then "\\f"
    else if n == 0x08 then "\\b"
    else if n < 0x20 then "\\u00" + [HexChar(n / 16), HexChar(n % 16)]
    else [c]
  }

  function Escape(s: string): (e: string)
    ensures |e| >= |s|
  {
    if s == [] then [] else EscapeChar(s[0]) + Escape(s[1..])
  }

  /** Escaping works character by character, so printed lengths add up. */
  lemma {:induction false} EscapeConcat(a: string, b: string)
    ensures Escape(a + b) == Escape(a) + Escape(b)
  {
    if a == [] {
      assert a + b == b;
    } else {
      assert (a + b)[1..] == a[1..] + b;
      EscapeConcat(a[1..], b);
    }
  }

  function Quote(s: string): string {
    "\"" + Escape(s) + "\""
  }

  // --- printing ---

  function IntText(n: int): string {
    if n < 0 then "-" + Decimal(-n) else Decimal(n)
  }

  function Spaces(k: nat): (s: string)
    ensures |s| == k
  {
    seq(k, _ => ' ')
  }

  /** The line break before a child at the given nesting level. */
  function Break(style: Style, level: nat): string {
    if style.Compact? then "" else "\n" + Spaces(2 * level)
  }

  function Colon(style: Style): string {
    if style.Compact? then ":" else ": "
  }

  /** Code-point order on keys. */
  predicate KeyLess(a: string, b: string) {
    if b == [] then false
    else if a == [] then true
    else if a[0] != b[0] then a[0] < b[0]
    else KeyLess(a[1..], b[1..])
  }

  function InsertByKey(m: Member, sorted: seq<Member>): seq<Member> {
    if sorted == [] || !KeyLess(sorted[0].key, m.key) then [m] + sorted
    else [sorted[0]] + InsertByKey(m, sorted[1..])
  }

  function SortByKey(members: seq<Member>): seq<Member> {
    if members == [] then [] else InsertByKey(members[0], SortByKey(members[1..]))
  }

  function MemberTexts(style: Style, members: seq<Member>): (texts: seq<string>)
    ensures |texts| == |members|
  {
    seq(|members|, i requires 0 <= i < |members| =>
      Quote(members[i].key) + Colon(style) + members[i].text)
  }

  function Bracket(style: Style, level: nat, open: string, parts: seq<string>, close: string): string {
    if parts == [] then open + close
    else open + Break(style, level + 1) + Join(parts, "," + Break(style, level + 1))
         + Break(style, level) + close
  }

  function Dumps(style: Style, v: Json, level: nat): string
    decreases v, 1
  {
    match v
    case Null => "null"
    case Bool(b) => if b then "true" else "false"
    case Int(n) => IntText(n)
    case Float(repr) => repr
    case Str(s) => Quote(s)
    case Arr(items) => Bracket(style, level, "[", DumpItems(style, items, level + 1), "]")
    case Obj(fields) =>
      Bracket(style, level, "{", MemberTexts(style, SortByKey(DumpMembers(style, fields, level + 1))), "}")
  }

  function DumpItems(style: Style, items: seq<Json>, level: nat): (texts: seq<string>)
    ensures |texts| == |items|
    decreases items, 0
  {
    if items == [] then [] else [Dumps(style, items[0], level)] + DumpItems(style, items[1..], level)
  }

  function DumpMembers(style: Style, fields: seq<Field>, level: nat): (members: seq<Member>)
    ensures |members| == |fields|
    decreases fields, 0
  {
    if fields == [] then []
    else [Member(fields[0].key, Dumps(style, fields[0].value, level))] + DumpMembers(style, fields[1..], level)
  }

  lemma {:induction false} DumpItemsAt(style: Style, items: seq<Json>, level: nat, i: nat)
    requires i < |items|
    ensures DumpItems(style, items, level)[i] == Dumps(style, items[i], level)
  {
    hide Dumps;
    if i > 0 { DumpItemsAt(style, items[1..], level, i - 1); }
  }

  lemma {:induction false} DumpMembersAt(style: Style, fields: seq<Field>, level: nat, i: nat)
    requires i < |fields|
    ensures DumpMembers(style, fields, level)[i] == Member(fields[i].key, Dumps(style, fields[i].value, level))
  {
    hide Dumps;
    if i > 0 { DumpMembersAt(style, fields[1..], level, i - 1); }
  }

  // --- the printed length, computed without printing and without sorting ---

  function BracketSize(level: nat, children: nat, total: nat): nat {
    if children == 0 then 2 else total + children * (2 * level + 4) + 2 * level + 2
  }

  function Size(v: Json, level: nat): nat
    decreases v, 1
  {
    match v
    case Null => 4
    case Bool(b) => if b then 4 else 5
    case Int(n) => |IntText(n)|
    case Float(repr) => |repr|
    case Str(s) => |Escape(s)| + 2
    case Arr(items) => BracketSize(level, |items|, ItemsSize(items, level + 1))
    case Obj(fields) => BracketSize(level, |fields|, FieldsSize(fields, level + 1))
  }

  function ItemsSize(items: seq<Json>, level: nat): nat
    decreases items, 0
  {
    if items == [] then 0 else Size(items[0], level) + ItemsSize(items[1..], level)
  }

  function FieldSize(f: Field, level: nat): nat
    decreases f, 0
  {
    |Escape(f.key)| + 4 + Size(f.value, level)
  }

  function FieldsSize(fields: seq<Field>, level: nat): nat
    decreases fields, 0
  {
    if fields == [] then 0 else FieldSize(fields[0], level) + FieldsSize(fields[1..], level)
  }

  function TotalLength(parts: seq<string>): nat {
    if parts == [] then 0 else |parts[0]| + TotalLength(parts[1..])
  }

  lemma {:induction false} JoinLength(parts: seq<string>, separator: string)
    requires parts != []
    ensures |Join(parts, separator)| == TotalLength(parts) + (|parts| - 1) * |separator|
  {
    if |parts| > 1 {
      JoinLength(parts[1..], separator);
    } else {
      assert TotalLength(parts[1..]) == 0;
    }
  }

  lemma BracketLength(level: nat, open: string, parts: seq<string>, close: string)
    requires |open| == |close| == 1
    ensures |Bracket(Indented, level, open, parts, close)| == BracketSize(level, |parts|, TotalLength(parts))
  {
    if parts != [] {
      var gap := "," + Break(Indented, level + 1);
      assert |gap| == 2 * level + 4;
      JoinLength(parts, gap);
      assert (|parts| - 1) * |gap| == |parts| * (2 * level + 4) - (2 * level + 4);
    }
  }

  function MembersLength(members: seq<Member>): nat {
    if members == [] then 0
    else |Escape(members[0].key)| + 4 + |members[0].text| + MembersLength(members[1..])
  }

  lemma {:induction false} InsertLength(m: Member, sorted: seq<Member>)
    ensures |InsertByKey(m, sorted)| == |sorted| + 1
    ensures MembersLength(InsertByKey(m, sorted)) == |Escape(m.key)| + 4 + |m.text| + MembersLength(sorted)
  {
    var r := InsertByKey(m, sorted);
    if sorted == [] || !KeyLess(sorted[0].key, m.key) {
      assert r[1..] == sorted;
    } else {
      InsertLength(m, sorted[1..]);
      assert r[1..] == InsertByKey(m, sorted[1..]);
    }
  }

  /** Sorting the members of an object does not change how long it prints. */
  lemma {:induction false} SortLength(members: seq<Member>)
    ensures |SortByKey(members)| == |members|
    ensures MembersLength(SortByKey(members)) == MembersLength(members)
  {
    if members != [] {
      SortLength(members[1..]);
      InsertLength(members[0], SortByKey(members[1..]));
    }
  }

  lemma {:induction false} MemberTextsLength(members: seq<Member>)
    ensures TotalLength(MemberTexts(Indented, members)) == MembersLength(members)
  {
    if members != [] {
      MemberTextsLength(members[1..]);
      assert MemberTexts(Indented, members)[1..] == MemberTexts(Indented, members[1..]);
    }
  }

  /** The size function is the length of the indented printout, for every value. */
  lemma {:induction false} DumpsLength(v: Json, level: nat)
    ensures |Dumps(Indented, v, level)| == Size(v, level)
    decreases v, 1
  {
    match v
    case Null =>
    case Bool(_) =>
    case Int(_) =>
    case Float(_) =>
    case Str(_) =>
    case Arr(items) =>
      DumpItemsLength(items, level + 1);
      BracketLength(level, "[", DumpItems(Indented, items, level + 1), "]");
    case Obj(fields) =>
      var members := DumpMembers(Indented, fields, level + 1);
      DumpMembersLength(fields, level + 1);
      SortLength(members);
      MemberTextsLength(SortByKey(members));
      BracketLength(level, "{", MemberTexts(Indented, SortByKey(members)), "}");
  }

  lemma {:induction false} DumpItemsLength(items: seq<Json>, level: nat)
    ensures TotalLength(DumpItems(Indented, items, level)) == ItemsSize(items, level)
    decreases items, 0
  {
    if items != [] {
      DumpsLength(items[0], level);
      DumpItemsLength(items[1..], level);
      assert DumpItems(Indented, items, level)[1..] == DumpItems(Indented, items[1..], level);
    }
  }

  lemma {:induction false} DumpMembersLength(fields: seq<Field>, level: nat)
    ensures MembersLength(DumpMembers(Indented, fields, level)) == FieldsSize(fields, level)
    decreases fields, 0
  {
    if fields != [] {
      DumpsLength(fields[0].value, level);
      DumpMembersLength(fields[1..], level);
      assert DumpMembers(Indented, fields, level)[1..] == DumpMembers(Indented, fields[1..], level);
    }
  }

  lemma {:induction false} FieldsSizeConcat(a: seq<Field>, b: seq<Field>, level: nat)
    ensures FieldsSize(a + b, level) == FieldsSize(a, level) + FieldsSize(b, level)
  {
    if a == [] {
      assert a + b == b;
    } else {
      assert (a + b)[1..] == a[1..] + b;
      FieldsSizeConcat(a[1..], b, level);
    }
  }

  // --- the compact style: not a character that could be spared ---

  /** Brackets, and a comma between two children. */
  function CompactBracket(children: nat, total: nat): nat {
    if children == 0 then 2 else total + children + 1
  }

  function CompactSize(v: Json): nat
    decreases v, 1
  {
    match v
    case Null => 4
    case Bool(b) => if b then 4 else 5
    case Int(n) => |IntText(n)|
    case Float(repr) => |repr|
    case Str(s) => |Escape(s)| + 2
    case Arr(items) => CompactBracket(|items|, CompactItems(items))
    case Obj(fields) => CompactBracket(|fields|, CompactFields(fields))
  }

  function CompactItems(items: seq<Json>): nat
    decreases items, 0
  {
    if items == [] then 0 else CompactSize(items[0]) + CompactItems(items[1..])
  }

  /** Each member: the quoted key, a colon, the value. */
  function CompactFields(fields: seq<Field>): nat
    decreases fields, 0
  {
    if fields == [] then 0 else |Escape(fields[0].key)| + 3 + CompactSize(fields[0].value) + CompactFields(fields[1..])
  }

  lemma CompactBracketLength(level: nat, open: string, parts: seq<string>, close: string)
    requires |open| == |close| == 1
    ensures |Bracket(Compact, level, open, parts, close)| == CompactBracket(|parts|, TotalLength(parts))
  {
    if parts != [] { JoinLength(parts, "," + Break(Compact, level + 1)); }
  }

  lemma {:induction false} CompactMemberTexts(members: seq<Member>)
    ensures TotalLength(MemberTexts(Compact, members)) + |members| == MembersLength(members)
  {
    if members != [] {
      CompactMemberTexts(members[1..]);
      assert MemberTexts(Compact, members)[1..] == MemberTexts(Compact, members[1..]);
    }
  }

  /** The compact print has the size of its tokens: no white space, one comma between children. */
  lemma {:induction false} CompactLength(v: Json, level: nat)
    ensures |Dumps(Compact, v, level)| == CompactSize(v)
    decreases v, 1
  {
    hide Bracket;
    match v
    case Arr(items) =>
      CompactItemsLength(items, level + 1);
      CompactBracketLength(level, "[", DumpItems(Compact, items, level + 1), "]");
    case Obj(fields) =>
      var members := DumpMembers(Compact, fields, level + 1);
      CompactMembersLength(fields, level + 1);
      SortLength(members);
      CompactMemberTexts(SortByKey(members));
      CompactBracketLength(level, "{", MemberTexts(Compact, SortByKey(members)), "}");
    case _ =>
  }

  lemma {:induction false} CompactItemsLength(items: seq<Json>, level: nat)
    ensures TotalLength(DumpItems(Compact, items, level)) == CompactItems(items)
    decreases items, 0
  {
    hide Dumps;
    if items != [] {
      CompactLength(items[0], level);
      CompactItemsLength(items[1..], level);
      assert DumpItems(Compact, items, level)[1..] == DumpItems(Compact, items[1..], level);
    }
  }

  lemma {:induction false} CompactMembersLength(fields: seq<Field>, level: nat)
    ensures MembersLength(DumpMembers(Compact, fields, level)) == CompactFields(fields) + |fields|
    decreases fields, 0
  {
    hide Dumps;
    if fields != [] {
      CompactLength(fields[0].value, level);
      CompactMembersLength(fields[1..], level);
      assert DumpMembers(Compact, fields, level)[1..] == DumpMembers(Compact, fields[1..], level);
    }
  }
}
