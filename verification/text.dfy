/** Strings as the two runtimes see them: Python counts code points, JavaScript
    counts UTF-16 code units, and each has its own idea of white space. */
module Text {

  // --- looking for a character, and joining ---

  predicate Lacks(c: char, s: string) {
    forall i :: 0 <= i < |s| ==> s[i] != c
  }

  /** The index of the first occurrence, or the length. */
  function IndexOf(c: char, s: string): (i: nat)
    ensures i <= |s| && Lacks(c, s[..i])
    ensures i < |s| ==> s[i] == c
  {
    if s == [] || s[0] == c then 0 else 1 + IndexOf(c, s[1..])
  }

  lemma {:induction false} IndexOfAt(c: char, s: string, i: nat)
    requires i <= |s| && Lacks(c, s[..i]) && (i < |s| ==> s[i] == c)
    ensures IndexOf(c, s) == i
  {
    if i > 0 {
      assert s[0] == s[..i][0];
      assert s[1..][..i - 1] == s[..i][1..];
      IndexOfAt(c, s[1..], i - 1);
    }
  }

  function Join(parts: seq<string>, separator: string): string {
    if parts == [] then ""
    else if |parts| == 1 then parts[0]
    else parts[0] + separator + Join(parts[1..], separator)
  }

  lemma Associative<T>(a: seq<T>, b: seq<T>, c: seq<T>)
    ensures a + (b + c) == (a + b) + c
  {
  }

  // --- code units ---

  type CodeUnit = n: int | 0 <= n < 0x1_0000

  predicate IsBmp(c: char) {
    c as int < 0x1_0000
  }

  predicate AllBmp(s: string) {
    forall i :: 0 <= i < |s| ==> IsBmp(s[i])
  }

  /** The code units of one code point: itself, or a surrogate pair. */
  function UnitsOf(c: char): (u: seq<CodeUnit>)
    ensures |u| == if IsBmp(c) then 1 else 2
  {
    var code := c as int;
    if code < 0x1_0000 then [code]
    else [0xD800 + (code - 0x1_0000) / 0x400, 0xDC00 + (code - 0x1_0000) % 0x400]
  }

  /** The JavaScript string that a Python string becomes on the bridge. */
  function Units(s: string): seq<CodeUnit> {
    if s == [] then [] else UnitsOf(s[0]) + Units(s[1..])
  }

  function AstralCount(s: string): nat {
    if s == [] then 0 else (if IsBmp(s[0]) then 0 else 1) + AstralCount(s[1..])
  }

  /** JavaScript's length exceeds Python's by one for each code point outside the BMP. */
  lemma {:induction false} UnitsLength(s: string)
    ensures |Units(s)| == |s| + AstralCount(s)
    ensures AllBmp(s) <==> AstralCount(s) == 0
  {
    if s != [] {
      UnitsLength(s[1..]);
      assert AllBmp(s) <==> IsBmp(s[0]) && AllBmp(s[1..]);
    }
  }

  lemma {:induction false} UnitsConcat(a: string, b: string)
    ensures Units(a + b) == Units(a) + Units(b)
  {
    if a == [] {
      assert a + b == b;
    } else {
      assert (a + b)[1..] == a[1..] + b;
      UnitsConcat(a[1..], b);
    }
  }

  /** White space and line terminators of ECMAScript: what String.prototype.trim
      removes and what \s matches. */
  /** The code points that UTF-16 code units stand for; a lone surrogate stands for none. */
  function CodePoints(u: seq<CodeUnit>): (s: Points)
  {
    if u == [] then Decoded("")
    else if !(0xD800 <= u[0] < 0xE000) then CodePoints(u[1..]).Prepend(u[0] as char)
    else if u[0] < 0xDC00 && |u| >= 2 && 0xDC00 <= u[1] < 0xE000 then
      var high: int, low: int := u[0], u[1];
      CodePoints(u[2..]).Prepend((0x1_0000 + (high - 0xD800) * 0x400 + (low - 0xDC00)) as char)
    else IllFormed
  }

  datatype Points = Decoded(s: string) | IllFormed {
    function Prepend(c: char): Points {
      match this
      case Decoded(s) => Decoded([c] + s)
      case IllFormed => IllFormed
    }
  }

  /** No text is lost on the way to JavaScript: its code units decode to it. */
  lemma {:induction false} UnitsDecode(s: string)
    ensures CodePoints(Units(s)) == Decoded(s)
  {
    if s != [] {
      UnitsDecode(s[1..]);
      var first, rest := UnitsOf(s[0]), Units(s[1..]);
      assert (first + rest)[|first|..] == rest;
      assert s == [s[0]] + s[1..];
    }
  }

  predicate IsJsSpace(c: char) {
    var n := c as int;
    || 0x09 <= n <= 0x0D || n == 0x20 || n == 0xA0 || n == 0x1680
    || 0x2000 <= n <= 0x200A || n == 0x2028 || n == 0x2029 || n == 0x202F
    || n == 0x205F || n == 0x3000 || n == 0xFEFF
  }

  /** What Python's str.strip() removes. */
  predicate IsPySpace(c: char) {
    var n := c as int;
    || 0x09 <= n <= 0x0D || 0x1C <= n <= 0x20 || n == 0x85 || n == 0xA0 || n == 0x1680
    || 0x2000 <= n <= 0x200A || n == 0x2028 || n == 0x2029 || n == 0x202F
    || n == 0x205F || n == 0x3000
  }

  /** Where the two ideas of white space part. */
  lemma SpacesDiffer(c: char)
    ensures IsJsSpace(c) && !IsPySpace(c) <==> c as int == 0xFEFF
    ensures IsPySpace(c) && !IsJsSpace(c) <==> 0x1C <= c as int <= 0x1F || c as int == 0x85
  {
  }

  function DropLeft(space: char -> bool, s: string): (r: string)
    ensures r == [] || !space(r[0])
    ensures |r| <= |s| && r == s[|s| - |r|..]
    ensures forall i :: 0 <= i < |s| - |r| ==> space(s[i])
  {
    if s != [] && space(s[0]) then DropLeft(space, s[1..]) else s
  }

  function DropRight(space: char -> bool, s: string): (r: string)
    ensures r == [] || !space(r[|r| - 1])
    ensures |r| <= |s| && r == s[..|r|]
    ensures forall i :: |r| <= i < |s| ==> space(s[i])
  {
    if s != [] && space(s[|s| - 1]) then DropRight(space, s[..|s| - 1]) else s
  }

  /** trim() of JavaScript or strip() of Python. */
  function Trim(space: char -> bool, s: string): (r: string)
    ensures Clean(space, r)
    ensures |r| <= |s|
  {
    DropRight(space, DropLeft(space, s))
  }

  /** No white space at either end. */
  predicate Clean(space: char -> bool, s: string) {
    s != [] ==> !space(s[0]) && !space(s[|s| - 1])
  }

  lemma TrimClean(space: char -> bool, s: string)
    requires Clean(space, s)
    ensures Trim(space, s) == s
  {
  }

  lemma {:induction false} DropLeftRun(space: char -> bool, left: string, rest: string)
    requires forall i :: 0 <= i < |left| ==> space(left[i])
    requires rest == [] || !space(rest[0])
    ensures DropLeft(space, left + rest) == rest
  {
    if left == [] {
      assert left + rest == rest;
    } else {
      assert (left + rest)[1..] == left[1..] + rest;
      DropLeftRun(space, left[1..], rest);
    }
  }

  lemma {:induction false} DropRightRun(space: char -> bool, rest: string, right: string)
    requires forall i :: 0 <= i < |right| ==> space(right[i])
    requires rest == [] || !space(rest[|rest| - 1])
    ensures DropRight(space, rest + right) == rest
  {
    if right == [] {
      assert rest + right == rest;
    } else {
      var s := rest + right;
      assert s[|s| - 1] == right[|right| - 1];
      assert s[..|s| - 1] == rest + right[..|right| - 1];
      DropRightRun(space, rest, right[..|right| - 1]);
    }
  }

  /** Cutting white space off both ends down to a clean core is what Trim does. */
  lemma TrimUnique(space: char -> bool, left: string, core: string, right: string)
    requires forall i :: 0 <= i < |left| ==> space(left[i])
    requires forall i :: 0 <= i < |right| ==> space(right[i])
    requires Clean(space, core)
    ensures Trim(space, left + core + right) == core
  {
    assert left + core + right == left + (core + right);
    if core == [] {
      assert left + (core + right) == (left + right) + [];
      DropLeftRun(space, left + right, []);
    } else {
      DropLeftRun(space, left, core + right);
      DropRightRun(space, core, right);
    }
  }

  function LeftRun(space: char -> bool, s: string): string {
    s[..|s| - |DropLeft(space, s)|]
  }

  function RightRun(space: char -> bool, s: string): string {
    var a := DropLeft(space, s);
    a[|DropRight(space, a)|..]
  }

  /** A string is its trimmed core between two runs of white space. */
  lemma TrimSplit(space: char -> bool, s: string)
    ensures s == LeftRun(space, s) + Trim(space, s) + RightRun(space, s)
    ensures forall i :: 0 <= i < |LeftRun(space, s)| ==> space(LeftRun(space, s)[i])
    ensures forall i :: 0 <= i < |RightRun(space, s)| ==> space(RightRun(space, s)[i])
  {
    hide DropLeft, DropRight;
    var a := DropLeft(space, s);
    var r := DropRight(space, a);
    assert a == r + a[|r|..];
    assert s == s[..|s| - |a|] + a;
    assert forall i :: 0 <= i < |RightRun(space, s)| ==> RightRun(space, s)[i] == a[|r| + i];
  }
}
