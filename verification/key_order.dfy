/** sort_keys=True: what is printed for an object does not depend on the order of insertion. */
module KeyOrder {
  import opened JsonText

  lemma {:induction false} KeyTotal(a: string, b: string)
    ensures !(KeyLess(a, b) && KeyLess(b, a))
    ensures KeyLess(a, b) || KeyLess(b, a) <==> a != b
  {
    if a != [] && b != [] {
      KeyTotal(a[1..], b[1..]);
      assert a == [a[0]] + a[1..] && b == [b[0]] + b[1..];
    }
  }

  /** The order is by code points: a key comes first if it is a proper start of the other, or has
      the smaller character where they first differ. */
  lemma {:induction false} KeyOrderMeans(a: string, b: string)
    ensures KeyLess(a, b)
      <==> exists i: nat :: i <= |a| && i < |b| && a[..i] == b[..i] && (i < |a| ==> a[i] < b[i])
  {
    if a == [] || b == [] || a[0] != b[0] {
      if KeyLess(a, b) {
        var i: nat := 0;
        assert i <= |a| && i < |b| && a[..i] == b[..i] && (i < |a| ==> a[i] < b[i]);
      }
      SharedStart(a, b);
    } else {
      KeyOrderMeans(a[1..], b[1..]);
      if KeyLess(a, b) {
        var i: nat :| i <= |a[1..]| && i < |b[1..]| && a[1..][..i] == b[1..][..i] && (i < |a[1..]| ==> a[1..][i] < b[1..][i]);
        assert a[..i + 1] == [a[0]] + a[1..][..i] && b[..i + 1] == [b[0]] + b[1..][..i];
      }
      if i: nat :| i <= |a| && i < |b| && a[..i] == b[..i] && (i < |a| ==> a[i] < b[i]) {
        assert i > 0;
        assert a[1..][..i - 1] == a[..i][1..] && b[1..][..i - 1] == b[..i][1..];
      }
    }
  }

  lemma SharedStart(a: string, b: string)
    ensures forall i :: 0 < i <= |a| && i <= |b| && a[..i] == b[..i] ==> a[0] == b[0]
  {
    forall i | 0 < i <= |a| && i <= |b| && a[..i] == b[..i] ensures a[0] == b[0] {
      assert a[..i][0] == a[0] && b[..i][0] == b[0];
    }
  }

  lemma {:induction false} KeyTransitive(a: string, b: string, c: string)
    requires KeyLess(a, b) && KeyLess(b, c)
    ensures KeyLess(a, c)
  {
    if a != [] && a[0] == b[0] == c[0] {
      KeyTransitive(a[1..], b[1..], c[1..]);
    }
  }

  predicate Increasing(members: seq<Member>) {
    forall i, j :: 0 <= i < j < |members| ==> KeyLess(members[i].key, members[j].key)
  }

  predicate DistinctKeys(members: seq<Member>) {
    forall i, j :: 0 <= i < j < |members| ==> members[i].key != members[j].key
  }

  lemma TakeOut<T>(s: seq<T>, k: nat)
    requires k < |s|
    ensures multiset(s) == multiset(s[..k] + s[k + 1..]) + multiset{s[k]}
  {
    assert s == s[..k] + [s[k]] + s[k + 1..];
  }

  lemma TakeHead<T>(s: seq<T>)
    requires s != []
    ensures multiset(s) == multiset(s[1..]) + multiset{s[0]}
  {
    assert s == [s[0]] + s[1..];
  }

  lemma SameRest<T>(a: seq<T>, b: seq<T>)
    requires a != [] && b != [] && a[0] == b[0] && multiset(a) == multiset(b)
    ensures multiset(a[1..]) == multiset(b[1..])
    ensures a[1..] == b[1..] ==> a == b
  {
    TakeHead(a);
    TakeHead(b);
    assert multiset(a[1..]) == multiset(a) - multiset{a[0]};
    assert multiset(b[1..]) == multiset(b) - multiset{b[0]};
    assert a == [a[0]] + a[1..] && b == [b[0]] + b[1..];
  }

  lemma SameLength<T>(a: seq<T>, b: seq<T>)
    requires multiset(a) == multiset(b)
    ensures |a| == |b|
  {
    assert |a| == |multiset(a)| && |b| == |multiset(b)|;
  }

  lemma FindIn<T>(a: seq<T>, b: seq<T>, k: nat) returns (i: nat)
    requires multiset(a) == multiset(b) && k < |a|
    ensures i < |b| && b[i] == a[k]
  {
    assert a[k] in multiset(b);
    i :| i < |b| && b[i] == a[k];
  }

  lemma {:induction false} InsertAdds(m: Member, sorted: seq<Member>)
    ensures multiset(InsertByKey(m, sorted)) == multiset(sorted) + multiset{m}
    ensures forall o :: o in InsertByKey(m, sorted) <==> o == m || o in sorted
  {
    hide KeyLess;
    if sorted != [] && KeyLess(sorted[0].key, m.key) {
      InsertAdds(m, sorted[1..]);
      TakeHead(sorted);
      assert InsertByKey(m, sorted) == [sorted[0]] + InsertByKey(m, sorted[1..]);
      assert forall o :: o in sorted <==> o == sorted[0] || o in sorted[1..];
    }
  }

  lemma IncreasingCons(m: Member, rest: seq<Member>)
    requires Increasing(rest) && forall o <- rest :: KeyLess(m.key, o.key)
    ensures Increasing([m] + rest)
  {
    hide KeyLess;
  }

  lemma {:induction false} InsertKeeps(m: Member, sorted: seq<Member>)
    requires Increasing(sorted) && forall o <- sorted :: o.key != m.key
    ensures Increasing(InsertByKey(m, sorted))
  {
    hide KeyLess, Increasing;
    if sorted == [] {
      IncreasingNil();
      IncreasingCons(m, []);
    } else if !KeyLess(sorted[0].key, m.key) {
      KeyTotal(sorted[0].key, m.key);
      forall o | o in sorted ensures KeyLess(m.key, o.key) {
        if o != sorted[0] {
          HeadIsLeast(sorted, o);
          KeyTransitive(m.key, sorted[0].key, o.key);
        }
      }
      IncreasingCons(m, sorted);
    } else {
      TailIncreasing(sorted);
      InsertKeeps(m, sorted[1..]);
      InsertAdds(m, sorted[1..]);
      forall o | o in sorted[1..] ensures KeyLess(sorted[0].key, o.key) {
        HeadIsLeast(sorted, o);
      }
      IncreasingCons(sorted[0], InsertByKey(m, sorted[1..]));
    }
  }

  lemma IncreasingNil()
    ensures Increasing([])
  {
  }

  lemma TailIncreasing(sorted: seq<Member>)
    requires sorted != [] && Increasing(sorted)
    ensures Increasing(sorted[1..])
  {
  }

  lemma HeadIsLeast(sorted: seq<Member>, o: Member)
    requires sorted != [] && Increasing(sorted) && (o in sorted[1..] || (o in sorted && o != sorted[0]))
    ensures KeyLess(sorted[0].key, o.key)
  {
    hide KeyLess;
    var i :| 0 <= i < |sorted| && sorted[i] == o && i > 0;
  }

  /** The printer sorts: the keys increase in code-point order and no member is lost or added. */
  lemma {:induction false} SortSorts(members: seq<Member>)
    requires DistinctKeys(members)
    ensures Increasing(SortByKey(members)) && multiset(SortByKey(members)) == multiset(members)
  {
    if members != [] {
      var rest := SortByKey(members[1..]);
      SortSorts(members[1..]);
      assert members == [members[0]] + members[1..];
      forall o | o in rest ensures o.key != members[0].key {
        assert o in multiset(rest);
        assert o in members[1..];
      }
      InsertKeeps(members[0], rest);
      InsertAdds(members[0], rest);
    }
  }

  /** There is only one way to put members in increasing order. */
  lemma {:induction false} IncreasingUnique(a: seq<Member>, b: seq<Member>)
    requires Increasing(a) && Increasing(b) && multiset(a) == multiset(b)
    ensures a == b
    decreases |a|
  {
    hide KeyLess;
    SameLength(a, b);
    if a != [] {
      SameHead(a, b);
      SameRest(a, b);
      IncreasingUnique(a[1..], b[1..]);
    }
  }

  lemma SameHead(a: seq<Member>, b: seq<Member>)
    requires Increasing(a) && Increasing(b) && multiset(a) == multiset(b) && a != [] && b != []
    ensures a[0] == b[0]
  {
    hide KeyLess;
    var i := FindIn(a, b, 0);
    var j := FindIn(b, a, 0);
    KeyTotal(a[0].key, b[0].key);
  }

  lemma {:induction false} MembersConcat(style: Style, f: seq<Field>, g: seq<Field>, level: nat)
    ensures DumpMembers(style, f + g, level) == DumpMembers(style, f, level) + DumpMembers(style, g, level)
  {
    hide Dumps;
    if f == [] {
      assert f + g == g;
    } else {
      assert (f + g)[1..] == f[1..] + g;
      MembersConcat(style, f[1..], g, level);
    }
  }

  lemma {:induction false} MembersKeys(style: Style, f: seq<Field>, level: nat)
    ensures forall i :: 0 <= i < |f| ==> DumpMembers(style, f, level)[i].key == f[i].key
  {
    hide Dumps;
    if f != [] { MembersKeys(style, f[1..], level); }
  }

  lemma SameWithout<T>(a: seq<T>, b: seq<T>, k: nat)
    requires a != [] && k < |b| && a[0] == b[k] && multiset(a) == multiset(b)
    ensures multiset(a[1..]) == multiset(b[..k] + b[k + 1..])
  {
    TakeHead(a);
    TakeOut(b, k);
    assert multiset(a[1..]) == multiset(a) - multiset{a[0]};
  }

  lemma {:induction false} MembersPermute(style: Style, f: seq<Field>, g: seq<Field>, level: nat)
    requires multiset(f) == multiset(g)
    ensures multiset(DumpMembers(style, f, level)) == multiset(DumpMembers(style, g, level))
    decreases |f|
  {
    hide DumpMembers;
    SameLength(f, g);
    if f == [] {
      assert f == g;
    } else {
      var k := FindIn(f, g, 0);
      SameWithout(f, g, k);
      MembersPermute(style, f[1..], g[..k] + g[k + 1..], level);
      MembersTakeOut(style, f, 0, level);
      MembersTakeOut(style, g, k, level);
      assert f[..0] + f[0 + 1..] == f[1..];
    }
  }

  lemma MembersTakeOut(style: Style, f: seq<Field>, k: nat, level: nat)
    requires k < |f|
    ensures multiset(DumpMembers(style, f, level))
            == multiset(DumpMembers(style, f[..k] + f[k + 1..], level)) + multiset(DumpMembers(style, [f[k]], level))
  {
    hide DumpMembers;
    assert f == f[..k] + ([f[k]] + f[k + 1..]);
    MembersConcat(style, f[..k], [f[k]] + f[k + 1..], level);
    MembersConcat(style, [f[k]], f[k + 1..], level);
    MembersConcat(style, f[..k], f[k + 1..], level);
  }

  /** Two dicts with the same members print the same, whatever the order they were filled in. */
  lemma PrintIgnoresInsertionOrder(style: Style, f: seq<Field>, g: seq<Field>, level: nat)
    requires multiset(f) == multiset(g)
    requires forall i, j :: 0 <= i < j < |f| ==> f[i].key != f[j].key
    requires forall i, j :: 0 <= i < j < |g| ==> g[i].key != g[j].key
    ensures Dumps(style, Obj(f), level) == Dumps(style, Obj(g), level)
  {
    hide DumpMembers, Bracket, MemberTexts, SortByKey;
    MembersKeys(style, f, level + 1);
    MembersKeys(style, g, level + 1);
    MembersPermute(style, f, g, level + 1);
    SameMembersSortSame(DumpMembers(style, f, level + 1), DumpMembers(style, g, level + 1));
  }

  lemma SameMembersSortSame(a: seq<Member>, b: seq<Member>)
    requires DistinctKeys(a) && DistinctKeys(b) && multiset(a) == multiset(b)
    ensures SortByKey(a) == SortByKey(b)
  {
    hide SortByKey, Increasing, DistinctKeys;
    SortSorts(a);
    SortSorts(b);
    IncreasingUnique(SortByKey(a), SortByKey(b));
  }
}
