/** Strings as the source compares, folds and sorts them (ASCII letters and white space). */
module Text {

  /** Order by character code, a proper prefix first. */
  predicate Less(a: string, b: string) {
    b != "" && (a == "" || a[0] < b[0] || (a[0] == b[0] && Less(a[1..], b[1..])))
  }

  predicate LessEq(a: string, b: string) {
    !Less(b, a)
  }

  function LowerChar(c: char): char {
    if 'A' <= c <= 'Z' then c - 'A' + 'a' else c
  }

  function Lower(s: string): string {
    seq(|s|, i requires 0 <= i < |s| => LowerChar(s[i]))
  }

  predicate Blank(c: char) {
    c == ' ' || 9 as char <= c <= 13 as char || 28 as char <= c <= 31 as char
  }

  function StripLeft(s: string): string {
    if s != "" && Blank(s[0]) then StripLeft(s[1..]) else s
  }

  function StripRight(s: string): string {
    if s != "" && Blank(s[|s| - 1]) then StripRight(s[..|s| - 1]) else s
  }

  function Strip(s: string): string {
    StripRight(StripLeft(s))
  }

  predicate Contains(s: string, part: string) {
    part <= s || (s != "" && Contains(s[1..], part))
  }

  /** The parts joined with a separator. */
  function Join(sep: string, parts: seq<string>): string {
    if parts == [] then "" else if |parts| == 1 then parts[0] else parts[0] + sep + Join(sep, parts[1..])
  }

  const UPPER := "ABCDEFGHIJKLMNOPQRSTUVWXYZ"
  const LOWER := "abcdefghijklmnopqrstuvwxyz"

  /** One text is the other with its capital letters made small. */
  predicate Folds(s: string, low: string) {
    && |low| == |s|
    && (forall i | 0 <= i < |s| && s[i] !in UPPER :: low[i] == s[i])
    && (forall i, j | 0 <= i < |s| && 0 <= j < |UPPER| && s[i] == UPPER[j] :: low[i] == LOWER[j])
  }

  lemma Capital(j: int)
    requires 0 <= j < |UPPER|
    ensures UPPER[j] as int == 'A' as int + j && LOWER[j] as int == 'a' as int + j
    ensures LowerChar(UPPER[j]) == LOWER[j]
  {
    assert LOWER[j] as int == 'a' as int + j;
  }

  lemma Capitals(c: char)
    ensures c in UPPER <==> 'A' <= c <= 'Z'
    ensures forall j | 0 <= j < |UPPER| && c == UPPER[j] :: LowerChar(c) == LOWER[j]
  {
    forall j | 0 <= j < |UPPER|
      ensures UPPER[j] as int == 'A' as int + j && LowerChar(UPPER[j]) == LOWER[j]
    {
      Capital(j);
    }
    if 'A' <= c <= 'Z' {
      assert c == UPPER[c as int - 'A' as int];
    }
  }

  lemma SmallLetters(c: char)
    ensures c in LOWER <==> 'a' <= c <= 'z'
  {
    forall j | 0 <= j < |LOWER| ensures LOWER[j] as int == 'a' as int + j {
      assert |LOWER| == |UPPER|;
      Capital(j);
    }
    if 'a' <= c <= 'z' {
      assert c == LOWER[c as int - 'a' as int];
    }
  }

  lemma LowerExactly(s: string, low: string)
    ensures Folds(s, low) <==> low == Lower(s)
  {
    forall i | 0 <= i < |s|
      ensures s[i] !in UPPER ==> Lower(s)[i] == s[i]
      ensures forall j | 0 <= j < |UPPER| && s[i] == UPPER[j] :: Lower(s)[i] == LOWER[j]
    {
      Capitals(s[i]);
    }
    if Folds(s, low) {
      forall i | 0 <= i < |s| ensures low[i] == Lower(s)[i] {
        if s[i] in UPPER {
          var j :| 0 <= j < |UPPER| && s[i] == UPPER[j];
        }
      }
    }
  }

  /** ASCII white space: tabulators, line ends, separators and the space. */
  predicate WhiteSpace(c: char) {
    c as int in {9, 10, 11, 12, 13, 28, 29, 30, 31, 32}
  }

  predicate AllBlank(s: string) {
    forall c | c in s :: WhiteSpace(c)
  }

  /** The core of a text, which neither starts nor ends with white space, with white space around it. */
  ghost predicate Trims(text: string, core: string) {
    && (core != "" ==> !WhiteSpace(core[0]) && !WhiteSpace(core[|core| - 1]))
    && exists before, after :: AllBlank(before) && AllBlank(after) && text == before + core + after
  }

  lemma {:induction false} StripLeftSplits(s: string) returns (before: string)
    ensures AllBlank(before) && s == before + StripLeft(s)
    ensures StripLeft(s) != "" ==> !WhiteSpace(StripLeft(s)[0])
  {
    if s != "" && Blank(s[0]) {
      var blanks := StripLeftSplits(s[1..]);
      var core := StripLeft(s[1..]);
      assert StripLeft(s) == core;
      before := [s[0]] + blanks;
      assert before + core == [s[0]] + (blanks + core) == s;
    } else {
      before := "";
    }
  }

  lemma {:induction false} StripRightSplits(s: string) returns (after: string)
    ensures AllBlank(after) && s == StripRight(s) + after
    ensures StripRight(s) != "" ==> StripRight(s)[0] == s[0] && !WhiteSpace(StripRight(s)[|StripRight(s)| - 1])
  {
    if s != "" && Blank(s[|s| - 1]) {
      after := StripRightSplits(s[..|s| - 1]);
      after := after + [s[|s| - 1]];
      assert s == s[..|s| - 1] + [s[|s| - 1]];
    } else {
      after := "";
    }
  }

  lemma {:induction false} BlankLeft(before: string, s: string)
    requires AllBlank(before)
    ensures StripLeft(before + s) == StripLeft(s)
  {
    if before == "" {
      assert before + s == s;
    } else {
      assert before[0] in before && forall c | c in before[1..] :: c in before;
      assert (before + s)[1..] == before[1..] + s;
      BlankLeft(before[1..], s);
    }
  }

  lemma {:induction false} BlankRight(s: string, after: string)
    requires AllBlank(after)
    ensures StripRight(s + after) == StripRight(s)
  {
    if after == "" {
      assert s + after == s;
    } else {
      var shorter := after[..|after| - 1];
      assert after[|after| - 1] in after && forall c | c in shorter :: c in after;
      assert (s + after)[..|s + after| - 1] == s + shorter;
      BlankRight(s, shorter);
    }
  }

  /** Stripping takes away exactly the white space around the core. */
  lemma StripUnique(text: string, core: string, before: string, after: string)
    requires AllBlank(before) && AllBlank(after) && text == before + core + after
    requires core != "" ==> !WhiteSpace(core[0]) && !WhiteSpace(core[|core| - 1])
    ensures core == Strip(text)
  {
    assert text == before + (core + after);
    BlankLeft(before, core + after);
    if core == "" {
      BlankLeft(after, "");
      assert core + after == after == after + "";
    } else {
      BlankRight(core, after);
    }
  }

  lemma StripTrims(text: string)
    ensures Trims(text, Strip(text))
  {
    var before := StripLeftSplits(text);
    var after := StripRightSplits(StripLeft(text));
    assert text == before + Strip(text) + after;
  }

  lemma StripExactly(text: string, core: string)
    ensures Trims(text, core) <==> core == Strip(text)
  {
    StripTrims(text);
    if Trims(text, core) {
      var before, after :| AllBlank(before) && AllBlank(after) && text == before + core + after;
      StripUnique(text, core, before, after);
    }
  }

  /** What is contained has something before it and something after it. */
  lemma {:induction false} ContainsExactly(s: string, part: string)
    ensures Contains(s, part) <==> exists before, after :: s == before + part + after
  {
    if part <= s {
      assert s == "" + part + s[|part|..];
    } else if s != "" {
      ContainsExactly(s[1..], part);
      if before, after :| s[1..] == before + part + after {
        assert s == ([s[0]] + before) + part + after;
      }
      if before, after :| s == before + part + after {
        assert before != "" by {
          assert "" + part + after == part + after;
        }
        assert s[1..] == before[1..] + part + after;
      }
    }
  }

  /** The first position where two texts differ, or the shorter one's end. */
  predicate DifferAt(a: string, b: string, n: int) {
    && 0 <= n <= |a| && n <= |b| && a[..n] == b[..n]
    && ((n == |a| && n < |b|) || (n < |a| && n < |b| && a[n] < b[n]))
  }

  /** At the first difference the smaller character, or the end. */
  ghost predicate Before(a: string, b: string) {
    exists n :: DifferAt(a, b, n)
  }

  /** That is the order of texts. */
  lemma {:induction false} LessExactly(a: string, b: string)
    ensures Less(a, b) <==> Before(a, b)
  {
    forall n ensures DifferAt(a, b, n) && n > 0 ==> a != "" && b != "" && a[0] == b[0] {
      StartAlike(a, b, n);
    }
    if a == "" || b == "" || a[0] != b[0] {
      assert Less(a, b) ==> DifferAt(a, b, 0);
    } else {
      LessExactly(a[1..], b[1..]);
      if n :| DifferAt(a[1..], b[1..], n) {
        assert a[..n + 1] == [a[0]] + a[1..][..n] && b[..n + 1] == [b[0]] + b[1..][..n];
        assert DifferAt(a, b, n + 1);
      }
      if n :| DifferAt(a, b, n) {
        assert n > 0;
        assert a[1..][..n - 1] == a[..n][1..] && b[1..][..n - 1] == b[..n][1..];
        assert DifferAt(a[1..], b[1..], n - 1);
      }
    }
  }

  lemma StartAlike(a: string, b: string, n: int)
    ensures DifferAt(a, b, n) && n > 0 ==> a != "" && b != "" && a[0] == b[0]
  {
    if DifferAt(a, b, n) && n > 0 {
      assert a[0] == a[..n][0] && b[0] == b[..n][0];
    }
  }

  /** Two texts before a separator that neither contains are told apart by it. */
  lemma SplitsAt(a: string, b: string, x: string, y: string, sep: char)
    requires sep !in a && sep !in b && a + [sep] + x == b + [sep] + y
    ensures a == b && x == y
  {
    var t := a + [sep] + x;
    assert t[|a|] == sep && t[|b|] == sep;
    assert forall i | 0 <= i < |a| :: t[i] == a[i] && a[i] in a;
    assert forall i | 0 <= i < |b| :: t[i] == b[i] && b[i] in b;
    assert a == t[..|a|] && b == t[..|b|];
    assert x == t[|a| + 1..] && y == t[|b| + 1..];
  }

  /** Joined parts can be told apart where none is empty or contains the separator. */
  lemma {:induction false} JoinInjective(p: seq<string>, q: seq<string>, sep: char)
    requires forall t | t in p :: t != "" && sep !in t
    requires forall t | t in q :: t != "" && sep !in t
    requires Join([sep], p) == Join([sep], q)
    ensures p == q
  {
    JoinShape(p, sep);
    JoinShape(q, sep);
    if |p| == 1 {
      assert p == [p[0]] && q == [q[0]];
    } else if |p| > 1 {
      SplitsAt(p[0], q[0], Join([sep], p[1..]), Join([sep], q[1..]), sep);
      assert (forall t | t in p[1..] :: t in p) && forall t | t in q[1..] :: t in q;
      JoinInjective(p[1..], q[1..], sep);
      assert p == [p[0]] + p[1..] && q == [q[0]] + q[1..];
    }
  }

  lemma JoinShape(p: seq<string>, sep: char)
    requires forall t | t in p :: t != "" && sep !in t
    ensures Join([sep], p) == "" <==> p == []
    ensures sep in Join([sep], p) <==> |p| > 1
  {
    if |p| == 1 {
      assert p[0] in p;
    } else if |p| > 1 {
      assert Join([sep], p)[|p[0]|] == sep;
    }
  }

  lemma {:induction false} LessTotal(a: string, b: string)
    ensures Less(a, b) || a == b || Less(b, a)
    ensures !(Less(a, b) && Less(b, a)) && !Less(a, a)
  {
    if a != "" && b != "" {
      LessTotal(a[1..], b[1..]);
      LessTotal(a[1..], a[1..]);
      assert a[0] == b[0] && a[1..] == b[1..] ==> a == [a[0]] + a[1..] == [b[0]] + b[1..] == b;
    } else if a != "" {
      LessTotal(a[1..], a[1..]);
    }
  }

  lemma {:induction false} LessTransitive(a: string, b: string, c: string)
    requires Less(a, b) && Less(b, c)
    ensures Less(a, c)
  {
    if a != "" && a[0] == b[0] && b[0] == c[0] {
      LessTransitive(a[1..], b[1..], c[1..]);
    }
  }

  /** Texts that start with equally long blocks compare block first, then rest. */
  lemma {:induction false} LessByBlocks(a: string, b: string, x: string, y: string)
    requires |a| == |b|
    ensures Less(a + x, b + y) <==> Less(a, b) || (a == b && Less(x, y))
  {
    if a == "" {
      assert a + x == x && b + y == y;
    } else {
      LessByBlocks(a[1..], b[1..], x, y);
      assert (a + x)[1..] == a[1..] + x && (b + y)[1..] == b[1..] + y;
      assert a == [a[0]] + a[1..] && b == [b[0]] + b[1..];
    }
  }
}

/** Sorting by a strict order, and what a strictly ascending sequence determines. */
module Sorting {

  ghost predicate StrictOrder<T(!new)>(less: (T, T) -> bool) {
    && (forall x :: !less(x, x))
    && (forall x, y :: less(x, y) || x == y || less(y, x))
    && (forall x, y, z :: less(x, y) && less(y, z) ==> less(x, z))
  }

  ghost predicate Ascending<T>(s: seq<T>, less: (T, T) -> bool) {
    forall i, j :: 0 <= i < j < |s| ==> less(s[i], s[j])
  }

  function Insert<T>(x: T, s: seq<T>, less: (T, T) -> bool): seq<T> {
    if s == [] || less(x, s[0]) then [x] + s else [s[0]] + Insert(x, s[1..], less)
  }

  /** A stable insertion sort, standing for the language's own. */
  function Sort<T>(s: seq<T>, less: (T, T) -> bool): seq<T> {
    if s == [] then [] else Insert(s[|s| - 1], Sort(s[..|s| - 1], less), less)
  }

  ghost predicate Distinct<T>(s: seq<T>) {
    forall i, j :: 0 <= i < j < |s| ==> s[i] != s[j]
  }

  /** The keys of a dictionary filled with `s` in turn: first occurrences, in order. */
  function Keys<T(==)>(s: seq<T>): seq<T> {
    if s == [] then []
    else
      var front, last := Keys(s[..|s| - 1]), s[|s| - 1];
      if last in front then front else front + [last]
  }

  lemma {:induction false} KeysDistinct<T>(s: seq<T>)
    ensures Distinct(Keys(s))
    ensures forall x :: x in Keys(s) <==> x in s
  {
    if s != [] {
      KeysDistinct(s[..|s| - 1]);
      assert s == s[..|s| - 1] + [s[|s| - 1]];
    }
  }

  lemma {:induction false} InsertAscends<T(!new)>(x: T, s: seq<T>, less: (T, T) -> bool)
    requires StrictOrder(less) && Ascending(s, less) && x !in s
    ensures Ascending(Insert(x, s, less), less)
    ensures multiset(Insert(x, s, less)) == multiset(s) + multiset{x}
  {
    var r := Insert(x, s, less);
    if s == [] || less(x, s[0]) {
    } else {
      InsertAscends(x, s[1..], less);
      var rest := Insert(x, s[1..], less);
      assert s == [s[0]] + s[1..];
      forall y | y in rest ensures less(s[0], y) {
        assert y in multiset(rest);
        if y != x {
          assert y in s[1..];
        }
      }
    }
  }

  /** Sorting keeps the elements, and sorts distinct ones strictly. */
  lemma {:induction false} SortAscends<T(!new)>(s: seq<T>, less: (T, T) -> bool)
    requires StrictOrder(less) && Distinct(s)
    ensures Ascending(Sort(s, less), less)
    ensures multiset(Sort(s, less)) == multiset(s)
  {
    if s != [] {
      var front, last := s[..|s| - 1], s[|s| - 1];
      SortAscends(front, less);
      assert s == front + [last];
      assert last !in front;
      assert last !in Sort(front, less) by {
        assert last !in multiset(front);
      }
      InsertAscends(last, Sort(front, less), less);
    }
  }

  /** A sorted dictionary: strictly ascending, with the elements that were filled in. */
  lemma SortedKeys<T(!new)>(s: seq<T>, less: (T, T) -> bool)
    requires StrictOrder(less)
    ensures Ascending(Sort(Keys(s), less), less)
    ensures forall x :: x in Sort(Keys(s), less) <==> x in s
  {
    KeysDistinct(s);
    SortAscends(Keys(s), less);
    forall x ensures x in Sort(Keys(s), less) <==> x in s {
      assert x in multiset(Sort(Keys(s), less)) <==> x in multiset(Keys(s));
    }
  }

  /** A strictly ascending sequence is determined by its elements. */
  lemma {:induction false} AscendingUnique<T(!new)>(a: seq<T>, b: seq<T>, less: (T, T) -> bool)
    requires StrictOrder(less) && Ascending(a, less) && Ascending(b, less)
    requires forall x :: x in a <==> x in b
    ensures a == b
  {
    assert a != [] ==> a[0] in a;
    assert b != [] ==> b[0] in b;
    if a != [] && b != [] {
      assert a[0] == b[0];
      forall x ensures x in a[1..] <==> x in b[1..] {
        assert x in a <==> x == a[0] || x in a[1..];
        assert x in b <==> x == b[0] || x in b[1..];
      }
      AscendingUnique(a[1..], b[1..], less);
      assert a == [a[0]] + a[1..] && b == [b[0]] + b[1..];
    }
  }
}
