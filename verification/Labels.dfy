/**
 Metric label sets: normalised, printed, and read back by the rules of the Prometheus text
 exposition format, version 0.0.4 (src/soc_integration/metrics.py).
 */
module MetricLabels {
  import opened Basics
  import opened Sorting
  import Text

  datatype Label = Label(name: string, value: string)

  predicate NameStart(c: char) {
    'a' <= c <= 'z' || 'A' <= c <= 'Z' || c == '_' || c == ':'
  }

  predicate NameChar(c: char) {
    NameStart(c) || '0' <= c <= '9'
  }

  predicate ValidName(name: string) {
    name != "" && NameStart(name[0]) && forall c | c in name :: NameChar(c)
  }

  const DIGITS := "0123456789"

  predicate StartsName(c: char) {
    c in Text.LOWER || c in Text.UPPER || c in "_:"
  }

  /** A letter, an underscore or a colon, then any of these or digits. */
  predicate Named(name: string) {
    name != "" && StartsName(name[0]) && forall i | 0 <= i < |name| :: StartsName(name[i]) || name[i] in DIGITS
  }

  lemma Digits(c: char)
    ensures c in DIGITS <==> '0' <= c <= '9'
  {
    assert forall i | 0 <= i < 10 :: DIGITS[i] as int == '0' as int + i;
    if '0' <= c <= '9' {
      assert c == DIGITS[c as int - '0' as int];
    }
  }

  lemma NamedExactly(name: string)
    ensures ValidName(name) <==> Named(name)
  {
    forall c ensures NameStart(c) <==> StartsName(c) {
      Text.SmallLetters(c);
      Text.Capitals(c);
    }
    forall c ensures NameChar(c) <==> StartsName(c) || c in DIGITS {
      Digits(c);
    }
    assert forall c :: c in name <==> exists i :: 0 <= i < |name| && name[i] == c;
  }

  // ---- Escaping.

  /** Every occurrence of one character replaced by a text. */
  function Replace(s: string, c: char, sub: string): string {
    if s == "" then "" else (if s[0] == c then sub else [s[0]]) + Replace(s[1..], c, sub)
  }

  /** Three passes, one after the other: backslashes, line feeds, quotes. */
  function Escape(value: string): string {
    Replace(Replace(Replace(value, '\\', "\\\\"), '\n', "\\n"), '"', "\\\"")
  }

  function EscapedChar(c: char): string {
    if c == '\\' then "\\\\" else if c == '\n' then "\\n" else if c == '"' then "\\\"" else [c]
  }

  /** One pass. */
  function EscapedOnce(value: string): string {
    if value == "" then "" else EscapedChar(value[0]) + EscapedOnce(value[1..])
  }

  lemma {:induction false} ReplaceJoined(a: string, b: string, c: char, sub: string)
    ensures Replace(a + b, c, sub) == Replace(a, c, sub) + Replace(b, c, sub)
  {
    if a == "" {
      assert a + b == b;
    } else {
      ReplaceJoined(a[1..], b, c, sub);
      assert (a + b)[1..] == a[1..] + b;
      var first := if a[0] == c then sub else [a[0]];
      assert Replace(a + b, c, sub) == first + (Replace(a[1..], c, sub) + Replace(b, c, sub));
    }
  }

  lemma EscapeJoined(a: string, b: string)
    ensures Escape(a + b) == Escape(a) + Escape(b)
  {
    ReplaceJoined(a, b, '\\', "\\\\");
    var x, y := Replace(a, '\\', "\\\\"), Replace(b, '\\', "\\\\");
    ReplaceJoined(x, y, '\n', "\\n");
    ReplaceJoined(Replace(x, '\n', "\\n"), Replace(y, '\n', "\\n"), '"', "\\\"");
  }

  lemma ReplaceChar(x: char, c: char, sub: string)
    ensures Replace([x], c, sub) == if x == c then sub else [x]
  {
    assert [x][1..] == "";
  }

  lemma ReplacePair(x: char, y: char, c: char, sub: string)
    ensures Replace([x, y], c, sub) == (if x == c then sub else [x]) + (if y == c then sub else [y])
  {
    assert [x, y] == [x] + [y];
    ReplaceJoined([x], [y], c, sub);
    ReplaceChar(x, c, sub);
    ReplaceChar(y, c, sub);
  }

  lemma EscapeChar(c: char)
    ensures Escape([c]) == EscapedChar(c)
  {
    ReplaceChar(c, '\\', "\\\\");
    if c == '\\' {
      ReplacePair('\\', '\\', '\n', "\\n");
      ReplacePair('\\', '\\', '"', "\\\"");
    } else {
      ReplaceChar(c, '\n', "\\n");
      if c == '\n' {
        ReplacePair('\\', 'n', '"', "\\\"");
      } else {
        ReplaceChar(c, '"', "\\\"");
      }
    }
  }

  /** The three passes amount to one: no pass touches what an earlier one wrote. */
  lemma {:induction false} EscapeIsOnePass(value: string)
    ensures Escape(value) == EscapedOnce(value)
  {
    if value != "" {
      EscapeIsOnePass(value[1..]);
      EscapeJoined([value[0]], value[1..]);
      EscapeChar(value[0]);
      assert value == [value[0]] + value[1..];
    }
  }

  /** That depends on the order: with backslashes last, a quote comes out differently. */
  lemma OrderMatters()
    ensures Replace(Replace("\"", '"', "\\\""), '\\', "\\\\") != Escape("\"")
  {
    ReplaceChar('"', '"', "\\\"");
    ReplacePair('\\', '"', '\\', "\\\\");
    EscapeChar('"');
  }

  // ---- Reading.

  datatype Read<T> = Read(value: T, rest: string) | Malformed

  /** The text up to the closing quote, escapes resolved. */
  function ReadValue(s: string): Read<string> {
    if s == "" || s[0] == '\n' then Malformed
    else if s[0] == '"' then Read("", s[1..])
    else if s[0] != '\\' then Prefixed(s[0], ReadValue(s[1..]))
    else if |s| == 1 then Malformed
    else if s[1] == 'n' then Prefixed('\n', ReadValue(s[2..]))
    else if s[1] == '\\' || s[1] == '"' then Prefixed(s[1], ReadValue(s[2..]))
    else Malformed
  }

  function Prefixed(c: char, r: Read<string>): Read<string> {
    if r.Read? then Read([c] + r.value, r.rest) else Malformed
  }

  /** The longest run of name characters. */
  function ReadName(s: string): Read<string> {
    if s == "" || !NameChar(s[0]) then Read("", s) else Prefixed(s[0], ReadName(s[1..]))
  }

  function ReadLabel(s: string): Read<Label> {
    var name := ReadName(s);
    if name.Malformed? || !ValidName(name.value) || !("=\"" <= name.rest) then Malformed
    else
      var value := ReadValue(name.rest[2..]);
      if value.Read? then Read(Label(name.value, value.value), value.rest) else Malformed
  }

  /** Labels separated by commas, to the closing brace and the end. */
  function ReadLabels(s: string): Option<seq<Label>>
    decreases |s|
  {
    var first := ReadLabel(s);
    if first.Malformed? || first.rest == "" || |first.rest| >= |s| then None
    else if first.rest == "}" then Some([first.value])
    else if first.rest[0] != ',' then None
    else
      var others := ReadLabels(first.rest[1..]);
      if others.Some? then Some([first.value] + others.value) else None
  }

  /** Reads a printed label set; none is printed as nothing. */
  function ReadLabelSet(s: string): Option<seq<Label>> {
    if s == "" then Some([]) else if s[0] == '{' then ReadLabels(s[1..]) else None
  }

  // ---- Printing.

  function FormatLabel(l: Label): string {
    l.name + "=\"" + Escape(l.value) + "\""
  }

  function FormatEach(labels: seq<Label>): seq<string> {
    seq(|labels|, i requires 0 <= i < |labels| => FormatLabel(labels[i]))
  }

  function FormatLabels(labels: seq<Label>): string {
    if labels == [] then "" else "{" + Text.Join(",", FormatEach(labels)) + "}"
  }

  lemma {:induction false} ReadsValue(value: string, tail: string)
    ensures ReadValue(EscapedOnce(value) + "\"" + tail) == Read(value, tail)
  {
    var s := EscapedOnce(value) + "\"" + tail;
    if value == "" {
      assert s[1..] == tail;
    } else {
      ReadsValue(value[1..], tail);
      var c, more := value[0], EscapedOnce(value[1..]) + "\"" + tail;
      assert s == EscapedChar(c) + more;
      assert value == [c] + value[1..];
      if |EscapedChar(c)| == 2 {
        assert s[2..] == more;
      } else {
        assert s[1..] == more;
      }
    }
  }

  /** Escaping has a left inverse. */
  lemma EscapeRoundTrip(value: string)
    ensures ReadValue(Escape(value) + "\"") == Read(value, "")
  {
    EscapeIsOnePass(value);
    ReadsValue(value, "");
    assert EscapedOnce(value) + "\"" + "" == EscapedOnce(value) + "\"";
  }

  lemma {:induction false} ReadsName(name: string, tail: string)
    requires (forall c | c in name :: NameChar(c)) && (tail == "" || !NameChar(tail[0]))
    ensures ReadName(name + tail) == Read(name, tail)
  {
    if name == "" {
      assert name + tail == tail;
    } else {
      ReadsName(name[1..], tail);
      assert (name + tail)[1..] == name[1..] + tail;
      assert name == [name[0]] + name[1..];
    }
  }

  lemma ReadsLabel(l: Label, tail: string)
    requires ValidName(l.name)
    ensures ReadLabel(FormatLabel(l) + tail) == Read(l, tail)
  {
    EscapeIsOnePass(l.value);
    var after := "=\"" + EscapedOnce(l.value) + "\"" + tail;
    assert FormatLabel(l) + tail == l.name + after;
    ReadsName(l.name, after);
    assert after[2..] == EscapedOnce(l.value) + "\"" + tail;
    ReadsValue(l.value, tail);
  }

  lemma {:induction false} ReadsLabels(labels: seq<Label>)
    requires labels != [] && forall l | l in labels :: ValidName(l.name)
    ensures ReadLabels(Text.Join(",", FormatEach(labels)) + "}") == Some(labels)
  {
    var each := FormatEach(labels);
    var s := Text.Join(",", each) + "}";
    if |labels| == 1 {
      ReadsLabel(labels[0], "}");
      assert s == FormatLabel(labels[0]) + "}";
      assert labels == [labels[0]];
    } else {
      var more := Text.Join(",", each[1..]) + "}";
      assert each[1..] == FormatEach(labels[1..]);
      assert s == FormatLabel(labels[0]) + ("," + more);
      ReadsLabel(labels[0], "," + more);
      assert ("," + more)[1..] == more;
      ReadsLabels(labels[1..]);
      assert labels == [labels[0]] + labels[1..];
    }
  }

  /** Every printed label set reads back as it was. */
  lemma LabelsRoundTrip(labels: seq<Label>)
    requires forall l | l in labels :: ValidName(l.name)
    ensures ReadLabelSet(FormatLabels(labels)) == Some(labels)
  {
    if labels != [] {
      ReadsLabels(labels);
      assert FormatLabels(labels)[1..] == Text.Join(",", FormatEach(labels)) + "}";
    }
  }

  /** A sample line starts with its name and labels, and these tell the series apart. */
  lemma SeriesDistinct(m: string, a: seq<Label>, n: string, b: seq<Label>)
    requires ValidName(m) && ValidName(n)
    requires (forall l | l in a :: ValidName(l.name)) && (forall l | l in b :: ValidName(l.name))
    requires m + FormatLabels(a) == n + FormatLabels(b)
    ensures m == n && a == b
  {
    ReadsName(m, FormatLabels(a));
    ReadsName(n, FormatLabels(b));
    LabelsRoundTrip(a);
    LabelsRoundTrip(b);
  }

  lemma {:induction false} EscapedOnOneLine(value: string)
    ensures '\n' !in EscapedOnce(value)
  {
    if value != "" {
      EscapedOnOneLine(value[1..]);
    }
  }

  lemma {:induction false} JoinOnOneLine(parts: seq<string>)
    requires forall p | p in parts :: '\n' !in p
    ensures '\n' !in Text.Join(",", parts)
  {
    if |parts| > 1 {
      JoinOnOneLine(parts[1..]);
    }
  }

  /** A printed label set stays on its line, whatever the values are. */
  lemma LabelsOnOneLine(labels: seq<Label>)
    requires forall l | l in labels :: ValidName(l.name)
    ensures '\n' !in FormatLabels(labels)
  {
    forall p | p in FormatEach(labels) ensures '\n' !in p {
      var i :| 0 <= i < |labels| && p == FormatLabel(labels[i]);
      EscapeIsOnePass(labels[i].value);
      EscapedOnOneLine(labels[i].value);
      assert ValidName(labels[i].name);
    }
    JoinOnOneLine(FormatEach(labels));
  }

  // ---- Normalising.

  predicate LabelLess(a: Label, b: Label) {
    Text.Less(a.name, b.name) || (a.name == b.name && Text.Less(a.value, b.value))
  }

  lemma LabelOrder()
    ensures StrictOrder(LabelLess)
  {
    forall x ensures !LabelLess(x, x) { Text.LessTotal(x.name, x.name); Text.LessTotal(x.value, x.value); }
    forall x, y ensures LabelLess(x, y) || x == y || LabelLess(y, x) {
      Text.LessTotal(x.name, y.name);
      Text.LessTotal(x.value, y.value);
    }
    forall x, y, z | LabelLess(x, y) && LabelLess(y, z) ensures LabelLess(x, z) {
      if Text.Less(x.name, y.name) && Text.Less(y.name, z.name) { Text.LessTransitive(x.name, y.name, z.name); }
      if Text.Less(x.value, y.value) && Text.Less(y.value, z.value) { Text.LessTransitive(x.value, y.value, z.value); }
    }
  }

  /** The normal form of a label mapping: its items, sorted, with valid names. */
  ghost predicate NormalForm(form: seq<Label>, labels: map<string, string>) {
    && Ascending(form, LabelLess)
    && (forall l | l in form :: ValidName(l.name) && l.name in labels && labels[l.name] == l.value)
    && (forall name | name in labels :: Label(name, labels[name]) in form)
  }

  /** In the order of the names. */
  ghost predicate NamesAscend(form: seq<Label>) {
    forall i, j | 0 <= i < j < |form| :: Text.Before(form[i].name, form[j].name)
  }

  lemma NormalFormAscends(form: seq<Label>, labels: map<string, string>)
    requires NormalForm(form, labels)
    ensures NamesAscend(form)
  {
    forall i, j | 0 <= i < j < |form| ensures Text.Before(form[i].name, form[j].name) {
      assert form[i] in form && form[j] in form && LabelLess(form[i], form[j]);
      Text.LessTotal(form[i].value, form[j].value);
      Text.LessExactly(form[i].name, form[j].name);
    }
  }

  /** It is unique, so a mapping always names the same series. */
  lemma NormalFormUnique(a: seq<Label>, b: seq<Label>, labels: map<string, string>)
    requires NormalForm(a, labels) && NormalForm(b, labels)
    ensures a == b
  {
    LabelOrder();
    AscendingUnique(a, b, LabelLess);
  }

  /** None stands for the ValueError of an invalid label name. */
  method Labels(labels: map<string, string>) returns (form: Option<seq<Label>>)
    ensures form.Some? <==> forall name | name in labels :: Named(name)
    ensures form.Some? ==> NormalForm(form.value, labels) && NamesAscend(form.value)
  {
    var items: seq<Label> := [];
    var left := labels.Keys;
    while left != {}
      invariant left <= labels.Keys && Distinct(items)
      invariant forall l :: l in items <==> l.name in labels && l.name !in left && labels[l.name] == l.value
      decreases left
    {
      var name :| name in left;
      items, left := items + [Label(name, labels[name])], left - {name};
    }
    forall name ensures ValidName(name) <==> Named(name) {
      NamedExactly(name);
    }
    LabelOrder();
    SortAscends(items, LabelLess);
    var sorted := Sort(items, LabelLess);
    forall l ensures l in sorted <==> l in items {
      assert l in multiset(sorted) <==> l in multiset(items);
    }
    if l :| l in sorted && !ValidName(l.name) {
      return None;
    }
    form := Some(sorted);
    forall name | name in labels ensures ValidName(name) {
      assert Label(name, labels[name]) in sorted;
    }
    NormalFormAscends(sorted, labels);
  }
}
