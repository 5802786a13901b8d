/** Canonical indicator extraction from alert data (src/soc_integration/enrichment.py). */
module Enrichment {
  import opened Basics
  import Text
  import opened Sorting

  /** Decoded JSON; an object's fields in document order. */
  datatype Json =
    | Obj(fields: seq<Member>)
    | Arr(items: seq<Json>)
    | Str(text: string)
    | Other

  datatype Member = Member(key: string, value: Json)

  datatype Indicator = Indicator(kind: string, value: string)

  datatype InvalidIndicator = InvalidIndicator(key: string, kind: string, value: string)

  function KindOf(key: string): Option<string> {
    if key in {"srcip", "source_ip", "dstip", "destination_ip", "ip"} then Some("ip")
    else if key in {"domain", "query", "hostname"} then Some("domain")
    else if key in {"url", "uri"} then Some("url")
    else if key in {"hash", "md5", "sha1", "sha256"} then Some("hash")
    else None
  }

  function Normalize(kind: string, text: string): string {
    if kind == "domain" || kind == "hash" then Text.Lower(Text.Strip(text)) else Text.Strip(text)
  }

  /** Every object member at any depth, in document order, its key in lower case. */
  function Walk(j: Json): seq<Member>
    decreases j, 1
  {
    match j
    case Obj(fields) => WalkFields(fields)
    case Arr(items) => WalkItems(items)
    case Str(_) => []
    case Other => []
  }

  function WalkFields(fields: seq<Member>): seq<Member>
    decreases fields, 0
  {
    if fields == [] then []
    else [Member(Text.Lower(fields[0].key), fields[0].value)] + Walk(fields[0].value) + WalkFields(fields[1..])
  }

  function WalkItems(items: seq<Json>): seq<Member>
    decreases items, 0
  {
    if items == [] then [] else Walk(items[0]) + WalkItems(items[1..])
  }

  /** Somewhere in the document a member named `key`, up to case, holds the string `text`. */
  ghost predicate Occurs(j: Json, key: string, text: string) {
    match j
    case Obj(fields) =>
      exists f | f in fields ::
        (Text.Lower(f.key) == key && f.value == Str(text)) || Occurs(f.value, key, text)
    case Arr(items) => exists i | i in items :: Occurs(i, key, text)
    case Str(_) => false
    case Other => false
  }

  /** The walk meets exactly the strings that occur. */
  lemma {:induction false} WalkMeetsOccurrences(j: Json, key: string, text: string)
    ensures Member(key, Str(text)) in Walk(j) <==> Occurs(j, key, text)
    decreases j, 1
  {
    match j
    case Obj(fields) => WalkFieldsMeet(fields, key, text);
    case Arr(items) => WalkItemsMeet(items, key, text);
    case Str(_) =>
    case Other =>
  }

  lemma {:induction false} WalkFieldsMeet(fields: seq<Member>, key: string, text: string)
    ensures Member(key, Str(text)) in WalkFields(fields) <==>
            exists f | f in fields ::
              (Text.Lower(f.key) == key && f.value == Str(text)) || Occurs(f.value, key, text)
    decreases fields, 0
  {
    if fields != [] {
      WalkMeetsOccurrences(fields[0].value, key, text);
      WalkFieldsMeet(fields[1..], key, text);
      assert forall f :: f in fields <==> f == fields[0] || f in fields[1..];
    }
  }

  lemma {:induction false} WalkItemsMeet(items: seq<Json>, key: string, text: string)
    ensures Member(key, Str(text)) in WalkItems(items) <==> exists i | i in items :: Occurs(i, key, text)
    decreases items, 0
  {
    if items != [] {
      WalkMeetsOccurrences(items[0], key, text);
      WalkItemsMeet(items[1..], key, text);
      assert forall i :: i in items <==> i == items[0] || i in items[1..];
    }
  }

  /** The keys that name an indicator of this kind. */
  predicate KeyNames(key: string, kind: string) {
    || (kind == "ip" && key in {"srcip", "source_ip", "dstip", "destination_ip", "ip"})
    || (kind == "domain" && key in {"domain", "query", "hostname"})
    || (kind == "url" && key in {"url", "uri"})
    || (kind == "hash" && key in {"hash", "md5", "sha1", "sha256"})
  }

  /** The text without the white space around it, in small letters for domains and hashes. */
  ghost predicate Canonical(kind: string, text: string, value: string) {
    exists core :: Text.Trims(text, core) &&
      if kind in {"domain", "hash"} then Text.Folds(core, value) else value == core
  }

  lemma NormalizeExactly(kind: string, text: string, value: string)
    ensures Canonical(kind, text, value) <==> value == Normalize(kind, text)
  {
    forall core ensures Text.Trims(text, core) <==> core == Text.Strip(text) {
      Text.StripExactly(text, core);
    }
    Text.LowerExactly(Text.Strip(text), value);
  }

  /** A walked member reads as an indicator exactly if its key names the kind and its text is the value. */
  lemma ReadingExactly(m: Member, i: Indicator)
    ensures Reading(m) == Some(i) <==>
            m.value.Str? && KeyNames(m.key, i.kind) && Canonical(i.kind, m.value.text, i.value)
  {
    if m.value.Str? {
      NormalizeExactly(i.kind, m.value.text, i.value);
    }
  }

  /** The document offers this indicator, well formed or not. */
  ghost predicate Offers(j: Json, i: Indicator) {
    exists key, text :: Occurs(j, key, text) && KeyNames(key, i.kind) && Canonical(i.kind, text, i.value)
  }

  /** What one walked member contributes, if its key names an indicator and it holds a string. */
  function Reading(m: Member): Option<Indicator> {
    var kind := KindOf(m.key);
    if kind.None? || !m.value.Str? then None
    else Some(Indicator(kind.value, Normalize(kind.value, m.value.text)))
  }

  function Accepted(valid: iset<Indicator>, walk: seq<Member>): seq<Indicator> {
    if walk == [] then []
    else
      var front, r := Accepted(valid, walk[..|walk| - 1]), Reading(walk[|walk| - 1]);
      if r.Some? && r.value in valid then front + [r.value] else front
  }

  function Rejected(valid: iset<Indicator>, walk: seq<Member>): seq<InvalidIndicator> {
    if walk == [] then []
    else
      var front, m := Rejected(valid, walk[..|walk| - 1]), walk[|walk| - 1];
      var r := Reading(m);
      if r.Some? && r.value.value != "" && r.value !in valid
      then front + [InvalidIndicator(m.key, r.value.kind, r.value.value)]
      else front
  }

  predicate IndicatorLess(a: Indicator, b: Indicator) {
    Text.Less(a.kind, b.kind) || (a.kind == b.kind && Text.Less(a.value, b.value))
  }

  predicate InvalidLess(a: InvalidIndicator, b: InvalidIndicator) {
    || Text.Less(a.kind, b.kind)
    || (a.kind == b.kind && Text.Less(a.key, b.key))
    || (a.kind == b.kind && a.key == b.key && Text.Less(a.value, b.value))
  }

  /** The indicators of a document; `valid` is the set of those whose format is accepted. */
  function Indicators(valid: iset<Indicator>, data: Json): seq<Indicator> {
    Sort(Keys(Accepted(valid, Walk(data))), IndicatorLess)
  }

  function InvalidCandidates(valid: iset<Indicator>, data: Json): seq<InvalidIndicator> {
    Sort(Keys(Rejected(valid, Walk(data))), InvalidLess)
  }

  method ExtractIndicators(valid: iset<Indicator>, data: Json) returns (r: seq<Indicator>)
    ensures forall i :: i in r <==> i in valid && Offers(data, i)
    ensures forall i, j | 0 <= i < j < |r| ::
              Text.Before(r[i].kind, r[j].kind) || (r[i].kind == r[j].kind && Text.Before(r[i].value, r[j].value))
    ensures r == Indicators(valid, data)
  {
    var walk, found := Walk(data), [];
    for n := 0 to |walk|
      invariant found == Keys(Accepted(valid, walk[..n]))
    {
      assert walk[..n + 1][..n] == walk[..n];
      var kind := KindOf(walk[n].key);
      if kind.None? || !walk[n].value.Str? {
        continue;
      }
      var indicator := Indicator(kind.value, Normalize(kind.value, walk[n].value.text));
      if indicator in valid && indicator !in found {
        found := found + [indicator];
      }
    }
    assert walk[..|walk|] == walk;
    IndicatorsCanonical(valid, data);
    r := Sort(found, IndicatorLess);
    forall a, b ensures Text.Less(a, b) <==> Text.Before(a, b) {
      Text.LessExactly(a, b);
    }
  }

  method ListInvalidCandidates(valid: iset<Indicator>, data: Json) returns (r: seq<InvalidIndicator>)
    ensures forall i :: i in r <==> exists text :: Rejects(valid, data, i, text)
    ensures forall i, j | 0 <= i < j < |r| ::
              || Text.Before(r[i].kind, r[j].kind)
              || (r[i].kind == r[j].kind && Text.Before(r[i].key, r[j].key))
              || (r[i].kind == r[j].kind && r[i].key == r[j].key && Text.Before(r[i].value, r[j].value))
    ensures r == InvalidCandidates(valid, data)
  {
    var walk, invalid := Walk(data), [];
    for n := 0 to |walk|
      invariant invalid == Keys(Rejected(valid, walk[..n]))
    {
      assert walk[..n + 1][..n] == walk[..n];
      var kind := KindOf(walk[n].key);
      if kind.None? || !walk[n].value.Str? {
        continue;
      }
      var value := Normalize(kind.value, walk[n].value.text);
      var entry := InvalidIndicator(walk[n].key, kind.value, value);
      if value != "" && Indicator(kind.value, value) !in valid && entry !in invalid {
        invalid := invalid + [entry];
      }
    }
    assert walk[..|walk|] == walk;
    InvalidCandidatesCanonical(valid, data);
    r := Sort(invalid, InvalidLess);
    forall a, b ensures Text.Less(a, b) <==> Text.Before(a, b) {
      Text.LessExactly(a, b);
    }
  }

  /** The document holds `text` under i's key, and it reads as the non-empty, ill-formed value of i. */
  ghost predicate Rejects(valid: iset<Indicator>, data: Json, i: InvalidIndicator, text: string) {
    && Occurs(data, i.key, text)
    && KeyNames(i.key, i.kind)
    && Canonical(i.kind, text, i.value)
    && i.value != ""
    && Indicator(i.kind, i.value) !in valid
  }

  lemma IndicatorOrder()
    ensures StrictOrder(IndicatorLess) && StrictOrder(InvalidLess)
  {
    forall a: string, b: string
      ensures (Text.Less(a, b) || a == b || Text.Less(b, a)) && !Text.Less(a, a)
    {
      Text.LessTotal(a, b);
      Text.LessTotal(a, a);
    }
    forall a: string, b: string, c: string | Text.Less(a, b) && Text.Less(b, c)
      ensures Text.Less(a, c)
    {
      Text.LessTransitive(a, b, c);
    }
  }

  lemma {:induction false} AcceptedExactly(valid: iset<Indicator>, walk: seq<Member>)
    ensures forall i :: i in Accepted(valid, walk) <==>
              i in valid && exists m | m in walk :: Reading(m) == Some(i)
  {
    if walk != [] {
      AcceptedExactly(valid, walk[..|walk| - 1]);
      assert walk == walk[..|walk| - 1] + [walk[|walk| - 1]];
    }
  }

  lemma {:induction false} RejectedExactly(valid: iset<Indicator>, walk: seq<Member>)
    ensures forall i :: i in Rejected(valid, walk) <==>
              && i.value != "" && Indicator(i.kind, i.value) !in valid
              && exists m | m in walk :: m.key == i.key && Reading(m) == Some(Indicator(i.kind, i.value))
  {
    if walk != [] {
      RejectedExactly(valid, walk[..|walk| - 1]);
      assert walk == walk[..|walk| - 1] + [walk[|walk| - 1]];
    }
  }

  /** The walk reads exactly what the document offers. */
  lemma ReadsOffers(data: Json, i: Indicator)
    ensures (exists m | m in Walk(data) :: Reading(m) == Some(i)) <==> Offers(data, i)
  {
    if m :| m in Walk(data) && Reading(m) == Some(i) {
      WalkMeetsOccurrences(data, m.key, m.value.text);
      ReadingExactly(m, i);
    }
    if Offers(data, i) {
      var key, text :| Occurs(data, key, text) && KeyNames(key, i.kind) && Canonical(i.kind, text, i.value);
      WalkMeetsOccurrences(data, key, text);
      ReadingExactly(Member(key, Str(text)), i);
    }
  }

  /** Extraction is strictly sorted and holds exactly the well-formed indicators on offer. */
  lemma IndicatorsCanonical(valid: iset<Indicator>, data: Json)
    ensures Ascending(Indicators(valid, data), IndicatorLess)
    ensures forall i :: i in Indicators(valid, data) <==> i in valid && Offers(data, i)
  {
    IndicatorOrder();
    SortedKeys(Accepted(valid, Walk(data)), IndicatorLess);
    AcceptedExactly(valid, Walk(data));
    forall i ensures i in Indicators(valid, data) <==> i in valid && Offers(data, i) {
      ReadsOffers(data, i);
    }
  }

  lemma ReadsRejects(valid: iset<Indicator>, data: Json, i: InvalidIndicator)
    requires i.value != "" && Indicator(i.kind, i.value) !in valid
    ensures (exists m | m in Walk(data) :: m.key == i.key && Reading(m) == Some(Indicator(i.kind, i.value)))
            <==> exists text :: Rejects(valid, data, i, text)
  {
    var x := Indicator(i.kind, i.value);
    if m :| m in Walk(data) && m.key == i.key && Reading(m) == Some(x) {
      WalkMeetsOccurrences(data, m.key, m.value.text);
      ReadingExactly(m, x);
      assert Rejects(valid, data, i, m.value.text);
    }
    if text :| Rejects(valid, data, i, text) {
      WalkMeetsOccurrences(data, i.key, text);
      ReadingExactly(Member(i.key, Str(text)), x);
    }
  }

  lemma InvalidCandidatesCanonical(valid: iset<Indicator>, data: Json)
    ensures Ascending(InvalidCandidates(valid, data), InvalidLess)
    ensures forall i :: i in InvalidCandidates(valid, data) <==> exists text :: Rejects(valid, data, i, text)
  {
    IndicatorOrder();
    SortedKeys(Rejected(valid, Walk(data)), InvalidLess);
    RejectedExactly(valid, Walk(data));
    forall i ensures i in InvalidCandidates(valid, data) <==> exists text :: Rejects(valid, data, i, text) {
      if i.value != "" && Indicator(i.kind, i.value) !in valid {
        ReadsRejects(valid, data, i);
      }
    }
  }

  /** Every non-empty candidate is listed exactly once: as an indicator or as an invalid candidate. */
  lemma CandidatesPartition(valid: iset<Indicator>, data: Json, key: string, kind: string, text: string, value: string)
    requires Occurs(data, key, text) && KeyNames(key, kind) && Canonical(kind, text, value) && value != ""
    ensures (Indicator(kind, value) in Indicators(valid, data)) !=
            (InvalidIndicator(key, kind, value) in InvalidCandidates(valid, data))
  {
    IndicatorsCanonical(valid, data);
    InvalidCandidatesCanonical(valid, data);
    assert Offers(data, Indicator(kind, value));
    if Indicator(kind, value) !in valid {
      assert Rejects(valid, data, InvalidIndicator(key, kind, value), text);
    }
  }

  /** Everything in `a` has its like in `b`, at every depth. */
  ghost predicate Covers(a: Json, b: Json) {
    match a
    case Obj(fields) =>
      b.Obj? && forall f | f in fields :: exists g | g in b.fields :: f.key == g.key && Covers(f.value, g.value)
    case Arr(items) =>
      b.Arr? && forall x | x in items :: exists y | y in b.items :: Covers(x, y)
    case Str(_) => a == b
    case Other => a == b
  }

  /** Equal up to the order and the repetition of fields and items, at every depth. */
  ghost predicate SameContent(a: Json, b: Json) {
    Covers(a, b) && Covers(b, a)
  }

  lemma {:induction false} CoveredOccurrence(a: Json, b: Json, key: string, text: string)
    requires Covers(a, b) && Occurs(a, key, text)
    ensures Occurs(b, key, text)
  {
    if a.Obj? {
      var f :| f in a.fields && ((Text.Lower(f.key) == key && f.value == Str(text)) || Occurs(f.value, key, text));
      var g :| g in b.fields && f.key == g.key && Covers(f.value, g.value);
      if Occurs(f.value, key, text) {
        CoveredOccurrence(f.value, g.value, key, text);
      }
    } else {
      var x :| x in a.items && Occurs(x, key, text);
      var y :| y in b.items && Covers(x, y);
      CoveredOccurrence(x, y, key, text);
    }
  }

  /** Documents in which the same strings occur yield the same indicators. */
  lemma OccurrencesDetermine(valid: iset<Indicator>, a: Json, b: Json)
    requires forall key, text :: Occurs(a, key, text) <==> Occurs(b, key, text)
    ensures Indicators(valid, a) == Indicators(valid, b)
  {
    IndicatorsCanonical(valid, a);
    IndicatorsCanonical(valid, b);
    forall i ensures Offers(a, i) <==> Offers(b, i) {
    }
    IndicatorOrder();
    AscendingUnique(Indicators(valid, a), Indicators(valid, b), IndicatorLess);
  }

  /** The extraction is the same exactly if the same well-formed indicators are on offer. */
  lemma SameOffers(valid: iset<Indicator>, a: Json, b: Json)
    ensures Indicators(valid, a) == Indicators(valid, b) <==> forall i | i in valid :: Offers(a, i) <==> Offers(b, i)
  {
    IndicatorsCanonical(valid, a);
    IndicatorsCanonical(valid, b);
    if forall i | i in valid :: Offers(a, i) <==> Offers(b, i) {
      IndicatorOrder();
      AscendingUnique(Indicators(valid, a), Indicators(valid, b), IndicatorLess);
    } else {
      var i :| i in valid && (Offers(a, i) <==> !Offers(b, i));
      assert i in Indicators(valid, a) <==> i !in Indicators(valid, b);
    }
  }

  /** Key order, item order and repetition, at any depth, do not change the extraction. */
  lemma ExtractionInvariant(valid: iset<Indicator>, a: Json, b: Json)
    requires SameContent(a, b)
    ensures Indicators(valid, a) == Indicators(valid, b)
  {
    forall key, text ensures Occurs(a, key, text) <==> Occurs(b, key, text) {
      if Occurs(a, key, text) { CoveredOccurrence(a, b, key, text); }
      if Occurs(b, key, text) { CoveredOccurrence(b, a, key, text); }
    }
    OccurrencesDetermine(valid, a, b);
  }

  /** Nor does wrapping a container in a list or under one more key, whatever the key. */
  lemma NestingInvariant(valid: iset<Indicator>, j: Json, key: string)
    requires !j.Str?
    ensures Indicators(valid, Arr([j])) == Indicators(valid, j)
    ensures Indicators(valid, Obj([Member(key, j)])) == Indicators(valid, j)
  {
    forall k, text
      ensures Occurs(Arr([j]), k, text) <==> Occurs(j, k, text)
      ensures Occurs(Obj([Member(key, j)]), k, text) <==> Occurs(j, k, text)
    {
      assert j in [j];
      assert Member(key, j) in [Member(key, j)];
    }
    OccurrencesDetermine(valid, Arr([j]), j);
    OccurrencesDetermine(valid, Obj([Member(key, j)]), j);
  }
}
