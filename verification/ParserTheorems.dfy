/** What the parser makes of any bytes at all: values of the domain only, and the same value
    under each of its settings (go/canon.go). */
module ParserTheorems {
  import opened Wrappers
  import opened Utf8
  import opened Json
  import opened Parser
  import opened Reading
  import opened Grammar
  import opened GrammarReads
  import opened GrammarTheorems
  import opened RoundTrip
  import opened CanonTheorems

  /* ---------- Every value read is well formed, canonical and nested within bounds ---------- */

  predicate Made(m: Mode, v: Value, k: nat) { WellFormed(v) && NestsWithin(v, k) && (m.anyNumber || Canonical(v)) }

  predicate MadeItems(m: Mode, items: seq<Value>, k: nat) { forall i :: 0 <= i < |items| ==> Made(m, items[i], k) }

  predicate MadeMembers(m: Mode, ms: seq<Named<Value>>, k: nat) { forall i :: 0 <= i < |ms| ==> Made(m, ms[i].value, k) }

  lemma UnseenOnto(m: Named<Value>, ms: seq<Named<Value>>, seen: set<Text>)
    requires m.name !in seen && Unseen(ms, seen + {m.name})
    ensures Unseen([m] + ms, seen)
  {
  }

  lemma NumberMade(m: Mode, d: Bytes, pos: nat, k: nat)
    requires pos < |d|
    ensures ReadNumber(m, d, pos).Ok? ==> Made(m, ReadNumber(m, d, pos).value.0, k)
  {
  }

  /** What was read of a value: it is made as the setting says, and from a text of it. */
  ghost predicate MadeFrom(m: Mode, d: Bytes, pos: nat, r: Result<Parsed<Value>>, k: nat) {
    r.Ok? ==> Made(m, r.value.value, k) && ValueText(m, d, pos, r.value.pos, r.value.value)
  }

  ghost predicate ItemsMadeFrom(m: Mode, d: Bytes, pos: nat, r: Result<Parsed<seq<Value>>>, k: nat) {
    r.Ok? ==> MadeItems(m, r.value.value, k) && r.value.value != [] && ItemsText(m, d, pos, r.value.pos, r.value.value)
  }

  ghost predicate MembersMadeFrom(m: Mode, d: Bytes, pos: nat, r: Result<Parsed<seq<Named<Value>>>>, k: nat, seen: set<Text>) {
    r.Ok? ==>
      && MadeMembers(m, r.value.value, k) && Unseen(r.value.value, seen)
      && r.value.value != [] && MembersText(m, d, pos, r.value.pos, r.value.value)
  }

  lemma ScalarMade(m: Mode, d: Bytes, pos: nat, depth: nat, values: nat, k: nat) returns (r: Result<Parsed<Value>>)
    requires pos < |d| ==> d[pos] != LBRACE && d[pos] != LBRACKET
    ensures ValueIs(m, d, pos, depth, values, r) && MadeFrom(m, d, pos, r, k)
  {
    r := ReadValue(m, d, pos, depth, values);
    if pos < |d| {
      NumberMade(m, d, pos, k);
      ScalarIsText(m, d, pos);
    }
  }

  lemma {:induction false} ValueMade(m: Mode, d: Bytes, pos: nat, depth: nat, values: nat) returns (r: Result<Parsed<Value>>)
    requires depth <= MAX_NESTING
    ensures ValueIs(m, d, pos, depth, values, r) && (r.Ok? ==> pos < r.value.pos <= |d|)
    ensures MadeFrom(m, d, pos, r, MAX_NESTING - depth)
    decreases |d| - pos, 0
  {
    if pos >= |d| || (d[pos] != LBRACE && d[pos] != LBRACKET) {
      r := ScalarMade(m, d, pos, depth, values, MAX_NESTING - depth);
    } else if depth >= MAX_NESTING || !Fits(m, values + 1) {
      r := Refusal;
      NoContainer(m, d, pos, depth, values, r);
    } else {
      var made := if m.maxValues > 0 then values + 1 else values;
      if d[pos] == LBRACE { r := ObjectMade(m, d, pos, depth + 1, made); }
      else { r := ArrayMade(m, d, pos, depth + 1, made); }
      ContainerStep(m, d, pos, depth, values, r, r);
    }
    Moves(m, d, pos, depth, values, r);
  }

  lemma {:induction false} ObjectMade(m: Mode, d: Bytes, pos: nat, depth: nat, values: nat) returns (r: Result<Parsed<Value>>)
    requires pos < |d| && d[pos] == LBRACE && 0 < depth <= MAX_NESTING
    ensures ObjectIs(m, d, pos + 1, depth, values, r) && MadeFrom(m, d, pos, r, MAX_NESTING - depth + 1)
    decreases |d| - pos - 1, 2
  {
    var ms := MembersMade(m, d, SkipSpace(d, pos + 1), depth, values, {});
    r := ObjectFrom(d, pos + 1, values, ms);
    ObjectStep(m, d, pos + 1, depth, values, ms, r);
    ObjectText(m, d, pos, values, ms);
  }

  lemma {:induction false} ArrayMade(m: Mode, d: Bytes, pos: nat, depth: nat, values: nat) returns (r: Result<Parsed<Value>>)
    requires pos < |d| && d[pos] == LBRACKET && 0 < depth <= MAX_NESTING
    ensures ArrayIs(m, d, pos + 1, depth, values, r) && MadeFrom(m, d, pos, r, MAX_NESTING - depth + 1)
    decreases |d| - pos - 1, 2
  {
    var items := ItemsMade(m, d, SkipSpace(d, pos + 1), depth, values);
    r := ArrayFrom(d, pos + 1, values, items);
    ArrayStep(m, d, pos + 1, depth, values, items, r);
    ArrayText(m, d, pos, values, items);
  }

  lemma {:induction false} MembersMade(m: Mode, d: Bytes, pos: nat, depth: nat, values: nat, seen: set<Text>)
    returns (r: Result<Parsed<seq<Named<Value>>>>)
    requires pos <= |d| && depth <= MAX_NESTING
    ensures MembersAre(m, d, pos, depth, values, seen, r) && MembersMadeFrom(m, d, pos, r, MAX_NESTING - depth, seen)
    decreases |d| - pos, 1
  {
    var n := ReadName(d, pos, seen);
    r := Refusal;
    if n.Refusal? {
      NoName(m, d, pos, depth, values, seen, r);
    } else {
      var (name, at) := n.value;
      var v := ValueMade(m, d, at, depth, values);
      var rest := Refusal;
      if MoreAfter(d, v) {
        rest := MembersMade(m, d, SkipSpace(d, v.value.pos) + 1, depth, v.value.values, seen + {name});
      }
      NameIsText(d, pos, seen);
      r := MembersFrom(d, name, v, rest);
      MembersStep(m, d, pos, depth, values, seen, name, at, v, rest, r);
      if v.Ok? { MembersKeptMade(m, d, pos, name, at, v.value, rest, MAX_NESTING - depth, seen); }
    }
  }

  lemma MembersKeptMade(m: Mode, d: Bytes, pos: nat, name: Text, at: nat, v: Parsed<Value>, rest: Result<Parsed<seq<Named<Value>>>>,
                        k: nat, seen: set<Text>)
    requires pos <= |d| && v.pos <= |d| && name !in seen && NameText(d, pos, at, name) && MadeFrom(m, d, at, Ok(v), k)
    requires MoreAfter(d, Ok(v)) ==> MembersMadeFrom(m, d, SkipSpace(d, v.pos) + 1, rest, k, seen + {name})
    ensures MembersMadeFrom(m, d, pos, MembersFrom(d, name, Ok(v), rest), k, seen)
  {
    MembersTextFrom(m, d, pos, name, at, v, rest);
    if MoreAfter(d, Ok(v)) && rest.Ok? { UnseenOnto(Named(name, v.value), rest.value.value, seen); }
  }

  lemma {:induction false} ItemsMade(m: Mode, d: Bytes, pos: nat, depth: nat, values: nat) returns (r: Result<Parsed<seq<Value>>>)
    requires pos <= |d| && depth <= MAX_NESTING
    ensures ItemsAre(m, d, pos, depth, values, r) && ItemsMadeFrom(m, d, pos, r, MAX_NESTING - depth)
    decreases |d| - pos, 1
  {
    var v := ValueMade(m, d, SkipSpace(d, pos), depth, values);
    var rest := Refusal;
    if MoreAfter(d, v) { rest := ItemsMade(m, d, SkipSpace(d, v.value.pos) + 1, depth, v.value.values); }
    r := ItemsFrom(d, v, rest);
    ItemsStep(m, d, pos, depth, values, v, rest, r);
    if v.Ok? { ItemsTextFrom(m, d, pos, v.value, rest); }
  }

  /** The parser accepts exactly the texts of the grammar whose value is well formed and nested
      within bounds, each as the value it is a text of. */
  lemma ParsesExactly(m: Mode, d: Bytes, v: Value)
    requires m.maxValues == 0
    ensures Document(m, d) == Ok(v) <==> DocumentText(m, d, v) && WellFormed(v) && NestsWithin(v, MAX_NESTING)
  {
    if Document(m, d) == Ok(v) {
      var i := SkipSpace(d, 0);
      var r := ValueMade(m, d, i, 0, 0);
      assert ReadValue(m, d, i, 0, 0) == r;
      SkippedIsSpace(d, 0);
      SkippedIsSpace(d, r.value.pos);
      assert DocumentParts(m, d, i, r.value.pos, v);
    }
    if DocumentText(m, d, v) && WellFormed(v) && NestsWithin(v, MAX_NESTING) { DocumentReads(m, d, v); }
  }

  /** For canonical JSON: the texts of values of the domain, and these only. */
  lemma ParsesDomainTexts(d: Bytes, v: Value)
    ensures Document(JSON, d) == Ok(v) <==> DocumentText(JSON, d, v) && InDomain(v)
  {
    ParsesExactly(JSON, d, v);
    ParseInDomain(d);
  }

  /* ---------- What was read can be written and read again ---------- */

  lemma {:induction false} TextSpellable(m: Mode, d: Bytes, i: nat, j: nat, v: Value)
    requires ValueText(m, d, i, j, v)
    ensures Spellable(m, v)
    decreases v, 2
  {
    match v
    case Int(n) => IntOwn(m, d, i, j, n);
    case Number(s) => NumberOwn(m, d, i, j, s);
    case Arr(items) => if items != [] { ItemsSpellable(m, d, i + 1, j, items); }
    case Obj(ms) => if ms != [] { MembersSpellable(m, d, i + 1, j, ms); }
    case _ =>
  }

  lemma IntOwn(m: Mode, d: Bytes, i: nat, j: nat, n: int)
    requires NumberText(m, d, i, j, Int(n))
    ensures OwnText(m, Int(n))
  {
    var from: nat, to: nat, f: nat :| NumberParts(m, d, i, from, to, f, j, Int(n));
    DecimalNatural(d[from..to]);
    IntText(m, n);
  }

  lemma NumberOwn(m: Mode, d: Bytes, i: nat, j: nat, s: Bytes)
    requires NumberText(m, d, i, j, Number(s))
    ensures OwnText(m, Number(s))
  {
    var from: nat, to: nat, f: nat :| NumberParts(m, d, i, from, to, f, j, Number(s));
    NumberCut(m, d, i, from, to, f, j, Number(s));
  }

  /** A number's bytes, cut out of the text, are the same number. */
  lemma NumberCut(m: Mode, d: Bytes, i: nat, from: nat, to: nat, f: nat, j: nat, v: Value)
    requires NumberParts(m, d, i, from, to, f, j, v)
    ensures NumberText(m, d[i..j], 0, j - i, v)
  {
    var s := d[i..j];
    CutInteger(m, d, i, j, from, to);
    CutFraction(d, i, j, to, f);
    CutExponent(d, i, j, f);
    assert s[0..j - i] == d[i..j];
    assert NumberParts(m, s, 0, from - i, to - i, f - i, j - i, v);
  }

  lemma CutInteger(m: Mode, d: Bytes, i: nat, j: nat, from: nat, to: nat)
    requires IntegerText(m, d, i, from, to) && to <= j <= |d|
    ensures IntegerText(m, d[i..j], 0, from - i, to - i) && Integer(d[i..j], 0, from - i, to - i) == Integer(d, i, from, to)
  {
    var s := d[i..j];
    CutDigits(d, i, j, from, to);
    assert s[0] == d[i] && s[from - i] == d[from];
    CutSlice(d, i, j, from, to);
  }

  lemma CutSlice(d: Bytes, i: nat, j: nat, a: nat, b: nat)
    requires i <= a <= b <= j <= |d|
    ensures d[i..j][a - i..b - i] == d[a..b]
  {
    forall k | 0 <= k < b - a ensures d[i..j][a - i..b - i][k] == d[a..b][k] {
      assert d[i..j][a - i + k] == d[a + k];
    }
  }

  lemma CutFraction(d: Bytes, i: nat, j: nat, to: nat, f: nat)
    requires i <= to && f <= j <= |d| && FractionText(d, to, f)
    ensures FractionText(d[i..j], to - i, f - i)
  {
    if f != to {
      CutDigits(d, i, j, to + 1, f);
      assert d[i..j][to - i] == d[to];
    }
  }

  lemma CutExponent(d: Bytes, i: nat, j: nat, f: nat)
    requires i <= f && j <= |d| && ExponentText(d, f, j)
    ensures ExponentText(d[i..j], f - i, j - i)
  {
    if j != f {
      assert d[i..j][f - i] == d[f];
      if DigitsText(d, f + 1, j) {
        CutDigits(d, i, j, f + 1, j);
      } else {
        assert d[i..j][f + 1 - i] == d[f + 1];
        CutDigits(d, i, j, f + 2, j);
      }
    }
  }

  lemma CutDigits(d: Bytes, i: nat, j: nat, a: nat, b: nat)
    requires i <= a && b <= j <= |d| && DigitsText(d, a, b)
    ensures DigitsText(d[i..j], a - i, b - i)
  {
    forall k | a - i <= k < b - i ensures IsDigit(d[i..j][k]) { assert d[i..j][k] == d[i + k]; }
  }

  lemma {:induction false} ItemsSpellable(m: Mode, d: Bytes, i: nat, j: nat, items: seq<Value>)
    requires items != [] && ItemsText(m, d, i, j, items)
    ensures forall k :: 0 <= k < |items| ==> Spellable(m, items[k])
    decreases items, 0
  {
    var a: nat, b: nat, c: nat :| ItemText(m, d, i, a, b, c, items[0])
      && if |items| == 1 then d[c] == RBRACKET && j == c + 1 else d[c] == COMMA && ItemsText(m, d, c + 1, j, items[1..]);
    TextSpellable(m, d, a, b, items[0]);
    if |items| > 1 {
      ItemsSpellable(m, d, c + 1, j, items[1..]);
      assert forall k :: 0 < k < |items| ==> items[k] == items[1..][k - 1];
    }
  }

  lemma {:induction false} MembersSpellable(m: Mode, d: Bytes, i: nat, j: nat, ms: seq<Named<Value>>)
    requires ms != [] && MembersText(m, d, i, j, ms)
    ensures forall k :: 0 <= k < |ms| ==> Spellable(m, ms[k].value)
    decreases ms, 0
  {
    var a: nat, b: nat, c: nat :| MemberText(m, d, i, a, b, c, ms[0].name, ms[0].value)
      && if |ms| == 1 then d[c] == RBRACE && j == c + 1 else d[c] == COMMA && MembersText(m, d, c + 1, j, ms[1..]);
    TextSpellable(m, d, a, b, ms[0].value);
    if |ms| > 1 {
      MembersSpellable(m, d, c + 1, j, ms[1..]);
      assert forall k :: 0 < k < |ms| ==> ms[k] == ms[1..][k - 1];
    }
  }

  /** Whatever a setting without a budget reads, it reads again from the bytes written of it. */
  lemma ReadSpellable(m: Mode, d: Bytes, v: Value)
    requires m.maxValues == 0 && Document(m, d) == Ok(v)
    ensures Spellable(m, v) && Bounded(v, MAX_NESTING)
  {
    ParsesExactly(m, d, v);
    var i: nat, j: nat :| DocumentParts(m, d, i, j, v);
    TextSpellable(m, d, i, j, v);
  }

  /** The parser reads values of the domain only. */
  lemma ParseInDomain(d: Bytes)
    ensures Document(JSON, d).Ok? ==> InDomain(Document(JSON, d).value)
  {
    var r := ValueMade(JSON, d, SkipSpace(d, 0), 0, 0);
    assert ReadValue(JSON, d, SkipSpace(d, 0), 0, 0) == r;
  }

  /** Canonical text is its own canonical form, and canonText finds no other. */
  lemma CanonTextIdempotent(d: Bytes)
    ensures CanonText(d).Ok? ==> CanonText(CanonText(d).value) == CanonText(d)
  {
    var v := Document(JSON, d);
    if v.Ok? {
      ParseInDomain(d);
      CanonRoundTrip(v.value);
      CanonNormal(v.value);
    }
  }

  /** Two texts have the same canonical form exactly when they spell the same value. */
  lemma CanonTextDecides(d: Bytes, e: Bytes)
    requires Document(JSON, d).Ok? && Document(JSON, e).Ok?
    ensures CanonText(d) == CanonText(e) <==> Same(Document(JSON, d).value, Document(JSON, e).value)
  {
    ParseInDomain(d);
    ParseInDomain(e);
    CanonInjective(Document(JSON, d).value, Document(JSON, e).value);
  }

  /* ---------- Every setting keeps some of what the most permissive one reads ---------- */

  function Count(v: Value): (n: nat)
    ensures n > 0
    decreases v, 1
  {
    match v
    case Arr(items) => 1 + CountItems(items)
    case Obj(ms) => 1 + CountMembers(ms)
    case _ => 1
  }

  function CountItems(items: seq<Value>): nat
    decreases items, 0
  {
    if items == [] then 0 else Count(items[0]) + CountItems(items[1..])
  }

  function CountMembers(ms: seq<Named<Value>>): nat
    decreases ms, 0
  {
    if ms == [] then 0 else Count(ms[0].value) + CountMembers(ms[1..])
  }

  predicate CanonicalItems(items: seq<Value>) { forall i :: 0 <= i < |items| ==> Canonical(items[i]) }

  predicate CanonicalMembers(ms: seq<Named<Value>>) { forall i :: 0 <= i < |ms| ==> Canonical(ms[i].value) }

  function Loose(m: Mode): Mode { Mode(0, true, m.unsigned, m.anyNumber && m.spelled) }

  /** What a reading under m is, given the loose reading and whether it is canonical and how
      many values it made. */
  function Keep<T>(m: Mode, r: Result<Parsed<T>>, canonical: bool, count: nat, values: nat): Result<Parsed<T>> {
    if r.Refusal? || !(m.anyNumber || canonical) || !Fits(m, values + count) then Refusal
    else Ok(Parsed(r.value.value, r.value.pos, if m.maxValues > 0 then values + count else values))
  }

  function KeepValue(m: Mode, r: Result<Parsed<Value>>, values: nat): Result<Parsed<Value>> {
    if r.Refusal? then r else Keep(m, r, Canonical(r.value.value), Count(r.value.value), values)
  }

  /** The same for a container whose own value was counted before it. */
  function KeepInside(m: Mode, r: Result<Parsed<Value>>, values: nat): Result<Parsed<Value>> {
    if r.Refusal? then r else Keep(m, r, Canonical(r.value.value), Count(r.value.value) - 1, values)
  }

  function KeepItems(m: Mode, r: Result<Parsed<seq<Value>>>, values: nat): Result<Parsed<seq<Value>>> {
    if r.Refusal? then r else Keep(m, r, CanonicalItems(r.value.value), CountItems(r.value.value), values)
  }

  function KeepMembers(m: Mode, r: Result<Parsed<seq<Named<Value>>>>, values: nat): Result<Parsed<seq<Named<Value>>>> {
    if r.Refusal? then r else Keep(m, r, CanonicalMembers(r.value.value), CountMembers(r.value.value), values)
  }

  lemma NumberKept(m: Mode, d: Bytes, pos: nat)
    requires pos < |d|
    ensures var r := ReadNumber(Loose(m), d, pos);
      ReadNumber(m, d, pos) == if r.Ok? && (m.anyNumber || Canonical(r.value.0)) then r else Refusal
  {
  }

  lemma ScalarStep(m: Mode, d: Bytes, pos: nat, depth: nat, values: nat) returns (r: Result<Parsed<Value>>)
    requires pos < |d| ==> d[pos] != LBRACE && d[pos] != LBRACKET
    ensures ValueIs(Loose(m), d, pos, depth, 0, r) && ValueIs(m, d, pos, depth, values, KeepValue(m, r, values))
    ensures r.Ok? ==> r.value.values == 0
  {
    r := ReadValue(Loose(m), d, pos, depth, 0);
    if pos < |d| { NumberKept(m, d, pos); }
    assert ReadValue(m, d, pos, depth, values) == KeepValue(m, r, values);
  }

  /* The filter passes through each step. */

  lemma ItemsKept(m: Mode, d: Bytes, v: Result<Parsed<Value>>, rest: Result<Parsed<seq<Value>>>, values: nat)
    requires Fits(m, values) && (v.Ok? ==> v.value.values == 0)
    ensures var kept := KeepValue(m, v, values);
      KeepItems(m, ItemsFrom(d, v, rest), values)
      == ItemsFrom(d, kept, if kept.Ok? then KeepItems(m, rest, kept.value.values) else Refusal)
  {
    if v.Ok? && rest.Ok? { CanonicalAlong(v.value.value, rest.value.value); }
    if v.Ok? { CanonicalAlong(v.value.value, []); assert [v.value.value] + [] == [v.value.value]; }
  }

  lemma CanonicalAlong(v: Value, items: seq<Value>)
    ensures CanonicalItems([v] + items) <==> Canonical(v) && CanonicalItems(items)
    ensures CountItems([v] + items) == Count(v) + CountItems(items)
  {
    var all := [v] + items;
    assert all[0] == v && all[1..] == items;
    if CanonicalItems(all) {
      forall i | 0 <= i < |items| ensures Canonical(items[i]) { assert all[i + 1] == items[i]; }
    }
  }

  lemma MembersKept(m: Mode, d: Bytes, name: Text, v: Result<Parsed<Value>>, rest: Result<Parsed<seq<Named<Value>>>>, values: nat)
    requires Fits(m, values) && (v.Ok? ==> v.value.values == 0)
    ensures var kept := KeepValue(m, v, values);
      KeepMembers(m, MembersFrom(d, name, v, rest), values)
      == MembersFrom(d, name, kept, if kept.Ok? then KeepMembers(m, rest, kept.value.values) else Refusal)
  {
    if v.Ok? {
      var one := Named(name, v.value.value);
      if rest.Ok? { CanonicalOnto(one, rest.value.value); }
      CanonicalOnto(one, []);
      assert [one] + [] == [one];
    }
  }

  lemma CanonicalOnto(m: Named<Value>, ms: seq<Named<Value>>)
    ensures CanonicalMembers([m] + ms) <==> Canonical(m.value) && CanonicalMembers(ms)
    ensures CountMembers([m] + ms) == Count(m.value) + CountMembers(ms)
  {
    var all := [m] + ms;
    assert all[0] == m && all[1..] == ms;
    if CanonicalMembers(all) {
      forall i | 0 <= i < |ms| ensures Canonical(ms[i].value) { assert all[i + 1] == ms[i]; }
    }
  }

  /* The induction. */

  lemma {:induction false} ValueKept(m: Mode, d: Bytes, pos: nat, depth: nat, values: nat) returns (r: Result<Parsed<Value>>)
    ensures ValueIs(Loose(m), d, pos, depth, 0, r) && ValueIs(m, d, pos, depth, values, KeepValue(m, r, values))
    ensures r.Ok? ==> r.value.values == 0 && pos < r.value.pos <= |d|
    decreases |d| - pos, 0
  {
    if pos >= |d| || (d[pos] != LBRACE && d[pos] != LBRACKET) {
      r := ScalarStep(m, d, pos, depth, values);
    } else {
      var made := if m.maxValues > 0 then values + 1 else values;
      var inside;
      if !Fits(m, values + 1) { inside := ContainerKept(m.(maxValues := 0), d, pos, depth, 0); }
      else { inside := ContainerKept(m, d, pos, depth, made); }
      r := if depth >= MAX_NESTING then Refusal else inside;
      ContainerStep(Loose(m), d, pos, depth, 0, inside, r);
      if Fits(m, values + 1) {
        ContainerStep(m, d, pos, depth, values, KeepInside(m, inside, made), KeepValue(m, r, values));
      } else {
        NoContainer(m, d, pos, depth, values, KeepValue(m, r, values));
      }
    }
    Moves(Loose(m), d, pos, depth, 0, r);
  }

  lemma {:induction false} ObjectKept(m: Mode, d: Bytes, pos: nat, depth: nat, values: nat) returns (r: Result<Parsed<Value>>)
    requires pos <= |d| && Fits(m, values)
    ensures ObjectIs(Loose(m), d, pos, depth, 0, r) && ObjectIs(m, d, pos, depth, values, KeepInside(m, r, values))
    ensures r.Ok? ==> r.value.values == 0
    decreases |d| - pos, 2
  {
    var ms := MembersKeptAt(m, d, SkipSpace(d, pos), depth, values, {});
    r := ObjectFrom(d, pos, 0, ms);
    ObjectStep(Loose(m), d, pos, depth, 0, ms, r);
    ObjectStep(m, d, pos, depth, values, KeepMembers(m, ms, values), KeepInside(m, r, values));
  }

  lemma {:induction false} ArrayKept(m: Mode, d: Bytes, pos: nat, depth: nat, values: nat) returns (r: Result<Parsed<Value>>)
    requires pos <= |d| && Fits(m, values)
    ensures ArrayIs(Loose(m), d, pos, depth, 0, r) && ArrayIs(m, d, pos, depth, values, KeepInside(m, r, values))
    ensures r.Ok? ==> r.value.values == 0
    decreases |d| - pos, 2
  {
    var items := ItemsKeptAt(m, d, SkipSpace(d, pos), depth, values);
    r := ArrayFrom(d, pos, 0, items);
    ArrayStep(Loose(m), d, pos, depth, 0, items, r);
    ArrayStep(m, d, pos, depth, values, KeepItems(m, items, values), KeepInside(m, r, values));
  }

  lemma {:induction false} ContainerKept(m: Mode, d: Bytes, pos: nat, depth: nat, values: nat) returns (r: Result<Parsed<Value>>)
    requires pos < |d| && (d[pos] == LBRACE || d[pos] == LBRACKET) && Fits(m, values)
    ensures if d[pos] == LBRACE
      then ObjectIs(Loose(m), d, pos + 1, depth + 1, 0, r) && ObjectIs(m, d, pos + 1, depth + 1, values, KeepInside(m, r, values))
      else ArrayIs(Loose(m), d, pos + 1, depth + 1, 0, r) && ArrayIs(m, d, pos + 1, depth + 1, values, KeepInside(m, r, values))
    ensures r.Ok? ==> r.value.values == 0
    decreases |d| - pos - 1, 3
  {
    if d[pos] == LBRACE { r := ObjectKept(m, d, pos + 1, depth + 1, values); }
    else { r := ArrayKept(m, d, pos + 1, depth + 1, values); }
  }

  lemma {:induction false} ItemsKeptAt(m: Mode, d: Bytes, pos: nat, depth: nat, values: nat) returns (r: Result<Parsed<seq<Value>>>)
    requires pos <= |d| && Fits(m, values)
    ensures ItemsAre(Loose(m), d, pos, depth, 0, r) && ItemsAre(m, d, pos, depth, values, KeepItems(m, r, values))
    ensures r.Ok? ==> r.value.values == 0
    decreases |d| - pos, 1
  {
    var v := ValueKept(m, d, SkipSpace(d, pos), depth, values);
    var kept := KeepValue(m, v, values);
    var rest := Refusal;
    var keptRest := Refusal;
    if MoreAfter(d, v) {
      var from := SkipSpace(d, v.value.pos) + 1;
      if kept.Ok? {
        rest := ItemsKeptAt(m, d, from, depth, kept.value.values);
        keptRest := KeepItems(m, rest, kept.value.values);
      } else {
        rest := ItemsKeptAt(Loose(m), d, from, depth, 0);
      }
    }
    r := ItemsFrom(d, v, rest);
    ItemsStep(Loose(m), d, pos, depth, 0, v, rest, r);
    ItemsKept(m, d, v, rest, values);
    ItemsStep(m, d, pos, depth, values, kept, keptRest, KeepItems(m, r, values));
  }

  lemma {:induction false} MembersKeptAt(m: Mode, d: Bytes, pos: nat, depth: nat, values: nat, seen: set<Text>)
    returns (r: Result<Parsed<seq<Named<Value>>>>)
    requires pos <= |d| && Fits(m, values)
    ensures MembersAre(Loose(m), d, pos, depth, 0, seen, r) && MembersAre(m, d, pos, depth, values, seen, KeepMembers(m, r, values))
    ensures r.Ok? ==> r.value.values == 0
    decreases |d| - pos, 1
  {
    var n := ReadName(d, pos, seen);
    if n.Refusal? {
      r := Refusal;
      NoName(Loose(m), d, pos, depth, 0, seen, r);
      NoName(m, d, pos, depth, values, seen, r);
    } else {
      var (name, at) := n.value;
      var v := ValueKept(m, d, at, depth, values);
      var kept := KeepValue(m, v, values);
      var rest := Refusal;
      var keptRest := Refusal;
      if MoreAfter(d, v) {
        var from := SkipSpace(d, v.value.pos) + 1;
        if kept.Ok? {
          rest := MembersKeptAt(m, d, from, depth, kept.value.values, seen + {name});
          keptRest := KeepMembers(m, rest, kept.value.values);
        } else {
          rest := MembersKeptAt(Loose(m), d, from, depth, 0, seen + {name});
        }
      }
      r := MembersFrom(d, name, v, rest);
      MembersStep(Loose(m), d, pos, depth, 0, seen, name, at, v, rest, r);
      MembersKept(m, d, name, v, rest, values);
      MembersStep(m, d, pos, depth, values, seen, name, at, kept, keptRest, KeepMembers(m, r, values));
    }
  }

  /** Under any setting the parser accepts exactly the documents the loosest one reads that are
      canonical, where m asks it, and hold no more values than m's budget; the value is the same. */
  lemma SettingsKeep(m: Mode, d: Bytes)
    ensures var r := Document(Loose(m), d);
      Document(m, d) == if r.Ok? && (m.anyNumber || Canonical(r.value)) && Fits(m, Count(r.value)) then r else Refusal
  {
    var r := ValueKept(m, d, SkipSpace(d, 0), 0, 0);
    assert ReadValue(Loose(m), d, SkipSpace(d, 0), 0, 0) == r;
    assert ReadValue(m, d, SkipSpace(d, 0), 0, 0) == KeepValue(m, r, 0);
  }

  /** parseJSONWithin accepts exactly what parseJSON accepts in at most maxValues values. */
  lemma WithinAgrees(d: Bytes, maxValues: nat)
    requires maxValues > 0
    ensures var r := Document(JSON, d);
      Document(Within(maxValues), d) == if r.Ok? && Count(r.value) <= maxValues then r else Refusal
  {
    SettingsKeep(JSON, d);
    SettingsKeep(Within(maxValues), d);
  }

  /** parseRecordJSON gives a canonical value exactly where parseJSON accepts, and the same one. */
  lemma RecordAgrees(d: Bytes)
    ensures var r := Document(RECORD, d);
      Document(JSON, d) == if r.Ok? && Canonical(r.value) then r else Refusal
  {
    SettingsKeep(JSON, d);
  }
}
