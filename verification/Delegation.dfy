/** Delegation chains: steps 6 to 8 and 11 of verifying one, on links that are parsed and whose
    signatures verify (go/delegation_statement.go). */
module Delegation {
  import opened Wrappers
  import opened Utf8

  datatype Principal = Principal(kind: Text, issuer: Text, subject: Text)

  datatype Effect = Pure | Read | ReadExternal | Propose | Act {
    function Strength(): nat {
      match this case Pure => 0 case Read => 1 case ReadExternal => 2 case Propose => 3 case Act => 4
    }
  }

  datatype Audience = AgentHost(name: Text) | Gateway(name: Text)

  datatype Entry = Entry(audience: Audience, source: Text, tools: seq<Text>, effects: seq<Effect>, limits: map<Text, nat>)

  datatype Parent = Parent(id: Text, digest: Text)

  /** Times are instants in nanoseconds; software is the canonical form of the software identity. */
  datatype Link = Link(id: Text, digest: Text, host: Text, sub: Principal, agent: Text, software: Text, entries: seq<Entry>,
                       mayDelegate: bool, issuedAt: int, expiresAt: int, parent: Option<Parent>, depth: nat)

  const MAX_DEPTH: nat := 4
  const SECOND: int := 1_000_000_000
  const MAX_LIFETIME: int := 24 * 60 * 60 * SECOND
  const CALLS: Text := [0x63, 0x61, 0x6C, 0x6C, 0x73]

  datatype Refusal = ChainBroken | Widened | NotYetValid | Expired
  datatype Reason = SourceReason | ToolReason | EffectReason | LimitUnknown

  /* ---------- Step 3's order rules ---------- */

  predicate AscendingTexts(s: seq<Text>) { forall i, j :: 0 <= i < j < |s| ==> CodePointLess(s[i], s[j]) }

  predicate AscendingEffects(s: seq<Effect>) { forall i, j :: 0 <= i < j < |s| ==> s[i].Strength() < s[j].Strength() }

  /** The audience kinds are "agent-host" and "gateway", in that order. */
  predicate AudienceLess(a: Audience, b: Audience) {
    if a.AgentHost? == b.AgentHost? then CodePointLess(a.name, b.name) else a.AgentHost?
  }

  predicate EntryLess(a: Entry, b: Entry) {
    if a.audience != b.audience then AudienceLess(a.audience, b.audience) else CodePointLess(a.source, b.source)
  }

  predicate EntryForm(e: Entry) {
    |e.tools| > 0 && AscendingTexts(e.tools) && |e.effects| > 0 && AscendingEffects(e.effects) && e.source != []
  }

  /** What step 3 holds a link to, beyond the form of its members. */
  predicate LinkForm(l: Link) {
    && |l.entries| > 0
    && (forall i :: 0 <= i < |l.entries| ==> EntryForm(l.entries[i]))
    && (forall i :: 0 < i < |l.entries| ==> EntryLess(l.entries[i - 1], l.entries[i]))
    && l.issuedAt < l.expiresAt <= l.issuedAt + MAX_LIFETIME
    && (l.parent.None? <==> l.depth == 0)
  }

  /** sortedStrings: neighbours in order is the whole list in order. */
  method CheckTexts(s: seq<Text>) returns (ok: bool)
    ensures ok == AscendingTexts(s)
  {
    for i := 0 to |s|
      invariant forall k, j :: 0 <= k < j < i ==> CodePointLess(s[k], s[j])
    {
      if i > 0 && !CodePointLess(s[i - 1], s[i]) { return false; }
      forall k | 0 <= k < i ensures CodePointLess(s[k], s[i]) {
        if k < i - 1 { LessTransitive(s[k], s[i - 1], s[i]); }
      }
    }
    return true;
  }

  method CheckEffects(s: seq<Effect>) returns (ok: bool)
    ensures ok == AscendingEffects(s)
  {
    for i := 0 to |s|
      invariant AscendingEffects(s[..i])
    {
      if i > 0 && s[i].Strength() <= s[i - 1].Strength() { return false; }
      assert forall k :: 0 <= k < i ==> s[..i][k] == s[k] && s[..i + 1][k] == s[k];
      assert i > 0 ==> forall k :: 0 <= k < i - 1 ==> s[..i][k].Strength() < s[..i][i - 1].Strength();
    }
    assert s[..|s|] == s;
    return true;
  }

  lemma EntryLessTransitive(a: Entry, b: Entry, c: Entry)
    requires EntryLess(a, b) && EntryLess(b, c)
    ensures EntryLess(a, c)
  {
    if a.audience == b.audience && b.audience == c.audience { LessTransitive(a.source, b.source, c.source); }
    if a.audience.AgentHost? == b.audience.AgentHost? && b.audience.AgentHost? == c.audience.AgentHost?
      && a.audience != b.audience && b.audience != c.audience
    {
      LessTransitive(a.audience.name, b.audience.name, c.audience.name);
      LessAsymmetric(a.audience.name, b.audience.name);
      LessAsymmetric(b.audience.name, c.audience.name);
    }
  }

  lemma {:induction false} EntriesOrdered(es: seq<Entry>, i: nat, j: nat)
    requires i < j < |es| && forall k :: 0 < k < |es| ==> EntryLess(es[k - 1], es[k])
    ensures EntryLess(es[i], es[j])
    decreases j - i
  {
    if i + 1 < j {
      EntriesOrdered(es, i, j - 1);
      EntryLessTransitive(es[i], es[j - 1], es[j]);
    }
  }

  /** A link has at most one entry for an audience and a source. */
  lemma OneEntry(l: Link, i: nat, j: nat)
    requires LinkForm(l) && i < |l.entries| && j < |l.entries|
    requires l.entries[i].audience == l.entries[j].audience && l.entries[i].source == l.entries[j].source
    ensures i == j
  {
    if i < j {
      EntriesOrdered(l.entries, i, j);
      LessAsymmetric(l.entries[i].source, l.entries[j].source);
    } else if j < i {
      EntriesOrdered(l.entries, j, i);
      LessAsymmetric(l.entries[i].source, l.entries[j].source);
    }
  }

  /* ---------- Steps 6 and 7 ---------- */

  function Find(es: seq<Entry>, audience: Audience, source: Text): (r: Option<Entry>)
    ensures r.Some? ==> r.value in es && r.value.audience == audience && r.value.source == source
  {
    if es == [] then None
    else if es[0].audience == audience && es[0].source == source then Some(es[0])
    else Find(es[1..], audience, source)
  }

  predicate EntryWithin(e: Entry, p: Entry) {
    && e.audience == p.audience && e.source == p.source
    && (forall t :: t in e.tools ==> t in p.tools)
    && (forall x :: x in e.effects ==> x in p.effects)
    && (forall n :: n in p.limits ==> n in e.limits && e.limits[n] <= p.limits[n])
  }

  /** Every entry of the one is within the entry of the other for its audience and source. */
  predicate EntriesWithin(es: seq<Entry>, ps: seq<Entry>) {
    forall i :: 0 <= i < |es| ==> EntryCovered(es[i], ps)
  }

  predicate EntryCovered(e: Entry, ps: seq<Entry>) {
    var p := Find(ps, e.audience, e.source);
    p.Some? && EntryWithin(e, p.value)
  }

  predicate Narrows(c: Link, p: Link) {
    c.sub == p.sub && p.issuedAt <= c.issuedAt && c.expiresAt <= p.expiresAt && EntriesWithin(c.entries, p.entries) && p.mayDelegate
  }

  predicate Follows(c: Link, p: Link) {
    c.parent == Some(Parent(p.id, p.digest)) && c.depth == p.depth + 1 && c.depth <= MAX_DEPTH && c.host == p.host
  }

  predicate Whole(links: seq<Link>) {
    && 1 <= |links| <= MAX_DEPTH + 1 && links[0].parent.None? && links[0].depth == 0
    && forall k :: 0 < k < |links| ==> Follows(links[k], links[k - 1])
  }

  predicate Narrowing(links: seq<Link>) { forall k :: 0 < k < |links| ==> Narrows(links[k], links[k - 1]) }

  predicate AllForm(links: seq<Link>) { forall k :: 0 <= k < |links| ==> LinkForm(links[k]) }

  predicate Accepted(links: seq<Link>) { AllForm(links) && Whole(links) && Narrowing(links) }

  method CheckEntry(e: Entry, ps: seq<Entry>) returns (ok: bool)
    ensures ok == EntryCovered(e, ps)
  {
    var parent := FindEntry(ps, e.audience, e.source);
    if parent.None? { return false; }
    var p := parent.value;
    for i := 0 to |e.tools|
      invariant forall k :: 0 <= k < i ==> e.tools[k] in p.tools
    {
      if e.tools[i] !in p.tools { return false; }
    }
    for i := 0 to |e.effects|
      invariant forall k :: 0 <= k < i ==> e.effects[k] in p.effects
    {
      if e.effects[i] !in p.effects { return false; }
    }
    var names := p.limits.Keys;
    while names != {}
      invariant names <= p.limits.Keys
      invariant forall n :: n in p.limits && n !in names ==> n in e.limits && e.limits[n] <= p.limits[n]
      decreases |names|
    {
      var n :| n in names;
      if n !in e.limits || e.limits[n] > p.limits[n] { return false; }
      names := names - {n};
    }
    return true;
  }

  method FindEntry(es: seq<Entry>, audience: Audience, source: Text) returns (r: Option<Entry>)
    ensures r == Find(es, audience, source)
  {
    for i := 0 to |es|
      invariant Find(es, audience, source) == Find(es[i..], audience, source)
    {
      if es[i].audience == audience && es[i].source == source { return Some(es[i]); }
      assert es[i..][1..] == es[i + 1..];
    }
    return None;
  }

  method CheckNarrows(c: Link, p: Link) returns (ok: bool)
    ensures ok == Narrows(c, p)
  {
    if c.sub != p.sub { return false; }
    if c.issuedAt < p.issuedAt || c.expiresAt > p.expiresAt { return false; }
    for i := 0 to |c.entries|
      invariant forall k :: 0 <= k < i ==> EntryCovered(c.entries[k], p.entries)
    {
      var covered := CheckEntry(c.entries[i], p.entries);
      if !covered { return false; }
    }
    return p.mayDelegate;
  }

  /** verifyDelegationChain from step 6 on, for links that passed the steps before it. */
  method VerifyChain(links: seq<Link>) returns (r: Option<Refusal>)
    requires 1 <= |links| <= MAX_DEPTH + 1 && AllForm(links)
    ensures r.None? <==> Accepted(links)
    ensures r == Some(ChainBroken) <==> !Whole(links)
    ensures r == Some(Widened) <==> Whole(links) && !Narrowing(links)
  {
    if links[0].parent.Some? || links[0].depth != 0 { return Some(ChainBroken); }
    for k := 1 to |links|
      invariant forall j :: 0 < j < k ==> Follows(links[j], links[j - 1])
    {
      var c, p := links[k], links[k - 1];
      if c.parent != Some(Parent(p.id, p.digest)) { return Some(ChainBroken); }
      if c.depth != p.depth + 1 || c.depth > MAX_DEPTH { return Some(ChainBroken); }
      if c.host != p.host { return Some(ChainBroken); }
    }
    for k := 1 to |links|
      invariant forall j :: 0 < j < k ==> Narrows(links[j], links[j - 1])
    {
      var ok := CheckNarrows(links[k], links[k - 1]);
      if !ok { return Some(Widened); }
    }
    return None;
  }

  /* ---------- Step 8: time ---------- */

  /** The answer over a list of links: not yet valid before expired. */
  function TimeRefusal(links: seq<Link>, t: int): Option<Refusal> {
    if exists i :: 0 <= i < |links| && t < links[i].issuedAt then Some(NotYetValid)
    else if exists i :: 0 <= i < |links| && links[i].expiresAt <= t then Some(Expired)
    else None
  }

  method CheckTime(links: seq<Link>, t: int) returns (r: Option<Refusal>)
    ensures r == TimeRefusal(links, t)
  {
    for i := 0 to |links|
      invariant forall k :: 0 <= k < i ==> links[k].issuedAt <= t
    {
      if t < links[i].issuedAt { return Some(NotYetValid); }
    }
    for i := 0 to |links|
      invariant forall k :: 0 <= k < i ==> t < links[k].expiresAt
    {
      if !(t < links[i].expiresAt) { return Some(Expired); }
    }
    return None;
  }

  /* ---------- Step 11: scope ---------- */

  datatype Call = Call(audience: Text, source: Text, tool: Text, effect: Option<Effect>, sourceToolOnly: bool)

  /** One link's reason against a call, if it has one. */
  function LinkReason(l: Link, c: Call): Option<Reason> {
    var entry := Find(l.entries, Gateway(c.audience), c.source);
    if entry.None? then Some(SourceReason)
    else if c.tool == [] || c.tool !in entry.value.tools then Some(ToolReason)
    else if c.sourceToolOnly then None
    else if c.effect.None? || c.effect.value !in entry.value.effects then Some(EffectReason)
    else if exists n :: n in entry.value.limits && n != CALLS then Some(LimitUnknown)
    else None
  }

  function ScopeCheck(links: seq<Link>, c: Call): Option<Reason> {
    if links == [] then None
    else
      var reason := LinkReason(links[0], c);
      if reason.Some? then reason else ScopeCheck(links[1..], c)
  }

  method CheckScope(links: seq<Link>, c: Call) returns (r: Option<Reason>)
    ensures r == ScopeCheck(links, c)
  {
    for i := 0 to |links|
      invariant ScopeCheck(links, c) == ScopeCheck(links[i..], c)
    {
      assert links[i..][0] == links[i] && links[i..][1..] == links[i + 1..];
      var entry := FindEntry(links[i].entries, Gateway(c.audience), c.source);
      if entry.None? { return Some(SourceReason); }
      if c.tool == [] || c.tool !in entry.value.tools { return Some(ToolReason); }
      if !c.sourceToolOnly {
        if c.effect.None? || c.effect.value !in entry.value.effects { return Some(EffectReason); }
        if entry.value.limits.Keys - {CALLS} != {} {
          var n :| n in entry.value.limits.Keys - {CALLS};
          assert n in entry.value.limits && n != CALLS;
          return Some(LimitUnknown);
        }
        assert forall n :: n in entry.value.limits ==> n in entry.value.limits.Keys - {CALLS} || n == CALLS;
      }
    }
    return None;
  }

  /* ---------- Read-only chains ---------- */

  predicate ReadOnlyEntries(es: seq<Entry>) {
    forall i :: 0 <= i < |es| ==> Propose !in es[i].effects && Act !in es[i].effects
  }

  predicate ReadOnly(links: seq<Link>) { forall k :: 0 <= k < |links| ==> ReadOnlyEntries(links[k].entries) }
}
