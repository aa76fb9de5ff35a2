/** Along a verified chain authority only narrows, so the leaf alone decides. */
module DelegationTheorems {
  import opened Wrappers
  import opened Utf8
  import opened Delegation

  /** Everything the one admits, the other admits too. */
  predicate LinkWithin(c: Link, p: Link) {
    c.sub == p.sub && c.host == p.host && p.issuedAt <= c.issuedAt && c.expiresAt <= p.expiresAt && EntriesWithin(c.entries, p.entries)
  }

  lemma {:induction false} FindSelf(es: seq<Entry>, i: nat)
    requires i < |es| && forall j, k :: 0 <= j < k < |es| ==> es[j].audience != es[k].audience || es[j].source != es[k].source
    ensures Find(es, es[i].audience, es[i].source) == Some(es[i])
  {
    if i > 0 { FindSelf(es[1..], i - 1); }
  }

  lemma EntriesWithinSelf(l: Link)
    requires LinkForm(l)
    ensures EntriesWithin(l.entries, l.entries)
  {
    forall j, k | 0 <= j < k < |l.entries|
      ensures l.entries[j].audience != l.entries[k].audience || l.entries[j].source != l.entries[k].source
    {
      if l.entries[j].audience == l.entries[k].audience && l.entries[j].source == l.entries[k].source { OneEntry(l, j, k); }
    }
    forall i | 0 <= i < |l.entries| ensures EntryCovered(l.entries[i], l.entries) { FindSelf(l.entries, i); }
  }

  lemma EntriesWithinTransitive(a: seq<Entry>, b: seq<Entry>, c: seq<Entry>)
    requires EntriesWithin(a, b) && EntriesWithin(b, c)
    ensures EntriesWithin(a, c)
  {
    forall i | 0 <= i < |a| ensures EntryCovered(a[i], c) {
      assert EntryCovered(a[i], b);
      var p := Find(b, a[i].audience, a[i].source).value;
      assert p in b;
      var j :| 0 <= j < |b| && b[j] == p;
      assert EntryCovered(b[j], c);
      var q := Find(c, p.audience, p.source).value;
      assert EntryWithin(a[i], q);
    }
  }

  /** The leaf, like every link, lies within each of its ancestors. */
  lemma {:induction false} WithinAncestors(links: seq<Link>, i: nat, j: nat)
    requires Accepted(links) && i <= j < |links|
    ensures LinkWithin(links[j], links[i])
    decreases j - i
  {
    if i == j {
      EntriesWithinSelf(links[i]);
    } else {
      WithinAncestors(links, i, j - 1);
      assert Narrows(links[j], links[j - 1]) && Follows(links[j], links[j - 1]);
      EntriesWithinTransitive(links[j].entries, links[j - 1].entries, links[i].entries);
    }
  }

  /* ---------- The same, link by link and entry by entry ---------- */

  lemma {:induction false} FindAt(es: seq<Entry>, audience: Audience, source: Text) returns (i: nat)
    requires Find(es, audience, source).Some?
    ensures i < |es| && Find(es, audience, source) == Some(es[i])
  {
    if es[0].audience == audience && es[0].source == source {
      i := 0;
    } else {
      i := FindAt(es[1..], audience, source);
      i := i + 1;
    }
  }

  lemma FindOwn(l: Link, i: nat)
    requires LinkForm(l) && i < |l.entries|
    ensures Find(l.entries, l.entries[i].audience, l.entries[i].source) == Some(l.entries[i])
  {
    EntriesWithinSelf(l);
    var j := FindAt(l.entries, l.entries[i].audience, l.entries[i].source);
    OneEntry(l, i, j);
  }

  /** A link narrows another exactly when the subject is the same, its validity lies in the other's, the
      other permits a child, and each of its entries has an entry there of the same audience and source
      whose tools and effects include its own, every limit named there being kept or lowered. */
  lemma NarrowsExactly(c: Link, p: Link)
    requires LinkForm(p)
    ensures Narrows(c, p) <==>
      && c.sub == p.sub && p.issuedAt <= c.issuedAt && c.expiresAt <= p.expiresAt && p.mayDelegate
      && forall a :: 0 <= a < |c.entries| ==> exists b :: (0 <= b < |p.entries|
           && c.entries[a].audience == p.entries[b].audience && c.entries[a].source == p.entries[b].source
           && (forall t :: t in c.entries[a].tools ==> t in p.entries[b].tools)
           && (forall x :: x in c.entries[a].effects ==> x in p.entries[b].effects)
           && (forall n :: n in p.entries[b].limits ==> n in c.entries[a].limits && c.entries[a].limits[n] <= p.entries[b].limits[n]))
  {
    forall a | 0 <= a < |c.entries| && EntryCovered(c.entries[a], p.entries) ensures
      exists b :: (0 <= b < |p.entries|
        && c.entries[a].audience == p.entries[b].audience && c.entries[a].source == p.entries[b].source
        && (forall t :: t in c.entries[a].tools ==> t in p.entries[b].tools)
        && (forall x :: x in c.entries[a].effects ==> x in p.entries[b].effects)
        && (forall n :: n in p.entries[b].limits ==> n in c.entries[a].limits && c.entries[a].limits[n] <= p.entries[b].limits[n]))
    {
      var b := FindAt(p.entries, c.entries[a].audience, c.entries[a].source);
    }
    forall b | 0 <= b < |p.entries| ensures Find(p.entries, p.entries[b].audience, p.entries[b].source) == Some(p.entries[b]) {
      FindOwn(p, b);
    }
  }

  /** Along an accepted chain, what a link grants, every link above it grants: the same audience and
      source, every tool and effect, and no limit dropped or raised. */
  lemma AuthorityNarrows(links: seq<Link>, i: nat, j: nat, a: nat) returns (b: nat)
    requires Accepted(links) && i <= j < |links| && a < |links[j].entries|
    ensures b < |links[i].entries|
    ensures links[j].entries[a].audience == links[i].entries[b].audience && links[j].entries[a].source == links[i].entries[b].source
    ensures forall t :: t in links[j].entries[a].tools ==> t in links[i].entries[b].tools
    ensures forall x :: x in links[j].entries[a].effects ==> x in links[i].entries[b].effects
    ensures forall n :: n in links[i].entries[b].limits ==>
      n in links[j].entries[a].limits && links[j].entries[a].limits[n] <= links[i].entries[b].limits[n]
    ensures links[j].sub == links[i].sub && links[j].host == links[i].host
    ensures links[i].issuedAt <= links[j].issuedAt && links[j].expiresAt <= links[i].expiresAt
  {
    WithinAncestors(links, i, j);
    assert EntryCovered(links[j].entries[a], links[i].entries);
    b := FindAt(links[i].entries, links[j].entries[a].audience, links[j].entries[a].source);
  }

  /** In a chain whole so far as names, depths and hosts go, a link is refused as widened where it has
      another subject, a validity outside its parent's, a parent that permits no child, a source its
      parent does not grant, or, for a source it does, a tool or an effect not granted or a limit dropped
      or raised. */
  lemma WideningRefused(links: seq<Link>, k: nat, a: nat)
    requires AllForm(links) && Whole(links) && 0 < k < |links|
    requires var c, p := links[k], links[k - 1];
      || c.sub != p.sub || c.issuedAt < p.issuedAt || p.expiresAt < c.expiresAt || !p.mayDelegate
      || (a < |c.entries| && forall b :: 0 <= b < |p.entries| ==>
            || p.entries[b].audience != c.entries[a].audience || p.entries[b].source != c.entries[a].source
            || (exists t :: t in c.entries[a].tools && t !in p.entries[b].tools)
            || (exists x :: x in c.entries[a].effects && x !in p.entries[b].effects)
            || (exists n :: n in p.entries[b].limits && (n !in c.entries[a].limits || p.entries[b].limits[n] < c.entries[a].limits[n])))
    ensures !Accepted(links) && !Narrowing(links)
  {
    if Narrowing(links) {
      var c, p := links[k], links[k - 1];
      assert Narrows(c, p);
      assert EntryCovered(c.entries[a], p.entries);
      var b := FindAt(p.entries, c.entries[a].audience, c.entries[a].source);
    }
  }

  predicate AtPlaces(links: seq<Link>) {
    && 1 <= |links| <= 5 && links[0].parent.None?
    && (forall k :: 0 <= k < |links| ==> links[k].depth == k && links[k].host == links[0].host)
    && (forall k :: 0 < k < |links| ==> Names(links[k], links[k - 1]))
  }

  /** A link carries the identifier and the digest of its parent. */
  predicate Names(c: Link, p: Link) { c.parent.Some? && c.parent.value.id == p.id && c.parent.value.digest == p.digest }

  /** A chain is whole exactly when the first link has no parent, every other names the identifier and
      digest of the one above it, all name one host, and depth is the position. */
  lemma WholeExactly(links: seq<Link>)
    ensures Whole(links) <==> AtPlaces(links)
  {
    if Whole(links) {
      forall k | 0 <= k < |links| ensures links[k].depth == k && links[k].host == links[0].host { DepthIsPlace(links, k); }
      forall k | 0 < k < |links| ensures Names(links[k], links[k - 1]) { assert Follows(links[k], links[k - 1]); }
    } else if AtPlaces(links) {
      forall k | 0 < k < |links| ensures Follows(links[k], links[k - 1]) {
        assert links[k].depth == k && links[k - 1].depth == k - 1 && Names(links[k], links[k - 1]);
      }
    }
  }

  lemma {:induction false} DepthIsPlace(links: seq<Link>, k: nat)
    requires Whole(links) && k < |links|
    ensures links[k].depth == k && links[k].host == links[0].host
  {
    if k > 0 {
      DepthIsPlace(links, k - 1);
      assert Follows(links[k], links[k - 1]);
    }
  }

  /* ---------- The order of entries and of effects ---------- */

  function AudienceKind(a: Audience): Text { Ascii(if a.AgentHost? then "agent-host" else "gateway") }

  /** Entries are ordered by audience kind, then audience name, then source, each by code point. */
  lemma EntryOrder(a: Entry, b: Entry)
    ensures EntryLess(a, b) <==>
      if AudienceKind(a.audience) != AudienceKind(b.audience) then CodePointLess(AudienceKind(a.audience), AudienceKind(b.audience))
      else if a.audience.name != b.audience.name then CodePointLess(a.audience.name, b.audience.name)
      else CodePointLess(a.source, b.source)
  {
    var host, gateway := Ascii("agent-host"), Ascii("gateway");
    assert host[0] == 0x61 && gateway[0] == 0x67;
    assert AudienceKind(a.audience) == AudienceKind(b.audience) <==> a.audience.AgentHost? == b.audience.AgentHost?;
    assert CodePointLess(host, gateway) && !CodePointLess(gateway, host);
  }

  /** Effects in ascending order are in the order pure, read, read-external, propose, act, and no other
      order of the five is ascending. */
  lemma EffectOrder(s: seq<Effect>)
    requires |s| == 5 && AscendingEffects(s)
    ensures s == [Pure, Read, ReadExternal, Propose, Act]
  {
    assert s[0].Strength() < s[1].Strength() < s[2].Strength() < s[3].Strength() < s[4].Strength();
  }

  /** Every link but the leaf permits a child, and depth counts the links above. */
  lemma {:induction false} DepthCounts(links: seq<Link>, k: nat)
    requires Accepted(links) && k < |links|
    ensures links[k].depth == k && (k + 1 < |links| ==> links[k].mayDelegate)
  {
    if k > 0 {
      DepthCounts(links, k - 1);
      assert Follows(links[k], links[k - 1]);
    }
    if k + 1 < |links| { assert Narrows(links[k + 1], links[k]); }
  }

  function Leaf(links: seq<Link>): Link
    requires |links| > 0
  {
    links[|links| - 1]
  }

  /** Step 8 over all links answers as it would on the leaf alone. */
  lemma LeafDecidesTime(links: seq<Link>, t: int)
    requires Accepted(links)
    ensures TimeRefusal(links, t) == TimeRefusal([Leaf(links)], t)
    ensures TimeRefusal(links, t).None? <==> Leaf(links).issuedAt <= t < Leaf(links).expiresAt
    ensures TimeRefusal(links, t) == Some(NotYetValid) <==> t < Leaf(links).issuedAt
    ensures TimeRefusal(links, t) == Some(Expired) <==> Leaf(links).expiresAt <= t
  {
    var leaf := [Leaf(links)];
    forall i | 0 <= i < |links| ensures links[i].issuedAt <= leaf[0].issuedAt && leaf[0].expiresAt <= links[i].expiresAt {
      WithinAncestors(links, i, |links| - 1);
    }
    assert links[|links| - 1] == leaf[0];
  }

  /** What one link says of a call: its entry for the gateway and the source, if it has one, decides, and
      the reasons are told in the order source, tool, effect, limit. */
  lemma ReasonMeans(l: Link, c: Call)
    requires LinkForm(l)
    ensures LinkReason(l, c) == Some(SourceReason) <==>
      forall i :: 0 <= i < |l.entries| ==> l.entries[i].audience != Gateway(c.audience) || l.entries[i].source != c.source
    ensures forall i :: 0 <= i < |l.entries| && l.entries[i].audience == Gateway(c.audience) && l.entries[i].source == c.source ==>
      && (LinkReason(l, c) == Some(ToolReason) <==> c.tool == [] || c.tool !in l.entries[i].tools)
      && (LinkReason(l, c) == Some(EffectReason) <==>
            && c.tool != [] && c.tool in l.entries[i].tools && !c.sourceToolOnly
            && (c.effect.None? || c.effect.value !in l.entries[i].effects))
      && (LinkReason(l, c) == Some(LimitUnknown) <==>
            && c.tool != [] && c.tool in l.entries[i].tools && !c.sourceToolOnly
            && c.effect.Some? && c.effect.value in l.entries[i].effects
            && exists n :: n in l.entries[i].limits && n != Ascii("calls"))
  {
    assert Ascii("calls") == CALLS;
    forall i | 0 <= i < |l.entries| ensures Find(l.entries, l.entries[i].audience, l.entries[i].source) == Some(l.entries[i]) {
      FindOwn(l, i);
    }
    if Find(l.entries, Gateway(c.audience), c.source).Some? { var i := FindAt(l.entries, Gateway(c.audience), c.source); }
  }

  /** A link admits a call exactly when it has an entry for the gateway and the source that names the tool
      and, unless only source and tool are asked, names the effect and no limit but calls. */
  lemma AdmitsExactly(l: Link, c: Call)
    requires LinkForm(l)
    ensures LinkReason(l, c).None? <==> Grants(l, c)
  {
    ReasonMeans(l, c);
    if LinkReason(l, c).None? {
      var i := FindAt(l.entries, Gateway(c.audience), c.source);
      assert GrantsCall(l.entries[i], c);
    }
  }

  ghost predicate Grants(l: Link, c: Call) { exists i :: 0 <= i < |l.entries| && GrantsCall(l.entries[i], c) }

  ghost predicate GrantsCall(e: Entry, c: Call) {
    && e.audience == Gateway(c.audience) && e.source == c.source && c.tool != [] && c.tool in e.tools
    && (c.sourceToolOnly || (c.effect.Some? && c.effect.value in e.effects && forall n :: n in e.limits ==> n == Ascii("calls")))
  }

  lemma ReasonUp(c: Link, p: Link, call: Call)
    requires EntriesWithin(c.entries, p.entries) && LinkReason(c, call).None?
    ensures LinkReason(p, call).None?
  {
    var e := Find(c.entries, Gateway(call.audience), call.source).value;
    var i :| 0 <= i < |c.entries| && c.entries[i] == e;
    assert EntryCovered(c.entries[i], p.entries);
  }

  lemma {:induction false} ScopeNone(links: seq<Link>, call: Call)
    ensures ScopeCheck(links, call).None? <==> forall k :: 0 <= k < |links| ==> LinkReason(links[k], call).None?
  {
    if links != [] {
      ScopeNone(links[1..], call);
      assert forall k :: 0 < k < |links| ==> links[k] == links[1..][k - 1];
    }
  }

  /** Step 11 over all links admits a call exactly when the leaf has an entry that grants it. */
  lemma LeafDecidesScope(links: seq<Link>, call: Call)
    requires Accepted(links)
    ensures ScopeCheck(links, call).None? <==> Grants(Leaf(links), call)
  {
    AdmitsExactly(Leaf(links), call);
    ScopeNone(links, call);
    var n := |links| - 1;
    if LinkReason(links[n], call).None? {
      forall k | 0 <= k < |links| ensures LinkReason(links[k], call).None? {
        WithinAncestors(links, k, n);
        ReasonUp(links[n], links[k], call);
      }
    }
  }

  lemma ReadOnlyDown(c: Link, p: Link)
    requires EntriesWithin(c.entries, p.entries) && ReadOnlyEntries(p.entries)
    ensures ReadOnlyEntries(c.entries)
  {
    forall i | 0 <= i < |c.entries| ensures Propose !in c.entries[i].effects && Act !in c.entries[i].effects {
      assert EntryCovered(c.entries[i], p.entries);
      var q := Find(p.entries, c.entries[i].audience, c.entries[i].source).value;
      var j :| 0 <= j < |p.entries| && p.entries[j] == q;
    }
  }

  /** A chain admits no write exactly when its root's entries name only pure, read and read-external. */
  lemma RootDecidesReadOnly(links: seq<Link>)
    requires Accepted(links)
    ensures ReadOnly(links) <==>
      forall i, x :: 0 <= i < |links[0].entries| && x in links[0].entries[i].effects ==> x == Pure || x == Read || x == ReadExternal
  {
    assert ReadOnlyEntries(links[0].entries) <==>
      forall i, x :: 0 <= i < |links[0].entries| && x in links[0].entries[i].effects ==> x == Pure || x == Read || x == ReadExternal;
    if ReadOnlyEntries(links[0].entries) {
      forall k | 0 <= k < |links| ensures ReadOnlyEntries(links[k].entries) {
        WithinAncestors(links, 0, k);
        ReadOnlyDown(links[k], links[0]);
      }
    }
  }
}
