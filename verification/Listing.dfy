/** The bounded tool listing (go/descriptor_start.go), in the sizes of its entries. Verifying the
    snapshots read is not part of it. */
module Listing {
  import opened Wrappers
  import opened Utf8

  /** A tool, the platform that serves it, and how long its entry is without a snapshot and from
      its platform's snapshot. A seal tool is no platform's. */
  datatype Tool = Tool(name: Text, platform: Option<Text>, plain: nat, described: nat)

  datatype Platform = Platform(name: Text, pinned: bool)

  predicate Distinct(tools: seq<Tool>) { forall i, j :: 0 <= i < j < |tools| ==> tools[i].name != tools[j].name }

  predicate DistinctPlatforms(ps: seq<Platform>) { forall i, j :: 0 <= i < j < |ps| ==> ps[i].name != ps[j].name }

  /** A tool described from a snapshot is never shorter than described without one. */
  predicate NeverShorter(tools: seq<Tool>) { forall i :: 0 <= i < |tools| ==> tools[i].plain <= tools[i].described }

  /* ---------- The simple rule ---------- */

  function EntrySize(t: Tool, served: set<Text>): nat {
    if t.platform.Some? && t.platform.value in served then t.described else t.plain
  }

  function Sum(tools: seq<Tool>, served: set<Text>): nat {
    if tools == [] then 0 else EntrySize(tools[0], served) + Sum(tools[1..], served)
  }

  /** The whole answer: what stands around the entries, the entries and the commas between. */
  function AnswerSize(frame: nat, tools: seq<Tool>, served: set<Text>): nat {
    frame + Sum(tools, served) + if tools == [] then 0 else |tools| - 1
  }

  /** The platforms served from their snapshots when those of the first k are kept. */
  function Served(ps: seq<Platform>, k: nat): set<Text>
    requires k <= |ps|
  {
    set i | 0 <= i < k && ps[i].pinned :: ps[i].name
  }

  /** Drop snapshots from the table's end until the answer fits. */
  function DropUntilFits(frame: nat, tools: seq<Tool>, ps: seq<Platform>, bound: nat, k: nat): (kept: nat)
    requires k <= |ps|
    ensures kept <= k
  {
    if k == 0 || AnswerSize(frame, tools, Served(ps, k)) <= bound then k
    else DropUntilFits(frame, tools, ps, bound, k - 1)
  }

  /** The pinned platforms from the k-th on, last first. */
  function Dropped(ps: seq<Platform>, k: nat): seq<Text>
    requires k <= |ps|
    decreases |ps| - k
  {
    if k == |ps| then [] else Dropped(ps, k + 1) + if ps[k].pinned then [ps[k].name] else []
  }

  /** Entries with commas between them. */
  function Joined(entries: seq<Bytes>): Bytes {
    if entries == [] then [] else if |entries| == 1 then entries[0] else entries[0] + [0x2C] + Joined(entries[1..])
  }

  /** The answer's size is the length of its bytes: what stands before the entries, the entries joined by
      commas, and what stands after. */
  lemma {:induction false} AnswerIsJoined(head: Bytes, entries: seq<Bytes>, tail: Bytes, tools: seq<Tool>, served: set<Text>)
    requires |entries| == |tools| && forall i :: 0 <= i < |tools| ==> |entries[i]| == EntrySize(tools[i], served)
    ensures |head + Joined(entries) + tail| == AnswerSize(|head| + |tail|, tools, served)
    decreases |tools|
  {
    if |tools| > 1 { AnswerIsJoined(head, entries[1..], tail, tools[1..], served); }
  }

  /** What is kept fits, unless nothing is, and keeping more of the table's start would not. */
  lemma {:induction false} KeptIsMost(frame: nat, tools: seq<Tool>, ps: seq<Platform>, bound: nat, k: nat, j: nat)
    requires k <= |ps|
    ensures var kept := DropUntilFits(frame, tools, ps, bound, k);
      && (kept > 0 ==> AnswerSize(frame, tools, Served(ps, kept)) <= bound)
      && (kept < j <= k ==> bound < AnswerSize(frame, tools, Served(ps, j)))
    decreases k
  {
    if k > 0 && AnswerSize(frame, tools, Served(ps, k)) > bound { KeptIsMost(frame, tools, ps, bound, k - 1, j); }
  }

  /* ---------- Growth ---------- */

  lemma {:induction false} SumGrows(tools: seq<Tool>, a: set<Text>, b: set<Text>)
    requires NeverShorter(tools) && a <= b
    ensures Sum(tools, a) <= Sum(tools, b)
  {
    if tools != [] { SumGrows(tools[1..], a, b); }
  }

  lemma ServedGrows(ps: seq<Platform>, j: nat, k: nat)
    requires j <= k <= |ps|
    ensures Served(ps, j) <= Served(ps, k)
  {
  }

  lemma ServedStep(ps: seq<Platform>, k: nat)
    requires k < |ps|
    ensures Served(ps, k + 1) == if ps[k].pinned then Served(ps, k) + {ps[k].name} else Served(ps, k)
    ensures DistinctPlatforms(ps) ==> ps[k].name !in Served(ps, k)
  {
    var more := if ps[k].pinned then Served(ps, k) + {ps[k].name} else Served(ps, k);
    forall n | n in Served(ps, k + 1) ensures n in more {
      var i :| 0 <= i < k + 1 && ps[i].pinned && ps[i].name == n;
    }
    forall n | n in more ensures n in Served(ps, k + 1) {
      if n in Served(ps, k) { var i :| 0 <= i < k && ps[i].pinned && ps[i].name == n; }
    }
  }

  /** What fits is the longest run from the table's start that does. */
  lemma {:induction false} LongestRun(frame: nat, tools: seq<Tool>, ps: seq<Platform>, bound: nat, kept: nat, k: nat)
    requires NeverShorter(tools) && kept <= k <= |ps|
    requires AnswerSize(frame, tools, Served(ps, kept)) <= bound
    requires kept < |ps| ==> AnswerSize(frame, tools, Served(ps, kept + 1)) > bound
    ensures DropUntilFits(frame, tools, ps, bound, k) == kept
    decreases k
  {
    if k > kept {
      ServedGrows(ps, kept + 1, k);
      SumGrows(tools, Served(ps, kept + 1), Served(ps, k));
      LongestRun(frame, tools, ps, bound, kept, k - 1);
    }
  }

  /* ---------- One platform's tools ---------- */

  function ToolsOf(tools: seq<Tool>, platform: Text): seq<Tool> {
    if tools == [] then []
    else (if tools[0].platform == Some(platform) then [tools[0]] else []) + ToolsOf(tools[1..], platform)
  }

  function Growth(tools: seq<Tool>): int {
    if tools == [] then 0 else tools[0].described - tools[0].plain + Growth(tools[1..])
  }

  lemma {:induction false} ServingOne(tools: seq<Tool>, served: set<Text>, platform: Text)
    requires platform !in served
    ensures Sum(tools, served + {platform}) == Sum(tools, served) + Growth(ToolsOf(tools, platform))
  {
    if tools != [] {
      ServingOne(tools[1..], served, platform);
      if tools[0].platform == Some(platform) {
        assert ToolsOf(tools, platform)[1..] == ToolsOf(tools[1..], platform);
      } else {
        assert ToolsOf(tools, platform) == ToolsOf(tools[1..], platform);
      }
    }
  }

  lemma {:induction false} ToolsOfMember(tools: seq<Tool>, platform: Text, t: Tool)
    ensures t in ToolsOf(tools, platform) <==> t in tools && t.platform == Some(platform)
  {
    if tools != [] {
      ToolsOfMember(tools[1..], platform, t);
      assert t in tools <==> t == tools[0] || t in tools[1..];
    }
  }

  lemma {:induction false} GrowthNeverNegative(tools: seq<Tool>)
    requires NeverShorter(tools)
    ensures Growth(tools) >= 0
  {
    if tools != [] { GrowthNeverNegative(tools[1..]); }
  }

  lemma {:induction false} GrowthSplit(tools: seq<Tool>, i: nat)
    requires i < |tools|
    ensures Growth(tools[..i + 1]) == Growth(tools[..i]) + tools[i].described - tools[i].plain
    decreases i
  {
    var front := tools[..i + 1];
    if i == 0 {
      assert front[1..] == [] && tools[..0] == [];
    } else {
      GrowthSplit(tools[1..], i - 1);
      assert front[1..] == tools[1..][..i] && tools[..i][1..] == tools[1..][..i - 1];
    }
  }

  lemma {:induction false} GrowthRest(tools: seq<Tool>, i: nat)
    requires i <= |tools| && NeverShorter(tools)
    ensures Growth(tools[..i]) <= Growth(tools)
  {
    if i == 0 {
      GrowthNeverNegative(tools);
      assert tools[..0] == [];
    } else {
      GrowthRest(tools[1..], i - 1);
      assert tools[..i][1..] == tools[1..][..i - 1];
    }
  }

  /** listingEntry as a size function: none when the entry would pass the limit, and a negative
      limit is none. */
  function ListingEntry(size: nat, limit: int): Option<nat> { if limit >= 0 && size > limit then None else Some(size) }

  /* ---------- The listing counted with no snapshot ---------- */

  class ListingCount {
    const bound: nat
    var entries: map<Text, nat>
    var total: nat

    constructor (frame: nat, bound: nat)
      ensures this.bound == bound && entries == map[] && total == frame
    {
      this.bound, entries, total := bound, map[], frame;
    }

    method Add(t: Tool) returns (ok: bool)
      modifies this
      ensures entries == old(entries)[t.name := t.plain]
      ensures total == old(total) + t.plain + if |old(entries)| > 0 then 1 else 0
      ensures ok == (total <= bound)
    {
      if |entries| > 0 { total := total + 1; }
      total := total + t.plain;
      entries := entries[t.name := t.plain];
      ok := total <= bound;
    }
  }

  predicate Counts(entries: map<Text, nat>, tools: seq<Tool>, served: set<Text>) {
    forall i :: 0 <= i < |tools| ==> tools[i].name in entries && entries[tools[i].name] == EntrySize(tools[i], served)
  }

  lemma {:induction false} SumOnto(tools: seq<Tool>, t: Tool, served: set<Text>)
    ensures Sum(tools + [t], served) == Sum(tools, served) + EntrySize(t, served)
  {
    if tools == [] {
      assert tools + [t] == [t] && [t][1..] == [];
    } else {
      SumOnto(tools[1..], t, served);
      assert (tools + [t])[1..] == tools[1..] + [t];
    }
  }

  lemma CountsOnto(entries: map<Text, nat>, tools: seq<Tool>, t: Tool)
    requires Counts(entries, tools, {}) && Distinct(tools + [t])
    ensures Counts(entries[t.name := t.plain], tools + [t], {})
  {
    var all, more := tools + [t], entries[t.name := t.plain];
    forall i | 0 <= i < |all| ensures all[i].name in more && more[all[i].name] == EntrySize(all[i], {}) {
      if i < |tools| { assert all[i] == tools[i] && all[i].name != all[|tools|].name; }
    }
  }

  /** The table counted tool by tool: its total is the answer's size with every snapshot dropped,
      or the start is refused because that passes the bound. */
  method CountListing(frame: nat, bound: nat, tools: seq<Tool>) returns (count: ListingCount, ok: bool)
    requires Distinct(tools) && frame <= bound
    ensures ok <==> AnswerSize(frame, tools, {}) <= bound
    ensures ok ==> count.bound == bound && count.total == AnswerSize(frame, tools, {}) && Counts(count.entries, tools, {})
  {
    count := new ListingCount(frame, bound);
    assert tools[..0] == [];
    for i := 0 to |tools|
      invariant count.bound == bound && count.total == AnswerSize(frame, tools[..i], {}) <= bound
      invariant Counts(count.entries, tools[..i], {}) && (|count.entries| == 0 <==> i == 0)
    {
      var t := tools[i];
      assert tools[..i + 1] == tools[..i] + [t];
      SumOnto(tools[..i], t, {});
      CountsOnto(count.entries, tools[..i], t);
      ok := count.Add(t);
      if !ok {
        SumFront(tools, i + 1);
        return;
      }
    }
    assert tools[..|tools|] == tools;
    ok := true;
  }

  lemma {:induction false} SumFront(tools: seq<Tool>, i: nat)
    requires i <= |tools|
    ensures Sum(tools[..i], {}) <= Sum(tools, {})
  {
    if i > 0 {
      SumFront(tools[1..], i - 1);
      assert tools[..i][1..] == tools[1..][..i - 1];
    } else {
      assert tools[..0] == [];
    }
  }

  /* ---------- buildListing ---------- */

  /** Exactly the first j tools are described, each as its snapshot says. */
  predicate DescribedTo(described: map<Text, nat>, ts: seq<Tool>, j: nat) {
    && j <= |ts| && (forall n :: n in described ==> exists i :: 0 <= i < j && ts[i].name == n)
    && forall i :: 0 <= i < j ==> ts[i].name in described && described[ts[i].name] == ts[i].described
  }

  lemma DescribedNext(described: map<Text, nat>, ts: seq<Tool>, j: nat)
    requires DescribedTo(described, ts, j) && j < |ts| && Distinct(ts)
    ensures DescribedTo(described[ts[j].name := ts[j].described], ts, j + 1)
  {
    var more := described[ts[j].name := ts[j].described];
    forall n | n in more ensures exists i :: 0 <= i < j + 1 && ts[i].name == n {
      if n == ts[j].name { assert ts[j].name == n; } else { var i :| 0 <= i < j && ts[i].name == n; }
    }
    forall i | 0 <= i < j + 1 ensures ts[i].name in more && more[ts[i].name] == ts[i].described {
      if i < j { assert ts[i].name != ts[j].name; }
    }
  }

  /** One platform's entries from its snapshot, as far as the room left; full when one has none. */
  method Describe(bound: nat, total: nat, entries: map<Text, nat>, ts: seq<Tool>) returns (full: bool, grown: int, described: map<Text, nat>)
    requires total <= bound && NeverShorter(ts) && Distinct(ts)
    requires forall i :: 0 <= i < |ts| ==> ts[i].name in entries && entries[ts[i].name] == ts[i].plain
    ensures full <==> total + Growth(ts) > bound
    ensures !full ==> grown == Growth(ts) && DescribedTo(described, ts, |ts|)
  {
    full, grown, described := false, 0, map[];
    assert ts[..0] == [];
    for j := 0 to |ts|
      invariant grown == Growth(ts[..j]) && total + grown <= bound
      invariant DescribedTo(described, ts, j)
    {
      var t := ts[j];
      var room := bound - total - grown + entries[t.name];
      assert room >= entries[t.name];
      GrowthSplit(ts, j);
      var entry := ListingEntry(t.described, room);
      if entry.None? {
        GrowthRest(ts, j + 1);
        full := true;
        return;
      }
      DescribedNext(described, ts, j);
      described := described[t.name := entry.value];
      grown := grown + entry.value - entries[t.name];
    }
    assert ts[..|ts|] == ts;
  }

  lemma {:induction false} ToolsOfForm(tools: seq<Tool>, platform: Text)
    requires Distinct(tools)
    ensures Distinct(ToolsOf(tools, platform))
    ensures NeverShorter(tools) ==> NeverShorter(ToolsOf(tools, platform))
  {
    var ts := ToolsOf(tools, platform);
    if tools != [] {
      ToolsOfForm(tools[1..], platform);
      var rest := ToolsOf(tools[1..], platform);
      if tools[0].platform == Some(platform) {
        assert ts == [tools[0]] + rest;
        forall j | 0 < j < |ts| ensures ts[0].name != ts[j].name {
          ToolsOfMember(tools[1..], platform, ts[j]);
          var k :| 0 <= k < |tools[1..]| && tools[1..][k] == ts[j];
          assert tools[k + 1] == ts[j];
        }
      } else {
        assert ts == rest;
      }
    }
  }

  lemma CountedBefore(entries: map<Text, nat>, tools: seq<Tool>, served: set<Text>, platform: Text)
    requires Counts(entries, tools, served) && platform !in served
    ensures var ts := ToolsOf(tools, platform);
      forall i :: 0 <= i < |ts| ==> ts[i].name in entries && entries[ts[i].name] == ts[i].plain
  {
    var ts := ToolsOf(tools, platform);
    forall i | 0 <= i < |ts| ensures ts[i].name in entries && entries[ts[i].name] == ts[i].plain {
      ToolsOfMember(tools, platform, ts[i]);
      var k :| 0 <= k < |tools| && tools[k] == ts[i];
    }
  }

  lemma CountedAfter(entries: map<Text, nat>, described: map<Text, nat>, tools: seq<Tool>, served: set<Text>, platform: Text)
    requires Counts(entries, tools, served) && Distinct(tools)
    requires DescribedTo(described, ToolsOf(tools, platform), |ToolsOf(tools, platform)|)
    ensures Counts(entries + described, tools, served + {platform})
  {
    var ts := ToolsOf(tools, platform);
    forall k | 0 <= k < |tools|
      ensures tools[k].name in entries + described && (entries + described)[tools[k].name] == EntrySize(tools[k], served + {platform})
    {
      var t := tools[k];
      if t.platform == Some(platform) {
        ToolsOfMember(tools, platform, t);
        var i :| 0 <= i < |ts| && ts[i] == t;
      } else {
        OthersDiffer(tools, platform, k);
        assert t.name !in described;
      }
    }
  }

  lemma OthersDiffer(tools: seq<Tool>, platform: Text, k: nat)
    requires Distinct(tools) && k < |tools| && tools[k].platform != Some(platform)
    ensures var ts := ToolsOf(tools, platform); forall i :: 0 <= i < |ts| ==> ts[i].name != tools[k].name
  {
    var ts := ToolsOf(tools, platform);
    forall i | 0 <= i < |ts| ensures ts[i].name != tools[k].name {
      ToolsOfMember(tools, platform, ts[i]);
      var j :| 0 <= j < |tools| && tools[j] == ts[i];
    }
  }

  /** One platform's turn: served whole from its snapshot if the answer then fits, or not at all. */
  method ServePlatform(frame: nat, bound: nat, tools: seq<Tool>, platform: Text, before: nat, held: map<Text, nat>,
                       ghost served: set<Text>) returns (full: bool, total: nat, entries: map<Text, nat>)
    requires Distinct(tools) && NeverShorter(tools) && platform !in served
    requires before == AnswerSize(frame, tools, served) <= bound && Counts(held, tools, served)
    ensures full <==> AnswerSize(frame, tools, served + {platform}) > bound
    ensures full ==> total == before && entries == held
    ensures !full ==> total == AnswerSize(frame, tools, served + {platform}) && Counts(entries, tools, served + {platform})
  {
    var ts := ToolsOf(tools, platform);
    ToolsOfForm(tools, platform);
    CountedBefore(held, tools, served, platform);
    ServingOne(tools, served, platform);
    GrowthNeverNegative(ts);
    total, entries := before, held;
    var grown, described;
    full, grown, described := Describe(bound, before, held, ts);
    if !full {
      CountedAfter(held, described, tools, served, platform);
      entries, total := held + described, before + grown;
    }
  }

  /** The listing built in one greedy pass: it serves from their snapshots exactly the platforms
      that dropping from the table's end until the answer fits leaves, and its total is the
      answer's real size, within the bound. */
  method BuildListing(frame: nat, bound: nat, tools: seq<Tool>, platforms: seq<Platform>, counted: nat, plain: map<Text, nat>)
    returns (list: seq<nat>, dropped: seq<Text>, total: nat)
    requires Distinct(tools) && DistinctPlatforms(platforms) && NeverShorter(tools)
    requires counted == AnswerSize(frame, tools, {}) <= bound && Counts(plain, tools, {})
    ensures var kept := DropUntilFits(frame, tools, platforms, bound, |platforms|);
      && total == AnswerSize(frame, tools, Served(platforms, kept)) <= bound
      && |list| == |tools| && (forall i :: 0 <= i < |tools| ==> list[i] == EntrySize(tools[i], Served(platforms, kept)))
      && dropped == Dropped(platforms, kept)
  {
    total, dropped := counted, [];
    ghost var kept := 0;
    var entries, full := plain, false;
    assert Served(platforms, 0) == {};
    for i := 0 to |platforms|
      invariant kept <= i && (if full then kept < i else kept == i)
      invariant full ==> AnswerSize(frame, tools, Served(platforms, kept + 1)) > bound
      invariant total == AnswerSize(frame, tools, Served(platforms, kept)) <= bound
      invariant Counts(entries, tools, Served(platforms, kept))
      invariant dropped == Between(platforms, kept, i)
    {
      var p := platforms[i];
      ServedStep(platforms, i);
      if !p.pinned {
        if !full { kept := i + 1; }
        continue;
      }
      if !full {
        full, total, entries := ServePlatform(frame, bound, tools, p.name, total, entries, Served(platforms, i));
        if !full {
          kept := i + 1;
          continue;
        }
      }
      dropped := [p.name] + dropped;
    }
    list := seq(|tools|, i requires 0 <= i < |tools| => entries[tools[i].name]);
    LongestRun(frame, tools, platforms, bound, kept, |platforms|);
    BetweenDropped(platforms, kept);
  }

  /** The pinned platforms from k to below n, last first. */
  function Between(ps: seq<Platform>, k: nat, n: nat): seq<Text>
    requires k <= n <= |ps|
  {
    if n == k then [] else (if ps[n - 1].pinned then [ps[n - 1].name] else []) + Between(ps, k, n - 1)
  }

  lemma {:induction false} BetweenFirst(ps: seq<Platform>, k: nat, n: nat)
    requires k < n <= |ps|
    ensures Between(ps, k, n) == Between(ps, k + 1, n) + if ps[k].pinned then [ps[k].name] else []
    decreases n
  {
    if k + 1 < n { BetweenFirst(ps, k, n - 1); }
  }

  lemma {:induction false} BetweenDropped(ps: seq<Platform>, k: nat)
    requires k <= |ps|
    ensures Between(ps, k, |ps|) == Dropped(ps, k)
    decreases |ps| - k
  {
    if k < |ps| {
      BetweenDropped(ps, k + 1);
      BetweenFirst(ps, k, |ps|);
    }
  }
}
