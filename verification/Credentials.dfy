/** The gateway's live delegation credentials and its memory of proofs of possession
    (go/delegation_credential.go). */
module Credentials {
  import opened Wrappers
  import opened Utf8
  import opened Delegation
  import opened DelegationTheorems

  const LIFETIME: int := 5 * 60 * SECOND
  const MAX_CREDENTIALS: nat := 4096
  const MAX_PROOFS: nat := 65536
  const WINDOW: int := 60 * SECOND

  datatype Credential = Credential(digest: Text, host: Text, chain: seq<Link>, software: Text, jkt: Option<Text>, expires: int)

  function Min(a: int, b: int): int { if b < a then b else a }

  /** What bind makes at time t: a verified chain in force then, and an expiry at most five
      minutes on and never past the leaf's. */
  predicate BoundAt(c: Credential, t: int) {
    && Accepted(c.chain) && TimeRefusal(c.chain, t).None?
    && c.expires == Min(t + LIFETIME, Leaf(c.chain).expiresAt)
  }

  /** What a host asks to have bound: a chain, the run's software and its key, and what the issuing
      host's admission read answers. */
  datatype BindRequest = BindRequest(host: Text, chain: seq<Link>, software: Text, jkt: Option<Text>, admitted: bool)

  function Made(digest: Text, q: BindRequest, t: int): Credential
    requires |q.chain| > 0
  {
    Credential(digest, q.host, q.chain, q.software, q.jkt, Min(t + LIFETIME, Leaf(q.chain).expiresAt))
  }

  /** A credential that is unexpired is never refused for time, at its binding or after. */
  lemma UnexpiredIsInForce(c: Credential, bound: int, t: int)
    requires BoundAt(c, bound) && bound <= t < c.expires
    ensures TimeRefusal(c.chain, t).None?
    ensures forall i :: 0 <= i < |c.chain| ==> c.chain[i].issuedAt <= t < c.chain[i].expiresAt
  {
    LeafDecidesTime(c.chain, bound);
    LeafDecidesTime(c.chain, t);
  }

  /* ---------- What the two tables become ---------- */

  function LiveOnly(cs: map<Text, Credential>, t: int): map<Text, Credential> {
    map d | d in cs && t < cs[d].expires :: cs[d]
  }

  function Remembered(proofs: map<Text, int>, t: int): map<Text, int> {
    map j | j in proofs && t <= proofs[j] :: proofs[j]
  }

  lemma RememberedSize(proofs: map<Text, int>, t: int)
    ensures |Remembered(proofs, t)| == |set j | j in proofs && t <= proofs[j]|
  {
    assert Remembered(proofs, t).Keys == set j | j in proofs && t <= proofs[j];
    assert |Remembered(proofs, t).Keys| == |Remembered(proofs, t)|;
  }

  predicate InWindow(iat: int, t: int) { t - WINDOW <= iat <= t + WINDOW }

  /** The proof is accepted at t, given the memory before it. */
  predicate Fresh(proofs: map<Text, int>, jti: Text, iat: int, t: int) {
    InWindow(iat, t) && jti !in Remembered(proofs, t) && |Remembered(proofs, t)| < MAX_PROOFS
  }

  function AfterProof(proofs: map<Text, int>, jti: Text, iat: int, t: int): map<Text, int> {
    if !InWindow(iat, t) then proofs
    else if Fresh(proofs, jti, iat, t) then Remembered(proofs, t)[jti := iat + WINDOW]
    else Remembered(proofs, t)
  }

  datatype Revocation = ByCredential(digest: Text) | ByDelegation(id: Text) | ByAgent(agent: Text)

  predicate Matches(r: Revocation, c: Credential) {
    match r
    case ByCredential(digest) => c.digest == digest
    case ByDelegation(id) => exists i :: 0 <= i < |c.chain| && c.chain[i].id == id
    case ByAgent(agent) => exists i :: 0 <= i < |c.chain| && c.chain[i].agent == agent
  }

  function Kept(cs: map<Text, Credential>, host: Text, r: Revocation): map<Text, Credential> {
    map d | d in cs && !(cs[d].host == host && Matches(r, cs[d])) :: cs[d]
  }

  lemma FewerKeys<K, V>(m: map<K, V>, n: map<K, V>)
    requires n.Keys <= m.Keys
    ensures |n| <= |m|
  {
    assert |n.Keys| == |n| && |m.Keys| == |m|;
    SubsetSize(n.Keys, m.Keys);
  }

  method DropExpired(cs: map<Text, Credential>, t: int) returns (live: map<Text, Credential>)
    ensures live == LiveOnly(cs, t)
  {
    live := cs;
    var todo := cs.Keys;
    while todo != {}
      invariant todo <= cs.Keys
      invariant forall d :: d in live <==> d in cs && (d in todo || t < cs[d].expires)
      invariant forall d :: d in live ==> live[d] == cs[d]
      decreases |todo|
    {
      var d :| d in todo;
      if !(t < cs[d].expires) { live := live - {d}; }
      todo := todo - {d};
    }
  }

  method DropForgotten(proofs: map<Text, int>, t: int) returns (kept: map<Text, int>)
    ensures kept == Remembered(proofs, t)
  {
    kept := proofs;
    var todo := proofs.Keys;
    while todo != {}
      invariant todo <= proofs.Keys
      invariant forall j :: j in kept <==> j in proofs && (j in todo || t <= proofs[j])
      invariant forall j :: j in kept ==> kept[j] == proofs[j]
      decreases |todo|
    {
      var j :| j in todo;
      if t > proofs[j] { kept := kept - {j}; }
      todo := todo - {j};
    }
  }

  method DropRevoked(cs: map<Text, Credential>, host: Text, r: Revocation) returns (kept: map<Text, Credential>, n: nat)
    ensures kept == Kept(cs, host, r) && n + |kept| == |cs|
  {
    kept, n := cs, 0;
    var todo := cs.Keys;
    while todo != {}
      invariant todo <= cs.Keys && n + |kept| == |cs|
      invariant forall d :: d in kept <==> d in cs && (d in todo || !(cs[d].host == host && Matches(r, cs[d])))
      invariant forall d :: d in kept ==> kept[d] == cs[d]
      decreases |todo|
    {
      var d :| d in todo;
      if cs[d].host == host && Matches(r, cs[d]) {
        OneFewer(kept, d);
        kept := kept - {d};
        n := n + 1;
      }
      todo := todo - {d};
    }
  }

  lemma OneFewer<K, V>(m: map<K, V>, k: K)
    requires k in m
    ensures |m - {k}| == |m| - 1
  {
    assert (m - {k}).Keys == m.Keys - {k};
    assert |m.Keys| == |m| && |(m - {k}).Keys| == |m - {k}|;
  }

  /** Each live credential was bound at the time kept for it. */
  ghost predicate AllBound(cs: map<Text, Credential>, bound: map<Text, int>) {
    forall d :: d in cs ==> d in bound && cs[d].digest == d && BoundAt(cs[d], bound[d])
  }

  lemma FewerBound(cs: map<Text, Credential>, fewer: map<Text, Credential>, bound: map<Text, int>)
    requires AllBound(cs, bound) && fewer.Keys <= cs.Keys && forall d :: d in fewer ==> fewer[d] == cs[d]
    ensures AllBound(fewer, bound) && |fewer| <= |cs|
  {
    FewerKeys(cs, fewer);
  }

  lemma OneMoreBound(cs: map<Text, Credential>, bound: map<Text, int>, c: Credential, t: int)
    requires AllBound(cs, bound) && AllBound(map[c.digest := c], map[c.digest := t])
    ensures AllBound(cs[c.digest := c], bound[c.digest := t])
  {
    var more, times := cs[c.digest := c], bound[c.digest := t];
    assert c.digest in map[c.digest := c];
    forall d | d in more ensures d in times && more[d].digest == d && BoundAt(more[d], times[d]) {
      if d != c.digest { assert more[d] == cs[d] && times[d] == bound[d]; }
    }
  }

  lemma OneMoreKey<K, V>(m: map<K, V>, k: K, v: V)
    ensures |m[k := v]| <= |m| + 1
  {
    assert m[k := v].Keys == m.Keys + {k};
    assert |m.Keys| == |m| && |m[k := v].Keys| == |m[k := v]|;
  }

  /** What bind asks before it makes a credential. */
  predicate MayBind(q: BindRequest, bearerReadOnly: bool, t: int) {
    && Accepted(q.chain) && q.chain[0].host == q.host && TimeRefusal(q.chain, t).None?
    && Leaf(q.chain).software == q.software && q.admitted
    && (q.jkt.None? ==> bearerReadOnly && ReadOnly(q.chain))
  }

  method CheckBind(q: BindRequest, bearerReadOnly: bool, t: int) returns (ok: bool)
    requires 1 <= |q.chain| <= MAX_DEPTH + 1 && AllForm(q.chain)
    ensures ok == MayBind(q, bearerReadOnly, t)
  {
    var refusal := VerifyChain(q.chain);
    if refusal.Some? || q.chain[0].host != q.host { return false; }
    refusal := CheckTime(q.chain, t);
    if refusal.Some? { return false; }
    if Leaf(q.chain).software != q.software || !q.admitted { return false; }
    return q.jkt.Some? || (bearerReadOnly && ReadOnly(q.chain));
  }

  /** A credential is bound exactly for an accepted chain whose every link names the asking host, whose
      leaf is in force and names the run's software, which the host admits, and which, without a key,
      grants reading alone and is allowed to. */
  lemma MayBindExactly(q: BindRequest, bearerReadOnly: bool, t: int)
    ensures MayBind(q, bearerReadOnly, t) <==>
      && Accepted(q.chain) && (forall i :: 0 <= i < |q.chain| ==> q.chain[i].host == q.host)
      && Leaf(q.chain).issuedAt <= t < Leaf(q.chain).expiresAt && Leaf(q.chain).software == q.software && q.admitted
      && (q.jkt.Some? || (bearerReadOnly && forall i, x ::
            0 <= i < |q.chain[0].entries| && x in q.chain[0].entries[i].effects ==> x == Pure || x == Read || x == ReadExternal))
  {
    if Accepted(q.chain) {
      WholeExactly(q.chain);
      LeafDecidesTime(q.chain, t);
      RootDecidesReadOnly(q.chain);
      if q.chain[0].host == q.host { assert forall i :: 0 <= i < |q.chain| ==> q.chain[i].host == q.chain[0].host; }
    }
  }

  lemma MadeBound(digest: Text, q: BindRequest, bearerReadOnly: bool, t: int)
    requires MayBind(q, bearerReadOnly, t)
    ensures BoundAt(Made(digest, q, t), t)
  {
  }

  class DelegationService {
    const bearerReadOnly: bool
    var credentials: map<Text, Credential>
    var proofs: map<Text, int>
    /** When each live credential was bound. */
    ghost var boundAt: map<Text, int>

    ghost predicate Valid()
      reads this
    {
      && |credentials| <= MAX_CREDENTIALS && |proofs| <= MAX_PROOFS
      && AllBound(credentials, boundAt)
    }

    constructor (bearerReadOnly: bool)
      ensures Valid() && credentials == map[] && proofs == map[] && this.bearerReadOnly == bearerReadOnly
    {
      this.bearerReadOnly := bearerReadOnly;
      credentials, proofs, boundAt := map[], map[], map[];
    }

    method PruneLocked(t: int)
      requires Valid()
      modifies this
      ensures Valid() && boundAt == old(boundAt)
      ensures credentials == LiveOnly(old(credentials), t)
      ensures proofs == Remembered(old(proofs), t)
      ensures forall d :: d in old(credentials) ==> (d in credentials <==> t < old(credentials)[d].expires)
      ensures forall j :: j in old(proofs) ==> (j in proofs <==> t <= old(proofs)[j])
    {
      credentials := DropExpired(credentials, t);
      proofs := DropForgotten(proofs, t);
      FewerBound(old(credentials), credentials, boundAt);
      FewerKeys(old(proofs), proofs);
    }

    /** The part of bind under the lock: prune, hold to the bound, keep. */
    method Keep(c: Credential, t: int) returns (ok: bool)
      requires Valid() && AllBound(map[c.digest := c], map[c.digest := t])
      modifies this
      ensures Valid()
      ensures ok == (|LiveOnly(old(credentials), t)| < MAX_CREDENTIALS)
      ensures ok ==> credentials == LiveOnly(old(credentials), t)[c.digest := c] && boundAt == old(boundAt)[c.digest := t]
      ensures !ok ==> credentials == LiveOnly(old(credentials), t) && boundAt == old(boundAt)
      ensures proofs == Remembered(old(proofs), t)
    {
      PruneLocked(t);
      ok := |credentials| < MAX_CREDENTIALS;
      if ok { Insert(c, t); }
    }

    method Insert(c: Credential, t: int)
      requires Valid() && |credentials| < MAX_CREDENTIALS && AllBound(map[c.digest := c], map[c.digest := t])
      modifies this`credentials, this`boundAt
      ensures Valid() && credentials == old(credentials)[c.digest := c] && boundAt == old(boundAt)[c.digest := t]
    {
      OneMoreBound(credentials, boundAt, c, t);
      OneMoreKey(credentials, c.digest, c);
      credentials, boundAt := credentials[c.digest := c], boundAt[c.digest := t];
    }

    /** bind from the chain on: refused with nothing changed, refused for want of room once pruned, or
        the credential bound under its digest. */
    method Bind(q: BindRequest, digest: Text, t: int) returns (c: Option<Credential>)
      requires Valid() && 1 <= |q.chain| <= MAX_DEPTH + 1 && AllForm(q.chain)
      modifies this
      ensures Valid()
      ensures c.Some? <==> MayBind(q, bearerReadOnly, t) && |LiveOnly(old(credentials), t)| < MAX_CREDENTIALS
      ensures !MayBind(q, bearerReadOnly, t) ==> unchanged(this)
      ensures MayBind(q, bearerReadOnly, t) ==> proofs == Remembered(old(proofs), t)
      ensures MayBind(q, bearerReadOnly, t) && c.None? ==> credentials == LiveOnly(old(credentials), t) && boundAt == old(boundAt)
      ensures c.Some? ==> c.value == Made(digest, q, t)
      ensures c.Some? ==>
        && c.value.digest == digest && c.value.host == q.host && c.value.chain == q.chain
        && c.value.software == q.software && c.value.jkt == q.jkt
      ensures c.Some? ==> var leafEnds := q.chain[|q.chain| - 1].expiresAt;
        && c.value.expires <= t + 300_000_000_000 && c.value.expires <= leafEnds
        && (c.value.expires == t + 300_000_000_000 || c.value.expires == leafEnds)
      ensures c.Some? ==> credentials == LiveOnly(old(credentials), t)[digest := c.value] && boundAt == old(boundAt)[digest := t]
    {
      var ok := CheckBind(q, bearerReadOnly, t);
      if !ok { return None; }
      var expires := t + LIFETIME;
      if Leaf(q.chain).expiresAt < expires { expires := Leaf(q.chain).expiresAt; }
      var bound := Credential(digest, q.host, q.chain, q.software, q.jkt, expires);
      MadeBound(digest, q, bearerReadOnly, t);
      ok := Keep(bound, t);
      return if ok then Some(bound) else None;
    }

    method Revoke(host: Text, r: Revocation) returns (n: nat)
      requires Valid()
      modifies this`credentials
      ensures Valid() && credentials == Kept(old(credentials), host, r)
      ensures n == |old(credentials)| - |credentials|
      ensures forall d :: d in credentials ==> d in old(credentials)
      ensures r.ByCredential? ==> forall d :: d in old(credentials) ==>
        (d !in credentials <==> old(credentials)[d].host == host && d == r.digest)
      ensures r.ByDelegation? ==> forall d :: d in old(credentials) ==>
        (d !in credentials <==>
          && old(credentials)[d].host == host
          && exists i :: 0 <= i < |old(credentials)[d].chain| && old(credentials)[d].chain[i].id == r.id)
      ensures r.ByAgent? ==> forall d :: d in old(credentials) ==>
        (d !in credentials <==>
          && old(credentials)[d].host == host
          && exists i :: 0 <= i < |old(credentials)[d].chain| && old(credentials)[d].chain[i].agent == r.agent)
    {
      credentials, n := DropRevoked(credentials, host, r);
      FewerBound(old(credentials), credentials, boundAt);
    }

    /** Still bound and unexpired at t; and then no link of its chain refuses for time, unless
        the clock stands before the binding. */
    method Live(c: Credential, t: int) returns (ok: bool)
      requires Valid()
      ensures ok <==> c.digest in credentials && credentials[c.digest] == c && t < c.expires
      ensures ok && boundAt[c.digest] <= t ==> TimeRefusal(c.chain, t).None?
    {
      ok := c.digest in credentials && credentials[c.digest] == c && t < c.expires;
      if ok && boundAt[c.digest] <= t { UnexpiredIsInForce(c, boundAt[c.digest], t); }
    }

    /** verifyProof's window and memory, for a proof whose key and signature hold. */
    method VerifyProof(jti: Text, iat: int, t: int) returns (ok: bool)
      requires Valid()
      modifies this
      ensures Valid() && boundAt == old(boundAt)
      ensures ok == Fresh(old(proofs), jti, iat, t)
      ensures proofs == AfterProof(old(proofs), jti, iat, t)
      ensures ok <==>
        && t - 60_000_000_000 <= iat <= t + 60_000_000_000 && (jti in old(proofs) ==> old(proofs)[jti] < t)
        && |set j | j in old(proofs) && t <= old(proofs)[j]| < 65536
      ensures ok ==> jti in proofs && proofs[jti] == iat + 60_000_000_000
      ensures t - 60_000_000_000 <= iat <= t + 60_000_000_000 ==>
        forall j :: j in old(proofs) && j != jti ==> (j in proofs <==> t <= old(proofs)[j])
      ensures !(t - 60_000_000_000 <= iat <= t + 60_000_000_000) ==> proofs == old(proofs)
      ensures credentials == old(credentials) || credentials == LiveOnly(old(credentials), t)
    {
      RememberedSize(proofs, t);
      if iat < t - WINDOW || iat > t + WINDOW { return false; }
      PruneLocked(t);
      if jti in proofs { return false; }
      if |proofs| >= MAX_PROOFS { return false; }
      proofs := proofs[jti := iat + WINDOW];
      return true;
    }
  }
}
