/**
 Token requests interleaved: each is several store transactions with other requests' steps in between.  Codes, tokens
 and request ids are minted fresh; no assumption is made about clocks, which each request reads once, when it starts.
 */
module TokenRequests {
  import opened Base
  import opened Tables
  import opened OAuthTables
  import OAuthServer

  /** The authorization_code parameters, and the time the request started. */
  datatype CodeRequest = CodeRequest(code: nat, client: nat, redirect: nat, proof: nat, now: int)

  datatype Request =
    | CodeAsked(ask: CodeRequest)                          // AuthCodeByCode to come
    | CodeMatched(ask: CodeRequest, binding: AuthCode)     // the binding matched; ConsumeAuthCode to come
    | TokenAsked(token: nat, client: Option<nat>, now: int)
    | Holding(grant: RefreshGrant, checked: bool, now: int) // claimed; device check, then the successor's row to come
    | Refused
    | Answered(token: nat)

  /** A code claimed by a request. */
  datatype Claim = Claim(ask: CodeRequest, binding: AuthCode)

  /** A token exchanged by a request that started at `now`. */
  datatype Rotation = Rotation(token: nat, now: int)

  /** A code as it was created, and a token as it was stored. */
  datatype Issuance = Issuance(binding: AuthCode, expires: int)
  datatype Minting = Minting(grant: RefreshGrant, at: int)

  datatype Sys = Sys(
    db: OAuthDb,
    revoked: set<nat>,
    reqs: map<nat, Request>,
    issued: map<nat, Issuance>,   // every code ever created
    minted: map<nat, Minting>,    // every token ever stored
    claims: seq<Claim>,           // every claim of a code, in order
    rotated: seq<Rotation>)       // every token exchanged for a grant, in order

  const START := Sys(OAuthDb(map[], map[], map[]), {}, map[], map[], map[], [], [])

  datatype Event =
    | Issue(code: nat, binding: AuthCode, expires: int)
    | RegisterClient(id: nat, at: int)
    | Revoke(device: nat)
    | AskCode(req: nat, ask: CodeRequest)
    | AskToken(req: nat, token: nat, client: Option<nat>, now: int)
    | LookUp(req: nat)
    | ClaimIt(req: nat)
    | RotateIt(req: nat)
    | CheckDevice(req: nat)
    | Store(req: nat, token: nat)
    | Fail(req: nat)              // a server error after the claim
    | SweepAll(now: int)

  predicate Enabled(s: Sys, e: Event) {
    match e
    case Issue(c, _, _) => c !in s.issued
    case RegisterClient(c, _) => c !in s.db.clients
    case Revoke(_) => true
    case AskCode(r, _) => r !in s.reqs
    case AskToken(r, _, _, _) => r !in s.reqs
    case LookUp(r) => r in s.reqs && s.reqs[r].CodeAsked?
    case ClaimIt(r) => r in s.reqs && s.reqs[r].CodeMatched?
    case RotateIt(r) => r in s.reqs && s.reqs[r].TokenAsked?
    case CheckDevice(r) => r in s.reqs && s.reqs[r].Holding? && !s.reqs[r].checked
    case Store(r, t) => r in s.reqs && s.reqs[r].Holding? && s.reqs[r].checked && t !in s.minted
    case Fail(r) => r in s.reqs && s.reqs[r].Holding?
    case SweepAll(_) => true
  }

  predicate AskMatches(b: AuthCode, a: CodeRequest) { OAuthServer.Matches(b, a.client, a.redirect, a.proof) }

  /** What AuthCodeByCode and the binding check make of a request. */
  function LookedUp(db: OAuthDb, a: CodeRequest): Request {
    if CodeLive(db, a.code, a.now) && AskMatches(db.codes[a.code].binding, a) then
      CodeMatched(a, db.codes[a.code].binding)
    else Refused
  }

  /** What ConsumeRefreshToken and the client check make of a request. */
  function Rotated(db: OAuthDb, token: nat, client: Option<nat>, now: int): Request {
    match RotateAnswer(db, token, now)
    case No(_) => Refused
    case Got(g) => if client.Some? && client.value != g.client then Refused else Holding(g, false, now)
  }

  function Apply(s: Sys, e: Event): Sys
    requires Enabled(s, e)
  {
    match e
    case Issue(c, b, x) => s.(db := InsertCode(s.db, c, b, x), issued := s.issued[c := Issuance(b, x)])
    case RegisterClient(c, at) => s.(db := s.db.(clients := s.db.clients[c := Unix(at)]))
    case Revoke(d) => s.(revoked := s.revoked + {d})
    case AskCode(r, a) => s.(reqs := s.reqs[r := CodeAsked(a)])
    case AskToken(r, t, c, now) => s.(reqs := s.reqs[r := TokenAsked(t, c, now)])
    case LookUp(r) => s.(reqs := s.reqs[r := LookedUp(s.db, s.reqs[r].ask)])
    case ClaimIt(r) =>
      var a, b := s.reqs[r].ask, s.reqs[r].binding;
      if CodeLive(s.db, a.code, a.now) then
        s.(db := ClaimCode(s.db, a.code, a.now), reqs := s.reqs[r := Holding(GrantOf(b), false, a.now)],
           claims := s.claims + [Claim(a, b)])
      else s.(reqs := s.reqs[r := Refused])
    case RotateIt(r) =>
      var q := s.reqs[r];
      s.(db := Rotate(s.db, q.token, q.now), reqs := s.reqs[r := Rotated(s.db, q.token, q.client, q.now)],
         rotated := s.rotated + if TokenLive(s.db, q.token, q.now) then [Rotation(q.token, q.now)] else [])
    case CheckDevice(r) =>
      var q := s.reqs[r];
      s.(reqs := s.reqs[r := if q.grant.device in s.revoked then Refused else q.(checked := true)])
    case Store(r, t) =>
      var q := s.reqs[r];
      s.(db := InsertToken(s.db, t, q.grant, q.now + REFRESH_TTL), reqs := s.reqs[r := Answered(t)],
         minted := s.minted[t := Minting(q.grant, q.now)])
    case Fail(r) => s.(reqs := s.reqs[r := Refused])
    case SweepAll(now) => s.(db := Sweep(s.db, now))
  }

  function Reached(es: seq<Event>): Option<Sys>
    decreases |es|
  {
    if es == [] then Some(START)
    else
      match Reached(es[..|es| - 1])
      case None => None
      case Some(s) => if Enabled(s, es[|es| - 1]) then Some(Apply(s, es[|es| - 1])) else None
  }

  // -------------------------------------------------------------- what is counted

  predicate Counts(row: RefreshRow, f: Family) { row.consumedAt.None? && FamilyOf(row.grant) == f }

  /** The family's tokens that are not consumed, expired or not. */
  function LiveTokens(tokens: map<nat, RefreshRow>, f: Family): set<nat> {
    set t | t in tokens && Counts(tokens[t], f)
  }

  predicate Holds(q: Request, f: Family) { q.Holding? && FamilyOf(q.grant) == f }

  /** The family's requests that have claimed a code or a token and not yet stored its successor. */
  function InFlight(reqs: map<nat, Request>, f: Family): set<nat> {
    set r | r in reqs && Holds(reqs[r], f)
  }

  function Outstanding(s: Sys, f: Family): nat { |LiveTokens(s.db.tokens, f)| + |InFlight(s.reqs, f)| }

  predicate ClaimedFor(c: Claim, f: Family) { FamilyOf(GrantOf(c.binding)) == f }

  /** How many codes were ever claimed for the family. */
  function Claimed(claims: seq<Claim>, f: Family): nat {
    if claims == [] then 0
    else Claimed(claims[..|claims| - 1], f) + if ClaimedFor(claims[|claims| - 1], f) then 1 else 0
  }

  // -------------------------------------------------------------- the invariant

  /** Every row is one that was issued or minted, as it was then but for its consumption. */
  ghost predicate RowsOk(s: Sys) { CodesOk(s) && TokensOk(s) }

  ghost predicate CodesOk(s: Sys) {
    forall c :: c in s.db.codes ==>
      && c in s.issued && s.db.codes[c].binding == s.issued[c].binding
      && s.db.codes[c].expiresAt == Unix(s.issued[c].expires)
  }

  ghost predicate TokensOk(s: Sys) {
    forall t :: t in s.db.tokens ==>
      && t in s.minted && s.db.tokens[t].grant == s.minted[t].grant
      && s.db.tokens[t].expiresAt == Unix(s.minted[t].at + REFRESH_TTL)
  }

  ghost predicate MatchedOk(s: Sys) {
    forall r :: r in s.reqs && s.reqs[r].CodeMatched? ==> ClaimOk(s, Claim(s.reqs[r].ask, s.reqs[r].binding))
  }

  predicate ClaimOk(s: Sys, c: Claim) {
    && c.ask.code in s.issued && s.issued[c.ask.code].binding == c.binding && AskMatches(c.binding, c.ask)
    && Unix(c.ask.now) < Unix(s.issued[c.ask.code].expires)
  }

  /** Each claim matched its code's binding before it expired, and its code is consumed wherever its row remains. */
  ghost predicate ClaimsOk(s: Sys) {
    && (forall i :: 0 <= i < |s.claims| ==> ClaimOk(s, s.claims[i]) && Burnt(s.db, s.claims[i].ask.code))
    && (forall i, j :: 0 <= i < j < |s.claims| ==> s.claims[i].ask.code != s.claims[j].ask.code)
  }

  predicate Burnt(db: OAuthDb, code: nat) { code in db.codes ==> db.codes[code].consumedAt.Some? }

  /** Each exchanged token was minted, had not expired, and is consumed wherever its row remains; none went twice. */
  ghost predicate RotationsOk(s: Sys) {
    && (forall i :: 0 <= i < |s.rotated| ==> RotationOk(s, s.rotated[i]))
    && (forall i, j :: 0 <= i < j < |s.rotated| ==> s.rotated[i].token != s.rotated[j].token)
  }

  predicate RotationOk(s: Sys, r: Rotation) {
    && r.token in s.minted && Spent(s.db, r.token)
    && Unix(r.now) < Unix(s.minted[r.token].at + REFRESH_TTL)
  }

  predicate Spent(db: OAuthDb, token: nat) { token in db.tokens ==> db.tokens[token].consumedAt.Some? }

  ghost predicate Inv(s: Sys) { RowsOk(s) && MatchedOk(s) && ClaimsOk(s) && RotationsOk(s) }

  // ------------------------------------------------------------ one step: the rows

  lemma StepCodes(s: Sys, e: Event)
    requires CodesOk(s) && Enabled(s, e)
    ensures CodesOk(Apply(s, e))
  {
  }

  lemma StepTokens(s: Sys, e: Event)
    requires TokensOk(s) && Enabled(s, e)
    ensures TokensOk(Apply(s, e))
  {
  }

  lemma StepMatched(s: Sys, e: Event)
    requires Inv(s) && Enabled(s, e)
    ensures MatchedOk(Apply(s, e))
  {
  }

  lemma StepClaims(s: Sys, e: Event)
    requires Inv(s) && Enabled(s, e)
    ensures ClaimsOk(Apply(s, e))
  {
  }

  lemma StepRotations(s: Sys, e: Event)
    requires Inv(s) && Enabled(s, e)
    ensures RotationsOk(Apply(s, e))
  {
  }

  // ---------------------------------------------------------- one step: the counts

  lemma PutMember(was: set<nat>, now: set<nat>, x: nat, kept: bool)
    requires now == was - {x} + if kept then {x} else {}
    ensures |now| == |was| - (if x in was then 1 else 0) + (if kept then 1 else 0)
  {
  }

  lemma PutRequest(reqs: map<nat, Request>, r: nat, q: Request, f: Family)
    ensures |InFlight(reqs[r := q], f)| ==
            |InFlight(reqs, f)| - (if r in InFlight(reqs, f) then 1 else 0) + (if Holds(q, f) then 1 else 0)
  {
    PutMember(InFlight(reqs, f), InFlight(reqs[r := q], f), r, Holds(q, f));
  }

  lemma PutToken(tokens: map<nat, RefreshRow>, t: nat, row: RefreshRow, f: Family)
    ensures |LiveTokens(tokens[t := row], f)| ==
            |LiveTokens(tokens, f)| - (if t in LiveTokens(tokens, f) then 1 else 0) + (if Counts(row, f) then 1 else 0)
  {
    PutMember(LiveTokens(tokens, f), LiveTokens(tokens[t := row], f), t, Counts(row, f));
  }

  lemma Shrinks(was: set<nat>, now: set<nat>)
    requires now <= was
    ensures |now| <= |was|
  {
    assert was == now + (was - now);
  }

  /** Outstanding tokens grow by one exactly when a code is claimed for the family, and otherwise never grow. */
  ghost predicate Conserves(s: Sys, t: Sys, f: Family) {
    Outstanding(t, f) - Claimed(t.claims, f) <= Outstanding(s, f) - Claimed(s.claims, f)
  }

  lemma ClaimConserves(s: Sys, e: Event, f: Family)
    requires e.ClaimIt? && Enabled(s, e)
    ensures Conserves(s, Apply(s, e), f)
  {
    var t := Apply(s, e);
    PutRequest(s.reqs, e.req, t.reqs[e.req], f);
    if t.claims != s.claims {
      assert t.claims[..|t.claims| - 1] == s.claims;
    }
  }

  lemma RotateConserves(s: Sys, e: Event, f: Family)
    requires e.RotateIt? && Enabled(s, e)
    ensures Conserves(s, Apply(s, e), f)
  {
    var t, q := Apply(s, e), s.reqs[e.req];
    PutRequest(s.reqs, e.req, t.reqs[e.req], f);
    if TokenLive(s.db, q.token, q.now) {
      PutToken(s.db.tokens, q.token, t.db.tokens[q.token], f);
    } else {
      Shrinks(LiveTokens(s.db.tokens, f), LiveTokens(t.db.tokens, f));
    }
  }

  lemma StoreConserves(s: Sys, e: Event, f: Family)
    requires e.Store? && Enabled(s, e)
    ensures Conserves(s, Apply(s, e), f)
  {
    var t, q := Apply(s, e), s.reqs[e.req];
    PutRequest(s.reqs, e.req, t.reqs[e.req], f);
    PutToken(s.db.tokens, e.token, t.db.tokens[e.token], f);
  }

  lemma RequestConserves(s: Sys, e: Event, f: Family)
    requires Enabled(s, e) && (e.AskCode? || e.AskToken? || e.LookUp? || e.CheckDevice? || e.Fail?)
    ensures Conserves(s, Apply(s, e), f)
  {
    PutRequest(s.reqs, e.req, Apply(s, e).reqs[e.req], f);
  }

  lemma SweepConserves(s: Sys, e: Event, f: Family)
    requires Enabled(s, e) && (e.SweepAll? || e.Issue? || e.RegisterClient? || e.Revoke?)
    ensures Conserves(s, Apply(s, e), f)
  {
    Shrinks(LiveTokens(s.db.tokens, f), LiveTokens(Apply(s, e).db.tokens, f));
  }

  lemma StepConserves(s: Sys, e: Event, f: Family)
    requires Enabled(s, e)
    ensures Conserves(s, Apply(s, e), f)
  {
    match e {
      case ClaimIt(_) => ClaimConserves(s, e, f);
      case RotateIt(_) => RotateConserves(s, e, f);
      case Store(_, _) => StoreConserves(s, e, f);
      case SweepAll(_) => SweepConserves(s, e, f);
      case Issue(_, _, _) => SweepConserves(s, e, f);
      case RegisterClient(_, _) => SweepConserves(s, e, f);
      case Revoke(_) => SweepConserves(s, e, f);
      case _ => RequestConserves(s, e, f);
    }
  }

  // ----------------------------------------------------------------- whole runs

  lemma {:induction false} ReachedIsOk(es: seq<Event>)
    requires Reached(es).Some?
    ensures Inv(Reached(es).value)
    decreases |es|
  {
    if es == [] {
    } else {
      var n := |es| - 1;
      ReachedIsOk(es[..n]);
      var s := Reached(es[..n]).value;
      StepCodes(s, es[n]);
      StepTokens(s, es[n]);
      StepMatched(s, es[n]);
      StepClaims(s, es[n]);
      StepRotations(s, es[n]);
    }
  }

  lemma {:induction false} PrefixReached(es: seq<Event>, i: nat)
    requires Reached(es).Some? && i <= |es|
    ensures Reached(es[..i]).Some?
    decreases |es|
  {
    if i < |es| {
      PrefixReached(es[..|es| - 1], i);
      assert es[..|es| - 1][..i] == es[..i];
    } else {
      assert es[..i] == es;
    }
  }

  /** From any moment of a run on, a family's outstanding tokens grow by no more than the codes claimed for it since. */
  lemma {:induction false} NoMoreThanClaimedSince(es: seq<Event>, i: nat, f: Family)
    requires Reached(es).Some? && i <= |es|
    ensures Reached(es[..i]).Some?
    ensures var s, t := Reached(es[..i]).value, Reached(es).value;
            Outstanding(t, f) - Claimed(t.claims, f) <= Outstanding(s, f) - Claimed(s.claims, f)
    decreases |es|
  {
    PrefixReached(es, i);
    if i == |es| {
      assert es[..i] == es;
    } else {
      var n := |es| - 1;
      NoMoreThanClaimedSince(es[..n], i, f);
      assert es[..n][..i] == es[..i];
      StepConserves(Reached(es[..n]).value, es[n], f);
    }
  }

  /**
   Conservation: in every interleaving, a family's unconsumed refresh tokens and the requests holding a claim together
   never exceed the codes ever claimed for it.
   */
  lemma TokensAreConserved(es: seq<Event>, f: Family)
    requires Reached(es).Some?
    ensures Outstanding(Reached(es).value, f) <= Claimed(Reached(es).value.claims, f)
  {
    NoMoreThanClaimedSince(es, 0, f);
    assert LiveTokens(START.db.tokens, f) == {} && InFlight(START.reqs, f) == {};
  }

  /**
   A detected reuse consumes the family's every row at that commit.  All that can come back afterwards is what requests
   were holding at that moment and what new codes are claimed for.
   */
  lemma AfterReuse(es: seq<Event>, i: nat, f: Family)
    requires Reached(es).Some? && i < |es| && es[i].RotateIt?
    requires Reached(es[..i]).Some? && Enabled(Reached(es[..i]).value, es[i])
    requires var s := Reached(es[..i]).value;
             var q := s.reqs[es[i].req];
             Replayed(s.db, q.token) && FamilyOf(s.db.tokens[q.token].grant) == f
    ensures var s, t := Reached(es[..i]).value, Reached(es).value;
            Outstanding(t, f) <= |InFlight(s.reqs, f)| + Claimed(t.claims, f) - Claimed(s.claims, f)
  {
    var s := Reached(es[..i]).value;
    var q := s.reqs[es[i].req];
    assert es[..i + 1][..i] == es[..i];
    PrefixReached(es, i + 1);
    NoMoreThanClaimedSince(es, i + 1, f);
    var u := Reached(es[..i + 1]).value;
    assert u == Apply(s, es[i]);
    PutRequest(s.reqs, es[i].req, Refused, f);
    assert LiveTokens(u.db.tokens, f) == {};
  }

  /** A code is claimed at most once, before it expires, by a request that matches the binding it was issued with. */
  lemma ClaimedOnceByItsClient(es: seq<Event>, i: nat)
    requires Reached(es).Some? && i < |Reached(es).value.claims|
    ensures var s := Reached(es).value;
            var c := s.claims[i];
            && c.ask.code in s.issued && c.binding == s.issued[c.ask.code].binding
            && Unix(c.ask.now) < Unix(s.issued[c.ask.code].expires)
            && c.ask.client == c.binding.client && c.ask.redirect == c.binding.redirect
            && c.ask.proof == c.binding.challenge
            && (forall j :: 0 <= j < |s.claims| && j != i ==> s.claims[j].ask.code != c.ask.code)
  {
    ReachedIsOk(es);
  }

  /** A refresh token is exchanged at most once in a run, only if it was stored, and within thirty days of that. */
  lemma RotatedOnceInTime(es: seq<Event>, i: nat)
    requires Reached(es).Some? && i < |Reached(es).value.rotated|
    ensures var s := Reached(es).value;
            var r := s.rotated[i];
            && r.token in s.minted && Unix(r.now) < Unix(s.minted[r.token].at) + 2_592_000
            && (forall j :: 0 <= j < |s.rotated| && j != i ==> s.rotated[j].token != r.token)
  {
    ReachedIsOk(es);
    assert RotationOk(Reached(es).value, Reached(es).value.rotated[i]);
  }

  // ----------------------------------------------------- a token that still works

  /** The step exchanges token `t`, or revokes its family because another of its tokens was used again. */
  predicate Uses(s: Sys, e: Event, t: nat, f: Family) {
    && e.RotateIt? && e.req in s.reqs && s.reqs[e.req].TokenAsked?
    && var q := s.reqs[e.req];
    || (q.token == t && TokenLive(s.db, t, q.now))
    || (Replayed(s.db, q.token) && FamilyOf(s.db.tokens[q.token].grant) == f)
  }

  /** Since step `i` nothing has used the token or its family, and no sweep ran at or past its expiry. */
  ghost predicate UnusedSince(es: seq<Event>, i: nat, t: nat, f: Family, expires: int) {
    forall j :: i < j < |es| ==>
      && Reached(es[..j]).Some? && !Uses(Reached(es[..j]).value, es[j], t, f)
      && (es[j].SweepAll? ==> Unix(es[j].now) < expires)
  }

  predicate IntactToken(s: Sys, t: nat, g: RefreshGrant, expires: int) {
    t in s.db.tokens && s.db.tokens[t] == RefreshRow(g, expires, None)
  }

  lemma StepIntactToken(s: Sys, e: Event, t: nat, g: RefreshGrant, expires: int)
    requires Enabled(s, e) && RowsOk(s) && IntactToken(s, t, g, expires)
    requires !Uses(s, e, t, FamilyOf(g)) && (e.SweepAll? ==> Unix(e.now) < expires)
    ensures IntactToken(Apply(s, e), t, g, expires)
  {
  }

  /** Step `i` stored token `t` for the grant `g`, claimed by a request that started at `at`. */
  ghost predicate StoredAt(es: seq<Event>, i: nat, g: RefreshGrant, at: int) {
    && i < |es| && es[i].Store? && Reached(es[..i]).Some? && Enabled(Reached(es[..i]).value, es[i])
    && Reached(es[..i]).value.reqs[es[i].req] == Holding(g, true, at)
  }

  lemma StoredIsIntact(s: Sys, e: Event, g: RefreshGrant, at: int)
    requires e.Store? && Enabled(s, e) && s.reqs[e.req] == Holding(g, true, at)
    ensures IntactToken(Apply(s, e), e.token, g, Unix(at + REFRESH_TTL))
  {
  }

  lemma UnusedBefore(es: seq<Event>, i: nat, g: RefreshGrant, at: int, t: nat, expires: int)
    requires i + 1 < |es| && StoredAt(es, i, g, at) && UnusedSince(es, i, t, FamilyOf(g), expires)
    ensures StoredAt(es[..|es| - 1], i, g, at) && UnusedSince(es[..|es| - 1], i, t, FamilyOf(g), expires)
    ensures es[..|es| - 1][i] == es[i]
  {
    var front := es[..|es| - 1];
    assert forall j :: 0 <= j <= |front| ==> front[..j] == es[..j];
    assert forall j :: 0 <= j < |front| ==> front[j] == es[j];
  }

  lemma UnusedStep(s: Sys, e: Event, t: nat, g: RefreshGrant, expires: int)
    requires Enabled(s, e) && Inv(s) && IntactToken(s, t, g, expires)
    requires !Uses(s, e, t, FamilyOf(g)) && (e.SweepAll? ==> Unix(e.now) < expires)
    ensures IntactToken(Apply(s, e), t, g, expires)
  {
    StepIntactToken(s, e, t, g, expires);
  }

  lemma {:induction false} UnusedIsIntact(es: seq<Event>, i: nat, g: RefreshGrant, at: int, t: nat, expires: int)
    requires Reached(es).Some? && StoredAt(es, i, g, at)
    requires t == es[i].token && expires == Unix(at + REFRESH_TTL) && UnusedSince(es, i, t, FamilyOf(g), expires)
    ensures IntactToken(Reached(es).value, t, g, expires)
    decreases |es|
  {
    var n := |es| - 1;
    if i == n {
      StoredIsIntact(Reached(es[..n]).value, es[n], g, at);
    } else {
      UnusedBefore(es, i, g, at, t, expires);
      UnusedIsIntact(es[..n], i, g, at, t, expires);
      ReachedIsOk(es[..n]);
      UnusedStep(Reached(es[..n]).value, es[n], t, g, expires);
    }
  }

  /** A stored token nothing has used or revoked since is exchanged for a request of its client in its thirty days. */
  lemma UnusedTokenRotates(es: seq<Event>, i: nat, g: RefreshGrant, at: int, r: nat)
    requires Reached(es).Some? && StoredAt(es, i, g, at)
    requires UnusedSince(es, i, es[i].token, FamilyOf(g), Unix(at + REFRESH_TTL))
    requires Enabled(Reached(es).value, RotateIt(r))
    requires var q := Reached(es).value.reqs[r];
             && q.token == es[i].token && (q.client.None? || q.client.value == g.client)
             && Unix(q.now) < Unix(at) + 2_592_000
    ensures Reached(es + [RotateIt(r)]).Some?
    ensures Reached(es + [RotateIt(r)]).value.reqs[r] == Holding(g, false, Reached(es).value.reqs[r].now)
  {
    UnusedIsIntact(es, i, g, at, es[i].token, Unix(at + REFRESH_TTL));
    Extend(es, RotateIt(r));
  }

  // -------------------------------------------------------- revoked devices

  lemma RevokedStep(s: Sys, e: Event, d: nat)
    requires Enabled(s, e) && (d in s.revoked || e == Revoke(d))
    ensures d in Apply(s, e).revoked
  {
  }

  lemma {:induction false} RevokedStays(es: seq<Event>, i: nat)
    requires Reached(es).Some? && i < |es| && es[i].Revoke?
    ensures es[i].device in Reached(es).value.revoked
    decreases |es|
  {
    var n := |es| - 1;
    if i < n {
      RevokedStays(es[..n], i);
    }
    RevokedStep(Reached(es[..n]).value, es[n], es[i].device);
  }

  predicate IsRefused(s: Sys, r: nat) { r in s.reqs && s.reqs[r].Refused? }

  lemma RefusedStep(s: Sys, e: Event, r: nat)
    requires Enabled(s, e) && IsRefused(s, r)
    ensures IsRefused(Apply(s, e), r)
  {
  }

  lemma {:induction false} RefusedStays(es: seq<Event>, k: nat, r: nat)
    requires Reached(es).Some? && k <= |es| && Reached(es[..k]).Some? && IsRefused(Reached(es[..k]).value, r)
    ensures IsRefused(Reached(es).value, r)
    decreases |es|
  {
    if k == |es| {
      assert es[..k] == es;
    } else {
      var n := |es| - 1;
      assert es[..n][..k] == es[..k];
      RefusedStays(es[..n], k, r);
      RefusedStep(Reached(es[..n]).value, es[n], r);
    }
  }

  /** A request whose device check comes after the device was revoked is refused, and never answered. */
  lemma RevokedIsNeverAnswered(es: seq<Event>, i: nat, j: nat)
    requires Reached(es).Some? && i < j < |es| && es[i].Revoke? && es[j].CheckDevice?
    requires Reached(es[..j]).Some? && Enabled(Reached(es[..j]).value, es[j])
    requires Reached(es[..j]).value.reqs[es[j].req].grant.device == es[i].device
    ensures es[j].req in Reached(es).value.reqs && Reached(es).value.reqs[es[j].req] == Refused
  {
    assert es[..j][i] == es[i];
    RevokedStays(es[..j], i);
    PrefixReached(es, j + 1);
    assert es[..j + 1][..j] == es[..j];
    RefusedStays(es, j + 1, es[j].req);
  }

  /** A request that names another client than its token's is refused for good, and the token is spent all the same. */
  lemma WrongClientIsRefused(es: seq<Event>, j: nat)
    requires Reached(es).Some? && j < |es| && es[j].RotateIt?
    requires Reached(es[..j]).Some? && Enabled(Reached(es[..j]).value, es[j])
    requires var s := Reached(es[..j]).value;
             var q := s.reqs[es[j].req];
             && q.client.Some? && q.token in s.db.tokens && s.db.tokens[q.token].grant.client != q.client.value
             && Unix(q.now) < s.db.tokens[q.token].expiresAt
    ensures IsRefused(Reached(es).value, es[j].req)
    ensures Reached(es[..j + 1]).Some?
    ensures Spent(Reached(es[..j + 1]).value.db, Reached(es[..j]).value.reqs[es[j].req].token)
  {
    PrefixReached(es, j + 1);
    assert es[..j + 1][..j] == es[..j];
    RefusedStays(es, j + 1, es[j].req);
  }

  /** Step `j` found the device of grant `g` not revoked, for request `r`. */
  ghost predicate PassedAt(es: seq<Event>, j: nat, r: nat, g: RefreshGrant) {
    && j < |es| && es[j] == CheckDevice(r)
    && Reached(es[..j]).Some? && r in Reached(es[..j]).value.reqs
    && Reached(es[..j]).value.reqs[r].Holding? && Reached(es[..j]).value.reqs[r].grant == g
    && g.device !in Reached(es[..j]).value.revoked
  }

  ghost predicate Passed(es: seq<Event>, r: nat, g: RefreshGrant) {
    exists j: nat :: PassedAt(es, j, r, g)
  }

  lemma PassedStays(es: seq<Event>, r: nat, g: RefreshGrant)
    requires es != [] && Passed(es[..|es| - 1], r, g)
    ensures Passed(es, r, g)
  {
    var n := |es| - 1;
    var j: nat :| PassedAt(es[..n], j, r, g);
    assert es[..n][..j] == es[..j] && es[..n][j] == es[j];
    assert PassedAt(es, j, r, g);
  }

  /** Whatever is checked has passed; whatever is answered has passed for the grant its token was stored with. */
  ghost predicate ChecksOk(es: seq<Event>, s: Sys) {
    forall r :: r in s.reqs ==> CheckOk(es, s, r)
  }

  ghost predicate CheckOk(es: seq<Event>, s: Sys, r: nat)
    requires r in s.reqs
  {
    && (s.reqs[r].Holding? && s.reqs[r].checked ==> Passed(es, r, s.reqs[r].grant))
    && (s.reqs[r].Answered? ==> s.reqs[r].token in s.minted && Passed(es, r, s.minted[s.reqs[r].token].grant))
  }

  lemma {:induction false} AnsweredHasPassed(es: seq<Event>)
    requires Reached(es).Some?
    ensures ChecksOk(es, Reached(es).value)
    decreases |es|
  {
    if es == [] {
    } else {
      var n := |es| - 1;
      AnsweredHasPassed(es[..n]);
      forall r | r in Reached(es).value.reqs ensures CheckOk(es, Reached(es).value, r) {
        StepChecks(es, r);
      }
    }
  }

  /** How one step can leave a request checked or answered. */
  lemma RequestStep(s: Sys, e: Event, r: nat)
    requires Enabled(s, e) && r in Apply(s, e).reqs
    ensures var t := Apply(s, e);
            (forall x :: x in s.minted && !(e.Store? && e.token == x) ==> x in t.minted && t.minted[x] == s.minted[x])
    ensures var q := Apply(s, e).reqs[r];
            q.Holding? && q.checked ==>
              || (r in s.reqs && s.reqs[r] == q)
              || (e == CheckDevice(r) && s.reqs[r].Holding? && s.reqs[r].grant == q.grant
                  && q.grant.device !in s.revoked)
    ensures var q := Apply(s, e).reqs[r];
            q.Answered? ==>
              || (r in s.reqs && s.reqs[r] == q)
              || (e == Store(r, q.token) && s.reqs[r].Holding? && s.reqs[r].checked &&
                  q.token in Apply(s, e).minted && Apply(s, e).minted[q.token].grant == s.reqs[r].grant)
  {
  }

  lemma StepChecks(es: seq<Event>, r: nat)
    requires es != [] && Reached(es).Some? && ChecksOk(es[..|es| - 1], Reached(es[..|es| - 1]).value)
    requires r in Reached(es).value.reqs
    ensures CheckOk(es, Reached(es).value, r)
  {
    var n := |es| - 1;
    var s, e := Reached(es[..n]).value, es[n];
    RequestStep(s, e, r);
    if e == CheckDevice(r) && s.reqs[r].grant.device !in s.revoked {
      assert PassedAt(es, n, r, s.reqs[r].grant);
    }
    if r in s.reqs {
      assert CheckOk(es[..n], s, r);
      OldPasses(es, r, s.reqs[r], s.minted);
    }
  }

  lemma OldPasses(es: seq<Event>, r: nat, q: Request, minted: map<nat, Minting>)
    requires es != []
    requires q.Holding? && q.checked ==> Passed(es[..|es| - 1], r, q.grant)
    requires q.Answered? ==> q.token in minted && Passed(es[..|es| - 1], r, minted[q.token].grant)
    ensures q.Holding? && q.checked ==> Passed(es, r, q.grant)
    ensures q.Answered? ==> Passed(es, r, minted[q.token].grant)
  {
    if q.Holding? && q.checked {
      PassedStays(es, r, q.grant);
    }
    if q.Answered? {
      PassedStays(es, r, minted[q.token].grant);
    }
  }

  /** Every answered request passed the device check, and its token was stored for the grant it passed with. */
  lemma AnsweredWasChecked(es: seq<Event>, r: nat)
    requires Reached(es).Some? && r in Reached(es).value.reqs && Reached(es).value.reqs[r].Answered?
    ensures var s := Reached(es).value;
            s.reqs[r].token in s.minted && Passed(es, r, s.minted[s.reqs[r].token].grant)
  {
    AnsweredHasPassed(es);
    assert CheckOk(es, Reached(es).value, r);
  }

  // ------------------------------------------------- mismatches never burn a code

  predicate Unclaimed(s: Sys, code: nat) {
    forall i :: 0 <= i < |s.claims| ==> s.claims[i].ask.code != code
  }

  /** No sweep so far ran at or past this second. */
  predicate SweptBefore(es: seq<Event>, expires: int) {
    forall i :: 0 <= i < |es| && es[i].SweepAll? ==> Unix(es[i].now) < expires
  }

  predicate Intact(s: Sys, code: nat, b: AuthCode, expires: int) {
    code in s.db.codes && s.db.codes[code] == CodeRow(b, expires, None)
  }

  /** Only a claim consumes a code, and only a sweep past its expiry removes it. */
  lemma StepIntact(s: Sys, e: Event, code: nat, b: AuthCode, expires: int)
    requires Enabled(s, e) && RowsOk(s) && Intact(s, code, b, expires)
    requires e.SweepAll? ==> Unix(e.now) < expires
    requires Unclaimed(Apply(s, e), code)
    ensures Intact(Apply(s, e), code, b, expires)
  {
    if e.ClaimIt? && s.reqs[e.req].ask.code == code && CodeLive(s.db, code, s.reqs[e.req].ask.now) {
      ClaimIsRecorded(s, e);
      assert false;
    }
  }

  lemma ClaimIsRecorded(s: Sys, e: Event)
    requires Enabled(s, e) && e.ClaimIt? && CodeLive(s.db, s.reqs[e.req].ask.code, s.reqs[e.req].ask.now)
    ensures !Unclaimed(Apply(s, e), s.reqs[e.req].ask.code)
  {
    assert Apply(s, e).claims[|s.claims|].ask == s.reqs[e.req].ask;
  }

  lemma UnclaimedBefore(s: Sys, e: Event, code: nat)
    requires Enabled(s, e) && Unclaimed(Apply(s, e), code)
    ensures Unclaimed(s, code)
  {
    var t := Apply(s, e);
    assert forall i :: 0 <= i < |s.claims| ==> t.claims[i] == s.claims[i];
  }

  lemma {:induction false} UnclaimedIsIntact(es: seq<Event>, i: nat)
    requires Reached(es).Some? && i < |es| && es[i].Issue?
    requires Unclaimed(Reached(es).value, es[i].code) && SweptBefore(es, Unix(es[i].expires))
    ensures Intact(Reached(es).value, es[i].code, es[i].binding, Unix(es[i].expires))
    decreases |es|
  {
    var n := |es| - 1;
    var front := es[..n];
    var s := Reached(front).value;
    if i == n {
    } else {
      UnclaimedBefore(s, es[n], es[i].code);
      UnclaimedIsIntact(front, i);
      ReachedIsOk(front);
      StepIntact(s, es[n], es[i].code, es[i].binding, Unix(es[i].expires));
    }
  }

  /**
   However many requests have asked for a code and however their steps interleave, as long as none has claimed it: a
   request that matches its binding, and started before it expires, passes the check whenever it gets there.
   */
  lemma MatchingRequestMatches(es: seq<Event>, i: nat, r: nat)
    requires Reached(es).Some? && i < |es| && es[i].Issue?
    requires Unclaimed(Reached(es).value, es[i].code) && SweptBefore(es, Unix(es[i].expires))
    requires Enabled(Reached(es).value, LookUp(r))
    requires var a := Reached(es).value.reqs[r].ask;
             a.code == es[i].code && AskMatches(es[i].binding, a) && Unix(a.now) < Unix(es[i].expires)
    ensures Reached(es + [LookUp(r)]).Some?
    ensures Reached(es + [LookUp(r)]).value.reqs[r] == CodeMatched(Reached(es).value.reqs[r].ask, es[i].binding)
  {
    UnclaimedIsIntact(es, i);
    Extend(es, LookUp(r));
  }

  /**
   And from there, whatever steps others take in between, it claims the code whenever it gets to, if the code is still
   unclaimed by then: it holds a grant bound as the code was issued, and the claim is recorded as the code's first.
   */
  lemma MatchingRequestClaims(es: seq<Event>, i: nat, r: nat)
    requires Reached(es).Some? && i < |es| && es[i].Issue?
    requires Unclaimed(Reached(es).value, es[i].code) && SweptBefore(es, Unix(es[i].expires))
    requires Enabled(Reached(es).value, ClaimIt(r))
    requires var a := Reached(es).value.reqs[r].ask; a.code == es[i].code && Unix(a.now) < Unix(es[i].expires)
    ensures Reached(es + [ClaimIt(r)]).Some?
    ensures var a, t := Reached(es).value.reqs[r].ask, Reached(es + [ClaimIt(r)]).value;
            && t.reqs[r].Holding? && t.reqs[r].now == a.now && !t.reqs[r].checked
            && var b := es[i].binding;
            && t.reqs[r].grant == RefreshGrant(b.client, b.person, b.device, b.clientType, b.resource)
            && t.claims == Reached(es).value.claims + [Claim(a, es[i].binding)]
  {
    UnclaimedIsIntact(es, i);
    ReachedIsOk(es);
    Extend(es, ClaimIt(r));
    var s := Reached(es).value;
    assert ClaimOk(s, Claim(s.reqs[r].ask, s.reqs[r].binding));
  }

  lemma Extend(es: seq<Event>, e: Event)
    requires Reached(es).Some? && Enabled(Reached(es).value, e)
    ensures Reached(es + [e]) == Some(Apply(Reached(es).value, e))
  {
    assert (es + [e])[..|es|] == es;
  }
}
