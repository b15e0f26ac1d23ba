/** Authorization codes and rotating refresh tokens: the rows, and what each store transaction does to them. */
module OAuthTables {
  import opened Base
  import opened Tables

  const CLIENT_TTL := 30 * 24 * 3600 * SECOND
  const REFRESH_TTL := 30 * 24 * 3600 * SECOND

  /** What a code carries from /authorize to /token. */
  datatype AuthCode = AuthCode(
    client: nat, redirect: nat, challenge: nat, resource: nat, person: nat, device: nat, clientType: nat)

  datatype RefreshGrant = RefreshGrant(client: nat, person: nat, device: nat, clientType: nat, resource: nat)

  datatype Family = Family(person: nat, client: nat)

  datatype CodeRow = CodeRow(binding: AuthCode, expiresAt: int, consumedAt: Option<int>)
  datatype RefreshRow = RefreshRow(grant: RefreshGrant, expiresAt: int, consumedAt: Option<int>)

  datatype OAuthDb = OAuthDb(codes: map<nat, CodeRow>, tokens: map<nat, RefreshRow>, clients: map<nat, int>)

  datatype OAuthError = ErrCodeInvalid | ErrRefreshInvalid | ErrRefreshReused | ErrDuplicate

  datatype Answer<+T> = Got(value: T) | No(error: OAuthError)

  function FamilyOf(g: RefreshGrant): Family { Family(g.person, g.client) }

  function GrantOf(b: AuthCode): RefreshGrant { RefreshGrant(b.client, b.person, b.device, b.clientType, b.resource) }

  predicate CodeLive(db: OAuthDb, code: nat, now: int) {
    code in db.codes && db.codes[code].consumedAt.None? && db.codes[code].expiresAt > Unix(now)
  }

  predicate TokenLive(db: OAuthDb, token: nat, now: int) {
    token in db.tokens && db.tokens[token].consumedAt.None? && db.tokens[token].expiresAt > Unix(now)
  }

  function InsertCode(db: OAuthDb, code: nat, b: AuthCode, expires: int): OAuthDb {
    db.(codes := db.codes[code := CodeRow(b, Unix(expires), None)])
  }

  function ClaimCode(db: OAuthDb, code: nat, now: int): OAuthDb {
    if CodeLive(db, code, now) then db.(codes := db.codes[code := db.codes[code].(consumedAt := Some(Unix(now)))])
    else db
  }

  function InsertToken(db: OAuthDb, token: nat, g: RefreshGrant, expires: int): OAuthDb {
    db.(tokens := db.tokens[token := RefreshRow(g, Unix(expires), None)])
  }

  /** Every unconsumed row of the family consumed; every other row as it was. */
  function RevokeFamily(db: OAuthDb, f: Family, now: int): OAuthDb {
    db.(tokens := map t | t in db.tokens ::
      if FamilyOf(db.tokens[t].grant) == f && db.tokens[t].consumedAt.None?
      then db.tokens[t].(consumedAt := Some(Unix(now))) else db.tokens[t])
  }

  /** A token presented again after it was consumed. */
  predicate Replayed(db: OAuthDb, token: nat) {
    token in db.tokens && db.tokens[token].consumedAt.Some?
  }

  function Rotate(db: OAuthDb, token: nat, now: int): OAuthDb {
    if TokenLive(db, token, now) then
      db.(tokens := db.tokens[token := db.tokens[token].(consumedAt := Some(Unix(now)))])
    else if Replayed(db, token) then RevokeFamily(db, FamilyOf(db.tokens[token].grant), now)
    else db
  }

  function RotateAnswer(db: OAuthDb, token: nat, now: int): Answer<RefreshGrant> {
    if TokenLive(db, token, now) then Got(db.tokens[token].grant)
    else if Replayed(db, token) then No(ErrRefreshReused)
    else No(ErrRefreshInvalid)
  }

  function SweptTokens(db: OAuthDb, now: int): map<nat, RefreshRow> {
    map t | t in db.tokens && db.tokens[t].expiresAt > Unix(now) :: db.tokens[t]
  }

  predicate ClientUsed(tokens: map<nat, RefreshRow>, client: nat) {
    exists t | t in tokens :: tokens[t].grant.client == client
  }

  /** Expired codes and tokens go, then old clients that no remaining token refers to. */
  function Sweep(db: OAuthDb, now: int): OAuthDb {
    var tokens := SweptTokens(db, now);
    OAuthDb(
      map c | c in db.codes && db.codes[c].expiresAt > Unix(now) :: db.codes[c],
      tokens,
      map c | c in db.clients && (db.clients[c] > Unix(now - CLIENT_TTL) || ClientUsed(tokens, c)) :: db.clients[c])
  }

  // --------------------------------------------------------------------- laws

  /** A detected reuse leaves every row of the family consumed, and every row of every other family as it was. */
  lemma ReuseKillsFamilyOnly(db: OAuthDb, token: nat, now: int, t: nat)
    requires Replayed(db, token) && t in db.tokens
    ensures RotateAnswer(db, token, now) == No(ErrRefreshReused)
    ensures var post := Rotate(db, token, now);
            && post.tokens.Keys == db.tokens.Keys && post.codes == db.codes
            && (FamilyOf(db.tokens[t].grant) == FamilyOf(db.tokens[token].grant) ==> post.tokens[t].consumedAt.Some?)
            && (FamilyOf(db.tokens[t].grant) != FamilyOf(db.tokens[token].grant) ==> post.tokens[t] == db.tokens[t])
            && post.tokens[t].grant == db.tokens[t].grant
            && (db.tokens[t].consumedAt.Some? ==> post.tokens[t] == db.tokens[t])
  {
  }

  /** A sweep removes exactly what has expired, and of the clients exactly the old ones no remaining token names. */
  lemma SweepIsExact(db: OAuthDb, now: int, x: nat)
    ensures x in Sweep(db, now).codes <==> x in db.codes && Unix(now) < db.codes[x].expiresAt
    ensures x in Sweep(db, now).tokens <==> x in db.tokens && Unix(now) < db.tokens[x].expiresAt
    ensures x in Sweep(db, now).codes ==> Sweep(db, now).codes[x] == db.codes[x]
    ensures x in Sweep(db, now).tokens ==> Sweep(db, now).tokens[x] == db.tokens[x]
    ensures x in Sweep(db, now).clients <==>
            && x in db.clients
            && (db.clients[x] > Unix(now) - 2_592_000 ||
                exists t :: t in db.tokens && Unix(now) < db.tokens[t].expiresAt && db.tokens[t].grant.client == x)
  {
    var tokens := SweptTokens(db, now);
    if t :| t in db.tokens && Unix(now) < db.tokens[t].expiresAt && db.tokens[t].grant.client == x {
      assert t in tokens;
    }
    if t :| t in tokens && tokens[t].grant.client == x {
      assert t in db.tokens;
    }
  }

  /** A client that some unexpired token names survives the sweep. */
  lemma SweepSparesUsedClients(db: OAuthDb, now: int, t: nat)
    requires t in db.tokens && db.tokens[t].expiresAt > Unix(now) && db.tokens[t].grant.client in db.clients
    ensures t in Sweep(db, now).tokens && db.tokens[t].grant.client in Sweep(db, now).clients
  {
    assert t in SweptTokens(db, now);
  }
}

/** The store methods and the token endpoint as they run, one request at a time. */
module OAuthServer {
  import opened Base
  import opened Ids
  import opened Tables
  import opened OAuthTables

  lemma DropCounts<V>(m: map<nat, V>, gone: set<nat>)
    requires gone <= m.Keys
    ensures |m - gone| == |m| - |gone|
  {
    assert m.Keys == (m - gone).Keys + gone;
  }

  lemma SweptAreLive(db: OAuthDb, codes: set<nat>, tokens: set<nat>, now: int)
    requires codes == set c | c in db.codes && db.codes[c].expiresAt <= Unix(now)
    requires tokens == set t | t in db.tokens && db.tokens[t].expiresAt <= Unix(now)
    ensures db.codes - codes == Sweep(db, now).codes
    ensures db.tokens - tokens == SweptTokens(db, now)
  {
  }

  lemma KeptClients(db: OAuthDb, idle: set<nat>, now: int)
    requires idle == set c | c in db.clients && db.clients[c] <= Unix(now - CLIENT_TTL) &&
                             !ClientUsed(SweptTokens(db, now), c)
    ensures db.clients - idle == Sweep(db, now).clients
  {
  }

  /** What an access token says: whom it is for, under which profile, and its life in seconds. */
  datatype AccessToken = AccessToken(person: nat, clientType: nat, issuedAt: int, expiresAt: int)

  datatype Refusal = InvalidRequest | InvalidGrant | ServerError

  datatype Response = Tokens(access: AccessToken, expiresIn: int, refresh: nat) | Failed(error: Refusal)

  /** What is not the endpoint's to decide: whether the issuer signs, and the token minted, if randomness can be had. */
  datatype Luck = Luck(signs: bool, minted: Option<nat>)

  /** Tokens are for the grant: the access token names its person and client type, and the successor's row holds it. */
  predicate Bound(r: Response, g: RefreshGrant, post: OAuthDb) {
    r.Tokens? ==>
      && r.access.person == g.person && r.access.clientType == g.clientType
      && r.refresh in post.tokens && post.tokens[r.refresh].grant == g && post.tokens[r.refresh].consumedAt.None?
  }

  /** What the outside must provide for tokens to be issued: a signature, and a random token not in use. */
  predicate CanIssue(luck: Luck, db: OAuthDb) {
    luck.signs && luck.minted.Some? && luck.minted.value !in db.tokens
  }

  class Store {
    var db: OAuthDb
    var revoked: set<nat>
    const accessTTL: nat
    const pkce: nat -> nat             // the S256 challenge of a verifier

    constructor (accessTTL: nat, pkce: nat -> nat)
      ensures db == OAuthDb(map[], map[], map[]) && revoked == {}
      ensures this.accessTTL == accessTTL && this.pkce == pkce
    {
      db, revoked := OAuthDb(map[], map[], map[]), {};
      this.accessTTL, this.pkce := accessTTL, pkce;
    }

    method CreateAuthCode(code: nat, b: AuthCode, expires: int) returns (ok: bool)
      modifies this`db
      ensures ok == (code !in old(db).codes)
      ensures db == if ok then InsertCode(old(db), code, b, expires) else old(db)
    {
      ok := code !in db.codes;
      if ok {
        db := db.(codes := db.codes[code := CodeRow(b, Unix(expires), None)]);
      }
    }

    /** The binding of a live code, which stays live. */
    method AuthCodeByCode(code: nat, now: int) returns (b: Answer<AuthCode>)
      ensures b == if CodeLive(db, code, now) then Got(db.codes[code].binding) else No(ErrCodeInvalid)
    {
      if code in db.codes && db.codes[code].consumedAt.None? && db.codes[code].expiresAt > Unix(now) {
        b := Got(db.codes[code].binding);
      } else {
        b := No(ErrCodeInvalid);
      }
    }

    /** Claims a live code: the conditional update affects one row or none. */
    method ConsumeAuthCode(code: nat, now: int) returns (won: bool)
      modifies this`db
      ensures won == CodeLive(old(db), code, now)
      ensures db == ClaimCode(old(db), code, now)
      ensures won ==> !CodeLive(db, code, now)
    {
      var affected := set c | c in db.codes && c == code && CodeLive(db, c, now);
      won := affected != {};
      if won {
        var c :| c in affected;
        db := db.(codes := db.codes[c := db.codes[c].(consumedAt := Some(Unix(now)))]);
      } else {
        assert CodeLive(db, code, now) ==> code in affected;
      }
    }

    method CreateRefreshToken(token: nat, g: RefreshGrant, expires: int) returns (ok: bool)
      modifies this`db
      ensures ok == (token !in old(db).tokens)
      ensures db == if ok then InsertToken(old(db), token, g, expires) else old(db)
    {
      ok := token !in db.tokens;
      if ok {
        db := db.(tokens := db.tokens[token := RefreshRow(g, Unix(expires), None)]);
      }
    }

    /** Rotates a live token; a consumed one revokes its family, and that write is committed with the refusal. */
    method ConsumeRefreshToken(token: nat, now: int) returns (g: Answer<RefreshGrant>)
      modifies this`db
      ensures db == Rotate(old(db), token, now)
      ensures g == RotateAnswer(old(db), token, now)
    {
      if token in db.tokens && db.tokens[token].consumedAt.None? && db.tokens[token].expiresAt > Unix(now) {
        var row := db.tokens[token].(consumedAt := Some(Unix(now)));
        db := db.(tokens := db.tokens[token := row]);
        return Got(row.grant);
      }
      if token !in db.tokens || db.tokens[token].consumedAt.None? {
        return No(ErrRefreshInvalid);
      }
      var pid, cid := db.tokens[token].grant.person, db.tokens[token].grant.client;
      db := db.(tokens := map t | t in db.tokens ::
        if db.tokens[t].grant.person == pid && db.tokens[t].grant.client == cid && db.tokens[t].consumedAt.None?
        then db.tokens[t].(consumedAt := Some(Unix(now))) else db.tokens[t]);
      assert db.tokens == RevokeFamily(old(db), Family(pid, cid), now).tokens;
      g := No(ErrRefreshReused);
    }

    method SweepOAuth(now: int) returns (total: nat)
      modifies this`db
      ensures db == Sweep(old(db), now)
      ensures total == |old(db).codes| + |old(db).tokens| + |old(db).clients| - |db.codes| - |db.tokens| - |db.clients|
    {
      var codes := set c | c in db.codes && db.codes[c].expiresAt <= Unix(now);
      var tokens := set t | t in db.tokens && db.tokens[t].expiresAt <= Unix(now);
      SweptAreLive(db, codes, tokens, now);
      DropCounts(db.codes, codes);
      DropCounts(db.tokens, tokens);
      db := db.(codes := db.codes - codes);
      db := db.(tokens := db.tokens - tokens);
      var idle := set c | c in db.clients && db.clients[c] <= Unix(now - CLIENT_TTL) && !ClientUsed(db.tokens, c);
      KeptClients(old(db), idle, now);
      DropCounts(db.clients, idle);
      db := db.(clients := db.clients - idle);
      total := |codes| + |tokens| + |idle|;
    }

    // ---------------------------------------------------------- the token endpoint

    /**
     tokenFromCode: a request with a parameter missing, or that does not match the code's binding, leaves the code as it
     was; one that does claims it, and is answered with tokens bound as the code was, if they can be issued.
     */
    method TokenFromCode(code: nat, verifier: nat, client: nat, redirect: nat, luck: Luck, now: int)
      returns (r: Response)
      modifies this`db
      ensures var was := old(db);
              if code == EMPTY || verifier == EMPTY || client == EMPTY || redirect == EMPTY then
                r == Failed(InvalidRequest) && db == was
              else if !CodeLive(was, code, now) ||
                      !Matches(was.codes[code].binding, client, redirect, pkce(verifier)) then
                r == Failed(InvalidGrant) && db == was
              else
                var g, claimed := GrantOf(was.codes[code].binding), ClaimCode(was, code, now);
                r == Issued(claimed, g, luck, now) && db == Stored(claimed, r, g, now)
      ensures r.Tokens? <==>
                && code != EMPTY && verifier != EMPTY && client != EMPTY && redirect != EMPTY
                && code in old(db).codes && old(db).codes[code].consumedAt.None?
                 && Unix(now) < old(db).codes[code].expiresAt
                && var b := old(db).codes[code].binding;
                && b.client == client && b.redirect == redirect && b.challenge == pkce(verifier)
                && b.device !in revoked && CanIssue(luck, old(db))
      ensures r.Tokens? ==>
                && code in db.codes && db.codes[code].consumedAt == Some(Unix(now))
                && var b := old(db).codes[code].binding;
                   Bound(r, RefreshGrant(b.client, b.person, b.device, b.clientType, b.resource), db)
    {
      if code == EMPTY || verifier == EMPTY || client == EMPTY || redirect == EMPTY {
        return Failed(InvalidRequest);
      }
      var b := AuthCodeByCode(code, now);
      if b.No? {
        return Failed(InvalidGrant);
      }
      if b.value.client != client || b.value.redirect != redirect || b.value.challenge != pkce(verifier) {
        return Failed(InvalidGrant);
      }
      var won := ConsumeAuthCode(code, now);
      if !won {
        return Failed(InvalidGrant);
      }
      r := IssueTokens(GrantOf(b.value), luck, now);
    }

    /** tokenFromRefresh: the token is consumed before the client id, which may be left out, is compared. */
    method TokenFromRefresh(presented: nat, client: nat, luck: Luck, now: int) returns (r: Response)
      modifies this`db
      ensures var was := old(db);
              if presented == EMPTY then r == Failed(InvalidRequest) && db == was
              else
                var mid := Rotate(was, presented, now);
                if !TokenLive(was, presented, now) then r == Failed(InvalidGrant) && db == mid
                else
                  var g := was.tokens[presented].grant;
                  if client != EMPTY && client != g.client then r == Failed(InvalidGrant) && db == mid
                  else r == Issued(mid, g, luck, now) && db == Stored(mid, r, g, now)
      ensures r.Tokens? <==>
                && presented != EMPTY && presented in old(db).tokens && old(db).tokens[presented].consumedAt.None?
                && Unix(now) < old(db).tokens[presented].expiresAt
                && var g := old(db).tokens[presented].grant;
                && (client == EMPTY || client == g.client) && g.device !in revoked && CanIssue(luck, old(db))
      ensures r.Tokens? ==>
                && presented in db.tokens && db.tokens[presented].consumedAt == Some(Unix(now))
                && Bound(r, old(db).tokens[presented].grant, db)
    {
      if presented == EMPTY {
        return Failed(InvalidRequest);
      }
      var g := ConsumeRefreshToken(presented, now);
      if g.No? {
        return Failed(InvalidGrant);
      }
      if client != EMPTY && client != g.value.client {
        return Failed(InvalidGrant);
      }
      r := IssueTokens(g.value, luck, now);
    }

    /** The live device check, then the access token, then the successor's row. */
    method IssueTokens(g: RefreshGrant, luck: Luck, now: int) returns (r: Response)
      modifies this`db
      ensures r == Issued(old(db), g, luck, now) && db == Stored(old(db), r, g, now)
      ensures Bound(r, g, db)
      ensures r.Tokens? <==> g.device !in revoked && CanIssue(luck, old(db))
      ensures g.device in revoked ==> r == Failed(InvalidGrant) && db == old(db)
      ensures r.Tokens? ==>
                && r.access.issuedAt == Unix(now) && r.access.expiresAt == Unix(now + accessTTL)
                && r.expiresIn * 1_000_000_000 <= accessTTL < (r.expiresIn + 1) * 1_000_000_000
                && db.tokens[r.refresh].expiresAt == Unix(now) + 2_592_000
    {
      if g.device in revoked {
        return Failed(InvalidGrant);
      }
      if !luck.signs {
        return Failed(ServerError);
      }
      var access := AccessToken(g.person, g.clientType, Unix(now), Unix(now + accessTTL));
      if luck.minted.None? {
        return Failed(ServerError);
      }
      var ok := CreateRefreshToken(luck.minted.value, g, now + REFRESH_TTL);
      if !ok {
        return Failed(ServerError);
      }
      r := Tokens(access, accessTTL / SECOND, luck.minted.value);
    }

    /** What a claimed grant is answered with. */
    function Issued(db: OAuthDb, g: RefreshGrant, luck: Luck, now: int): Response
      reads this`revoked
    {
      if g.device in revoked then Failed(InvalidGrant)
      else if !luck.signs || luck.minted.None? || luck.minted.value in db.tokens then Failed(ServerError)
      else
        Tokens(AccessToken(g.person, g.clientType, Unix(now), Unix(now + accessTTL)), accessTTL / SECOND,
               luck.minted.value)
    }
  }

  /** Exactly an answer with tokens stores a row: the successor, bound as the grant is. */
  function Stored(db: OAuthDb, r: Response, g: RefreshGrant, now: int): OAuthDb {
    if r.Tokens? then InsertToken(db, r.refresh, g, now + REFRESH_TTL) else db
  }

  /** The request's client, redirect and PKCE challenge are the ones the code is bound to. */
  predicate Matches(b: AuthCode, client: nat, redirect: nat, proof: nat) {
    b.client == client && b.redirect == redirect && b.challenge == proof
  }
}
