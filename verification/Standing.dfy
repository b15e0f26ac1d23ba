/** What stands over a run: grants until revoked, revocations for good, invites until used. */
module Standing {
  import opened Base
  import opened Ids
  import opened Gate
  import opened Tables
  import opened Invariants
  import opened Runs
  import opened Enrollment

  // ------------------------------------------------------------------- grants

  /** The step issued, or confirmed, a grant on this triple. */
  ghost predicate Sets(cfg: Config, e: Entry, t: nat, p: nat, dir: Direction) {
    e.op.OpSetGrant? && e.op.thread == t && e.op.person == p && e.op.direction == dir && TxOf(cfg, e).Commit?
  }

  ghost predicate Revokes(cfg: Config, e: Entry, t: nat, p: nat, dir: Direction) {
    e.op.OpRevokeGrant? && e.op.thread == t && e.op.person == p && e.op.direction == dir && TxOf(cfg, e).Commit?
  }

  /** The last word of `p` on the thread and direction was to grant. */
  ghost predicate Granted(cfg: Config, tr: seq<Entry>, t: nat, p: nat, dir: Direction)
    decreases |tr|
  {
    tr != [] &&
    var last := tr[|tr| - 1];
    Sets(cfg, last, t, p, dir) || (!Revokes(cfg, last, t, p, dir) && Granted(cfg, tr[..|tr| - 1], t, p, dir))
  }

  lemma SetGrantActivates(db: Db, id: nat, t: nat, p: nat, dir: Direction)
    requires SetGrant(db, id, t, p, dir).Commit?
    ensures ActiveGrant(SetGrant(db, id, t, p, dir).db, t, p, dir)
  {
    var post := SetGrant(db, id, t, p, dir).db;
    if !ActiveGrant(db, t, p, dir) {
      assert id in post.grants && IsActiveGrant(post.grants[id], t, p, dir);
    }
  }

  lemma SetGrantSparesOthers(db: Db, id: nat, t: nat, p: nat, dir: Direction, u: nat, q: nat, way: Direction)
    requires (u, q, way) != (t, p, dir)
    ensures ActiveGrant(SetGrant(db, id, t, p, dir).Settle(db), u, q, way) <==> ActiveGrant(db, u, q, way)
  {
    var post := SetGrant(db, id, t, p, dir).Settle(db);
    if g :| g in db.grants && IsActiveGrant(db.grants[g], u, q, way) {
      assert g in post.grants && post.grants[g] == db.grants[g];
    }
  }

  lemma RevokeGrantEnds(db: Db, t: nat, p: nat, dir: Direction, now: int)
    requires RevokeGrant(db, t, p, dir, now).Commit?
    ensures !ActiveGrant(RevokeGrant(db, t, p, dir, now).db, t, p, dir)
  {
  }

  lemma RevokeGrantSparesOthers(db: Db, t: nat, p: nat, dir: Direction, now: int, u: nat, q: nat, way: Direction)
    requires (u, q, way) != (t, p, dir)
    ensures ActiveGrant(RevokeGrant(db, t, p, dir, now).Settle(db), u, q, way) <==> ActiveGrant(db, u, q, way)
  {
    var post := RevokeGrant(db, t, p, dir, now).Settle(db);
    if g :| g in db.grants && IsActiveGrant(db.grants[g], u, q, way) {
      assert g in post.grants && IsActiveGrant(post.grants[g], u, q, way);
    }
  }

  /** What a step does to one triple, in terms of the tables after it. */
  ghost predicate GrantMoves(cfg: Config, e: Entry, post: Db, t: nat, p: nat, dir: Direction) {
    ActiveGrant(post, t, p, dir) <==>
    Sets(cfg, e, t, p, dir) || (!Revokes(cfg, e, t, p, dir) && ActiveGrant(e.pre, t, p, dir))
  }

  lemma SetMoves(cfg: Config, e: Entry, t: nat, p: nat, dir: Direction)
    requires e.op.OpSetGrant?
    ensures GrantMoves(cfg, e, After(cfg, e), t, p, dir)
  {
    var op := e.op;
    if (t, p, dir) != (op.thread, op.person, op.direction) {
      SetGrantSparesOthers(e.pre, op.grant, op.thread, op.person, op.direction, t, p, dir);
    } else if SetGrant(e.pre, op.grant, t, p, dir).Commit? {
      SetGrantActivates(e.pre, op.grant, t, p, dir);
    }
  }

  lemma RevokeMoves(cfg: Config, e: Entry, t: nat, p: nat, dir: Direction)
    requires e.op.OpRevokeGrant?
    ensures GrantMoves(cfg, e, After(cfg, e), t, p, dir)
  {
    var op := e.op;
    if (t, p, dir) != (op.thread, op.person, op.direction) {
      RevokeGrantSparesOthers(e.pre, op.thread, op.person, op.direction, e.now, t, p, dir);
    } else if RevokeGrant(e.pre, t, p, dir, e.now).Commit? {
      RevokeGrantEnds(e.pre, t, p, dir, e.now);
    }
  }

  lemma StepGrant(cfg: Config, e: Entry, t: nat, p: nat, dir: Direction)
    ensures GrantMoves(cfg, e, After(cfg, e), t, p, dir)
  {
    if e.op.OpSetGrant? {
      SetMoves(cfg, e, t, p, dir);
    } else if e.op.OpRevokeGrant? {
      RevokeMoves(cfg, e, t, p, dir);
    } else {
      StepSpares(cfg, e.pre, e.op, e.now);
    }
  }

  /** A grant is active exactly when the last thing its holder did with it in the run was to issue it. */
  lemma {:induction false} ActiveIffGranted(cfg: Config, tr: seq<Entry>, t: nat, p: nat, dir: Direction)
    requires Run(cfg, tr)
    ensures ActiveGrant(Final(cfg, tr), t, p, dir) <==> Granted(cfg, tr, t, p, dir)
    decreases |tr|
  {
    if tr == [] {
    } else {
      var n := |tr| - 1;
      ActiveIffGranted(cfg, tr[..n], t, p, dir);
      StepGrant(cfg, tr[n], t, p, dir);
    }
  }

  /** So a draft that a grant released had its author's grant standing on that thread at that step. */
  lemma GrantReleaseWasGranted(cfg: Config, tr: seq<Entry>, i: nat, id: MsgId)
    requires Run(cfg, tr) && i < |tr| && tr[i].op.OpReleaseViaGrant? && Releases(cfg, tr[i], id)
    ensures id in tr[i].pre.drafts
    ensures Granted(cfg, tr[..i], tr[i].pre.drafts[id].thread, tr[i].pre.drafts[id].author, Outbound)
  {
    RunPrefix(cfg, tr, i);
    ReleaseShape(cfg, tr[i], id);
    var d := tr[i].pre.drafts[id];
    ActiveIffGranted(cfg, tr[..i], d.thread, d.author, Outbound);
  }

  // -------------------------------------------------- rows that are never taken back

  /** Devices stay with their person and key, and a revocation with its time. */
  ghost predicate DevicesStand(pre: map<nat, Device>, post: map<nat, Device>) {
    forall d :: d in pre ==>
      && d in post && post[d].person == pre[d].person && post[d].key == pre[d].key
      && (pre[d].revokedAt.Some? ==> post[d] == pre[d])
  }

  /** Invites stay as issued, and a used one stays used. */
  ghost predicate InvitesStand(pre: map<nat, Invite>, post: map<nat, Invite>) {
    forall t :: t in pre ==>
      && t in post && post[t].email == pre[t].email && post[t].expiresAt == pre[t].expiresAt
      && (pre[t].usedAt.Some? ==> post[t] == pre[t])
  }

  ghost predicate RosterStands(pre: Db, post: Db) {
    DevicesStand(pre.devices, post.devices) && InvitesStand(pre.invites, post.invites)
  }

  lemma EnrollStands(db: Db, token: nat, key: nat, newPerson: nat, newDevice: nat, now: int)
    ensures RosterStands(db, Enroll(db, token, key, newPerson, newDevice, now).Settle(db))
  {
  }

  lemma RevokeDeviceStands(db: Db, device: nat, now: int)
    ensures RosterStands(db, RevokeDevice(db, device, now).Settle(db))
  {
    if device in db.devices && db.devices[device].revokedAt.None? {
      PutDeviceStands(db.devices, device, db.devices[device].(revokedAt := Some(Unix(now))));
    }
  }

  lemma PutDeviceStands(devices: map<nat, Device>, d: nat, row: Device)
    requires d in devices && row.person == devices[d].person && row.key == devices[d].key && devices[d].revokedAt.None?
    ensures DevicesStand(devices, devices[d := row])
  {
  }

  lemma CreateInviteStands(db: Db, token: nat, email: nat, ttl: int, now: int)
    ensures RosterStands(db, CreateInvite(db, token, email, ttl, now).Settle(db))
  {
  }

  lemma StepRoster(cfg: Config, db: Db, op: Op, now: int)
    ensures RosterStands(db, Step(cfg, db, op, now).Settle(db))
  {
    match op {
      case OpCreateInvite(token, email, ttl) => CreateInviteStands(db, token, email, ttl, now);
      case OpEnroll(token, key, p, d) => EnrollStands(db, token, key, p, d, now);
      case OpRevokeDevice(d) => RevokeDeviceStands(db, d, now);
      case _ => StepSpares(cfg, db, op, now);
    }
  }

  lemma StandsOn(a: Db, b: Db, c: Db)
    requires RosterStands(a, b) && RosterStands(b, c)
    ensures RosterStands(a, c)
  {
  }

  lemma {:induction false} RosterStandsAlong(cfg: Config, tr: seq<Entry>, i: nat)
    requires Run(cfg, tr) && i <= |tr|
    ensures RosterStands(Final(cfg, tr[..i]), Final(cfg, tr))
    decreases |tr|
  {
    var n := |tr| - 1;
    if i == |tr| {
      assert tr[..i] == tr;
    } else {
      assert tr[..n][..i] == tr[..i];
      RosterStandsAlong(cfg, tr[..n], i);
      StepRoster(cfg, tr[n].pre, tr[n].op, tr[n].now);
      StandsOn(Final(cfg, tr[..i]), tr[n].pre, Final(cfg, tr));
    }
  }

  /** A revoked device is revoked for the rest of the run, and never comes back as someone else's. */
  lemma RevocationIsForGood(cfg: Config, tr: seq<Entry>, i: nat, d: nat)
    requires Run(cfg, tr) && i <= |tr| && d in Final(cfg, tr[..i]).devices && !Active(Final(cfg, tr[..i]), d)
    ensures d in Final(cfg, tr).devices && Final(cfg, tr).devices[d] == Final(cfg, tr[..i]).devices[d]
    ensures !Active(Final(cfg, tr), d)
  {
    RosterStandsAlong(cfg, tr, i);
  }

  /** An invite enrolls one device: every later attempt with it is refused, whatever key it brings. */
  lemma InviteUsedOnce(cfg: Config, tr: seq<Entry>, i: nat, j: nat)
    requires Run(cfg, tr) && i < j < |tr|
    requires tr[i].op.OpEnroll? && tr[j].op.OpEnroll? && tr[i].op.token == tr[j].op.token
    requires TxOf(cfg, tr[i]).Commit?
    ensures TxOf(cfg, tr[j]) == Abort(ErrInviteInvalid)
  {
    var token := tr[i].op.token;
    RunPrefix(cfg, tr, j);
    RunPrefix(cfg, tr, i + 1);
    assert tr[..j][..i + 1] == tr[..i + 1];
    RosterStandsAlong(cfg, tr[..j], i + 1);
    UsesInvite(cfg, tr[i]);
    assert tr[j].pre.invites[token].usedAt.Some?;
  }

  lemma UsesInvite(cfg: Config, e: Entry)
    requires e.op.OpEnroll? && TxOf(cfg, e).Commit?
    ensures e.op.token in After(cfg, e).invites && After(cfg, e).invites[e.op.token].usedAt.Some?
    ensures e.op.token in e.pre.invites && Unix(e.now) < e.pre.invites[e.op.token].expiresAt
  {
  }

  // -------------------------------------------------- revoked, and until when not

  /** A step of the run revoked this device. */
  ghost predicate RevokedIn(tr: seq<Entry>, d: nat) {
    exists i :: 0 <= i < |tr| && RevokesDevice(tr[i], d)
  }

  predicate RevokesDevice(e: Entry, d: nat) { e.op == OpRevokeDevice(d) && d in e.pre.devices }

  lemma RevokedInGoesOn(tr: seq<Entry>, d: nat)
    requires tr != []
    ensures RevokedIn(tr, d) <==> RevokedIn(tr[..|tr| - 1], d) || RevokesDevice(tr[|tr| - 1], d)
  {
    var n := |tr| - 1;
    if i :| 0 <= i < n && RevokesDevice(tr[..n][i], d) {
      assert tr[..n][i] == tr[i];
    }
    if i :| 0 <= i < |tr| && RevokesDevice(tr[i], d) && i != n {
      assert tr[..n][i] == tr[i];
    }
  }

  ghost predicate ActiveMoves(e: Entry, post: Db, d: nat) {
    d in post.devices ==>
      if d in e.pre.devices then Active(post, d) <==> Active(e.pre, d) && !RevokesDevice(e, d) else Active(post, d)
  }

  lemma EnrollActive(db: Db, token: nat, key: nat, newPerson: nat, newDevice: nat, now: int, d: nat)
    ensures var post := Enroll(db, token, key, newPerson, newDevice, now).Settle(db);
            d in post.devices ==> if d in db.devices then post.devices[d] == db.devices[d] else Active(post, d)
  {
  }

  lemma RevokeShape(db: Db, device: nat, now: int)
    ensures RevokeDevice(db, device, now).Settle(db).devices ==
            if device in db.devices && db.devices[device].revokedAt.None? then
              db.devices[device := db.devices[device].(revokedAt := Some(Unix(now)))]
            else db.devices
  {
  }

  lemma RevokeActive(db: Db, device: nat, now: int, d: nat)
    ensures var post := RevokeDevice(db, device, now).Settle(db);
            && (d in post.devices <==> d in db.devices)
            && (d in db.devices ==> (Active(post, d) <==> Active(db, d) && d != device))
  {
    RevokeShape(db, device, now);
  }

  lemma StepActive(cfg: Config, e: Entry, d: nat)
    ensures ActiveMoves(e, After(cfg, e), d)
  {
    match e.op {
      case OpEnroll(token, key, p, n) => EnrollActive(e.pre, token, key, p, n, e.now, d);
      case OpRevokeDevice(n) => RevokeActive(e.pre, n, e.now, d);
      case _ => DevicesLeftAlone(cfg, e.pre, e.op, e.now);
    }
  }

  lemma DevicesLeftAlone(cfg: Config, db: Db, op: Op, now: int)
    requires !op.OpEnroll? && !op.OpRevokeDevice?
    ensures Step(cfg, db, op, now).Settle(db).devices == db.devices
  {
    if op.OpCreateInvite? {
      CreateInviteFrame(db, op.token, op.email, op.ttl, now);
    } else {
      StepSpares(cfg, db, op, now);
    }
  }

  lemma NotRevokedBefore(cfg: Config, tr: seq<Entry>, d: nat)
    requires Run(cfg, tr) && d !in Final(cfg, tr).devices
    ensures !RevokedIn(tr, d)
  {
    if i :| 0 <= i < |tr| && RevokesDevice(tr[i], d) {
      RunPrefix(cfg, tr, i);
      RosterStandsAlong(cfg, tr, i);
      assert false;
    }
  }

  /** A device is active exactly until a step revokes it: every revocation takes effect at once, and for good. */
  lemma {:induction false} ActiveUntilRevoked(cfg: Config, tr: seq<Entry>, d: nat)
    requires Run(cfg, tr) && d in Final(cfg, tr).devices
    ensures Active(Final(cfg, tr), d) <==> !RevokedIn(tr, d)
    decreases |tr|
  {
    if tr == [] {
    } else {
      var n := |tr| - 1;
      StepActive(cfg, tr[n], d);
      RevokedInGoesOn(tr, d);
      if d in tr[n].pre.devices {
        ActiveUntilRevoked(cfg, tr[..n], d);
      } else {
        NotRevokedBefore(cfg, tr[..n], d);
      }
    }
  }

  // ------------------------------------------------------------------ invites

  ghost predicate Invites(cfg: Config, e: Entry, token: nat) {
    e.op.OpCreateInvite? && e.op.token == token && TxOf(cfg, e).Commit?
  }

  ghost predicate EnrollsWith(cfg: Config, e: Entry, token: nat) {
    e.op.OpEnroll? && e.op.token == token && TxOf(cfg, e).Commit?
  }

  /** The invite as its creation step `i` made it, used exactly if some step since has enrolled with it. */
  ghost predicate InvitedAt(cfg: Config, tr: seq<Entry>, i: nat, token: nat, row: Invite) {
    && i < |tr| && Invites(cfg, tr[i], token)
    && row.email == tr[i].op.email && row.expiresAt == Unix(tr[i].now + tr[i].op.ttl)
    && (row.usedAt.None? <==> forall j :: i < j < |tr| ==> !EnrollsWith(cfg, tr[j], token))
  }

  /** What one step can do to an invite: create it, use it, or leave it as it is. */
  ghost predicate InviteMoves(cfg: Config, e: Entry, post: Db, token: nat) {
    && (token !in e.pre.invites && token in post.invites ==>
          Invites(cfg, e, token) && post.invites[token] == Invite(e.op.email, Unix(e.now + e.op.ttl), None))
    && (token in e.pre.invites ==>
          && token in post.invites
          && post.invites[token] ==
             if EnrollsWith(cfg, e, token) then e.pre.invites[token].(usedAt := Some(Unix(e.now)))
              else e.pre.invites[token])
    && (token in e.pre.invites ==> !Invites(cfg, e, token))
  }

  lemma StepInvite(cfg: Config, e: Entry, token: nat)
    ensures InviteMoves(cfg, e, After(cfg, e), token)
  {
    if LeavesRoster(e.op) {
      StepSpares(cfg, e.pre, e.op, e.now);
    } else if e.op.OpCreateInvite? {
      CreateInviteMoves(cfg, e, token);
    } else if e.op.OpEnroll? {
      EnrollMoves(cfg, e, token);
    }
  }

  lemma CreateInviteMoves(cfg: Config, e: Entry, token: nat)
    requires e.op.OpCreateInvite?
    ensures InviteMoves(cfg, e, After(cfg, e), token)
  {
  }

  lemma EnrollMoves(cfg: Config, e: Entry, token: nat)
    requires e.op.OpEnroll?
    ensures InviteMoves(cfg, e, After(cfg, e), token)
  {
  }

  lemma InvitedGoesOn(cfg: Config, tr: seq<Entry>, i: nat, token: nat, was: Invite, row: Invite)
    requires tr != [] && InvitedAt(cfg, tr[..|tr| - 1], i, token, was)
    requires row == if EnrollsWith(cfg, tr[|tr| - 1], token) then was.(usedAt := row.usedAt) else was
    requires EnrollsWith(cfg, tr[|tr| - 1], token) ==> row.usedAt.Some?
    ensures InvitedAt(cfg, tr, i, token, row)
  {
    var n := |tr| - 1;
    assert tr[..n][i] == tr[i];
    assert forall j :: i < j < n ==> tr[..n][j] == tr[j];
  }

  lemma {:induction false} InviteStory(cfg: Config, tr: seq<Entry>, token: nat) returns (i: nat)
    requires Run(cfg, tr) && token in Final(cfg, tr).invites
    ensures InvitedAt(cfg, tr, i, token, Final(cfg, tr).invites[token])
    decreases |tr|
  {
    var n := |tr| - 1;
    StepInvite(cfg, tr[n], token);
    if token in tr[n].pre.invites {
      i := InviteStory(cfg, tr[..n], token);
      InvitedGoesOn(cfg, tr, i, token, tr[n].pre.invites[token], Final(cfg, tr).invites[token]);
    } else {
      i := n;
    }
  }

  lemma EnrollsWhom(db: Db, token: nat, key: nat, newPerson: nat, newDevice: nat, now: int)
    requires Enroll(db, token, key, newPerson, newDevice, now).Commit?
    ensures var post := Enroll(db, token, key, newPerson, newDevice, now).db;
            && token in db.invites && db.invites[token].usedAt.None? && Unix(now) < db.invites[token].expiresAt
            && newDevice in post.devices && Active(post, newDevice) && post.devices[newDevice].key == key
            && post.devices[newDevice].person in post.persons
            && post.persons[post.devices[newDevice].person] == db.invites[token].email
  {
  }

  /**
   A device enrolls for the email its invite was created for, before the invite's time is up, and once: no step in
   between had enrolled with it.
   */
  lemma EnrolledAsInvited(cfg: Config, tr: seq<Entry>, j: nat) returns (i: nat)
    requires Run(cfg, tr) && j < |tr| && tr[j].op.OpEnroll? && TxOf(cfg, tr[j]).Commit?
    ensures i < j && Invites(cfg, tr[i], tr[j].op.token)
    ensures var post := After(cfg, tr[j]);
            && tr[j].op.newDevice in post.devices && Active(post, tr[j].op.newDevice)
            && post.devices[tr[j].op.newDevice].key == tr[j].op.key
            && post.devices[tr[j].op.newDevice].person in post.persons
            && post.persons[post.devices[tr[j].op.newDevice].person] == tr[i].op.email
    ensures Unix(tr[j].now) < Unix(tr[i].now + tr[i].op.ttl)
    ensures forall k :: i < k < j ==> !EnrollsWith(cfg, tr[k], tr[j].op.token)
  {
    RunPrefix(cfg, tr, j);
    EnrollsWhom(tr[j].pre, tr[j].op.token, tr[j].op.key, tr[j].op.newPerson, tr[j].op.newDevice, tr[j].now);
    i := InviteStory(cfg, tr[..j], tr[j].op.token);
    assert forall k :: 0 <= k < j ==> tr[..j][k] == tr[k];
  }

  /** And an invite nobody has used, whose time is not up, does admit a device with a new key and ids. */
  lemma InviteAdmits(cfg: Config, tr: seq<Entry>, i: nat, j: nat)
    requires Run(cfg, tr) && i < j < |tr| && tr[j].op.OpEnroll? && Invites(cfg, tr[i], tr[j].op.token)
    requires forall k :: i < k < j ==> !EnrollsWith(cfg, tr[k], tr[j].op.token)
    requires Unix(tr[j].now) < Unix(tr[i].now + tr[i].op.ttl)
    requires !KeyInUse(tr[j].pre.devices, tr[j].op.key)
    requires tr[j].op.newPerson !in tr[j].pre.persons && tr[j].op.newDevice !in tr[j].pre.devices
    ensures TxOf(cfg, tr[j]).Commit?
  {
    RunPrefix(cfg, tr, j);
    RunPrefix(cfg, tr, i + 1);
    StepInvite(cfg, tr[i], tr[j].op.token);
    StillInvited(cfg, tr[..j], i, tr[j].op.token);
    assert forall k :: 0 <= k < j ==> tr[..j][k] == tr[k];
  }

  lemma {:induction false} StillInvited(cfg: Config, tr: seq<Entry>, i: nat, token: nat)
    requires Run(cfg, tr) && i < |tr| && Invites(cfg, tr[i], token)
    requires forall k :: i < k < |tr| ==> !EnrollsWith(cfg, tr[k], token)
    ensures token in Final(cfg, tr).invites
    ensures Final(cfg, tr).invites[token] == Invite(tr[i].op.email, Unix(tr[i].now + tr[i].op.ttl), None)
    decreases |tr|
  {
    var n := |tr| - 1;
    StepInvite(cfg, tr[n], token);
    if i == n {
    } else {
      assert forall k :: 0 <= k < n ==> tr[..n][k] == tr[k];
      StillInvited(cfg, tr[..n], i, token);
    }
  }

  // ------------------------------------------------------------- grant rows

  /** Grant rows are never removed, and change only by being revoked, once. */
  ghost predicate GrantsStand(pre: map<nat, GrantRow>, post: map<nat, GrantRow>) {
    forall g :: g in pre ==>
      && g in post && post[g].(revokedAt := None) == pre[g].(revokedAt := None)
      && (pre[g].revokedAt.Some? ==> post[g] == pre[g])
  }

  lemma SetGrantStands(db: Db, g: nat, t: nat, p: nat, dir: Direction)
    ensures GrantsStand(db.grants, SetGrant(db, g, t, p, dir).Settle(db).grants)
  {
  }

  lemma RevokeGrantStands(db: Db, t: nat, p: nat, dir: Direction, now: int)
    ensures GrantsStand(db.grants, RevokeGrant(db, t, p, dir, now).Settle(db).grants)
  {
  }

  lemma GrantsLeftAlone(cfg: Config, db: Db, op: Op, now: int)
    requires !MayTouch(op, Grants)
    ensures Step(cfg, db, op, now).Settle(db).grants == db.grants
  {
    StepSpares(cfg, db, op, now);
  }

  lemma StepGrantsStand(cfg: Config, e: Entry)
    ensures GrantsStand(e.pre.grants, After(cfg, e).grants)
  {
    match e.op {
      case OpSetGrant(g, t, p, dir) => SetGrantStands(e.pre, g, t, p, dir);
      case OpRevokeGrant(t, p, dir) => RevokeGrantStands(e.pre, t, p, dir, e.now);
      case _ => GrantsLeftAlone(cfg, e.pre, e.op, e.now);
    }
  }

  lemma {:induction false} GrantsStandAlong(cfg: Config, tr: seq<Entry>, i: nat)
    requires Run(cfg, tr) && i <= |tr|
    ensures GrantsStand(Final(cfg, tr[..i]).grants, Final(cfg, tr).grants)
    decreases |tr|
  {
    var n := |tr| - 1;
    if i == |tr| {
      assert tr[..i] == tr;
    } else {
      assert tr[..n][..i] == tr[..i];
      GrantsStandAlong(cfg, tr[..n], i);
      StepGrantsStand(cfg, tr[n]);
    }
  }

  /** The one grant revoked is dated with the second of its revocation. */
  lemma RevokedThen(db: Db, t: nat, p: nat, dir: Direction, now: int, g: nat)
    requires WellFormed(db) && g in db.grants && IsActiveGrant(db.grants[g], t, p, dir)
    ensures RevokeGrant(db, t, p, dir, now) ==
            Commit(db.(grants := db.grants[g := GrantRow(t, p, dir, Some(Unix(now)))]), Done)
  {
    assert GrantableDirection(dir);
    forall h | h in db.grants && IsActiveGrant(db.grants[h], t, p, dir) ensures h == g {
      assert SameActive(db.grants[g], db.grants[h]);
    }
    assert ActiveGrant(db, t, p, dir);
    assert RevokeGrant(db, t, p, dir, now).db.grants == db.grants[g := GrantRow(t, p, dir, Some(Unix(now)))];
  }

  /** Who may grant and revoke: a party of the thread, in one of the two directions; revoking needs a standing grant. */
  lemma GrantingIsExact(db: Db, id: nat, t: nat, p: nat, dir: Direction, now: int)
    requires WellFormed(db) && id !in db.grants
    ensures SetGrant(db, id, t, p, dir).Commit? <==>
            && (dir == Inbound || dir == Outbound) && t in db.threads
            && (p == db.threads[t].initiator || p == db.threads[t].recipient)
    ensures RevokeGrant(db, t, p, dir, now).Commit? <==> ActiveGrant(db, t, p, dir)
  {
    if g :| g in db.grants && IsActiveGrant(db.grants[g], t, p, dir) {
      assert GrantableDirection(db.grants[g].direction);
    }
  }
}
