/** Enrollment conserves: one used invite per device. */
module Enrollment {
  import opened Base
  import opened Tables
  import opened Invariants
  import opened Runs

  function Used(invites: map<nat, Invite>): set<nat> {
    set t | t in invites && invites[t].usedAt.Some?
  }

  lemma EnrollUsesOne(db: Db, token: nat, key: nat, newPerson: nat, newDevice: nat, now: int)
    requires Enroll(db, token, key, newPerson, newDevice, now).Commit?
    ensures var post := Enroll(db, token, key, newPerson, newDevice, now).db;
            && token !in Used(db.invites) && Used(post.invites) == Used(db.invites) + {token}
            && newDevice !in db.devices && post.devices.Keys == db.devices.Keys + {newDevice}
            && post.devices[newDevice].key == key && post.devices[newDevice].person in post.persons
            && post.persons[post.devices[newDevice].person] == db.invites[token].email
  {
  }

  predicate LeavesRoster(op: Op) { !op.OpCreateInvite? && !op.OpEnroll? && !op.OpRevokeDevice? }

  ghost predicate Balanced(db: Db) { |Used(db.invites)| == |db.devices.Keys| }

  ghost predicate KeepsBalance(db: Db, t: Tx) { Balanced(db) ==> Balanced(t.Settle(db)) }

  lemma CreateInviteBalance(db: Db, token: nat, email: nat, ttl: int, now: int)
    ensures KeepsBalance(db, CreateInvite(db, token, email, ttl, now))
  {
    var t := CreateInvite(db, token, email, ttl, now);
    assert Used(t.Settle(db).invites) == Used(db.invites);
  }

  lemma EnrollBalance(db: Db, token: nat, key: nat, newPerson: nat, newDevice: nat, now: int)
    ensures KeepsBalance(db, Enroll(db, token, key, newPerson, newDevice, now))
  {
    if Enroll(db, token, key, newPerson, newDevice, now).Commit? {
      EnrollUsesOne(db, token, key, newPerson, newDevice, now);
    }
  }

  lemma RevokeBalance(db: Db, device: nat, now: int)
    ensures KeepsBalance(db, RevokeDevice(db, device, now))
  {
    var t := RevokeDevice(db, device, now);
    assert t.Settle(db).devices.Keys == db.devices.Keys;
  }

  lemma OtherBalance(cfg: Config, db: Db, op: Op, now: int)
    requires LeavesRoster(op)
    ensures KeepsBalance(db, Step(cfg, db, op, now))
  {
    StepSpares(cfg, db, op, now);
  }

  lemma StepBalance(cfg: Config, db: Db, op: Op, now: int)
    ensures KeepsBalance(db, Step(cfg, db, op, now))
  {
    match op {
      case OpCreateInvite(token, email, ttl) => CreateInviteBalance(db, token, email, ttl, now);
      case OpEnroll(token, key, p, d) => EnrollBalance(db, token, key, p, d, now);
      case OpRevokeDevice(d) => RevokeBalance(db, d, now);
      case _ => OtherBalance(cfg, db, op, now);
    }
  }

  /** In every reachable state: as many used invites as devices, no key on two devices, no email on two persons. */
  lemma {:induction false} EnrollmentBalances(cfg: Config, tr: seq<Entry>)
    requires Run(cfg, tr)
    ensures |Used(Final(cfg, tr).invites)| == |Final(cfg, tr).devices|
    ensures DevicesOk(Final(cfg, tr).devices, Final(cfg, tr).persons)
    ensures PersonsOk(Final(cfg, tr).persons)
    decreases |tr|
  {
    RunWellFormed(cfg, tr);
    if tr == [] {
      assert Used(EMPTY_DB.invites) == {};
    } else {
      var n := |tr| - 1;
      EnrollmentBalances(cfg, tr[..n]);
      StepBalance(cfg, tr[n].pre, tr[n].op, tr[n].now);
    }
  }

  /** An enrollment refused for its key leaves the invite open, which still admits exactly the keys not in use. */
  lemma FailedEnrollKeepsInvite(cfg: Config, e: Entry, key: nat, newPerson: nat, newDevice: nat)
    requires WellFormed(e.pre) && e.op.OpEnroll? && TxOf(cfg, e) == Abort(ErrKeyInUse)
    requires newPerson !in e.pre.persons && newDevice !in e.pre.devices
    ensures KeyInUse(e.pre.devices, e.op.key)
    ensures InviteOpen(After(cfg, e), e.op.token, e.now)
    ensures Enroll(After(cfg, e), e.op.token, key, newPerson, newDevice, e.now).Commit? <==>
            !KeyInUse(e.pre.devices, key)
  {
  }
}
