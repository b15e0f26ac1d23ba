/**
 The store as it runs: each public method is one serialised write transaction.  It works on `work`, a copy of the
 tables, statement by statement, and either makes that copy the tables or drops it.
 */
module Store {
  import opened Base
  import opened Ids
  import opened Gate
  import opened Tables
  import opened Invariants

  /** The error a transaction ends with. */
  function ErrorOf(t: Tx): Option<Error> {
    if t.Abort? then Some(t.error) else None
  }

  /** What is left of the working copy after a statement sequence that `t` specifies; a failed one is dropped. */
  predicate Did(t: Tx, work: Db, err: Option<Error>) {
    err == ErrorOf(t) && (t.Commit? ==> work == t.db)
  }

  /** The devices a message to this person goes to. */
  function ActiveDevices(db: Db, to: nat): set<nat> {
    set d | d in db.devices && db.devices[d].person == to && Active(db, d)
  }

  /** One open delivery row for each of these devices. */
  function Open(id: MsgId, devices: set<nat>): map<DeliveryKey, Delivery> {
    map d | d in devices :: DeliveryKey(id, d) := Delivery(None, None)
  }

  lemma OpenMore(deliveries: map<DeliveryKey, Delivery>, id: MsgId, devices: set<nat>, d: nat)
    ensures (deliveries + Open(id, devices))[DeliveryKey(id, d) := Delivery(None, None)] ==
            deliveries + Open(id, devices + {d})
  {
  }

  lemma FanOutIsOpen(db: Db, id: MsgId, to: nat)
    ensures FanOut(db, id, to) == Open(id, ActiveDevices(db, to))
  {
  }

  /** The rows of an admitted message, on the tables its thread was ensured in. */
  function Admitted(db: Db, e: Mail, sender: nat, now: int): Db
    requires e.thread in db.threads
  {
    db.(messages := db.messages[e.id := Message(e.thread, sender, e, Unix(e.sentAt), Unix(now), false)],
        tombstones := db.tombstones[e.id := Unix(e.sentAt)],
        threads := db.threads[e.thread := db.threads[e.thread].(state := InputRequired)],
        deliveries := db.deliveries + FanOut(db, e.id, e.to))
  }

  lemma AdmittedIngest(db: Db, mid: Db, e: Mail, sender: nat, now: int)
    requires e.id !in db.tombstones && Tables.EnsureThread(db, e, sender).Commit?
    requires mid == Tables.EnsureThread(db, e, sender).db
    requires e.id !in mid.messages && sender in mid.persons && e.thread in mid.threads
    ensures IngestTx(db, e, sender, now) == Commit(Admitted(mid, e, sender, now), Done)
  {
    EnsureThreadFrame(db, e, sender);
    FanOutSame(mid, db, e.id, e.to);
  }

  lemma WithoutCounts(db: Db, gone: set<MsgId>)
    requires gone <= db.messages.Keys
    ensures |db.messages| - |Without(db, gone).messages| == |gone|
  {
    assert db.messages.Keys == (db.messages - gone).Keys + gone;
  }

  lemma GrantIffAffected(db: Db, affected: set<nat>, thread: nat, person: nat, dir: Direction)
    requires affected == set g | g in db.grants && IsActiveGrant(db.grants[g], thread, person, dir)
    ensures ActiveGrant(db, thread, person, dir) <==> affected != {}
  {
    if g :| g in db.grants && IsActiveGrant(db.grants[g], thread, person, dir) {
      assert g in affected;
    }
  }

  /** The schema's foreign key: every delivery row has its message. */
  ghost predicate MailOk(db: Db) {
    forall k :: k in db.deliveries ==> k.msg in db.messages
  }

  lemma DeliveriesHaveMail(db: Db)
    requires WellFormed(db)
    ensures MailOk(db) && PersonsOk(db.persons)
  {
  }

  class Relay {
    var db: Db
    var work: Db
    const cfg: Config

    constructor (cfg: Config)
      ensures this.cfg == cfg && db == EMPTY_DB
    {
      this.cfg := cfg;
      db := EMPTY_DB;
      work := EMPTY_DB;
    }

    /** The end of writeTx: commit on no error, roll back otherwise. */
    method EndTx(err: Option<Error>)
      modifies this`db
      ensures db == if err.None? then work else old(db)
    {
      if err.None? {
        db := work;
      }
    }

    // ---------------------------------------------------------------- identity

    method CreateInvite(token: nat, email: nat, ttl: int, now: int) returns (err: Option<Error>)
      modifies this
      ensures db == Tables.CreateInvite(old(db), token, email, ttl, now).Settle(old(db))
      ensures err == ErrorOf(Tables.CreateInvite(old(db), token, email, ttl, now))
    {
      if token in db.invites {
        return Some(ErrConstraint);
      }
      work := db.(invites := db.invites[token := Invite(email, Unix(now + ttl), None)]);
      err := None;
      EndTx(err);
    }

    /** Marks the invite used, joins its person to the roster and registers the device; any failure undoes all three. */
    method Enroll(token: nat, key: nat, newPerson: nat, newDevice: nat, now: int) returns (err: Option<Error>)
      requires PersonsOk(db.persons)
      modifies this
      ensures db == Tables.Enroll(old(db), token, key, newPerson, newDevice, now).Settle(old(db))
      ensures err == ErrorOf(Tables.Enroll(old(db), token, key, newPerson, newDevice, now))
    {
      if !InviteOpen(db, token, now) {
        return Some(ErrInviteInvalid);
      }
      var invite := db.invites[token];
      work := db.(invites := db.invites[token := invite.(usedAt := Some(Unix(now)))]);
      err := JoinRoster(invite.email, key, newPerson, newDevice);
      EndTx(err);
    }

    method JoinRoster(email: nat, key: nat, newPerson: nat, newDevice: nat) returns (err: Option<Error>)
      requires PersonsOk(work.persons)
      modifies this`work
      ensures var person := Joiner(old(work).persons, email, newPerson);
              if person.None? then err == Some(ErrConstraint)
              else if KeyInUse(old(work).devices, key) then err == Some(ErrKeyInUse)
              else if newDevice in old(work).devices then err == Some(ErrConstraint)
              else
                err == None &&
                work == old(work).(persons := old(work).persons[person.value := email],
                                   devices := old(work).devices[newDevice := Device(person.value, key, None)])
    {
      var person;
      person, err := FindOrCreatePerson(email, newPerson);
      if err.None? {
        err := RegisterDevice(person, key, newDevice);
      }
    }

    /** The globally unique key is checked first, so that a duplicate has its own error. */
    method RegisterDevice(person: nat, key: nat, newDevice: nat) returns (err: Option<Error>)
      modifies this`work
      ensures if KeyInUse(old(work).devices, key) then err == Some(ErrKeyInUse) && work == old(work)
              else if newDevice in old(work).devices then err == Some(ErrConstraint) && work == old(work)
              else
                && err == None
                && work == old(work).(devices := old(work).devices[newDevice := Device(person, key, None)])
    {
      err := None;
      if KeyInUse(work.devices, key) {
        err := Some(ErrKeyInUse);
      } else if newDevice in work.devices {
        err := Some(ErrConstraint);
      } else {
        work := work.(devices := work.devices[newDevice := Device(person, key, None)]);
      }
    }

    method FindOrCreatePerson(email: nat, newPerson: nat) returns (person: nat, err: Option<Error>)
      requires PersonsOk(work.persons)
      modifies this`work
      ensures match Joiner(old(work).persons, email, newPerson)
              case None => err == Some(ErrConstraint)
              case Some(p) => err == None && person == p && work == old(work).(persons := old(work).persons[p := email])
    {
      err := None;
      if p :| p in work.persons && work.persons[p] == email {
        person := p;
        assert work.persons[p := email] == work.persons;
        return;
      }
      person := newPerson;
      if newPerson in work.persons {
        err := Some(ErrConstraint);
      } else {
        work := work.(persons := work.persons[newPerson := email]);
      }
    }

    method RevokeDevice(device: nat, now: int) returns (err: Option<Error>)
      modifies this
      ensures db == Tables.RevokeDevice(old(db), device, now).Settle(old(db))
      ensures err == ErrorOf(Tables.RevokeDevice(old(db), device, now))
    {
      work := db;
      err := None;
      if device in work.devices && work.devices[device].revokedAt.None? {
        work := work.(devices := work.devices[device := work.devices[device].(revokedAt := Some(Unix(now)))]);
      } else if device !in work.devices {
        err := Some(ErrNotFound);
      }
      EndTx(err);
    }

    // ----------------------------------------------------------------- threads

    method StartThread(thread: nat, initiator: nat, recipient: nat) returns (err: Option<Error>)
      modifies this
      ensures db == Tables.StartThread(old(db), thread, initiator, recipient).Settle(old(db))
      ensures err == ErrorOf(Tables.StartThread(old(db), thread, initiator, recipient))
    {
      work := db;
      err := InsertThread(thread, initiator, recipient, Submitted);
      EndTx(err);
    }

    /** INSERT INTO threads, with the schema's checks. */
    method InsertThread(thread: nat, a: nat, b: nat, state: ThreadState) returns (err: Option<Error>)
      modifies this`work
      ensures if ThreadInsertable(old(work), thread, a, b)
              then err == None && work == old(work).(threads := old(work).threads[thread := Thread(a, b, state)])
              else err == Some(ErrConstraint) && work == old(work)
    {
      if thread in work.threads || a !in work.persons || b !in work.persons || a == b {
        return Some(ErrConstraint);
      }
      work := work.(threads := work.threads[thread := Thread(a, b, state)]);
      err := None;
    }

    // ------------------------------------------------------------------ ingest

    method IngestMessage(e: Mail, sender: nat, now: int) returns (err: Option<Error>)
      requires MailOk(db)
      modifies this
      ensures db == Ingest(cfg, old(db), e, sender, now).Settle(old(db))
      ensures err == ErrorOf(Ingest(cfg, old(db), e, sender, now))
    {
      if e.id.NotUuid? {
        return Some(ErrReplay);
      }
      if e.sentAt < now - cfg.maxAge || e.sentAt > now + cfg.maxSkew {
        return Some(ErrNotFresh);
      }
      work := db;
      err := IngestInTx(e, sender, now);
      EndTx(err);
    }

    /** ingestTx: dedup, thread, message row, tombstone, surfacing and fan-out, in the caller's transaction. */
    method IngestInTx(e: Mail, sender: nat, now: int) returns (err: Option<Error>)
      requires MailOk(work)
      modifies this`work
      ensures Did(IngestTx(old(work), e, sender, now), work, err)
    {
      ghost var was := work;
      if e.id in work.tombstones {
        return Some(ErrReplay);
      }
      err := EnsureThread(e, sender);
      if err.Some? {
        return;
      }
      if e.id in work.messages || sender !in work.persons || e.thread !in work.threads {
        return Some(ErrConstraint);
      }
      AdmittedIngest(was, work, e, sender, now);
      WriteMessage(e, sender, now);
    }

    /** The rows of an admitted message: message, tombstone, surfaced thread, one delivery per active device. */
    method WriteMessage(e: Mail, sender: nat, now: int)
      requires e.thread in work.threads
      modifies this`work
      ensures work == Admitted(old(work), e, sender, now)
    {
      ghost var was := work;
      work := work.(messages := work.messages[e.id := Message(e.thread, sender, e, Unix(e.sentAt), Unix(now), false)]);
      work := work.(tombstones := work.tombstones[e.id := Unix(e.sentAt)]);
      work := work.(threads := work.threads[e.thread := work.threads[e.thread].(state := InputRequired)]);
      FanOutSame(work, was, e.id, e.to);
      FanOutDeliveries(e.id, e.to);
    }

    method EnsureThread(e: Mail, sender: nat) returns (err: Option<Error>)
      modifies this`work
      ensures Did(Tables.EnsureThread(old(work), e, sender), work, err)
    {
      err := None;
      if e.thread !in work.threads {
        err := InsertThread(e.thread, sender, e.to, InputRequired);
      } else if !work.threads[e.thread].Ends(sender, e.to) {
        err := Some(ErrNotParticipant);
      }
    }

    /** Collects the recipient's active devices, then inserts one delivery row for each. */
    method FanOutDeliveries(id: MsgId, to: nat)
      modifies this`work
      ensures work == old(work).(deliveries := old(work).deliveries + FanOut(old(work), id, to))
    {
      FanOutIsOpen(work, id, to);
      var rows := InsertDeliveries(work.deliveries, id, ActiveDevices(work, to));
      work := work.(deliveries := rows);
    }

    /** MarkDelivered, and Ack when `acked`: COALESCE keeps a time already there. */
    method ReportReceipt(msg: MsgId, device: nat, acked: bool, now: int) returns (err: Option<Error>)
      modifies this
      ensures db == Receipt(old(db), msg, device, acked, now).Settle(old(db))
      ensures err == ErrorOf(Receipt(old(db), msg, device, acked, now))
    {
      work := db;
      var k := DeliveryKey(msg, device);
      if k !in work.deliveries {
        return Some(ErrNotFound);
      }
      if acked && work.deliveries[k].ackedAt.None? {
        work := work.(deliveries := work.deliveries[k := work.deliveries[k].(ackedAt := Some(Unix(now)))]);
      }
      if work.deliveries[k].deliveredAt.None? {
        work := work.(deliveries := work.deliveries[k := work.deliveries[k].(deliveredAt := Some(Unix(now)))]);
      }
      assert work.deliveries == db.deliveries[k := Touch(db.deliveries[k], acked, now)];
      err := None;
      EndTx(err);
    }

    // ------------------------------------------------------------------ drafts

    method CreateDraft(author: nat, e: Mail) returns (err: Option<Error>)
      modifies this
      ensures db == Tables.CreateDraft(cfg, old(db), author, e).Settle(old(db))
      ensures err == ErrorOf(Tables.CreateDraft(cfg, old(db), author, e))
    {
      if e.id.NotUuid? || !cfg.fits(e) {
        return Some(ErrBadEnvelope);
      }
      if e.thread !in db.threads {
        return Some(ErrNotFound);
      }
      var t := db.threads[e.thread];
      if author != t.initiator && author != t.recipient {
        return Some(ErrNotParticipant);
      }
      var other := if author == t.recipient then t.initiator else t.recipient;
      if e.to != other {
        return Some(ErrNotParticipant);
      }
      if e.id in db.drafts {
        return Some(ErrConstraint);
      }
      work := db.(drafts := db.drafts[e.id := Draft(e.thread, author, e, PendingReview, false, None)]);
      err := None;
      EndTx(err);
    }

    /** Releases a pending draft of the caller's, edited if they wish, and delivers it, in one transaction. */
    method ReleaseDraft(person: nat, id: MsgId, text: Option<string>, now: int)
      returns (err: Option<Error>, released: Option<Release<Mail>>)
      requires MailOk(db)
      modifies this
      ensures var t := Tables.ReleaseDraft(cfg, old(db), person, id, text, now);
              && db == t.Settle(old(db)) && err == ErrorOf(t)
              && (t.Commit? ==> released.Some? && t.reply == Released(released.value.payload.to, released.value))
              && (t.Abort? ==> released == None)
    {
      released := None;
      if id !in db.drafts || db.drafts[id].author != person {
        return Some(ErrNotFound), None;
      }
      work := db;
      var payload := work.drafts[id].mail;
      if text.Some? {
        payload := payload.(body := Body(payload.body.role, [text.value]));
        if !cfg.fits(payload) {
          return Some(ErrBadEnvelope), None;
        }
        work := work.(drafts := work.drafts[id := work.drafts[id].(mail := payload)]);
      }
      var row := db.drafts[id];
      var verdict := ApplyOutbound(Approvable(Outbound, row.thread, id, payload), row.state, Approve);
      if verdict.Refused? {
        return Some(ErrGate(verdict.error)), None;
      }
      err := DecideAndDeliver(db, id, payload, verdict.value, false, now);
      EndTx(err);
      if err.None? {
        released := Some(verdict.value.release.release);
      }
    }

    /** setDraftDecided, then deliverInTx. */
    method DecideAndDeliver(ghost was: Db, id: MsgId, payload: Mail, decision: Decision<Mail>, viaGrant: bool, now: int)
      returns (err: Option<Error>)
      requires MailOk(was) && id in was.drafts
      requires work == was.(drafts := was.drafts[id := was.drafts[id].(mail := payload)])
      modifies this`work
      ensures Did(Deliver(was, id, payload, decision, viaGrant, now), work, err)
    {
      SetDraftDecided(id, decision.state, viaGrant, now);
      var row := work.drafts[id];
      assert work == was.(drafts := was.drafts[id := row]);
      err := IngestInTx(payload.(sentAt := now), row.author, now);
    }

    method SetDraftDecided(id: MsgId, next: DraftState, viaGrant: bool, now: int)
      requires id in work.drafts
      modifies this`work
      ensures work == old(work).(drafts := old(work).drafts[id :=
                old(work).drafts[id].(state := next, viaGrant := viaGrant, decidedAt := Some(Unix(now)))])
    {
      var row := work.drafts[id].(state := next, viaGrant := viaGrant, decidedAt := Some(Unix(now)));
      work := work.(drafts := work.drafts[id := row]);
    }

    method DiscardDraft(person: nat, id: MsgId, now: int) returns (err: Option<Error>)
      modifies this
      ensures db == Tables.DiscardDraft(old(db), person, id, now).Settle(old(db))
      ensures err == ErrorOf(Tables.DiscardDraft(old(db), person, id, now))
    {
      if id !in db.drafts || db.drafts[id].author != person {
        return Some(ErrNotFound);
      }
      var row := db.drafts[id];
      var verdict := ApplyOutbound(Approvable(Outbound, row.thread, id, row.mail), row.state, Reject);
      if verdict.Refused? {
        return Some(ErrGate(verdict.error));
      }
      work := db;
      SetDraftDecided(id, verdict.value.state, false, now);
      err := None;
      EndTx(err);
    }

    /** Releases and delivers the granter's own draft under their active outbound grant; without one, asks the human. */
    method ReleaseReplyViaGrant(id: MsgId, granter: nat, now: int)
      returns (err: Option<Error>, released: Option<Release<Mail>>)
      requires MailOk(db)
      modifies this
      ensures var t := ReleaseViaGrant(old(db), id, granter, now);
              && db == t.Settle(old(db)) && err == ErrorOf(t)
              && (t.Commit? ==>
                    t.reply ==
                    if released.Some? then Released(released.value.payload.to, released.value) else NoGrant)
              && (t.Abort? ==> released == None)
    {
      released := None;
      work := db;
      if id !in work.drafts {
        return Some(ErrNotFound), None;
      }
      var row := work.drafts[id];
      if row.author != granter || !ActiveGrant(work, row.thread, granter, Outbound) {
        return None, None;
      }
      var a := Approvable(Outbound, row.thread, id, row.mail);
      var verdict := ApplyOutboundGrant(Grant(row.thread, Outbound, false), a, row.state);
      if verdict.Refused? {
        return Some(ErrGate(verdict.error)), None;
      }
      assert work == db.(drafts := db.drafts[id := db.drafts[id].(mail := row.mail)]);
      err := DecideAndDeliver(db, id, row.mail, verdict.value, true, now);
      EndTx(err);
      if err.None? {
        released := Some(verdict.value.release.release);
      }
    }

    // ---------------------------------------------------------------- verdicts

    /** ApproveInbound and DeclineInbound. */
    method TransitionInbound(thread: nat, v: Verdict) returns (err: Option<Error>)
      modifies this
      ensures db == ThreadVerdict(old(db), thread, v).Settle(old(db))
      ensures err == ErrorOf(ThreadVerdict(old(db), thread, v))
    {
      if thread !in db.threads {
        return Some(ErrNotFound);
      }
      work := db;
      var next;
      next, err := ApplyInboundInTx(thread, work.threads[thread].state, v);
      EndTx(err);
    }

    method ApplyInboundInTx(thread: nat, cur: ThreadState, v: Verdict) returns (next: ThreadState, err: Option<Error>)
      requires thread in work.threads && work.threads[thread].state == cur
      modifies this`work
      ensures Did(ThreadVerdict(old(work), thread, v), work, err)
      ensures err.None? ==> ThreadVerdict(old(work), thread, v).reply == NewState(next)
    {
      next := OtherState("");
      var verdict := ApplyInbound(cur, v);
      if verdict.Refused? {
        return next, Some(ErrGate(verdict.error));
      }
      next := verdict.value;
      work := work.(threads := work.threads[thread := work.threads[thread].(state := next)]);
      err := None;
    }

    /** ApproveInboundMessage and DeclineInboundMessage: only a thread's latest message, only for its other party. */
    method InboundMessageVerdict(person: nat, id: MsgId, v: Verdict) returns (next: ThreadState, err: Option<Error>)
      modifies this
      ensures db == MessageVerdict(old(db), person, id, v).Settle(old(db))
      ensures err == ErrorOf(MessageVerdict(old(db), person, id, v))
      ensures err.None? ==> MessageVerdict(old(db), person, id, v).reply == NewState(next)
    {
      next := OtherState("");
      if id !in db.messages || db.messages[id].thread !in db.threads || !Latest(db, id) {
        return next, Some(ErrNotFound);
      }
      var m := db.messages[id];
      var t := db.threads[m.thread];
      if (person != t.initiator && person != t.recipient) || person == m.sender {
        return next, Some(ErrNotFound);
      }
      work := db;
      next, err := ApplyInboundInTx(m.thread, t.state, v);
      EndTx(err);
    }

    method ApproveInboundViaGrant(thread: nat, granter: nat, id: MsgId) returns (fired: bool, err: Option<Error>)
      modifies this
      ensures var t := ApproveViaGrant(old(db), thread, granter, id);
              && db == t.Settle(old(db)) && err == ErrorOf(t) && (t.Commit? ==> t.reply == Fired(fired))
              && (t.Abort? ==> !fired)
    {
      fired := false;
      if !ActiveGrant(db, thread, granter, Inbound) {
        return false, None;
      }
      if thread !in db.threads {
        return false, Some(ErrNotFound);
      }
      var a := Approvable(Inbound, thread, id, ());
      var verdict := ApplyInboundGrant(Grant(thread, Inbound, false), a, db.threads[thread].state);
      if verdict.Refused? {
        return false, Some(ErrGate(verdict.error));
      }
      work := db.(threads := db.threads[thread := db.threads[thread].(state := verdict.value)]);
      if id in work.messages && work.messages[id].thread == thread {
        work := work.(messages := work.messages[id := work.messages[id].(viaGrant := true)]);
      }
      EndTx(None);
      return true, None;
    }

    method SetThreadGrant(id: nat, thread: nat, person: nat, dir: Direction) returns (err: Option<Error>)
      modifies this
      ensures db == SetGrant(old(db), id, thread, person, dir).Settle(old(db))
      ensures err == ErrorOf(SetGrant(old(db), id, thread, person, dir))
    {
      if dir != Inbound && dir != Outbound {
        return Some(ErrGate(ErrWrongDirection));
      }
      work := db;
      if thread !in work.threads || !work.threads[thread].Party(person) {
        return Some(ErrNotParticipant);
      }
      if ActiveGrant(work, thread, person, dir) {
        return None;
      }
      if id in work.grants || person !in work.persons {
        return Some(ErrConstraint);
      }
      work := work.(grants := work.grants[id := GrantRow(thread, person, dir, None)]);
      err := None;
      EndTx(err);
    }

    method RevokeThreadGrant(thread: nat, person: nat, dir: Direction, now: int) returns (err: Option<Error>)
      modifies this
      ensures db == RevokeGrant(old(db), thread, person, dir, now).Settle(old(db))
      ensures err == ErrorOf(RevokeGrant(old(db), thread, person, dir, now))
    {
      if dir != Inbound && dir != Outbound {
        return Some(ErrGate(ErrWrongDirection));
      }
      work := db;
      if thread !in work.threads || !work.threads[thread].Party(person) {
        return Some(ErrNotParticipant);
      }
      var affected := set g | g in work.grants && IsActiveGrant(work.grants[g], thread, person, dir);
      work := work.(grants := map g | g in work.grants ::
        if g in affected then work.grants[g].(revokedAt := Some(Unix(now))) else work.grants[g]);
      err := None;
      if affected == {} {
        err := Some(ErrNotFound);
      }
      GrantIffAffected(db, affected, thread, person, dir);
      EndTx(err);
    }

    // --------------------------------------------------------------- retention

    /** Deletes the expired messages, each with its delivery rows, and counts them. */
    method SweepMessages(now: int) returns (n: nat)
      modifies this
      ensures db == Tables.SweepMessages(cfg, old(db), now).Settle(old(db))
      ensures n == |old(db).messages| - |db.messages|
    {
      var doomed := set m | m in db.messages && Expired(cfg, db, m, now);
      WithoutCounts(db, doomed);
      work := db.(messages := db.messages - doomed);
      work := work.(deliveries := map k | k in work.deliveries && k.msg !in doomed :: work.deliveries[k]);
      n := |doomed|;
      EndTx(None);
    }

    method SweepDrafts(now: int) returns (n: nat)
      modifies this
      ensures db == Tables.SweepDrafts(cfg, old(db), now).Settle(old(db))
      ensures n == |old(db).drafts| - |db.drafts|
    {
      var stale := set d | d in db.drafts && StaleDraft(cfg, db.drafts[d], now);
      work := db.(drafts := db.drafts - stale);
      n := |stale|;
      assert db.drafts.Keys == work.drafts.Keys + stale;
      assert work.drafts == Tables.SweepDrafts(cfg, db, now).db.drafts;
      EndTx(None);
    }

    method PruneTombstones(now: int) returns (n: nat)
      modifies this
      ensures db == Tables.PruneTombstones(cfg, old(db), now).Settle(old(db))
      ensures n == |old(db).tombstones| - |db.tombstones|
    {
      var expired := set m | m in db.tombstones && db.tombstones[m] < Unix(now - cfg.maxAge);
      work := db.(tombstones := db.tombstones - expired);
      n := |expired|;
      assert db.tombstones.Keys == work.tombstones.Keys + expired;
      assert work.tombstones == Tables.PruneTombstones(cfg, db, now).db.tombstones;
      EndTx(None);
    }

    // ---------------------------------------------------------- one operation

    /** Any one operation: the store steps as the machine of Tables.Step does, and stays well formed. */
    method Perform(op: Op, now: int)
      requires WellFormed(db)
      modifies this
      ensures db == Step(cfg, old(db), op, now).Settle(old(db))
      ensures WellFormed(db)
    {
      StepKeeps(cfg, db, op, now);
      DeliveriesHaveMail(db);
      if op.OpIngest? || op.OpReceipt? || DraftOp(op) {
        PerformMail(op, now);
      } else if SweepOp(op) {
        PerformSweep(op, now);
      } else {
        PerformOther(op, now);
      }
    }

    method PerformMail(op: Op, now: int)
      requires MailOk(db)
      requires op.OpIngest? || op.OpReceipt? || DraftOp(op)
      modifies this
      ensures db == Step(cfg, old(db), op, now).Settle(old(db))
    {
      match op {
        case OpIngest(e, sender) => var _ := IngestMessage(e, sender, now);
        case OpReceipt(m, d, acked) => var _ := ReportReceipt(m, d, acked, now);
        case OpCreateDraft(author, e) => var _ := CreateDraft(author, e);
        case OpReleaseDraft(p, id, text) => var _, _ := ReleaseDraft(p, id, text, now);
        case OpDiscardDraft(p, id) => var _ := DiscardDraft(p, id, now);
        case OpReleaseViaGrant(id, p) => var _, _ := ReleaseReplyViaGrant(id, p, now);
      }
    }

    method PerformSweep(op: Op, now: int)
      requires SweepOp(op)
      modifies this
      ensures db == Step(cfg, old(db), op, now).Settle(old(db))
    {
      match op {
        case OpSweepMessages => var _ := SweepMessages(now);
        case OpSweepDrafts => var _ := SweepDrafts(now);
        case OpPruneTombstones => var _ := PruneTombstones(now);
      }
    }

    method PerformOther(op: Op, now: int)
      requires PersonsOk(db.persons)
      requires !op.OpIngest? && !op.OpReceipt? && !DraftOp(op) && !SweepOp(op)
      modifies this
      ensures db == Step(cfg, old(db), op, now).Settle(old(db))
    {
      match op {
        case OpCreateInvite(token, email, ttl) => var _ := CreateInvite(token, email, ttl, now);
        case OpEnroll(token, key, p, d) => var _ := Enroll(token, key, p, d, now);
        case OpRevokeDevice(d) => var _ := RevokeDevice(d, now);
        case OpStartThread(t, a, b) => var _ := StartThread(t, a, b);
        case OpThreadVerdict(t, v) => var _ := TransitionInbound(t, v);
        case OpMessageVerdict(p, id, v) => var _, _ := InboundMessageVerdict(p, id, v);
        case OpApproveViaGrant(t, p, id) => var _, _ := ApproveInboundViaGrant(t, p, id);
        case OpSetGrant(g, t, p, dir) => var _ := SetThreadGrant(g, t, p, dir);
        case OpRevokeGrant(t, p, dir) => var _ := RevokeThreadGrant(t, p, dir, now);
      }
    }

    // ----------------------------------------------------------------- queries

    /** A device's unacked messages, oldest first, and by id within a second. */
    method Inbox(device: nat) returns (items: seq<MsgId>)
      ensures forall id :: id in items <==> InInbox(db, device, id)
      ensures InOrder(db.messages, items)
    {
      var due := set id | id in db.messages && InInbox(db, device, id);
      items := ByAge(db.messages, due);
    }

    /** Everything someone else has sent this person that they have not acted on, oldest first. */
    method InboundAwaiting(person: nat) returns (items: seq<MsgId>)
      ensures forall id :: id in items <==> Awaiting(db, person, id)
      ensures OldestFirst(db.messages, items)
    {
      var due := set id | id in db.messages && Awaiting(db, person, id);
      items := ByAge(db.messages, due);
    }
  }

  method InsertDeliveries(deliveries: map<DeliveryKey, Delivery>, id: MsgId, devices: set<nat>)
    returns (rows: map<DeliveryKey, Delivery>)
    ensures rows == deliveries + Open(id, devices)
  {
    rows := deliveries;
    var due := devices;
    assert rows == deliveries + Open(id, devices - due);
    while due != {}
      invariant due <= devices && rows == deliveries + Open(id, devices - due)
      decreases |due|
    {
      var d :| d in due;
      OpenMore(deliveries, id, devices - due, d);
      rows := rows[DeliveryKey(id, d) := Delivery(None, None)];
      assert devices - due + {d} == devices - (due - {d});
      due := due - {d};
    }
    assert devices - due == devices;
  }

  /** Listed once each, in order of arrival. */
  predicate OldestFirst(messages: map<MsgId, Message>, items: seq<MsgId>) {
    && (forall i :: 0 <= i < |items| ==> items[i] in messages)
    && (forall i, j :: 0 <= i < j < |items| ==>
          items[i] != items[j] && messages[items[i]].receivedAt <= messages[items[j]].receivedAt)
  }

  /** Earlier in arrival, or in the same second and before it by id. */
  predicate Ahead(messages: map<MsgId, Message>, a: MsgId, b: MsgId)
    requires a in messages && b in messages
  {
    || messages[a].receivedAt < messages[b].receivedAt
    || (messages[a].receivedAt == messages[b].receivedAt && Before(a, b))
  }

  /** Listed in the one order that arrival and id give. */
  predicate InOrder(messages: map<MsgId, Message>, items: seq<MsgId>) {
    && (forall i :: 0 <= i < |items| ==> items[i] in messages)
    && (forall i, j :: 0 <= i < j < |items| ==> Ahead(messages, items[i], items[j]))
  }

  /** ORDER BY received_at, id over the rows in `due`. */
  method ByAge(messages: map<MsgId, Message>, due: set<MsgId>) returns (items: seq<MsgId>)
    requires due <= messages.Keys
    ensures InOrder(messages, items)
    ensures forall id :: id in items <==> id in due
  {
    items := [];
    var rest := due;
    while rest != {}
      invariant rest <= due
      invariant InOrder(messages, items)
      invariant forall id :: id in items <==> id in due && id !in rest
      invariant forall id, m :: id in items && m in rest ==> Ahead(messages, id, m)
      decreases |rest|
    {
      var first := Oldest(messages, rest);
      items := items + [first];
      rest := rest - {first};
    }
  }

  method Oldest(messages: map<MsgId, Message>, ids: set<MsgId>) returns (first: MsgId)
    requires ids != {} && ids <= messages.Keys
    ensures first in ids
    ensures forall id :: id in ids && id != first ==> Ahead(messages, first, id)
  {
    first :| first in ids;
    var rest := ids - {first};
    while rest != {}
      invariant first in ids && rest <= ids
      invariant forall id :: id in ids && id !in rest && id != first ==> Ahead(messages, first, id)
      decreases |rest|
    {
      var m :| m in rest;
      if m != first && Ahead(messages, m, first) {
        first := m;
      }
      rest := rest - {m};
    }
  }

  /** There is only one such list: the inbox of a device is determined, ties included. */
  lemma {:induction false} OrderUnique(messages: map<MsgId, Message>, a: seq<MsgId>, b: seq<MsgId>)
    requires InOrder(messages, a) && InOrder(messages, b)
    requires forall id :: id in a <==> id in b
    ensures a == b
    decreases |a|
  {
    FirstIn(a);
    FirstIn(b);
    if a == [] {
    } else {
      HeadIsAhead(messages, a, b[0]);
      HeadIsAhead(messages, b, a[0]);
      forall id ensures id in a[1..] <==> id in b[1..] {
        InTail(messages, a, id);
        InTail(messages, b, id);
      }
      OrderUnique(messages, a[1..], b[1..]);
      assert a == [a[0]] + a[1..] && b == [b[0]] + b[1..];
    }
  }

  lemma FirstIn(a: seq<MsgId>)
    ensures a == [] || a[0] in a
  {
  }

  lemma HeadIsAhead(messages: map<MsgId, Message>, a: seq<MsgId>, id: MsgId)
    requires InOrder(messages, a) && id in a
    ensures id == a[0] || Ahead(messages, a[0], id)
  {
  }

  lemma InTail(messages: map<MsgId, Message>, a: seq<MsgId>, id: MsgId)
    requires InOrder(messages, a) && a != []
    ensures id in a[1..] <==> id in a && id != a[0]
  {
    assert a == [a[0]] + a[1..];
    assert forall i :: 0 < i < |a| ==> a[i] != a[0];
  }

  // ------------------------------------------------------- what a push marks

  /** The tables after these messages have been reported delivered to a device, one after another. */
  function Marked(db: Db, device: nat, ids: seq<MsgId>, clock: nat -> int): Db {
    if ids == [] then db
    else
      var n := |ids| - 1;
      var was := Marked(db, device, ids[..n], clock);
      Receipt(was, ids[n], device, false, clock(n)).Settle(was)
  }

  /** Only these delivery rows are touched, each gets a delivery time, and nothing is acked. */
  ghost predicate MarksOnly(pre: Db, post: Db, device: nat, ids: seq<MsgId>) {
    && post == pre.(deliveries := post.deliveries) && post.deliveries.Keys == pre.deliveries.Keys
    && forall k :: k in pre.deliveries ==>
         MarksRow(pre.deliveries[k], post.deliveries[k], k.device == device && k.msg in ids)
  }

  predicate MarksRow(was: Delivery, now: Delivery, marked: bool) {
    if marked && was.deliveredAt.None? then now.deliveredAt.Some? && now.ackedAt == was.ackedAt else now == was
  }

  ghost predicate MarksKey(pre: Db, post: Db, key: DeliveryKey) {
    && post == pre.(deliveries := post.deliveries) && post.deliveries.Keys == pre.deliveries.Keys
    && forall k :: k in pre.deliveries ==> MarksRow(pre.deliveries[k], post.deliveries[k], k == key)
  }

  lemma MarkOne(db: Db, device: nat, id: MsgId, now: int)
    ensures MarksKey(db, Receipt(db, id, device, false, now).Settle(db), DeliveryKey(id, device))
  {
    var k, post := DeliveryKey(id, device), Receipt(db, id, device, false, now).Settle(db);
    if k in db.deliveries {
      assert MarksRow(db.deliveries[k], Touch(db.deliveries[k], false, now), true);
      assert post.deliveries == db.deliveries[k := Touch(db.deliveries[k], false, now)];
    } else {
      assert post == db;
    }
  }

  lemma MarkMore(a: Db, b: Db, c: Db, device: nat, ids: seq<MsgId>, id: MsgId)
    requires MarksOnly(a, b, device, ids) && MarksKey(b, c, DeliveryKey(id, device))
    ensures MarksOnly(a, c, device, ids + [id])
  {
  }

  lemma {:induction false} MarkedMeans(db: Db, device: nat, ids: seq<MsgId>, clock: nat -> int)
    ensures MarksOnly(db, Marked(db, device, ids, clock), device, ids)
    decreases |ids|
  {
    if ids == [] {
    } else {
      var n := |ids| - 1;
      var was := Marked(db, device, ids[..n], clock);
      MarkedMeans(db, device, ids[..n], clock);
      MarkOne(was, device, ids[n], clock(n));
      MarkMore(db, was, Marked(db, device, ids, clock), device, ids[..n], ids[n]);
      assert ids == ids[..n] + [ids[n]];
    }
  }

  /** Pushing acks nothing: every inbox is as it was. */
  lemma MarkedKeepsInbox(db: Db, device: nat, ids: seq<MsgId>, clock: nat -> int, d: nat, id: MsgId)
    ensures InInbox(Marked(db, device, ids, clock), d, id) <==> InInbox(db, d, id)
  {
    MarkedMeans(db, device, ids, clock);
  }
}
