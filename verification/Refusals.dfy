/** Which error each operation on well-formed tables ends with, and exactly when. */
module Refusals {
  import opened Base
  import opened Ids
  import opened Gate
  import opened Tables
  import opened Invariants

  /** A new thread needs two distinct people of the roster; an existing one, its own two parties. */
  lemma IngestErrors(cfg: Config, db: Db, e: Mail, sender: nat, now: int)
    requires WellFormed(db)
    requires e.id.Uuid? && Fresh(cfg, e.sentAt, now) && e.id !in db.tombstones
    ensures Ingest(cfg, db, e, sender, now) == Abort(ErrNotParticipant) <==>
              e.thread in db.threads && !db.threads[e.thread].Ends(sender, e.to)
    ensures Ingest(cfg, db, e, sender, now) == Abort(ErrConstraint) <==>
              if e.thread in db.threads then db.threads[e.thread].Ends(sender, e.to) && e.id in db.messages
              else sender !in db.persons || e.to !in db.persons || sender == e.to || e.id in db.messages
  {
  }

  lemma CreateDraftErrors(cfg: Config, db: Db, author: nat, e: Mail)
    ensures var t := CreateDraft(cfg, db, author, e);
            && (t == Abort(ErrBadEnvelope) <==> e.id.NotUuid? || !cfg.fits(e))
            && (t == Abort(ErrNotFound) <==> e.id.Uuid? && cfg.fits(e) && e.thread !in db.threads)
            && (t == Abort(ErrNotParticipant) <==>
                  e.id.Uuid? && cfg.fits(e) && e.thread in db.threads && !db.threads[e.thread].Ends(author, e.to))
            && (t == Abort(ErrConstraint) <==>
                  && e.id.Uuid? && cfg.fits(e) && e.thread in db.threads && db.threads[e.thread].Ends(author, e.to)
                  && e.id in db.drafts)
  {
  }

  predicate Owns(db: Db, person: nat, id: MsgId) { id in db.drafts && db.drafts[id].author == person }

  lemma DeliveryErrors(db: Db, e: Mail, sender: nat, now: int)
    requires ThreadsOk(db.threads, db.persons) && e.thread in db.threads && db.threads[e.thread].Ends(sender, e.to)
    ensures IngestTx(db, e, sender, now) == Abort(ErrReplay) <==> e.id in db.tombstones
    ensures IngestTx(db, e, sender, now) == Abort(ErrConstraint) <==> e.id !in db.tombstones && e.id in db.messages
    ensures IngestTx(db, e, sender, now).Abort? ==> e.id in db.tombstones || e.id in db.messages
  {
  }

  /** Someone else's draft is reported as if it did not exist. */
  lemma ReleaseErrors(cfg: Config, db: Db, person: nat, id: MsgId, text: Option<string>, now: int)
    requires WellFormed(db)
    ensures var t := ReleaseDraft(cfg, db, person, id, text, now);
            && (t == Abort(ErrNotFound) <==> !Owns(db, person, id))
            && (t == Abort(ErrBadEnvelope) <==>
                  Owns(db, person, id) && text.Some? && !cfg.fits(Edited(db.drafts[id].mail, text)))
  {
    if Owns(db, person, id) && (text.Some? ==> cfg.fits(Edited(db.drafts[id].mail, text))) {
      OwnReleaseErrors(cfg, db, person, id, text, now);
    }
  }

  lemma OwnReleaseErrors(cfg: Config, db: Db, person: nat, id: MsgId, text: Option<string>, now: int)
    requires WellFormed(db) && Owns(db, person, id) && (text.Some? ==> cfg.fits(Edited(db.drafts[id].mail, text)))
    ensures var t := ReleaseDraft(cfg, db, person, id, text, now);
            && (t == Abort(ErrGate(ErrIllegalTransition)) <==> db.drafts[id].state != PendingReview)
            && (t == Abort(ErrReplay) <==> db.drafts[id].state == PendingReview && id in db.tombstones)
            && (t == Abort(ErrConstraint) <==>
                  db.drafts[id].state == PendingReview && id !in db.tombstones && id in db.messages)
            && (t.Abort? ==> t.error in {ErrGate(ErrIllegalTransition), ErrReplay, ErrConstraint})
  {
    var d := db.drafts[id];
    assert DraftRowOk(id, d, db.threads);
    var payload := Edited(d.mail, text);
    var row := d.(mail := payload, state := Sent, viaGrant := false, decidedAt := Some(Unix(now)));
    DeliveryErrors(db.(drafts := db.drafts[id := row]), payload.(sentAt := now), person, now);
  }

  lemma DiscardErrors(db: Db, person: nat, id: MsgId, now: int)
    requires WellFormed(db)
    ensures var t := DiscardDraft(db, person, id, now);
            && (t == Abort(ErrNotFound) <==> !Owns(db, person, id))
            && (t == Abort(ErrGate(ErrIllegalTransition)) <==>
                  Owns(db, person, id) && db.drafts[id].state != PendingReview)
            && (t.Abort? ==> t.error == ErrNotFound || t.error == ErrGate(ErrIllegalTransition))
  {
    if Owns(db, person, id) {
      assert DraftRowOk(id, db.drafts[id], db.threads);
    }
  }

  /** A verdict on a listed message fails only at the gate; any other is as if the message did not exist. */
  lemma VerdictErrors(db: Db, person: nat, id: MsgId, v: Verdict)
    requires WellFormed(db)
    ensures var t := MessageVerdict(db, person, id, v);
            && (t == Abort(ErrNotFound) <==>
                  id !in db.messages || db.messages[id].mail.to != person ||
                  exists m :: m in db.messages && db.messages[m].thread == db.messages[id].thread &&
                              db.messages[m].receivedAt > db.messages[id].receivedAt)
            && (t.Abort? && t.error != ErrNotFound ==> t.error == ErrGate(ErrIllegalTransition))
  {
    if id in db.messages {
      assert MessageRowOk(id, db.messages[id], db.threads);
    }
  }

  lemma GrantErrors(db: Db, id: nat, thread: nat, person: nat, dir: Direction, now: int)
    requires WellFormed(db) && id !in db.grants
    ensures var s, r := SetGrant(db, id, thread, person, dir), RevokeGrant(db, thread, person, dir, now);
            && (s == Abort(ErrGate(ErrWrongDirection)) <==> dir != Inbound && dir != Outbound)
            && (s == Abort(ErrGate(ErrWrongDirection)) <==> r == Abort(ErrGate(ErrWrongDirection)))
            && (s == Abort(ErrNotParticipant) <==> r == Abort(ErrNotParticipant))
            && (s == Abort(ErrNotParticipant) <==>
                  && (dir == Inbound || dir == Outbound)
                  && (thread in db.threads ==>
                        person != db.threads[thread].initiator && person != db.threads[thread].recipient))
            && (r == Abort(ErrNotFound) <==>
                  && (dir == Inbound || dir == Outbound) && thread in db.threads
                  && (person == db.threads[thread].initiator || person == db.threads[thread].recipient)
                  && !ActiveGrant(db, thread, person, dir))
  {
  }

  /** The invite is looked at first, then the roster, then the key. */
  lemma EnrollErrors(db: Db, token: nat, key: nat, newPerson: nat, newDevice: nat, now: int)
    requires WellFormed(db) && newPerson !in db.persons
    ensures var t := Enroll(db, token, key, newPerson, newDevice, now);
            && (t == Abort(ErrInviteInvalid) <==>
                  token !in db.invites || db.invites[token].usedAt.Some? || db.invites[token].expiresAt <= Unix(now))
            && (t == Abort(ErrKeyInUse) <==> InviteOpen(db, token, now) && KeyInUse(db.devices, key))
            && (t == Abort(ErrConstraint) <==>
                  InviteOpen(db, token, now) && !KeyInUse(db.devices, key) && newDevice in db.devices)
            && (KeyInUse(db.devices, key) <==> exists d :: d in db.devices && db.devices[d].key == key)
  {
  }
}
