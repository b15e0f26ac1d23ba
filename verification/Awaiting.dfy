/** What a person is shown is what they can decide, and every verdict answers an ingest. */
module AwaitingVerdicts {
  import opened Base
  import opened Ids
  import opened Gate
  import opened Tables
  import opened Invariants
  import opened Runs

  /** A human verdict on a message succeeds exactly when the message is in that person's awaiting list. */
  lemma ShownIsDecidable(db: Db, person: nat, id: MsgId, v: Verdict)
    requires WellFormed(db)
    ensures MessageVerdict(db, person, id, v).Commit? <==> Awaiting(db, person, id) && (v == Approve || v == Reject)
    ensures MessageVerdict(db, person, id, v).Commit? ==>
              var post := MessageVerdict(db, person, id, v).db;
              post.threads[db.messages[id].thread].state == (if v == Approve then Working else Rejected)
  {
    if id in db.messages {
      assert MessageRowOk(id, db.messages[id], db.threads);
    }
  }

  /** Deciding one message takes every message of its thread off everyone's list, and moves no other thread. */
  lemma VerdictClears(db: Db, person: nat, id: MsgId, v: Verdict, other: nat, m: MsgId)
    requires MessageVerdict(db, person, id, v).Commit?
    ensures var post := MessageVerdict(db, person, id, v).db;
            Awaiting(post, other, m) <==> Awaiting(db, other, m) && db.messages[m].thread != db.messages[id].thread
  {
  }

  /** A draft can be discarded exactly when it is on the author's list. */
  lemma ShownDraftIsDiscardable(db: Db, person: nat, id: MsgId, now: int)
    requires WellFormed(db)
    ensures DiscardDraft(db, person, id, now).Commit? <==> DraftAwaiting(db, person, id)
  {
  }

  /** It can be released exactly when it is there, the edit fits, and its id has not been ingested already. */
  lemma ShownDraftIsReleasable(cfg: Config, db: Db, person: nat, id: MsgId, text: Option<string>, now: int)
    requires WellFormed(db)
    ensures ReleaseDraft(cfg, db, person, id, text, now).Commit? <==>
            && DraftAwaiting(db, person, id)
            && (text.Some? ==> cfg.fits(Edited(db.drafts[id].mail, text)))
            && id !in db.tombstones && id !in db.messages
  {
    if DraftAwaiting(db, person, id) {
      var d := db.drafts[id];
      assert DraftRowOk(id, d, db.threads);
      var payload := Edited(d.mail, text);
      var row := d.(mail := payload, state := Sent, viaGrant := false, decidedAt := Some(Unix(now)));
      IngestsIffNew(db.(drafts := db.drafts[id := row]), payload.(sentAt := now), person, now);
    }
  }

  /**
   A grant releases a draft on its author's list exactly when it stands on a named thread and the id is new to ingest;
   it asks the human exactly when no grant stands.
   */
  lemma ShownDraftIsAutoReleasable(db: Db, person: nat, id: MsgId, now: int)
    requires WellFormed(db) && DraftAwaiting(db, person, id)
    ensures var t, d := ReleaseViaGrant(db, id, person, now), db.drafts[id];
            && (t.Commit? && t.reply == NoGrant <==> !ActiveGrant(db, d.thread, person, Outbound))
            && (t.Commit? && t.reply != NoGrant <==>
                && ActiveGrant(db, d.thread, person, Outbound) && d.thread != EMPTY
                && id !in db.tombstones && id !in db.messages)
  {
    var d := db.drafts[id];
    assert DraftRowOk(id, d, db.threads);
    var a, g := OutboundOf(id, d, d.mail), Grant(d.thread, Outbound, false);
    OutboundGrantIsApproval(g, a, d.state);
    if d.thread != EMPTY {
      var row := d.(state := Sent, viaGrant := true, decidedAt := Some(Unix(now)));
      IngestsIffNew(db.(drafts := db.drafts[id := row]), d.mail.(sentAt := now), person, now);
    }
  }

  /** On an existing thread, between its parties, ingest refuses only an id it has seen. */
  lemma IngestsIffNew(db: Db, e: Mail, sender: nat, now: int)
    requires ThreadsOk(db.threads, db.persons) && e.thread in db.threads && db.threads[e.thread].Ends(sender, e.to)
    ensures IngestTx(db, e, sender, now).Commit? <==> e.id !in db.tombstones && e.id !in db.messages
  {
  }

  lemma SomethingAwaitsIsActivity(db: Db, person: nat, id: MsgId)
    requires Awaiting(db, person, id) || DraftAwaiting(db, person, id)
    ensures HasActivity(db, person)
  {
  }

  // ------------------------------------------------- a fresh message is shown

  lemma StepReceived(cfg: Config, e: Entry, was: int, id: MsgId)
    requires WellFormed(e.pre) && was <= e.now
    requires id in e.pre.messages ==> e.pre.messages[id].receivedAt <= Unix(was)
    requires id in After(cfg, e).messages
    ensures After(cfg, e).messages[id].receivedAt <= Unix(e.now)
  {
    StepMessage(cfg, e, id);
  }

  /** No stored message was received after the run's clock. */
  lemma {:induction false} ReceivedBefore(cfg: Config, tr: seq<Entry>, id: MsgId)
    requires Run(cfg, tr) && id in Final(cfg, tr).messages
    ensures Final(cfg, tr).messages[id].receivedAt <= Unix(tr[|tr| - 1].now)
    decreases |tr|
  {
    var n := |tr| - 1;
    var front := tr[..n];
    if id in tr[n].pre.messages {
      ReceivedBefore(cfg, front, id);
      RunPrefix(cfg, tr, n);
    }
    RunWellFormed(cfg, front);
    StepReceived(cfg, tr[n], if n > 0 then tr[n - 1].now else tr[n].now, id);
  }

  lemma ArrivedIsLatest(pre: Db, post: Db, id: MsgId, now: int)
    requires Arrives(pre, post, id, now) && OthersSame(pre, post, id)
    requires forall m | m in pre.messages :: pre.messages[m].receivedAt <= Unix(now)
    ensures Latest(post, id)
  {
  }

  /** What a step of a run brings in is on its addressee's list right after it, whoever else wrote in that second. */
  lemma FreshIsShown(cfg: Config, tr: seq<Entry>, id: MsgId)
    requires Run(cfg, tr) && tr != [] && BringsIn(cfg, tr[|tr| - 1], id)
    ensures id in Final(cfg, tr).messages
    ensures Awaiting(Final(cfg, tr), Final(cfg, tr).messages[id].mail.to, id)
  {
    var n := |tr| - 1;
    var pre, post := tr[n].pre, Final(cfg, tr);
    EntryWellFormed(cfg, tr, n);
    BringsInArrives(cfg, tr[n], id);
    forall m | m in pre.messages ensures pre.messages[m].receivedAt <= Unix(tr[n].now) {
      ReceivedBefore(cfg, tr[..n], m);
    }
    ArrivedIsLatest(pre, post, id, tr[n].now);
    assert MessageRowOk(id, post.messages[id], post.threads);
  }

  // ------------------------------------------- verdicts never outnumber ingests

  /** The step put an approve or decline on thread `t`, by a person or by a grant. */
  ghost predicate Decides(cfg: Config, e: Entry, t: nat) {
    && TxOf(cfg, e).Commit?
    && match e.op
       case OpThreadVerdict(thread, _) => thread == t
       case OpMessageVerdict(_, id, _) => id in e.pre.messages && e.pre.messages[id].thread == t
       case OpApproveViaGrant(thread, _, _) => thread == t && TxOf(cfg, e).reply == Fired(true)
       case _ => false
  }

  /** The step ingested a message on thread `t`. */
  ghost predicate IngestsOn(cfg: Config, e: Entry, t: nat) {
    || (e.op.OpIngest? && e.op.mail.thread == t && TxOf(cfg, e).Commit?)
    || ((e.op.OpReleaseDraft? || e.op.OpReleaseViaGrant?) && Releases(cfg, e, e.op.draft) &&
        e.op.draft in e.pre.drafts && e.pre.drafts[e.op.draft].thread == t)
  }

  ghost function Verdicts(cfg: Config, tr: seq<Entry>, t: nat): nat {
    if tr == [] then 0
    else Verdicts(cfg, tr[..|tr| - 1], t) + if Decides(cfg, tr[|tr| - 1], t) then 1 else 0
  }

  ghost function IngestsCount(cfg: Config, tr: seq<Entry>, t: nat): nat {
    if tr == [] then 0
    else IngestsCount(cfg, tr[..|tr| - 1], t) + if IngestsOn(cfg, tr[|tr| - 1], t) then 1 else 0
  }

  predicate Surfaced(db: Db, t: nat) { t in db.threads && db.threads[t].state == InputRequired }

  /** A verdict needs a surfaced thread and takes it down; only an ingest surfaces one. */
  ghost predicate ThreadMoves(cfg: Config, e: Entry, post: Db, t: nat) {
    && (Decides(cfg, e, t) ==> Surfaced(e.pre, t) && !Surfaced(post, t) && !IngestsOn(cfg, e, t))
    && (Surfaced(post, t) ==> Surfaced(e.pre, t) || IngestsOn(cfg, e, t))
    && (IngestsOn(cfg, e, t) ==> Surfaced(post, t))
  }

  lemma IngestedThread(db: Db, e: Mail, sender: nat, now: int, t: nat)
    requires IngestTx(db, e, sender, now).Commit?
    ensures Surfaced(IngestTx(db, e, sender, now).db, e.thread)
    ensures t != e.thread ==> (Surfaced(IngestTx(db, e, sender, now).db, t) <==> Surfaced(db, t))
  {
  }

  lemma IngestMovesThread(cfg: Config, e: Entry, t: nat)
    requires e.op.OpIngest?
    ensures ThreadMoves(cfg, e, After(cfg, e), t)
  {
    if TxOf(cfg, e).Commit? {
      IngestedThread(e.pre, e.op.mail, e.op.sender, e.now, t);
    }
  }

  lemma ReleaseMovesThread(cfg: Config, e: Entry, t: nat)
    requires WellFormed(e.pre) && (e.op.OpReleaseDraft? || e.op.OpReleaseViaGrant?)
    ensures ThreadMoves(cfg, e, After(cfg, e), t)
  {
    var d := e.op.draft;
    if Releases(cfg, e, d) {
      ReleaseShape(cfg, e, d);
      assert DraftRowOk(d, e.pre.drafts[d], e.pre.threads);
      var row := ReleasedRow(e.pre.drafts[d], e.op, e.now);
      IngestedThread(e.pre.(drafts := e.pre.drafts[d := row]), row.mail.(sentAt := e.now), row.author, e.now, t);
    } else {
      NotReleased(cfg, e);
    }
  }

  lemma VerdictMovesThread(cfg: Config, e: Entry, t: nat)
    requires e.op.OpThreadVerdict? || e.op.OpMessageVerdict?
    ensures ThreadMoves(cfg, e, After(cfg, e), t)
  {
  }

  lemma GrantMovesThread(cfg: Config, e: Entry, t: nat)
    requires e.op.OpApproveViaGrant?
    ensures ThreadMoves(cfg, e, After(cfg, e), t)
  {
  }

  lemma StartMovesThread(cfg: Config, e: Entry, t: nat)
    requires e.op.OpStartThread?
    ensures ThreadMoves(cfg, e, After(cfg, e), t)
  {
  }

  lemma StepThread(cfg: Config, e: Entry, t: nat)
    requires WellFormed(e.pre)
    ensures ThreadMoves(cfg, e, After(cfg, e), t)
  {
    match e.op {
      case OpIngest(_, _) => IngestMovesThread(cfg, e, t);
      case OpReleaseDraft(_, _, _) => ReleaseMovesThread(cfg, e, t);
      case OpReleaseViaGrant(_, _) => ReleaseMovesThread(cfg, e, t);
      case OpThreadVerdict(_, _) => VerdictMovesThread(cfg, e, t);
      case OpMessageVerdict(_, _, _) => VerdictMovesThread(cfg, e, t);
      case OpApproveViaGrant(_, _, _) => GrantMovesThread(cfg, e, t);
      case OpStartThread(_, _, _) => StartMovesThread(cfg, e, t);
      case _ => StepSpares(cfg, e.pre, e.op, e.now);
    }
  }

  /** On every thread the verdicts never outnumber the ingests, with one ingest to spare while it awaits a verdict. */
  lemma {:induction false} VerdictsAnswerIngests(cfg: Config, tr: seq<Entry>, t: nat)
    requires Run(cfg, tr)
    ensures Verdicts(cfg, tr, t) + (if Surfaced(Final(cfg, tr), t) then 1 else 0) <= IngestsCount(cfg, tr, t)
    decreases |tr|
  {
    if tr == [] {
    } else {
      var n := |tr| - 1;
      VerdictsAnswerIngests(cfg, tr[..n], t);
      RunWellFormed(cfg, tr[..n]);
      StepThread(cfg, tr[n], t);
    }
  }
}
