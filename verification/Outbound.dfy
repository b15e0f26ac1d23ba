/** The outbound tools: store transactions in order, and a notification only once the delivery has committed. */
module Outbound {
  import opened Base
  import opened Ids
  import G = Gate
  import opened Tables
  import opened Invariants
  import opened Runs
  import opened AwaitingVerdicts
  import Store

  datatype Reply = Refused | Pending(draft: MsgId, thread: nat) | Sent(draft: MsgId, thread: nat)

  /**
   What a person's tools are given: the resolved recipient, the thread named (or EMPTY), and the ids minted for this
   call.
   */
  datatype Request = Request(
    tooLong: bool, recipient: Option<nat>, thread: nat, newThread: nat, id: MsgId, text: string)
  {
    function Thread(): nat { if thread == EMPTY then newThread else thread }
  }

  function MailOf(q: Request, to: nat, now: int): Mail {
    Mail(q.id, q.Thread(), to, G.Submitted, now, Body("agent", [q.text]))
  }

  /** The request is one the tool takes up at all. */
  predicate Acceptable(q: Request, person: nat) {
    !q.tooLong && q.recipient.Some? && q.recipient.value != person
  }

  /** A draft can be made: the thread is insertable, or runs between the two; the envelope fits; the id is free. */
  predicate CanDraft(cfg: Config, db: Db, person: nat, q: Request, to: nat, now: int) {
    && (if q.thread == EMPTY then ThreadInsertable(db, q.newThread, person, to)
        else q.thread in db.threads && db.threads[q.thread].Ends(person, to))
    && q.id.Uuid? && cfg.fits(MailOf(q, to, now)) && q.id !in db.drafts
  }

  predicate NewToIngest(db: Db, id: MsgId) { id !in db.tombstones && id !in db.messages }

  /** A message of this draft reached its addressee: stored, fanned out to their active devices and surfaced. */
  ghost predicate HasArrived(db: Db, id: MsgId, author: nat, to: nat) {
    && id in db.messages && id in db.drafts
    && db.messages[id].sender == author && db.messages[id].mail.to == to
    && db.messages[id].mail.body == db.drafts[id].mail.body
    && db.drafts[id].state == G.Sent && db.drafts[id].author == author
    && db.messages[id].thread in db.threads && db.threads[db.messages[id].thread].state == G.InputRequired
    && forall d :: DeliveryKey(id, d) in db.deliveries <==> Active(db, d) && db.devices[d].person == to
  }

  lemma ReleasedHasArrived(cfg: Config, e: Entry, id: MsgId)
    requires WellFormed(e.pre) && Releases(cfg, e, id)
    ensures HasArrived(After(cfg, e), id, e.pre.drafts[id].author, e.pre.drafts[id].mail.to)
  {
    ReleaseShape(cfg, e, id);
    ReleaseArrives(cfg, e, id);
    var row := ReleasedRow(e.pre.drafts[id], e.op, e.now);
    IngestFrame(e.pre.(drafts := e.pre.drafts[id := row]), row.mail.(sentAt := e.now), row.author, e.now);
  }

  ghost predicate OtherDraftsSame(pre: Db, post: Db, id: MsgId) {
    forall d :: d in pre.drafts && d != id ==> d in post.drafts && post.drafts[d] == pre.drafts[d]
  }

  lemma ReleasedRowStands(cfg: Config, e: Entry, id: MsgId)
    requires Releases(cfg, e, id)
    ensures id in e.pre.drafts
    ensures After(cfg, e).drafts == e.pre.drafts[id := ReleasedRow(e.pre.drafts[id], e.op, e.now)]
    ensures After(cfg, e).grants == e.pre.grants
  {
    ReleaseShape(cfg, e, id);
    var row := ReleasedRow(e.pre.drafts[id], e.op, e.now);
    IngestFrame(e.pre.(drafts := e.pre.drafts[id := row]), row.mail.(sentAt := e.now), row.author, e.now);
  }

  /** What a release by grant leaves behind. */
  ghost predicate GrantReleased(pre: Db, post: Db, id: MsgId) {
    && id in pre.drafts
    && var d := pre.drafts[id];
    && HasArrived(post, id, d.author, d.mail.to)
    && post.drafts[id].viaGrant && post.drafts[id].mail == d.mail
    && ActiveGrant(post, d.thread, d.author, G.Outbound)
    && OtherDraftsSame(pre, post, id)
  }

  lemma AutoReleased(cfg: Config, e: Entry, id: MsgId)
    requires WellFormed(e.pre) && Releases(cfg, e, id) && e.op.OpReleaseViaGrant?
    ensures GrantReleased(e.pre, After(cfg, e), id)
  {
    ReleaseShape(cfg, e, id);
    ReleasedHasArrived(cfg, e, id);
    ReleasedRowStands(cfg, e, id);
  }

  /** A release by grant, done: the tables stay well formed, and the recipient is the one reported. */
  lemma GrantReleaseDone(cfg: Config, e: Entry, id: MsgId)
    requires WellFormed(e.pre) && Releases(cfg, e, id) && e.op.OpReleaseViaGrant?
    ensures WellFormed(After(cfg, e)) && GrantReleased(e.pre, After(cfg, e), id)
    ensures TxOf(cfg, e).reply.Released? && TxOf(cfg, e).reply.recipient == e.pre.drafts[id].mail.to
  {
    ReleaseKeeps(cfg, e);
    AutoReleased(cfg, e, id);
    ReleaseShape(cfg, e, id);
  }

  lemma GrantReleaseIs(cfg: Config, e: Entry)
    requires e.op.OpReleaseViaGrant?
    ensures TxOf(cfg, e) == ReleaseViaGrant(e.pre, e.op.draft, e.op.granter, e.now)
  {
  }

  /** A release by grant either releases, or changes nothing, whether it finds no grant or fails. */
  lemma GrantDecides(cfg: Config, e: Entry)
    requires e.op.OpReleaseViaGrant?
    ensures Releases(cfg, e, e.op.draft) <==> TxOf(cfg, e).Commit? && TxOf(cfg, e).reply != NoGrant
    ensures !Releases(cfg, e, e.op.draft) ==> After(cfg, e) == e.pre
  {
  }

  /** What the store method's three outcomes mean, each with when it happens. */
  ghost predicate GrantOutcome(pre: Db, post: Db, t: Tx, id: MsgId, person: nat)
    requires id in pre.drafts
  {
    var d := pre.drafts[id];
    var granted := ActiveGrant(pre, d.thread, person, G.Outbound);
    && WellFormed(post)
    && (t.Commit? && t.reply == NoGrant <==> !granted)
    && (t.Commit? && t.reply != NoGrant <==> granted && d.thread != EMPTY && NewToIngest(pre, id))
    && (if t.Commit? && t.reply != NoGrant then
          GrantReleased(pre, post, id) && t.reply.Released? && t.reply.recipient == d.mail.to
        else post == pre)
  }

  lemma GrantResult(cfg: Config, e: Entry, id: MsgId)
    requires WellFormed(e.pre) && e.op.OpReleaseViaGrant? && e.op.draft == id && DraftAwaiting(e.pre, e.op.granter, id)
    ensures GrantOutcome(e.pre, After(cfg, e), TxOf(cfg, e), id, e.op.granter)
  {
    GrantReleaseIs(cfg, e);
    ShownDraftIsAutoReleasable(e.pre, e.op.granter, id, e.now);
    GrantDecides(cfg, e);
    if Releases(cfg, e, id) {
      GrantReleaseDone(cfg, e, id);
    }
  }

  lemma GrantResultOf(cfg: Config, db: Db, id: MsgId, person: nat, now: int)
    requires WellFormed(db) && DraftAwaiting(db, person, id)
    ensures var t := ReleaseViaGrant(db, id, person, now); GrantOutcome(db, t.Settle(db), t, id, person)
  {
    var e := Entry(db, OpReleaseViaGrant(id, person), now);
    GrantResult(cfg, e, id);
    GrantReleaseIs(cfg, e);
    assert After(cfg, e) == TxOf(cfg, e).Settle(db);
  }

  // ------------------------------------------------------------- making a draft

  ghost predicate SameButDrafts(pre: Db, post: Db) {
    post.messages == pre.messages && post.tombstones == pre.tombstones && post.grants == pre.grants
  }

  lemma StartFrame(db: Db, thread: nat, a: nat, b: nat)
    ensures var t := StartThread(db, thread, a, b);
            && SameButDrafts(db, t.Settle(db)) && t.Settle(db).drafts == db.drafts
            && (t.Commit? <==> ThreadInsertable(db, thread, a, b))
            && (t.Commit? ==> thread in t.db.threads && t.db.threads[thread].Ends(a, b))
  {
  }

  lemma StartKeeps(db: Db, thread: nat, a: nat, b: nat)
    requires WellFormed(db)
    ensures WellFormed(StartThread(db, thread, a, b).Settle(db))
  {
    StartThreadKeeps(db, thread, a, b);
    assert Keeps(db, StartThread(db, thread, a, b));
  }

  lemma DraftFrame(cfg: Config, db: Db, author: nat, e: Mail)
    ensures var t := CreateDraft(cfg, db, author, e);
            && SameButDrafts(db, t.Settle(db)) && OtherDraftsSame(db, t.Settle(db), e.id)
            && (t.Commit? <==>
                && e.thread in db.threads && db.threads[e.thread].Ends(author, e.to)
                && e.id.Uuid? && cfg.fits(e) && e.id !in db.drafts)
            && (t.Commit? ==>
                e.id in t.db.drafts && t.db.drafts[e.id] == Draft(e.thread, author, e, G.PendingReview, false, None))
  {
  }

  lemma DraftKeeps(cfg: Config, db: Db, author: nat, e: Mail)
    requires WellFormed(db)
    ensures WellFormed(CreateDraft(cfg, db, author, e).Settle(db))
  {
    CreateDraftKeeps(cfg, db, author, e);
    assert Keeps(db, CreateDraft(cfg, db, author, e));
  }

  lemma ReleaseKeeps(cfg: Config, e: Entry)
    requires WellFormed(e.pre)
    ensures WellFormed(After(cfg, e))
  {
    StepKeeps(cfg, e.pre, e.op, e.now);
  }

  // -------------------------------------------------------------------- the tools

  /** When send_message answers Sent. */
  predicate SendsAtOnce(cfg: Config, db: Db, person: nat, q: Request, now: int) {
    && Acceptable(q, person) && CanDraft(cfg, db, person, q, q.recipient.value, now)
    && ActiveGrant(db, q.Thread(), person, G.Outbound) && q.Thread() != EMPTY && NewToIngest(db, q.id)
  }

  /** When it answers Pending. */
  predicate AsksFirst(cfg: Config, db: Db, person: nat, q: Request, now: int) {
    && Acceptable(q, person) && CanDraft(cfg, db, person, q, q.recipient.value, now)
    && !ActiveGrant(db, q.Thread(), person, G.Outbound)
  }

  /** What AutoRelease answers, when, and what it leaves behind. */
  ghost predicate AutoOutcome(pre: Db, post: Db, r: Reply, id: MsgId, person: nat)
    requires id in pre.drafts
  {
    var d := pre.drafts[id];
    var granted := ActiveGrant(pre, d.thread, person, G.Outbound);
    && WellFormed(post)
    && (r.Pending? <==> !granted)
    && (r.Sent? <==> granted && d.thread != EMPTY && NewToIngest(pre, id))
    && (r.Pending? ==> r == Pending(id, d.thread))
    && (if r.Sent? then r == Sent(id, d.thread) && GrantReleased(pre, post, id) else post == pre)
  }

  lemma OutcomeSent(pre: Db, post: Db, t: Tx, id: MsgId, person: nat)
    requires id in pre.drafts && GrantOutcome(pre, post, t, id, person)
    ensures AutoOutcome(pre, post,
                        if t.Abort? then Refused
                        else if t.reply == NoGrant then Pending(id, pre.drafts[id].thread)
                        else Sent(id, pre.drafts[id].thread),
                        id, person)
  {
  }

  class Handler {
    const store: Store.Relay
    var notified: seq<nat>

    constructor (store: Store.Relay)
      ensures this.store == store && notified == []
    {
      this.store := store;
      notified := [];
    }

    /**
     send_message: a draft is made (on a new thread if none is named) and released at once exactly if an outbound grant
     covers the thread and the id is new.  The recipient is notified exactly then, and by then the message has arrived.
     */
    method SendMessage(person: nat, q: Request, now: int) returns (r: Reply)
      requires WellFormed(store.db)
      modifies this`notified, store
      ensures WellFormed(store.db)
      ensures r.Sent? <==> SendsAtOnce(store.cfg, old(store.db), person, q, now)
      ensures r.Pending? <==> AsksFirst(store.cfg, old(store.db), person, q, now)
      ensures r.Sent? ==>
                && notified == old(notified) + [q.recipient.value] && r == Sent(q.id, q.Thread())
                && HasArrived(store.db, q.id, person, q.recipient.value)
                && store.db.drafts[q.id].viaGrant && store.db.drafts[q.id].mail == MailOf(q, q.recipient.value, now)
      ensures !r.Sent? ==> notified == old(notified) && store.db.messages == old(store.db).messages
      ensures r.Pending? ==> r == Pending(q.id, q.Thread())
      ensures !r.Sent? && Acceptable(q, person) &&
              CanDraft(store.cfg, old(store.db), person, q, q.recipient.value, now) ==>
                DraftAwaiting(store.db, person, q.id)
      ensures OtherDraftsSame(old(store.db), store.db, q.id)
    {
      if q.tooLong || q.recipient.None? || q.recipient.value == person {
        return Refused;
      }
      var drafted := MakeDraft(person, q, q.recipient.value, now);
      if !drafted {
        return Refused;
      }
      ghost var mid := store.db;
      GrantsAreTheSame(old(store.db), mid, q.Thread(), person);
      r := AutoRelease(person, q.id, now);
      OtherDraftsStillSame(old(store.db), mid, store.db, q.id);
    }

    /** StartThread if need be, then CreateDraft; each is its own transaction. */
    method MakeDraft(person: nat, q: Request, to: nat, now: int) returns (ok: bool)
      requires WellFormed(store.db)
      modifies store
      ensures WellFormed(store.db)
      ensures SameButDrafts(old(store.db), store.db) && OtherDraftsSame(old(store.db), store.db, q.id)
      ensures ok <==> CanDraft(store.cfg, old(store.db), person, q, to, now)
      ensures ok ==>
                && q.id in store.db.drafts
                && store.db.drafts[q.id] == Draft(q.Thread(), person, MailOf(q, to, now), G.PendingReview, false, None)
    {
      var thread := q.thread;
      if thread == EMPTY {
        thread := q.newThread;
        StartKeeps(store.db, thread, person, to);
        StartFrame(store.db, thread, person, to);
        var err := store.StartThread(thread, person, to);
        if err.Some? {
          return false;
        }
      }
      var mail := MailOf(q, to, now);
      DraftKeeps(store.cfg, store.db, person, mail);
      DraftFrame(store.cfg, store.db, person, mail);
      var err := store.CreateDraft(person, mail);
      ok := err.None?;
    }

    /** ReleaseReplyViaGrant, and Notify if it released. */
    method AutoRelease(person: nat, id: MsgId, now: int) returns (r: Reply)
      requires WellFormed(store.db) && DraftAwaiting(store.db, person, id)
      modifies this`notified, store
      ensures AutoOutcome(old(store.db), store.db, r, id, person)
      ensures notified == old(notified) + if r.Sent? then [old(store.db).drafts[id].mail.to] else []
    {
      ghost var was, t := store.db, ReleaseViaGrant(store.db, id, person, now);
      GrantResultOf(store.cfg, was, id, person, now);
      OutcomeSent(was, t.Settle(was), t, id, person);
      Store.DeliveriesHaveMail(store.db);
      var thread := store.db.drafts[id].thread;
      var err, released := store.ReleaseReplyViaGrant(id, person, now);
      if err.Some? {
        return Refused;
      }
      if released.None? {
        return Pending(id, thread);
      }
      notified := notified + [released.value.payload.to];
      return Sent(id, thread);
    }

    /**
     approve_reply: says exactly when it releases.  The recipient is notified exactly then, and by then the message has
     arrived; otherwise nothing has changed.
     */
    method ApproveReply(person: nat, id: MsgId, text: Option<string>, tooLong: bool, now: int) returns (sent: bool)
      requires WellFormed(store.db)
      modifies this`notified, store
      ensures WellFormed(store.db)
      ensures sent <==>
                && DraftAwaiting(old(store.db), person, id) && !(text.Some? && tooLong)
                && (text.Some? ==> store.cfg.fits(Edited(old(store.db).drafts[id].mail, text)))
                && NewToIngest(old(store.db), id)
      ensures sent ==>
                && id in store.db.messages && HasArrived(store.db, id, person, store.db.messages[id].mail.to)
                && notified == old(notified) + [store.db.messages[id].mail.to]
                && (text.Some? ==>
                      store.db.messages[id].mail.body == Body(old(store.db).drafts[id].mail.body.role, [text.value]))
                && (text.None? ==> store.db.messages[id].mail.body == old(store.db).drafts[id].mail.body)
      ensures !sent ==> notified == old(notified) && store.db == old(store.db)
    {
      if text.Some? && tooLong {
        return false;
      }
      ghost var e := Entry(store.db, OpReleaseDraft(person, id, text), now);
      ReleaseKeeps(store.cfg, e);
      ShownDraftIsReleasable(store.cfg, store.db, person, id, text, now);
      Store.DeliveriesHaveMail(store.db);
      var err, released := store.ReleaseDraft(person, id, text, now);
      if err.Some? {
        return false;
      }
      ReleaseShape(store.cfg, e, id);
      ReleasedHasArrived(store.cfg, e, id);
      ReleaseArrives(store.cfg, e, id);
      notified := notified + [released.value.payload.to];
      return true;
    }
  }

  lemma OtherDraftsStillSame(a: Db, b: Db, c: Db, id: MsgId)
    requires OtherDraftsSame(a, b, id) && OtherDraftsSame(b, c, id)
    ensures OtherDraftsSame(a, c, id)
  {
  }

  lemma GrantsAreTheSame(a: Db, b: Db, thread: nat, person: nat)
    requires a.grants == b.grants
    ensures ActiveGrant(a, thread, person, G.Outbound) <==> ActiveGrant(b, thread, person, G.Outbound)
  {
  }
}
