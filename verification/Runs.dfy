/** Whole runs of the store: transactions one after another, each at a time no earlier than the last. */
module Runs {
  import opened Base
  import opened Ids
  import opened Gate
  import opened Tables
  import opened Invariants

  /** One transaction: the tables it found, what it was asked, and when. */
  datatype Entry = Entry(pre: Db, op: Op, now: int)

  ghost function TxOf(cfg: Config, e: Entry): Tx { Step(cfg, e.pre, e.op, e.now) }

  ghost function After(cfg: Config, e: Entry): Db { TxOf(cfg, e).Settle(e.pre) }

  /** The tables a run ends with. */
  ghost function Final(cfg: Config, tr: seq<Entry>): Db {
    if tr == [] then EMPTY_DB else After(cfg, tr[|tr| - 1])
  }

  /** A run from empty tables.  The clock never goes back along the order of commits. */
  ghost predicate Run(cfg: Config, tr: seq<Entry>)
    decreases |tr|
  {
    tr == [] ||
    var last, front := tr[|tr| - 1], tr[..|tr| - 1];
    Run(cfg, front) && last.pre == Final(cfg, front) && (front != [] ==> front[|front| - 1].now <= last.now)
  }

  lemma {:induction false} RunPrefix(cfg: Config, tr: seq<Entry>, n: nat)
    requires Run(cfg, tr) && n <= |tr|
    ensures Run(cfg, tr[..n])
    ensures n < |tr| ==> tr[n].pre == Final(cfg, tr[..n])
    ensures forall i :: 0 <= i < n < |tr| ==> tr[i].now <= tr[n].now
    decreases |tr|
  {
    if n < |tr| {
      var front := tr[..|tr| - 1];
      RunPrefix(cfg, front, n);
      assert front[..n] == tr[..n];
      if n < |front| {
        assert front[n] == tr[n];
      } else if front != [] {
        RunPrefix(cfg, front, |front| - 1);
      }
    } else {
      assert tr[..n] == tr;
    }
  }

  /** In every reachable state the tables are well formed. */
  lemma {:induction false} RunWellFormed(cfg: Config, tr: seq<Entry>)
    requires Run(cfg, tr)
    ensures WellFormed(Final(cfg, tr))
    decreases |tr|
  {
    if tr == [] {
    } else {
      var last := tr[|tr| - 1];
      RunWellFormed(cfg, tr[..|tr| - 1]);
      StepKeeps(cfg, last.pre, last.op, last.now);
    }
  }

  lemma EntryWellFormed(cfg: Config, tr: seq<Entry>, i: nat)
    requires Run(cfg, tr) && i < |tr|
    ensures WellFormed(tr[i].pre) && WellFormed(After(cfg, tr[i]))
  {
    RunPrefix(cfg, tr, i);
    RunWellFormed(cfg, tr[..i]);
    StepKeeps(cfg, tr[i].pre, tr[i].op, tr[i].now);
  }

  // ------------------------------------------------------- 1:1 threads

  /** Inbox shows a device only mail addressed to its person, sent by the thread's other party. */
  lemma InboxIsAddressed(cfg: Config, tr: seq<Entry>, device: nat, id: MsgId)
    requires Run(cfg, tr)
    requires InInbox(Final(cfg, tr), device, id)
    ensures var db := Final(cfg, tr);
            && device in db.devices && db.devices[device].person == db.messages[id].mail.to
            && db.messages[id].thread in db.threads
            && db.threads[db.messages[id].thread].Ends(db.messages[id].sender, db.messages[id].mail.to)
            && db.messages[id].sender != db.messages[id].mail.to
  {
    RunWellFormed(cfg, tr);
    var db := Final(cfg, tr);
    assert MessageRowOk(id, db.messages[id], db.threads);
    assert DeliveryKey(id, device) in db.deliveries;
  }

  /** Along a run a thread never changes its parties. */
  lemma {:induction false} PartiesNeverChange(cfg: Config, tr: seq<Entry>, i: nat, t: nat)
    requires Run(cfg, tr) && i <= |tr|
    requires t in Final(cfg, tr[..i]).threads
    ensures t in Final(cfg, tr).threads
    ensures Final(cfg, tr).threads[t].initiator == Final(cfg, tr[..i]).threads[t].initiator
    ensures Final(cfg, tr).threads[t].recipient == Final(cfg, tr[..i]).threads[t].recipient
    decreases |tr|
  {
    if i == |tr| {
      assert tr[..i] == tr;
    } else {
      var front, last := tr[..|tr| - 1], tr[|tr| - 1];
      assert front[..i] == tr[..i];
      PartiesNeverChange(cfg, front, i, t);
      RunWellFormed(cfg, front);
      StepKeeps(cfg, last.pre, last.op, last.now);
    }
  }

  // --------------------------------------- what a step does to messages

  /** The message row `id` appears: stored as signed, tombstoned, surfaced and fanned out. */
  ghost predicate Arrives(pre: Db, post: Db, id: MsgId, now: int) {
    && id !in pre.messages && id !in pre.tombstones
    && id in post.messages && id in post.tombstones
    && var m := post.messages[id];
    && m.mail.id == id && m.thread == m.mail.thread && m.thread in post.threads
    && m.sentAt == Unix(m.mail.sentAt) == post.tombstones[id]
    && m.receivedAt == Unix(now) && !m.viaGrant
    && post.threads[m.thread].state == InputRequired
    && post.threads[m.thread].Ends(m.sender, m.mail.to)
    && forall d :: DeliveryKey(id, d) in post.deliveries <==> Active(pre, d) && pre.devices[d].person == m.mail.to
  }

  /** Every other message row, delivery row and tombstone is as it was. */
  ghost predicate OthersSame(pre: Db, post: Db, id: MsgId) {
    && (forall m :: m != id ==> (m in pre.messages <==> m in post.messages))
    && (forall m :: m != id && m in pre.messages ==> post.messages[m] == pre.messages[m])
    && (forall k :: k in pre.deliveries ==> k in post.deliveries && post.deliveries[k] == pre.deliveries[k])
    && (forall k :: k in post.deliveries && k !in pre.deliveries ==>
          k.msg == id && post.deliveries[k] == Delivery(None, None))
    && (forall m :: m != id ==> (m in pre.tombstones <==> m in post.tombstones))
    && (forall m :: m != id && m in pre.tombstones ==> post.tombstones[m] == pre.tombstones[m])
    && (forall t :: t in pre.threads && t != (if id in post.messages then post.messages[id].thread else t) ==>
          t in post.threads && post.threads[t] == pre.threads[t])
  }

  lemma IngestArrives(db: Db, e: Mail, sender: nat, now: int)
    requires WellFormed(db) && IngestTx(db, e, sender, now).Commit?
    ensures Arrives(db, IngestTx(db, e, sender, now).db, e.id, now)
    ensures OthersSame(db, IngestTx(db, e, sender, now).db, e.id)
    ensures IngestTx(db, e, sender, now).db.messages[e.id].mail == e
    ensures IngestTx(db, e, sender, now).db.messages[e.id].sender == sender
  {
    IngestShape(db, e, sender, now);
    var post := IngestTx(db, e, sender, now).db;
    NoRowsYet(db, e.id);
    IngestedArrives(db, e, post.threads[e.thread], post.messages[e.id], now);
    IngestedOthers(db, e, post.threads[e.thread], post.messages[e.id]);
  }

  lemma NoRowsYet(db: Db, id: MsgId)
    requires WellFormed(db) && id !in db.messages
    ensures forall d :: DeliveryKey(id, d) !in db.deliveries
  {
  }

  lemma IngestedArrives(db: Db, e: Mail, row: Thread, m: Message, now: int)
    requires e.id !in db.messages && e.id !in db.tombstones && forall d :: DeliveryKey(e.id, d) !in db.deliveries
    requires row.state == InputRequired && row.Ends(m.sender, e.to)
    requires m == Message(e.thread, m.sender, e, Unix(e.sentAt), Unix(now), false)
    ensures Arrives(db, Ingested(db, e, row, m), e.id, now)
  {
  }

  lemma IngestedOthers(db: Db, e: Mail, row: Thread, m: Message)
    requires m.thread == e.thread && forall d :: DeliveryKey(e.id, d) !in db.deliveries
    ensures OthersSame(db, Ingested(db, e, row, m), e.id)
  {
  }

  // -------------------------------------------------- what a release does

  /** The edit a releasing operation carries. */
  function ReleaseText(op: Op): Option<string> { if op.OpReleaseDraft? then op.text else None }

  /** The step released draft `id`: an approval or a grant fired, and it committed. */
  ghost predicate Releases(cfg: Config, e: Entry, id: MsgId) {
    && TxOf(cfg, e).Commit?
    && ((e.op.OpReleaseDraft? && e.op.draft == id) ||
        (e.op.OpReleaseViaGrant? && e.op.draft == id && TxOf(cfg, e).reply != NoGrant))
  }

  /** The draft row a release leaves behind. */
  function ReleasedRow(d: Draft, op: Op, now: int): Draft {
    d.(mail := Edited(d.mail, ReleaseText(op)), state := Sent, viaGrant := op.OpReleaseViaGrant?,
       decidedAt := Some(Unix(now)))
  }

  /** A release had its author's consent: their own approval, or their outbound grant active at that moment. */
  ghost predicate Consented(e: Entry, id: MsgId) {
    && id in e.pre.drafts
    && var d := e.pre.drafts[id];
    if e.op.OpReleaseDraft? then e.op.person == d.author
    else e.op.OpReleaseViaGrant? && e.op.granter == d.author && ActiveGrant(e.pre, d.thread, d.author, Outbound)
  }

  /** A release decides a pending draft, with consent, and ingests its envelope in the same transaction. */
  lemma ReleaseShape(cfg: Config, e: Entry, id: MsgId)
    requires Releases(cfg, e, id)
    ensures Consented(e, id) && e.pre.drafts[id].state == PendingReview
    ensures var row := ReleasedRow(e.pre.drafts[id], e.op, e.now);
            && Ingests(e.pre.(drafts := e.pre.drafts[id := row]), After(cfg, e),
                       row.mail.(sentAt := e.now), row.author, e.now)
            && TxOf(cfg, e).reply == Released(row.mail.to, Release(row.thread, id, row.mail, row.viaGrant))
  {
    var d := e.pre.drafts[id];
    if e.op.OpReleaseViaGrant? {
      var a, g := OutboundOf(id, d, d.mail), Grant(d.thread, Outbound, false);
      OutboundGrantIsApproval(g, a, d.state);
      DeliverShape(e.pre, id, d.mail, ApplyOutboundGrant(g, a, d.state).value, true, e.now);
    } else {
      var payload := Edited(d.mail, e.op.text);
      DeliverShape(e.pre, id, payload, ApplyOutbound(OutboundOf(id, d, payload), d.state, Approve).value, false, e.now);
    }
  }

  /** `post` is what a committed ingest makes of `pre`. */
  ghost predicate Ingests(pre: Db, post: Db, e: Mail, sender: nat, now: int) {
    IngestTx(pre, e, sender, now).Commit? && post == IngestTx(pre, e, sender, now).db
  }

  lemma DeliverShape(db: Db, id: MsgId, payload: Mail, decision: Decision<Mail>, viaGrant: bool, now: int)
    requires id in db.drafts && Deliver(db, id, payload, decision, viaGrant, now).Commit?
    ensures var row := Decided(db.drafts[id], payload, decision, viaGrant, now);
            Ingests(db.(drafts := db.drafts[id := row]), Deliver(db, id, payload, decision, viaGrant, now).db,
                    payload.(sentAt := now), row.author, now)
    ensures decision.release.Minted? ==>
              Deliver(db, id, payload, decision, viaGrant, now).reply == Released(payload.to, decision.release.release)
  {
  }

  /** The row a release writes keeps the tables well formed. */
  lemma ReleasedRowOk(cfg: Config, e: Entry, id: MsgId)
    requires WellFormed(e.pre) && Releases(cfg, e, id) && id in e.pre.drafts
    ensures WellFormed(e.pre.(drafts := e.pre.drafts[id := ReleasedRow(e.pre.drafts[id], e.op, e.now)]))
  {
    assert DraftRowOk(id, e.pre.drafts[id], e.pre.threads);
    WithDraft(e.pre, id, ReleasedRow(e.pre.drafts[id], e.op, e.now));
  }

  lemma ReleaseArrives(cfg: Config, e: Entry, id: MsgId)
    requires WellFormed(e.pre) && Releases(cfg, e, id)
    ensures Arrives(e.pre, After(cfg, e), id, e.now) && OthersSame(e.pre, After(cfg, e), id)
    ensures var row := ReleasedRow(e.pre.drafts[id], e.op, e.now);
            && After(cfg, e).messages[id].mail == row.mail.(sentAt := e.now)
            && After(cfg, e).messages[id].sender == row.author
  {
    ReleaseShape(cfg, e, id);
    ReleasedRowOk(cfg, e, id);
    var row := ReleasedRow(e.pre.drafts[id], e.op, e.now);
    IngestArrives(e.pre.(drafts := e.pre.drafts[id := row]), row.mail.(sentAt := e.now), row.author, e.now);
  }

  // ------------------------------------------- one message through one step

  /** A message that stays: the same row but for its grant mark, the same deliveries but for a receipt. */
  ghost predicate Stays(pre: Db, post: Db, op: Op, id: MsgId, now: int) {
    && id in pre.messages && id in post.messages
    && post.messages[id].(viaGrant := false) == pre.messages[id].(viaGrant := false)
    && (forall d :: DeliveryKey(id, d) in pre.deliveries <==> DeliveryKey(id, d) in post.deliveries)
    && (forall d :: DeliveryKey(id, d) in pre.deliveries ==> Onward(pre, post, op, DeliveryKey(id, d), now))
  }

  /** A delivery row is as it was, or touched by a receipt for it. */
  predicate Onward(pre: Db, post: Db, op: Op, k: DeliveryKey, now: int)
    requires k in pre.deliveries && k in post.deliveries
  {
    || post.deliveries[k] == pre.deliveries[k]
    || (op.OpReceipt? && DeliveryKey(op.msg, op.device) == k &&
        post.deliveries[k] == Touch(pre.deliveries[k], op.acked, now))
  }

  /** Operations that leave messages and deliveries alone. */
  predicate LeavesMail(op: Op) {
    !op.OpIngest? && !op.OpReleaseDraft? && !op.OpReleaseViaGrant? && !op.OpReceipt? && !op.OpApproveViaGrant? &&
    !op.OpSweepMessages?
  }

  ghost predicate SameMail(pre: Db, post: Db) {
    post.messages == pre.messages && post.deliveries == pre.deliveries
  }

  lemma MailLeftAlone(cfg: Config, db: Db, op: Op, now: int)
    requires LeavesMail(op)
    ensures SameMail(db, Step(cfg, db, op, now).Settle(db))
  {
    StepSpares(cfg, db, op, now);
  }

  /** The id a step may bring in. */
  ghost predicate BringsIn(cfg: Config, e: Entry, id: MsgId) {
    || (e.op.OpIngest? && e.op.mail.id == id && TxOf(cfg, e).Commit?)
    || Releases(cfg, e, id)
  }

  lemma BringsInArrives(cfg: Config, e: Entry, id: MsgId)
    requires WellFormed(e.pre) && BringsIn(cfg, e, id)
    ensures Arrives(e.pre, After(cfg, e), id, e.now) && OthersSame(e.pre, After(cfg, e), id)
  {
    if e.op.OpIngest? {
      IngestArrives(e.pre, e.op.mail, e.op.sender, e.now);
    } else {
      ReleaseArrives(cfg, e, id);
    }
  }

  lemma SweptMessage(cfg: Config, db: Db, id: MsgId, now: int)
    requires id in db.messages
    ensures id in SweepMessages(cfg, db, now).db.messages <==> !Expired(cfg, db, id, now)
  {
  }

  lemma KeptMessage(cfg: Config, db: Db, id: MsgId, now: int)
    requires id in db.messages && !Expired(cfg, db, id, now)
    ensures Stays(db, SweepMessages(cfg, db, now).db, OpSweepMessages, id, now)
  {
    var post := SweepMessages(cfg, db, now).db;
    SweptMessage(cfg, db, id, now);
    assert post.messages[id] == db.messages[id];
  }

  lemma ReceiptStays(db: Db, op: Op, id: MsgId, now: int)
    requires op.OpReceipt? && id in db.messages
    ensures Stays(db, Receipt(db, op.msg, op.device, op.acked, now).Settle(db), op, id, now)
  {
  }

  lemma GrantMarkStays(db: Db, op: Op, id: MsgId, now: int)
    requires op.OpApproveViaGrant? && id in db.messages
    ensures Stays(db, ApproveViaGrant(db, op.thread, op.granter, op.msg).Settle(db), op, id, now)
  {
  }

  /** What one step can do to one message: bring it in, keep it, or sweep it once it has expired. */
  ghost predicate Moves(cfg: Config, e: Entry, post: Db, id: MsgId) {
    && (id in post.messages && id !in e.pre.messages ==> BringsIn(cfg, e, id) && Arrives(e.pre, post, id, e.now))
    && (id in post.messages && id in e.pre.messages ==> Stays(e.pre, post, e.op, id, e.now))
    && (id !in post.messages && id in e.pre.messages ==> e.op.OpSweepMessages? && Expired(cfg, e.pre, id, e.now))
  }

  lemma OtherStays(pre: Db, post: Db, op: Op, brought: MsgId, id: MsgId, now: int)
    requires OthersSame(pre, post, brought) && id != brought
    ensures id in pre.messages <==> id in post.messages
    ensures id in pre.messages ==> Stays(pre, post, op, id, now)
  {
  }

  lemma BringsInMoves(cfg: Config, e: Entry, brought: MsgId, id: MsgId)
    requires WellFormed(e.pre) && BringsIn(cfg, e, brought)
    ensures Moves(cfg, e, After(cfg, e), id)
  {
    BringsInArrives(cfg, e, brought);
    if id != brought {
      OtherStays(e.pre, After(cfg, e), e.op, brought, id, e.now);
    }
  }

  lemma SameMailMoves(cfg: Config, e: Entry, post: Db, id: MsgId)
    requires SameMail(e.pre, post)
    ensures Moves(cfg, e, post, id)
  {
  }

  /** A release that did not happen leaves the tables alone. */
  lemma NotReleased(cfg: Config, e: Entry)
    requires e.op.OpReleaseDraft? || e.op.OpReleaseViaGrant?
    requires !Releases(cfg, e, e.op.draft)
    ensures After(cfg, e) == e.pre
  {
  }

  lemma ReleaseMoves(cfg: Config, e: Entry, id: MsgId)
    requires WellFormed(e.pre) && (e.op.OpReleaseDraft? || e.op.OpReleaseViaGrant?)
    ensures Moves(cfg, e, After(cfg, e), id)
  {
    if Releases(cfg, e, e.op.draft) {
      BringsInMoves(cfg, e, e.op.draft, id);
    } else {
      NotReleased(cfg, e);
      SameMailMoves(cfg, e, e.pre, id);
    }
  }

  lemma IngestMoves(cfg: Config, e: Entry, id: MsgId)
    requires WellFormed(e.pre) && e.op.OpIngest?
    ensures Moves(cfg, e, After(cfg, e), id)
  {
    if TxOf(cfg, e).Commit? {
      BringsInMoves(cfg, e, e.op.mail.id, id);
    } else {
      SameMailMoves(cfg, e, e.pre, id);
    }
  }

  lemma KeepersMove(cfg: Config, e: Entry, post: Db, id: MsgId)
    requires post == After(cfg, e)
    requires e.op.OpReceipt? || e.op.OpApproveViaGrant? || e.op.OpSweepMessages?
    ensures Moves(cfg, e, post, id)
  {
    assert id in post.messages ==> id in e.pre.messages;
    if id in e.pre.messages {
      match e.op {
        case OpReceipt(_, _, _) => ReceiptStays(e.pre, e.op, id, e.now);
        case OpApproveViaGrant(_, _, _) => GrantMarkStays(e.pre, e.op, id, e.now);
        case OpSweepMessages =>
          if Expired(cfg, e.pre, id, e.now) {
            SweptMessage(cfg, e.pre, id, e.now);
          } else {
            KeptMessage(cfg, e.pre, id, e.now);
          }
      }
    }
  }

  lemma StepMessage(cfg: Config, e: Entry, id: MsgId)
    requires WellFormed(e.pre)
    ensures Moves(cfg, e, After(cfg, e), id)
  {
    match e.op {
      case OpIngest(_, _) => IngestMoves(cfg, e, id);
      case OpReleaseDraft(_, _, _) => ReleaseMoves(cfg, e, id);
      case OpReleaseViaGrant(_, _) => ReleaseMoves(cfg, e, id);
      case OpReceipt(_, _, _) => KeepersMove(cfg, e, After(cfg, e), id);
      case OpApproveViaGrant(_, _, _) => KeepersMove(cfg, e, After(cfg, e), id);
      case OpSweepMessages => KeepersMove(cfg, e, After(cfg, e), id);
      case _ =>
        MailLeftAlone(cfg, e.pre, e.op, e.now);
        SameMailMoves(cfg, e, After(cfg, e), id);
    }
  }
}
