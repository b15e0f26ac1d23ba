/** The state a sender asserts has no influence on the relay. */
module AssertedState {
  import opened Base
  import opened Ids
  import opened Gate
  import opened Tables
  import opened Invariants
  import opened Runs

  /** A message row without what its sender asserted. */
  function BlankRow(m: Message): Message { m.(mail := m.mail.(state := Submitted)) }

  function BlankRows(ms: map<MsgId, Message>): map<MsgId, Message> {
    map id | id in ms :: BlankRow(ms[id])
  }

  function Blank(db: Db): Db { db.(messages := BlankRows(db.messages)) }

  function BlankTx(t: Tx): Tx {
    match t
    case Commit(db, reply) => Commit(Blank(db), reply)
    case Abort(e) => Abort(e)
  }

  function BlankOp(op: Op): Op {
    match op
    case OpIngest(e, sender) => OpIngest(e.(state := Submitted), sender)
    case _ => op
  }

  lemma BlankPut(ms: map<MsgId, Message>, id: MsgId, m: Message)
    ensures BlankRows(ms[id := m]) == BlankRows(ms)[id := BlankRow(m)]
  {
  }

  lemma BlankTwice(db: Db)
    ensures Blank(Blank(db)) == Blank(db)
  {
    assert BlankRows(BlankRows(db.messages)) == BlankRows(db.messages);
  }

  // ------------------------------------------------------- one step at a time

  /** What an ingest writes besides the thread row. */
  function Stored(t: Db, e: Mail, row: Thread, m: Message, arrivals: map<DeliveryKey, Delivery>): Db {
    t.(threads := t.threads[e.thread := row],
       messages := t.messages[e.id := m],
       tombstones := t.tombstones[e.id := Unix(e.sentAt)],
       deliveries := t.deliveries + arrivals)
  }

  lemma StoredBlind(db: Db, e: Mail, row: Thread, m: Message, n: Message, arrivals: map<DeliveryKey, Delivery>)
    requires BlankRow(m) == BlankRow(n)
    ensures Blank(Stored(Blank(db), e, row, n, arrivals)) == Blank(Stored(db, e, row, m, arrivals))
  {
    BlankTwice(db);
    BlankPut(db.messages, e.id, m);
    BlankPut(BlankRows(db.messages), e.id, n);
  }

  lemma EnsureThreadBlind(db: Db, e: Mail, f: Mail, sender: nat)
    requires f == e || f == e.(state := Submitted)
    ensures var t, u := EnsureThread(db, e, sender), EnsureThread(Blank(db), f, sender);
            if t.Abort? then u == t else u.Commit? && u.db.threads == t.db.threads
  {
  }

  /** The thread row an ingest leaves behind. */
  function Surface(db: Db, e: Mail, sender: nat): Thread {
    if e.thread in db.threads then db.threads[e.thread].(state := InputRequired)
    else Thread(sender, e.to, InputRequired)
  }

  function Arriving(e: Mail, sender: nat, now: int): Message {
    Message(e.thread, sender, e, Unix(e.sentAt), Unix(now), false)
  }

  lemma IngestStores(db: Db, e: Mail, sender: nat, now: int)
    requires IngestTx(db, e, sender, now).Commit?
    ensures IngestTx(db, e, sender, now) ==
            Commit(Stored(db, e, Surface(db, e, sender), Arriving(e, sender, now), FanOut(db, e.id, e.to)), Done)
  {
  }

  lemma AbortBlind(db: Db, e: Mail, f: Mail, sender: nat, now: int)
    requires f == e || f == e.(state := Submitted)
    ensures var t, u := IngestTx(db, e, sender, now), IngestTx(Blank(db), f, sender, now);
            if t.Abort? then u == t else u.Commit?
  {
    EnsureThreadBlind(db, e, f, sender);
  }

  lemma IngestBlind(db: Db, e: Mail, f: Mail, sender: nat, now: int)
    requires f == e || f == e.(state := Submitted)
    ensures BlankTx(IngestTx(Blank(db), f, sender, now)) == BlankTx(IngestTx(db, e, sender, now))
  {
    AbortBlind(db, e, f, sender, now);
    if IngestTx(db, e, sender, now).Commit? {
      IngestStores(db, e, sender, now);
      IngestStores(Blank(db), f, sender, now);
      FanOutSame(db, Blank(db), e.id, e.to);
      StoredBlind(db, e, Surface(db, e, sender), Arriving(e, sender, now), Arriving(f, sender, now),
                  FanOut(db, e.id, e.to));
    }
  }

  lemma DeliverBlind(db: Db, id: MsgId, payload: Mail, decision: Decision<Mail>, viaGrant: bool, now: int)
    requires id in db.drafts
    ensures BlankTx(Deliver(Blank(db), id, payload, decision, viaGrant, now)) ==
            BlankTx(Deliver(db, id, payload, decision, viaGrant, now))
  {
    var row := Decided(db.drafts[id], payload, decision, viaGrant, now);
    var mid, e := db.(drafts := db.drafts[id := row]), payload.(sentAt := now);
    IngestBlind(mid, e, e, row.author, now);
    assert Blank(mid) == Blank(db).(drafts := Blank(db).drafts[id := row]);
  }

  lemma LatestBlind(db: Db, id: MsgId)
    requires id in db.messages
    ensures Latest(Blank(db), id) <==> Latest(db, id)
  {
    assert forall m :: m in db.messages <==> m in Blank(db).messages;
    assert forall m :: m in db.messages ==> Blank(db).messages[m] == BlankRow(db.messages[m]);
    if !Latest(db, id) {
      var m :| m in db.messages && db.messages[m].thread == db.messages[id].thread &&
               db.messages[m].receivedAt > db.messages[id].receivedAt;
      assert m in Blank(db).messages;
    }
  }

  lemma VerdictBlind(db: Db, person: nat, id: MsgId, v: Verdict)
    ensures BlankTx(MessageVerdict(Blank(db), person, id, v)) == BlankTx(MessageVerdict(db, person, id, v))
  {
    BlankTwice(db);
    if id in db.messages {
      LatestBlind(db, id);
    }
  }

  lemma ApproveViaGrantBlind(db: Db, thread: nat, granter: nat, id: MsgId)
    ensures BlankTx(ApproveViaGrant(Blank(db), thread, granter, id)) ==
            BlankTx(ApproveViaGrant(db, thread, granter, id))
  {
    BlankTwice(db);
    if id in db.messages {
      var m := db.messages[id].(viaGrant := true);
      BlankPut(db.messages, id, m);
      BlankPut(BlankRows(db.messages), id, BlankRow(m));
    }
  }

  lemma ExpiryBlind(cfg: Config, db: Db, now: int)
    ensures ExpiredMessages(cfg, Blank(db), now) == ExpiredMessages(cfg, db, now)
  {
    forall m | m in db.messages ensures Expired(cfg, Blank(db), m, now) <==> Expired(cfg, db, m, now) {
      assert AllAckedBy(Blank(db), m, Unix(now - cfg.ackGrace)) <==> AllAckedBy(db, m, Unix(now - cfg.ackGrace));
    }
  }

  lemma SweepBlind(cfg: Config, db: Db, now: int)
    ensures BlankTx(SweepMessages(cfg, Blank(db), now)) == BlankTx(SweepMessages(cfg, db, now))
  {
    ExpiryBlind(cfg, db, now);
    var gone := ExpiredMessages(cfg, db, now);
    assert BlankRows(BlankRows(db.messages) - gone) == BlankRows(db.messages - gone);
  }

  lemma DraftOpBlind(cfg: Config, db: Db, op: Op, now: int)
    requires op.OpReleaseDraft? || op.OpReleaseViaGrant?
    ensures BlankTx(Step(cfg, Blank(db), op, now)) == BlankTx(Step(cfg, db, op, now))
  {
    BlankTwice(db);
    if op.draft in db.drafts {
      var row := db.drafts[op.draft];
      if op.OpReleaseDraft? {
        var payload := Edited(row.mail, op.text);
        match ApplyOutbound(OutboundOf(op.draft, row, payload), row.state, Approve)
        case Refused(_) =>
        case Allowed(d) => DeliverBlind(db, op.draft, payload, d, false, now);
      } else {
        match ApplyOutboundGrant(Grant(row.thread, Outbound, false), OutboundOf(op.draft, row, row.mail), row.state)
        case Refused(_) =>
        case Allowed(d) => DeliverBlind(db, op.draft, row.mail, d, true, now);
      }
    }
  }

  /** Operations that neither read nor write message rows. */
  lemma OtherOpBlind(cfg: Config, db: Db, op: Op, now: int)
    requires LeavesMail(op) && !op.OpMessageVerdict?
    ensures BlankTx(Step(cfg, Blank(db), op, now)) == BlankTx(Step(cfg, db, op, now))
  {
    BlankTwice(db);
    match op {
      case OpCreateInvite(_, _, _) =>
      case OpEnroll(_, _, _, _) =>
      case OpRevokeDevice(_) =>
      case OpStartThread(_, _, _) =>
      case OpCreateDraft(_, _) =>
      case OpDiscardDraft(_, _) =>
      case OpThreadVerdict(_, _) =>
      case OpSetGrant(_, _, _, _) =>
      case OpRevokeGrant(_, _, _) =>
      case OpSweepDrafts =>
      case OpPruneTombstones =>
    }
  }

  lemma ReceiptBlind(db: Db, msg: MsgId, device: nat, acked: bool, now: int)
    ensures BlankTx(Receipt(Blank(db), msg, device, acked, now)) == BlankTx(Receipt(db, msg, device, acked, now))
  {
    BlankTwice(db);
  }

  /** Blanking the asserted states changes nothing but those states. */
  lemma StepBlind(cfg: Config, db: Db, op: Op, now: int)
    ensures BlankTx(Step(cfg, Blank(db), BlankOp(op), now)) == BlankTx(Step(cfg, db, op, now))
  {
    match op {
      case OpIngest(e, sender) => IngestBlind(db, e, e.(state := Submitted), sender, now);
      case OpReleaseDraft(_, _, _) => DraftOpBlind(cfg, db, op, now);
      case OpReleaseViaGrant(_, _) => DraftOpBlind(cfg, db, op, now);
      case OpReceipt(m, d, acked) => ReceiptBlind(db, m, d, acked, now);
      case OpMessageVerdict(p, id, v) => VerdictBlind(db, p, id, v);
      case OpApproveViaGrant(t, p, id) => ApproveViaGrantBlind(db, t, p, id);
      case OpSweepMessages => SweepBlind(cfg, db, now);
      case _ => OtherOpBlind(cfg, db, op, now);
    }
  }

  // ---------------------------------------------------------------- whole runs

  /** Two runs asked for the same things at the same times, but for the states that ingested envelopes assert. */
  ghost predicate SameRequests(tr: seq<Entry>, us: seq<Entry>) {
    |tr| == |us| && forall i :: 0 <= i < |tr| ==> BlankOp(tr[i].op) == BlankOp(us[i].op) && tr[i].now == us[i].now
  }

  lemma SameStep(cfg: Config, e: Entry, f: Entry)
    requires Blank(e.pre) == Blank(f.pre) && BlankOp(e.op) == BlankOp(f.op) && e.now == f.now
    ensures BlankTx(TxOf(cfg, e)) == BlankTx(TxOf(cfg, f))
  {
    StepBlind(cfg, e.pre, e.op, e.now);
    StepBlind(cfg, f.pre, f.op, f.now);
  }

  lemma Settled(t: Tx, u: Tx, was: Db, wasU: Db)
    requires BlankTx(t) == BlankTx(u) && Blank(was) == Blank(wasU)
    ensures Blank(t.Settle(was)) == Blank(u.Settle(wasU))
  {
  }

  lemma {:induction false} SameFinal(cfg: Config, tr: seq<Entry>, us: seq<Entry>)
    requires Run(cfg, tr) && Run(cfg, us) && SameRequests(tr, us)
    ensures Blank(Final(cfg, tr)) == Blank(Final(cfg, us))
    decreases |tr|
  {
    if tr == [] {
    } else {
      var n := |tr| - 1;
      SameFinal(cfg, tr[..n], us[..n]);
      SameStep(cfg, tr[n], us[n]);
      Settled(TxOf(cfg, tr[n]), TxOf(cfg, us[n]), tr[n].pre, us[n].pre);
    }
  }

  /** The rows of two stores that are alike blank: the same ids, and alike but for the asserted state. */
  lemma BlindRows(a: Db, b: Db, m: MsgId)
    requires Blank(a) == Blank(b)
    ensures m in a.messages <==> m in b.messages
    ensures m in a.messages ==> BlankRow(a.messages[m]) == BlankRow(b.messages[m])
  {
    assert m in a.messages <==> m in Blank(a).messages;
    assert m in b.messages <==> m in Blank(b).messages;
    if m in a.messages {
      assert Blank(a).messages[m] == BlankRow(a.messages[m]);
      assert Blank(b).messages[m] == BlankRow(b.messages[m]);
    }
  }

  lemma BlindLatest(a: Db, b: Db, id: MsgId)
    requires Blank(a) == Blank(b) && id in a.messages && id in b.messages
    ensures Latest(a, id) ==> Latest(b, id)
  {
    BlindRows(a, b, id);
    forall m | m in b.messages && Latest(a, id) && b.messages[m].thread == b.messages[id].thread
      ensures b.messages[m].receivedAt <= b.messages[id].receivedAt
    {
      BlindRows(a, b, m);
    }
  }

  lemma BlindActivity(a: Db, b: Db, who: nat)
    requires Blank(a) == Blank(b) && HasActivity(a, who)
    ensures HasActivity(b, who)
  {
    forall m ensures m in a.messages ==> m in b.messages && BlankRow(a.messages[m]) == BlankRow(b.messages[m]) {
      BlindRows(a, b, m);
    }
  }

  lemma BlindViews(a: Db, b: Db, who: nat, id: MsgId)
    requires Blank(a) == Blank(b)
    ensures SameViews(a, b, who, id)
  {
    BlindRows(a, b, id);
    if id in a.messages {
      BlindLatest(a, b, id);
      BlindLatest(b, a, id);
    }
    if HasActivity(a, who) {
      BlindActivity(a, b, who);
    }
    if HasActivity(b, who) {
      BlindActivity(b, a, who);
    }
  }

  /**
   Two runs whose ingested envelopes differ only in the state they assert answer alike at every step, and reach the
   same threads, inboxes and awaiting lists.
   */
  lemma AssertedStateHasNoInfluence(cfg: Config, tr: seq<Entry>, us: seq<Entry>, i: nat, who: nat, id: MsgId)
    requires Run(cfg, tr) && Run(cfg, us) && SameRequests(tr, us) && i < |tr|
    ensures TxOf(cfg, tr[i]).Commit? <==> TxOf(cfg, us[i]).Commit?
    ensures TxOf(cfg, tr[i]).Commit? ==> TxOf(cfg, tr[i]).reply == TxOf(cfg, us[i]).reply
    ensures TxOf(cfg, tr[i]).Abort? ==> TxOf(cfg, tr[i]) == TxOf(cfg, us[i])
    ensures SameViews(After(cfg, tr[i]), After(cfg, us[i]), who, id)
  {
    RunPrefix(cfg, tr, i);
    RunPrefix(cfg, us, i);
    SameFinal(cfg, tr[..i], us[..i]);
    SameStep(cfg, tr[i], us[i]);
    Settled(TxOf(cfg, tr[i]), TxOf(cfg, us[i]), tr[i].pre, us[i].pre);
    BlindViews(After(cfg, tr[i]), After(cfg, us[i]), who, id);
  }

  ghost predicate SameViews(a: Db, b: Db, who: nat, id: MsgId) {
    && a.threads == b.threads
    && (InInbox(a, who, id) <==> InInbox(b, who, id))
    && (Awaiting(a, who, id) <==> Awaiting(b, who, id))
    && (HasActivity(a, who) <==> HasActivity(b, who))
  }
}
