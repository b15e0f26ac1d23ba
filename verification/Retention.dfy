/** Retention loses no unread mail. */
module Retention {
  import opened Base
  import opened Ids
  import opened Gate
  import opened Tables
  import opened Invariants
  import opened Runs

  /** A receipt for `k` reported at this step: any receipt, or only an ack. */
  predicate Reports(e: Entry, k: DeliveryKey, acked: bool) {
    e.op.OpReceipt? && DeliveryKey(e.op.msg, e.op.device) == k && (acked ==> e.op.acked)
  }

  /** When the first receipt for `k` after step `i` was reported, in stored seconds. */
  function First(tr: seq<Entry>, i: nat, k: DeliveryKey, acked: bool): Option<int>
    decreases |tr|
  {
    if |tr| <= i + 1 then None
    else
      var earlier := First(tr[..|tr| - 1], i, k, acked);
      if earlier.None? && Reports(tr[|tr| - 1], k, acked) then Some(Unix(tr[|tr| - 1].now)) else earlier
  }

  /** The delivery rows of `id` are exactly those it arrived with at step `i`, stamped by the first receipts since. */
  ghost predicate RowsSince(cfg: Config, tr: seq<Entry>, db: Db, i: nat, id: MsgId)
    requires i < |tr|
  {
    forall d :: var k := DeliveryKey(id, d);
      && (k in db.deliveries <==> k in After(cfg, tr[i]).deliveries)
      && (k in db.deliveries ==> db.deliveries[k] == Delivery(First(tr, i, k, false), First(tr, i, k, true)))
  }

  /** Message `id` of `db` is the one step `i` brought in, unchanged but for its grant mark. */
  ghost predicate StoredSince(cfg: Config, tr: seq<Entry>, db: Db, i: nat, id: MsgId) {
    && i < |tr| && BringsIn(cfg, tr[i], id)
    && id in db.messages && id in After(cfg, tr[i]).messages
    && db.messages[id].(viaGrant := false) == After(cfg, tr[i]).messages[id]
    && RowsSince(cfg, tr, db, i, id)
  }

  lemma ReceiptFills(db: Db, op: Op, k: DeliveryKey, now: int)
    requires op.OpReceipt? && k in db.deliveries && DeliveryKey(op.msg, op.device) == k
    ensures var post := Receipt(db, op.msg, op.device, op.acked, now).Settle(db);
            k in post.deliveries && post.deliveries[k] == Touch(db.deliveries[k], op.acked, now)
  {
  }

  lemma RowGoesOn(tr: seq<Entry>, pre: Db, post: Db, op: Op, i: nat, k: DeliveryKey, now: int)
    requires i + 1 < |tr| && tr[|tr| - 1].op == op && tr[|tr| - 1].now == now
    requires k in pre.deliveries && k in post.deliveries && Onward(pre, post, op, k, now)
    requires op.OpReceipt? && DeliveryKey(op.msg, op.device) == k ==>
               post.deliveries[k] == Touch(pre.deliveries[k], op.acked, now)
    requires pre.deliveries[k] == Delivery(First(tr[..|tr| - 1], i, k, false), First(tr[..|tr| - 1], i, k, true))
    ensures post.deliveries[k] == Delivery(First(tr, i, k, false), First(tr, i, k, true))
  {
  }

  lemma RowsGoOn(cfg: Config, tr: seq<Entry>, post: Db, i: nat, id: MsgId)
    requires i + 1 < |tr| && post == After(cfg, tr[|tr| - 1])
    requires var e := tr[|tr| - 1]; Stays(e.pre, post, e.op, id, e.now) && RowsSince(cfg, tr[..|tr| - 1], e.pre, i, id)
    ensures RowsSince(cfg, tr, post, i, id)
  {
    var e := tr[|tr| - 1];
    forall d | DeliveryKey(id, d) in post.deliveries
      ensures var k := DeliveryKey(id, d); post.deliveries[k] == Delivery(First(tr, i, k, false), First(tr, i, k, true))
    {
      var k := DeliveryKey(id, d);
      assert Onward(e.pre, post, e.op, k, e.now);
      if e.op.OpReceipt? && DeliveryKey(e.op.msg, e.op.device) == k {
        ReceiptFills(e.pre, e.op, k, e.now);
      }
      RowGoesOn(tr, e.pre, post, e.op, i, k, e.now);
    }
  }

  lemma NewRows(cfg: Config, tr: seq<Entry>, id: MsgId)
    requires tr != []
    requires var e := tr[|tr| - 1];
             WellFormed(e.pre) && BringsIn(cfg, e, id) &&
             Arrives(e.pre, After(cfg, e), id, e.now) && OthersSame(e.pre, After(cfg, e), id)
    ensures StoredSince(cfg, tr, After(cfg, tr[|tr| - 1]), |tr| - 1, id)
  {
    var e := tr[|tr| - 1];
    var post := After(cfg, e);
    forall d | DeliveryKey(id, d) in post.deliveries
      ensures post.deliveries[DeliveryKey(id, d)] == Delivery(None, None)
    {
      assert DeliveryKey(id, d) !in e.pre.deliveries;
    }
  }

  lemma StoryStarts(cfg: Config, tr: seq<Entry>, id: MsgId)
    requires Run(cfg, tr) && tr != [] && id in Final(cfg, tr).messages && id !in tr[|tr| - 1].pre.messages
    ensures StoredSince(cfg, tr, Final(cfg, tr), |tr| - 1, id)
  {
    var e := tr[|tr| - 1];
    RunWellFormed(cfg, tr[..|tr| - 1]);
    StepMessage(cfg, e, id);
    BringsInArrives(cfg, e, id);
    NewRows(cfg, tr, id);
  }

  lemma StepStays(cfg: Config, e: Entry, id: MsgId)
    requires WellFormed(e.pre) && id in e.pre.messages && id in After(cfg, e).messages
    ensures Stays(e.pre, After(cfg, e), e.op, id, e.now)
  {
    StepMessage(cfg, e, id);
  }

  lemma StoryGoesOn(cfg: Config, tr: seq<Entry>, post: Db, i: nat, id: MsgId)
    requires tr != [] && post == After(cfg, tr[|tr| - 1])
    requires var e := tr[|tr| - 1];
             StoredSince(cfg, tr[..|tr| - 1], e.pre, i, id) && Stays(e.pre, post, e.op, id, e.now)
    ensures StoredSince(cfg, tr, post, i, id)
  {
    RowsGoOn(cfg, tr, post, i, id);
    assert tr[..|tr| - 1][i] == tr[i];
  }

  /** Every stored message came in at a known step, and its delivery rows are those of that step. */
  lemma {:induction false} MessageStory(cfg: Config, tr: seq<Entry>, id: MsgId) returns (i: nat)
    requires Run(cfg, tr) && id in Final(cfg, tr).messages
    ensures StoredSince(cfg, tr, Final(cfg, tr), i, id)
    decreases |tr|
  {
    var n := |tr| - 1;
    if id in tr[n].pre.messages {
      i := MessageStory(cfg, tr[..n], id);
      RunWellFormed(cfg, tr[..n]);
      StepStays(cfg, tr[n], id);
      StoryGoesOn(cfg, tr, Final(cfg, tr), i, id);
    } else {
      i := n;
      StoryStarts(cfg, tr, id);
    }
  }

  /** Step `j` swept `id` because it arrived with rows, and every one was acked at least AckGrace before. */
  ghost predicate ReadByAll(cfg: Config, tr: seq<Entry>, i: nat, j: nat, id: MsgId)
    requires i < j < |tr|
  {
    var arrived, cutoff := After(cfg, tr[i]).deliveries, Unix(tr[j].now - cfg.ackGrace);
    && (exists d :: DeliveryKey(id, d) in arrived)
    && (forall d :: DeliveryKey(id, d) in arrived ==> AckedBefore(tr[..j], i, DeliveryKey(id, d), cutoff))
  }

  predicate AckedBefore(tr: seq<Entry>, i: nat, k: DeliveryKey, cutoff: int) {
    var first := First(tr, i, k, true);
    first.Some? && first.value <= cutoff
  }

  /**
   A message leaves the store only in a sweep, and before HardTTL only once it had delivery rows and each device of
   the set fixed when it arrived had acked it, AckGrace earlier.
   */
  lemma NoUnreadMailLost(cfg: Config, tr: seq<Entry>, j: nat, id: MsgId) returns (i: nat)
    requires Run(cfg, tr) && j < |tr| && id in tr[j].pre.messages && id !in After(cfg, tr[j]).messages
    ensures tr[j].op.OpSweepMessages?
    ensures i < j && BringsIn(cfg, tr[i], id)
    ensures tr[j].pre.messages[id].receivedAt == Unix(tr[i].now)
    ensures Unix(tr[i].now) <= Unix(tr[j].now - cfg.hardTTL) || ReadByAll(cfg, tr, i, j, id)
  {
    RunPrefix(cfg, tr, j);
    EntryWellFormed(cfg, tr, j);
    StepMessage(cfg, tr[j], id);
    i := MessageStory(cfg, tr[..j], id);
    assert tr[..j][i] == tr[i];
    EntryWellFormed(cfg, tr, i);
    BringsInArrives(cfg, tr[i], id);
    if Unix(tr[i].now) > Unix(tr[j].now - cfg.hardTTL) {
      EarlyIsRead(cfg, tr, i, j, id);
    }
  }

  lemma EarlyIsRead(cfg: Config, tr: seq<Entry>, i: nat, j: nat, id: MsgId)
    requires i < j < |tr| && RowsSince(cfg, tr[..j], tr[j].pre, i, id)
    requires AllAckedBy(tr[j].pre, id, Unix(tr[j].now - cfg.ackGrace))
    ensures ReadByAll(cfg, tr, i, j, id)
  {
    var db, arrived := tr[j].pre, After(cfg, tr[i]).deliveries;
    assert tr[..j][i] == tr[i];
    var k :| k in db.deliveries && k.msg == id;
    assert DeliveryKey(id, k.device) in arrived;
    forall d | DeliveryKey(id, d) in arrived
      ensures AckedBefore(tr[..j], i, DeliveryKey(id, d), Unix(tr[j].now - cfg.ackGrace))
    {
      assert DeliveryKey(id, d) in db.deliveries;
    }
  }

  /** A first receipt is one that a device of the run reported. */
  lemma {:induction false} FirstWasReported(tr: seq<Entry>, i: nat, k: DeliveryKey, acked: bool) returns (a: nat)
    requires First(tr, i, k, acked).Some?
    ensures i < a < |tr| && Reports(tr[a], k, acked) && First(tr, i, k, acked) == Some(Unix(tr[a].now))
    ensures forall b :: i < b < a ==> !Reports(tr[b], k, acked)
    decreases |tr|
  {
    var n := |tr| - 1;
    if First(tr[..n], i, k, acked).Some? {
      a := FirstWasReported(tr[..n], i, k, acked);
    } else {
      a := n;
      NoneReported(tr[..n], i, k, acked);
    }
  }

  lemma {:induction false} NoneReported(tr: seq<Entry>, i: nat, k: DeliveryKey, acked: bool)
    requires First(tr, i, k, acked).None?
    ensures forall b :: i < b < |tr| ==> !Reports(tr[b], k, acked)
    decreases |tr|
  {
    if |tr| <= i + 1 {
    } else {
      var front := tr[..|tr| - 1];
      NoneReported(front, i, k, acked);
      forall b | i < b < |tr| ensures !Reports(tr[b], k, acked) {
        if b < |front| {
          assert front[b] == tr[b];
        }
      }
    }
  }

  /** Device `d` was an active device of the addressee when step `i` brought the message in. */
  predicate WasDue(e: Entry, d: nat, to: nat) {
    Active(e.pre, d) && e.pre.devices[d].person == to
  }

  /**
   A stored message is in a device's inbox exactly if the device was due it when it came in, and has not acked it since.
   */
  lemma InInboxUntilAcked(cfg: Config, tr: seq<Entry>, i: nat, id: MsgId, d: nat)
    requires Run(cfg, tr) && StoredSince(cfg, tr, Final(cfg, tr), i, id)
    ensures InInbox(Final(cfg, tr), d, id) <==>
            && WasDue(tr[i], d, Final(cfg, tr).messages[id].mail.to)
            && forall b :: i < b < |tr| ==> !Reports(tr[b], DeliveryKey(id, d), true)
  {
    var k := DeliveryKey(id, d);
    EntryWellFormed(cfg, tr, i);
    BringsInArrives(cfg, tr[i], id);
    if First(tr, i, k, true).None? {
      NoneReported(tr, i, k, true);
    } else {
      var a := FirstWasReported(tr, i, k, true);
    }
  }

  lemma ReceivedThen(cfg: Config, tr: seq<Entry>, i: nat, id: MsgId)
    requires Run(cfg, tr) && StoredSince(cfg, tr, Final(cfg, tr), i, id)
    ensures Final(cfg, tr).messages[id].receivedAt == Unix(tr[i].now)
  {
    EntryWellFormed(cfg, tr, i);
    BringsInArrives(cfg, tr[i], id);
  }

  /** A stored message's received_at is the second of the step that brought it in; sender and text are that step's. */
  lemma StoredAsItArrived(cfg: Config, tr: seq<Entry>, i: nat, id: MsgId)
    requires Run(cfg, tr) && StoredSince(cfg, tr, Final(cfg, tr), i, id)
    ensures Final(cfg, tr).messages[id].receivedAt == Unix(tr[i].now)
    ensures tr[i].op.OpIngest? ==>
              Final(cfg, tr).messages[id].mail == tr[i].op.mail && Final(cfg, tr).messages[id].sender == tr[i].op.sender
  {
    EntryWellFormed(cfg, tr, i);
    BringsInArrives(cfg, tr[i], id);
    if tr[i].op.OpIngest? {
      IngestArrives(tr[i].pre, tr[i].op.mail, tr[i].op.sender, tr[i].now);
    }
  }

  /**
   A sweep removes a message exactly if it came in HardTTL ago, or had delivery rows and each was acked AckGrace ago.
   */
  lemma SweptExactly(cfg: Config, tr: seq<Entry>, i: nat, j: nat, id: MsgId)
    requires Run(cfg, tr) && i < j < |tr| && tr[j].op.OpSweepMessages?
    requires StoredSince(cfg, tr[..j], tr[j].pre, i, id)
    ensures id !in After(cfg, tr[j]).messages <==>
            Unix(tr[i].now) <= Unix(tr[j].now - cfg.hardTTL) || ReadByAll(cfg, tr, i, j, id)
  {
    RunPrefix(cfg, tr, j);
    ReceivedThen(cfg, tr[..j], i, id);
    assert tr[..j][i] == tr[i];
    SweepRemoves(cfg, tr[j], id);
    AckedIsRead(cfg, tr, i, j, id);
  }

  lemma SweepRemoves(cfg: Config, e: Entry, id: MsgId)
    requires e.op.OpSweepMessages? && id in e.pre.messages
    ensures id !in After(cfg, e).messages <==>
            || e.pre.messages[id].receivedAt <= Unix(e.now - cfg.hardTTL)
            || AllAckedBy(e.pre, id, Unix(e.now - cfg.ackGrace))
  {
    SweptMessage(cfg, e.pre, id, e.now);
  }

  lemma AckedIsRead(cfg: Config, tr: seq<Entry>, i: nat, j: nat, id: MsgId)
    requires i < j < |tr| && RowsSince(cfg, tr[..j], tr[j].pre, i, id)
    ensures AllAckedBy(tr[j].pre, id, Unix(tr[j].now - cfg.ackGrace)) <==> ReadByAll(cfg, tr, i, j, id)
  {
    if AllAckedBy(tr[j].pre, id, Unix(tr[j].now - cfg.ackGrace)) {
      EarlyIsRead(cfg, tr, i, j, id);
    }
    if ReadByAll(cfg, tr, i, j, id) {
      ReadIsEarly(cfg, tr, i, j, id);
    }
  }

  lemma ReadIsEarly(cfg: Config, tr: seq<Entry>, i: nat, j: nat, id: MsgId)
    requires i < j < |tr| && RowsSince(cfg, tr[..j], tr[j].pre, i, id) && ReadByAll(cfg, tr, i, j, id)
    ensures AllAckedBy(tr[j].pre, id, Unix(tr[j].now - cfg.ackGrace))
  {
    var db, cutoff := tr[j].pre, Unix(tr[j].now - cfg.ackGrace);
    assert tr[..j][i] == tr[i];
    var d :| DeliveryKey(id, d) in After(cfg, tr[i]).deliveries;
    assert DeliveryKey(id, d) in db.deliveries;
    forall k | k in db.deliveries && k.msg == id
      ensures db.deliveries[k].ackedAt.Some? && db.deliveries[k].ackedAt.value <= cutoff
    {
      assert k == DeliveryKey(id, k.device);
      assert AckedBefore(tr[..j], i, k, cutoff);
    }
  }

  // -------------------------------------------------------- the grant mark

  /** A grant auto-approved message `id` on thread `t` at this step. */
  ghost predicate AutoApproves(cfg: Config, e: Entry, t: nat, id: MsgId) {
    e.op.OpApproveViaGrant? && e.op.thread == t && e.op.msg == id && TxOf(cfg, e) == Commit(After(cfg, e), Fired(true))
  }

  lemma GrantMarks(db: Db, thread: nat, granter: nat, msg: MsgId, id: MsgId)
    requires id in db.messages
    ensures var t := ApproveViaGrant(db, thread, granter, msg);
            id in t.Settle(db).messages &&
            t.Settle(db).messages[id].viaGrant ==
            (db.messages[id].viaGrant ||
              (msg == id && db.messages[id].thread == thread && t.Commit? && t.reply == Fired(true)))
  {
  }

  /** The message keeps its mark. */
  ghost predicate SameMark(pre: Db, post: Db, id: MsgId)
    requires id in pre.messages && id in post.messages
  {
    post.messages[id].viaGrant == pre.messages[id].viaGrant
  }

  lemma OtherMark(cfg: Config, e: Entry, id: MsgId)
    requires !MayTouch(e.op, Messages) && id in e.pre.messages
    ensures id in After(cfg, e).messages && SameMark(e.pre, After(cfg, e), id)
  {
    StepSpares(cfg, e.pre, e.op, e.now);
  }

  lemma SweepMark(cfg: Config, e: Entry, id: MsgId)
    requires e.op.OpSweepMessages? && id in e.pre.messages && id in After(cfg, e).messages
    ensures SameMark(e.pre, After(cfg, e), id)
  {
  }

  lemma IngestMark(cfg: Config, e: Entry, id: MsgId)
    requires WellFormed(e.pre) && id in e.pre.messages && e.op.OpIngest?
    ensures id in After(cfg, e).messages && SameMark(e.pre, After(cfg, e), id)
  {
    if TxOf(cfg, e).Commit? {
      BringsInArrives(cfg, e, e.op.mail.id);
    }
  }

  lemma ReleaseMark(cfg: Config, e: Entry, id: MsgId)
    requires WellFormed(e.pre) && id in e.pre.messages && (e.op.OpReleaseDraft? || e.op.OpReleaseViaGrant?)
    ensures id in After(cfg, e).messages && SameMark(e.pre, After(cfg, e), id)
  {
    if Releases(cfg, e, e.op.draft) {
      BringsInArrives(cfg, e, e.op.draft);
    } else {
      NotReleased(cfg, e);
    }
  }

  lemma GrantMark(cfg: Config, e: Entry, id: MsgId)
    requires e.op.OpApproveViaGrant? && id in e.pre.messages && id in After(cfg, e).messages
    ensures After(cfg, e).messages[id].viaGrant ==
            (e.pre.messages[id].viaGrant || AutoApproves(cfg, e, e.pre.messages[id].thread, id))
  {
    GrantMarks(e.pre, e.op.thread, e.op.granter, e.op.msg, id);
  }

  lemma StepMark(cfg: Config, e: Entry, id: MsgId)
    requires WellFormed(e.pre) && id in e.pre.messages && id in After(cfg, e).messages
    ensures After(cfg, e).messages[id].viaGrant ==
            (e.pre.messages[id].viaGrant || AutoApproves(cfg, e, e.pre.messages[id].thread, id))
  {
    if e.op.OpApproveViaGrant? {
      GrantMark(cfg, e, id);
    } else if e.op.OpSweepMessages? {
      SweepMark(cfg, e, id);
    } else if e.op.OpIngest? {
      IngestMark(cfg, e, id);
    } else if e.op.OpReleaseDraft? || e.op.OpReleaseViaGrant? {
      ReleaseMark(cfg, e, id);
    } else {
      OtherMark(cfg, e, id);
    }
  }

  /** Some step since `i` auto-approved the message under a grant on thread `t`. */
  ghost predicate AutoApprovedSince(cfg: Config, tr: seq<Entry>, i: nat, t: nat, id: MsgId) {
    exists j :: i < j < |tr| && AutoApproves(cfg, tr[j], t, id)
  }

  lemma AutoApprovedGoesOn(cfg: Config, tr: seq<Entry>, i: nat, t: nat, id: MsgId)
    requires i + 1 < |tr|
    ensures AutoApprovedSince(cfg, tr, i, t, id) <==>
            AutoApprovedSince(cfg, tr[..|tr| - 1], i, t, id) || AutoApproves(cfg, tr[|tr| - 1], t, id)
  {
    var n := |tr| - 1;
    if j :| i < j < |tr| && AutoApproves(cfg, tr[j], t, id) && j != n {
      assert tr[..n][j] == tr[j];
    }
    if j :| i < j < n && AutoApproves(cfg, tr[..n][j], t, id) {
      assert tr[..n][j] == tr[j];
    }
  }

  /** A stored message carries the mark exactly if a grant on its own thread has auto-approved it since it came in. */
  lemma {:induction false} MarkedByGrant(cfg: Config, tr: seq<Entry>, id: MsgId) returns (i: nat)
    requires Run(cfg, tr) && id in Final(cfg, tr).messages
    ensures StoredSince(cfg, tr, Final(cfg, tr), i, id)
    ensures Final(cfg, tr).messages[id].viaGrant <==>
            AutoApprovedSince(cfg, tr, i, Final(cfg, tr).messages[id].thread, id)
    decreases |tr|
  {
    var n := |tr| - 1;
    RunWellFormed(cfg, tr[..n]);
    if id in tr[n].pre.messages {
      i := MarkedByGrant(cfg, tr[..n], id);
      StepStays(cfg, tr[n], id);
      StoryGoesOn(cfg, tr, Final(cfg, tr), i, id);
      StepMark(cfg, tr[n], id);
      AutoApprovedGoesOn(cfg, tr, i, tr[n].pre.messages[id].thread, id);
    } else {
      i := n;
      StoryStarts(cfg, tr, id);
      NewIsUnmarked(cfg, tr[n], id);
    }
  }

  lemma NewIsUnmarked(cfg: Config, e: Entry, id: MsgId)
    requires WellFormed(e.pre) && id in After(cfg, e).messages && id !in e.pre.messages
    ensures !After(cfg, e).messages[id].viaGrant
  {
    StepMessage(cfg, e, id);
  }

  /** A message that has not expired is never lost: no step at all removes it. */
  lemma UnexpiredStays(cfg: Config, e: Entry, id: MsgId)
    requires WellFormed(e.pre) && id in e.pre.messages
    ensures id !in After(cfg, e).messages <==> e.op.OpSweepMessages? && Expired(cfg, e.pre, id, e.now)
  {
    StepMessage(cfg, e, id);
    if e.op.OpSweepMessages? {
      SweptMessage(cfg, e.pre, id, e.now);
    }
  }

  /** A decided draft goes exactly HardTTL after its decision, a tombstone exactly past the freshness horizon. */
  lemma SweepsAreExact(cfg: Config, db: Db, id: MsgId, now: int)
    ensures id in db.drafts ==>
              (id !in SweepDrafts(cfg, db, now).db.drafts <==>
               db.drafts[id].state in {Sent, Discarded} && db.drafts[id].decidedAt.Some? &&
               db.drafts[id].decidedAt.value <= Unix(now - cfg.hardTTL))
    ensures id in db.tombstones ==>
              (id !in PruneTombstones(cfg, db, now).db.tombstones <==> db.tombstones[id] < Unix(now - cfg.maxAge))
    ensures PruneTombstones(cfg, db, now).db == db.(tombstones := PruneTombstones(cfg, db, now).db.tombstones)
  {
  }

  /** The sweeps touch nothing else: threads, grants, tombstones and pending drafts all stay. */
  lemma SweepsTouchLittle(cfg: Config, db: Db, now: int)
    ensures var post := SweepMessages(cfg, db, now).db;
            post == db.(messages := post.messages, deliveries := post.deliveries)
    ensures var post := SweepDrafts(cfg, db, now).db;
            && post == db.(drafts := post.drafts)
            && forall d :: d in db.drafts && db.drafts[d].state == PendingReview ==>
                 d in post.drafts && post.drafts[d] == db.drafts[d]
  {
  }
}
