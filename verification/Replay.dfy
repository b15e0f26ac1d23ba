/** Replay safety: a tombstone outlives every chance of replaying what it stands for. */
module Replay {
  import opened Ids
  import opened Gate
  import opened Tables
  import opened Invariants
  import opened Runs

  /** What keeps a signed time from coming in again: its tombstone, or its age. */
  predicate Spent(cfg: Config, db: Db, id: MsgId, sentAt: int, now: int) {
    (id in db.tombstones && db.tombstones[id] == Unix(sentAt)) || sentAt < now - cfg.maxAge
  }

  /** The tombstone of `id` stays, or has been pruned with its second wholly before the horizon. */
  predicate Outlived(cfg: Config, pre: Db, post: Db, id: MsgId, now: int)
    requires id in pre.tombstones
  {
    || (id in post.tombstones && post.tombstones[id] == pre.tombstones[id])
    || pre.tombstones[id] < Unix(now - cfg.maxAge)
  }

  lemma OtherTombstones(cfg: Config, db: Db, op: Op, id: MsgId, now: int)
    requires id in db.tombstones && !op.OpIngest? && !op.OpReleaseDraft? && !op.OpReleaseViaGrant?
    ensures Outlived(cfg, db, Step(cfg, db, op, now).Settle(db), id, now)
  {
    if op.OpPruneTombstones? {
      var post := PruneTombstones(cfg, db, now).db;
    } else {
      StepSpares(cfg, db, op, now);
    }
  }

  lemma StepTombstone(cfg: Config, e: Entry, id: MsgId)
    requires WellFormed(e.pre) && id in e.pre.tombstones
    ensures Outlived(cfg, e.pre, After(cfg, e), id, e.now)
  {
    match e.op {
      case OpIngest(_, _) => IngestTombstone(cfg, e, id);
      case OpReleaseDraft(_, _, _) => ReleaseTombstone(cfg, e, id);
      case OpReleaseViaGrant(_, _) => ReleaseTombstone(cfg, e, id);
      case _ => OtherTombstones(cfg, e.pre, e.op, id, e.now);
    }
  }

  lemma IngestTombstone(cfg: Config, e: Entry, id: MsgId)
    requires WellFormed(e.pre) && id in e.pre.tombstones && e.op.OpIngest?
    ensures id in After(cfg, e).tombstones && After(cfg, e).tombstones[id] == e.pre.tombstones[id]
  {
    if TxOf(cfg, e).Commit? {
      BringsInArrives(cfg, e, e.op.mail.id);
    }
  }

  lemma ReleaseTombstone(cfg: Config, e: Entry, id: MsgId)
    requires WellFormed(e.pre) && id in e.pre.tombstones && (e.op.OpReleaseDraft? || e.op.OpReleaseViaGrant?)
    ensures id in After(cfg, e).tombstones && After(cfg, e).tombstones[id] == e.pre.tombstones[id]
  {
    if Releases(cfg, e, e.op.draft) {
      BringsInArrives(cfg, e, e.op.draft);
    } else {
      NotReleased(cfg, e);
    }
  }

  lemma StepSpent(cfg: Config, e: Entry, id: MsgId, sentAt: int, was: int)
    requires WellFormed(e.pre) && was <= e.now && Spent(cfg, e.pre, id, sentAt, was)
    ensures Spent(cfg, After(cfg, e), id, sentAt, e.now)
  {
    if id in e.pre.tombstones && e.pre.tombstones[id] == Unix(sentAt) {
      StepTombstone(cfg, e, id);
    }
  }

  lemma {:induction false} StaysSpent(cfg: Config, tr: seq<Entry>, i: nat, id: MsgId, sentAt: int)
    requires Run(cfg, tr) && i < |tr| && Spent(cfg, After(cfg, tr[i]), id, sentAt, tr[i].now)
    ensures Spent(cfg, Final(cfg, tr), id, sentAt, tr[|tr| - 1].now)
    decreases |tr|
  {
    var n := |tr| - 1;
    if i == n {
    } else {
      var front := tr[..n];
      assert front[i] == tr[i];
      StaysSpent(cfg, front, i, id, sentAt);
      RunWellFormed(cfg, front);
      StepSpent(cfg, tr[n], id, sentAt, front[n - 1].now);
    }
  }

  lemma ArrivedIsSpent(cfg: Config, pre: Db, post: Db, id: MsgId, now: int)
    requires Arrives(pre, post, id, now)
    ensures Spent(cfg, post, id, post.messages[id].mail.sentAt, now)
  {
  }

  /** What came in with a signed time stays spent for the rest of the run. */
  lemma ArrivalStaysSpent(cfg: Config, tr: seq<Entry>, i: nat, id: MsgId)
    requires Run(cfg, tr) && i < |tr| && BringsIn(cfg, tr[i], id)
    ensures id in After(cfg, tr[i]).messages
    ensures Spent(cfg, Final(cfg, tr), id, After(cfg, tr[i]).messages[id].mail.sentAt, tr[|tr| - 1].now)
  {
    EntryWellFormed(cfg, tr, i);
    BringsInArrives(cfg, tr[i], id);
    var post := After(cfg, tr[i]);
    ArrivedIsSpent(cfg, tr[i].pre, post, id, tr[i].now);
    StaysSpent(cfg, tr, i, id, post.messages[id].mail.sentAt);
  }

  lemma SpentIsRefused(cfg: Config, db: Db, e: Mail, sender: nat, was: int, now: int)
    requires Spent(cfg, db, e.id, e.sentAt, was) && was <= now
    ensures Ingest(cfg, db, e, sender, now) == Abort(ErrReplay) || Ingest(cfg, db, e, sender, now) == Abort(ErrNotFresh)
  {
  }

  /** Once an id has come in with a signed time, by ingest or by release, every later ingest of both is refused. */
  lemma ReplayRefused(cfg: Config, tr: seq<Entry>, i: nat, j: nat, id: MsgId)
    requires Run(cfg, tr) && i < j < |tr| && BringsIn(cfg, tr[i], id)
    requires tr[j].op.OpIngest? && tr[j].op.mail.id == id
    requires id in After(cfg, tr[i]).messages && tr[j].op.mail.sentAt == After(cfg, tr[i]).messages[id].mail.sentAt
    ensures TxOf(cfg, tr[j]) == Abort(ErrReplay) || TxOf(cfg, tr[j]) == Abort(ErrNotFresh)
  {
    RunPrefix(cfg, tr, j);
    assert tr[..j][i] == tr[i];
    ArrivalStaysSpent(cfg, tr[..j], i, id);
    SpentIsRefused(cfg, tr[j].pre, tr[j].op.mail, tr[j].op.sender, tr[j - 1].now, tr[j].now);
  }

  // ------------------------------------------------------ what ingest admits

  /** Stored times are whole seconds, rounded down. */
  lemma UnixRoundsDown(ns: int)
    ensures Unix(ns) * 1_000_000_000 <= ns < (Unix(ns) + 1) * 1_000_000_000
  {
  }

  /** The two ends a message may run between: its thread's parties, or for a new thread two people of the roster. */
  predicate EndsFit(db: Db, e: Mail, sender: nat) {
    if e.thread in db.threads then
      var t := db.threads[e.thread];
      (sender == t.initiator && e.to == t.recipient) || (sender == t.recipient && e.to == t.initiator)
    else sender in db.persons && e.to in db.persons && sender != e.to
  }

  /** Exactly when an ingest is admitted, and exactly when it is turned away as stale or as post-dated. */
  lemma IngestIsExact(cfg: Config, db: Db, e: Mail, sender: nat, now: int)
    requires ThreadsOk(db.threads, db.persons)
    ensures Ingest(cfg, db, e, sender, now).Commit? <==>
            && e.id.Uuid? && now - e.sentAt <= cfg.maxAge && e.sentAt - now <= cfg.maxSkew
            && e.id !in db.tombstones && e.id !in db.messages && EndsFit(db, e, sender)
    ensures Ingest(cfg, db, e, sender, now) == Abort(ErrNotFresh) <==>
            e.id.Uuid? && (now - e.sentAt > cfg.maxAge || e.sentAt - now > cfg.maxSkew)
    ensures Ingest(cfg, db, e, sender, now) == Abort(ErrReplay) <==>
            e.id.NotUuid? ||
            (now - e.sentAt <= cfg.maxAge && e.sentAt - now <= cfg.maxSkew && e.id in db.tombstones)
  {
  }

  /** The first message of a thread opens it, from its sender to its addressee. */
  lemma FirstMessageOpens(db: Db, e: Mail, sender: nat, now: int)
    requires e.thread !in db.threads && IngestTx(db, e, sender, now).Commit?
    ensures var post := IngestTx(db, e, sender, now).db;
            e.thread in post.threads && post.threads[e.thread] == Thread(sender, e.to, InputRequired)
  {
  }

  /** In a run, nothing comes in signed outside the window around its arrival; a release is signed at its own moment. */
  lemma ArrivedFresh(cfg: Config, tr: seq<Entry>, i: nat, id: MsgId)
    requires Run(cfg, tr) && i < |tr| && BringsIn(cfg, tr[i], id)
    ensures id in After(cfg, tr[i]).messages
    ensures var sentAt := After(cfg, tr[i]).messages[id].mail.sentAt;
            if tr[i].op.OpIngest? then tr[i].now - cfg.maxAge <= sentAt <= tr[i].now + cfg.maxSkew
            else sentAt == tr[i].now
  {
    EntryWellFormed(cfg, tr, i);
    if tr[i].op.OpIngest? {
      IngestArrives(tr[i].pre, tr[i].op.mail, tr[i].op.sender, tr[i].now);
      IngestIsExact(cfg, tr[i].pre, tr[i].op.mail, tr[i].op.sender, tr[i].now);
    } else {
      ReleaseArrives(cfg, tr[i], id);
    }
  }
}
