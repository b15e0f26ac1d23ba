/** The store and the delivery protocol, joined: what a store transaction is to delivery, and released means pushed. */
module Bridge {
  import opened Base
  import opened Ids
  import T = Tables
  import opened Invariants
  import opened Runs
  import D = Delivery
  import Progress

  // ------------------------------------------------------------- one view of both

  /** The protocol's devices are the store's, and so are the revocations. */
  ghost predicate ShowsDevices(devices: map<nat, T.Device>, s: D.Sys) {
    && (forall d :: d in s.devices <==> d in devices)
    && (forall d :: d in devices ==> s.devices[d] == devices[d].person)
    && (forall d :: d in s.revoked <==> d in devices && devices[d].revokedAt.Some?)
  }

  /** The protocol's rows are the store's delivery rows, acked or not. */
  ghost predicate ShowsRows(deliveries: map<T.DeliveryKey, T.Delivery>, rows: map<(MsgId, nat), bool>) {
    && (forall m: MsgId, d: nat :: (m, d) in rows <==> T.DeliveryKey(m, d) in deliveries)
    && (forall m: MsgId, d: nat :: (m, d) in rows ==> rows[(m, d)] == deliveries[T.DeliveryKey(m, d)].ackedAt.Some?)
  }

  ghost predicate Shows(db: T.Db, s: D.Sys) {
    ShowsDevices(db.devices, s) && ShowsRows(db.deliveries, s.rows)
  }

  /** Where both are in view, a stored message is in a device's inbox exactly if the protocol has it unacked. */
  lemma InboxIsUnacked(db: T.Db, s: D.Sys, d: nat, id: MsgId)
    requires Shows(db, s) && id in db.messages
    ensures T.InInbox(db, d, id) <==> s.Unacked(id, d)
  {
  }

  /** So the list the store's Inbox returns is one the protocol's read may take. */
  lemma InboxCanBeRead(db: T.Db, s: D.Sys, c: nat, list: seq<MsgId>)
    requires WellFormed(db) && Shows(db, s) && c in s.socks && s.socks[c].writer.Checked?
    requires forall id :: id in list <==> T.InInbox(db, s.socks[c].device, id)
    ensures D.Enabled(s, D.ReadInbox(c, list))
  {
    var d := s.socks[c].device;
    forall i | 0 <= i < |list| ensures s.Unacked(list[i], d) {
      assert list[i] in list;
      InboxIsUnacked(db, s, d, list[i]);
    }
    forall k | k in s.rows && k.1 == d && !s.rows[k] ensures k.0 in list {
      assert (k.0, k.1) == k && T.DeliveryKey(k.0, d) in db.deliveries;
      InboxIsUnacked(db, s, d, k.0);
    }
  }

  /** What a store step is to delivery: `note` names the Notify call that follows an ingest. */
  ghost function Heard(cfg: T.Config, e: Entry, note: nat): Option<D.Event> {
    if TxOf(cfg, e).Abort? then None
    else
      match e.op
      case OpEnroll(_, _, _, d) => Some(D.Enroll(d, After(cfg, e).devices[d].person))
      case OpRevokeDevice(d) => Some(D.Revoke(d))
      case OpIngest(m, _) => Some(D.Commit(m.id, m.to, note))
      case OpReleaseDraft(_, id, _) =>
        if id in e.pre.drafts then Some(D.Commit(id, e.pre.drafts[id].mail.to, note)) else None
      case OpReleaseViaGrant(id, _) =>
        if TxOf(cfg, e).reply != T.NoGrant && id in e.pre.drafts then
          Some(D.Commit(id, e.pre.drafts[id].mail.to, note))
        else None
      case OpReceipt(m, d, acked) => if acked then Some(D.Ack(m, d)) else None
      case OpSweepMessages => Some(D.Sweep(T.ExpiredMessages(cfg, e.pre, e.now)))
      case _ => None
  }

  /** Delivery follows: the event can happen, and the view holds after it; without one the view holds as it was. */
  ghost predicate Follows(post: T.Db, s: D.Sys, heard: Option<D.Event>) {
    match heard
    case None => Shows(post, s)
    case Some(ev) => D.Enabled(s, ev) && Shows(post, D.Apply(s, ev))
  }

  /** If it is an ingest, its id and its Notify call are new to delivery. */
  predicate CanCommit(s: D.Sys, heard: Option<D.Event>) {
    heard.Some? && heard.value.Commit? ==> D.Enabled(s, heard.value)
  }

  // --------------------------------------------------------------- step by step

  lemma EnrollFollows(db: T.Db, s: D.Sys, token: nat, key: nat, p: nat, d: nat, now: int)
    requires Shows(db, s) && T.Enroll(db, token, key, p, d, now).Commit?
    ensures var post := T.Enroll(db, token, key, p, d, now).db;
            d in post.devices && Follows(post, s, Some(D.Enroll(d, post.devices[d].person)))
  {
  }

  lemma RevokeShows(devices: map<nat, T.Device>, s: D.Sys, d: nat, row: T.Device)
    requires ShowsDevices(devices, s) && d in devices && row.person == devices[d].person && row.revokedAt.Some?
    ensures ShowsDevices(devices[d := row], s.(revoked := s.revoked + {d}))
  {
  }

  lemma RevokeFollows(db: T.Db, s: D.Sys, d: nat, now: int)
    requires Shows(db, s) && T.RevokeDevice(db, d, now).Commit?
    ensures Follows(T.RevokeDevice(db, d, now).db, s, Some(D.Revoke(d)))
  {
    var row := if db.devices[d].revokedAt.Some? then db.devices[d] else db.devices[d].(revokedAt := Some(T.Unix(now)));
    RevokeShows(db.devices, s, d, row);
    assert T.RevokeDevice(db, d, now).db.devices == db.devices[d := row];
  }

  lemma FanOutShows(db: T.Db, s: D.Sys, id: MsgId, to: nat)
    requires Shows(db, s) && forall d :: T.DeliveryKey(id, d) !in db.deliveries
    ensures ShowsRows(db.deliveries + T.FanOut(db, id, to), s.rows + D.FanOut(s, id, to))
  {
  }

  /** An ingest fans out the same rows on both sides. */
  lemma IngestFollows(db: T.Db, s: D.Sys, e: T.Mail, sender: nat, now: int, note: nat)
    requires WellFormed(db) && Shows(db, s) && T.IngestTx(db, e, sender, now).Commit?
    requires D.Enabled(s, D.Commit(e.id, e.to, note))
    ensures Follows(T.IngestTx(db, e, sender, now).db, s, Some(D.Commit(e.id, e.to, note)))
  {
    IngestShape(db, e, sender, now);
    IngestFrame(db, e, sender, now);
    NoRowsYet(db, e.id);
    FanOutShows(db, s, e.id, e.to);
  }

  lemma IngestsFollows(pre: T.Db, post: T.Db, s: D.Sys, e: T.Mail, sender: nat, now: int, note: nat)
    requires WellFormed(pre) && Shows(pre, s) && Ingests(pre, post, e, sender, now)
    requires D.Enabled(s, D.Commit(e.id, e.to, note))
    ensures Follows(post, s, Some(D.Commit(e.id, e.to, note)))
  {
    IngestFollows(pre, s, e, sender, now, note);
  }

  /** What a release ingests, as one relation between the tables before and after. */
  ghost predicate ReleasesInto(pre: T.Db, post: T.Db, row: T.Draft, id: MsgId, now: int) {
    && WellFormed(pre.(drafts := pre.drafts[id := row]))
    && Ingests(pre.(drafts := pre.drafts[id := row]), post, row.mail.(sentAt := now), row.author, now)
  }

  lemma ReleaseIngests(cfg: T.Config, e: Entry, id: MsgId) returns (row: T.Draft)
    requires WellFormed(e.pre) && Releases(cfg, e, id) && id in e.pre.drafts
    ensures ReleasesInto(e.pre, After(cfg, e), row, id, e.now)
    ensures row.mail.id == id && row.mail.to == e.pre.drafts[id].mail.to
  {
    ReleaseShape(cfg, e, id);
    ReleasedRowOk(cfg, e, id);
    assert DraftRowOk(id, e.pre.drafts[id], e.pre.threads);
    row := ReleasedRow(e.pre.drafts[id], e.op, e.now);
  }

  lemma ReleaseFollows(cfg: T.Config, e: Entry, s: D.Sys, id: MsgId, note: nat)
    requires WellFormed(e.pre) && Shows(e.pre, s) && Releases(cfg, e, id) && id in e.pre.drafts
    requires D.Enabled(s, D.Commit(id, e.pre.drafts[id].mail.to, note))
    ensures Follows(After(cfg, e), s, Some(D.Commit(id, e.pre.drafts[id].mail.to, note)))
  {
    var row := ReleaseIngests(cfg, e, id);
    var mid := e.pre.(drafts := e.pre.drafts[id := row]);
    IngestsFollows(mid, After(cfg, e), s, row.mail.(sentAt := e.now), row.author, e.now, note);
  }

  lemma ReceiptFollows(db: T.Db, s: D.Sys, m: MsgId, d: nat, acked: bool, now: int)
    requires Shows(db, s) && T.Receipt(db, m, d, acked, now).Commit?
    ensures Follows(T.Receipt(db, m, d, acked, now).db, s, if acked then Some(D.Ack(m, d)) else None)
  {
  }

  lemma SweepFollows(cfg: T.Config, db: T.Db, s: D.Sys, now: int)
    requires Shows(db, s)
    ensures Follows(T.SweepMessages(cfg, db, now).db, s, Some(D.Sweep(T.ExpiredMessages(cfg, db, now))))
  {
  }

  predicate Silent(op: T.Op) {
    !op.OpEnroll? && !op.OpRevokeDevice? && !op.OpIngest? && !op.OpReleaseDraft? && !op.OpReleaseViaGrant? &&
    !op.OpReceipt? && !op.OpSweepMessages?
  }

  lemma SilentFollows(cfg: T.Config, e: Entry, s: D.Sys)
    requires Shows(e.pre, s) && Silent(e.op)
    ensures Follows(After(cfg, e), s, None)
  {
    StepSpares(cfg, e.pre, e.op, e.now);
  }

  /** A release is heard exactly when it releases. */
  lemma HeardRelease(cfg: T.Config, e: Entry, note: nat)
    requires e.op.OpReleaseDraft? || e.op.OpReleaseViaGrant?
    ensures Releases(cfg, e, e.op.draft) ==> e.op.draft in e.pre.drafts
    ensures Heard(cfg, e, note) ==
            if Releases(cfg, e, e.op.draft) then Some(D.Commit(e.op.draft, e.pre.drafts[e.op.draft].mail.to, note))
            else None
  {
    if Releases(cfg, e, e.op.draft) {
      ReleaseShape(cfg, e, e.op.draft);
    }
  }

  lemma ReleaseOpFollows(cfg: T.Config, e: Entry, s: D.Sys, note: nat)
    requires WellFormed(e.pre) && Shows(e.pre, s) && (e.op.OpReleaseDraft? || e.op.OpReleaseViaGrant?)
    requires CanCommit(s, Heard(cfg, e, note))
    ensures Follows(After(cfg, e), s, Heard(cfg, e, note))
  {
    HeardRelease(cfg, e, note);
    if Releases(cfg, e, e.op.draft) {
      ReleaseFollows(cfg, e, s, e.op.draft, note);
    } else {
      NotReleased(cfg, e);
    }
  }

  /**
   Every store transaction is, to delivery, one step of the protocol or none: the view of the store that delivery has
   is kept, given that an ingested id is new to it.
   */
  lemma StoreStepIsDeliveryStep(cfg: T.Config, e: Entry, s: D.Sys, note: nat)
    requires WellFormed(e.pre) && Shows(e.pre, s)
    requires CanCommit(s, Heard(cfg, e, note))
    ensures Follows(After(cfg, e), s, Heard(cfg, e, note))
  {
    if Silent(e.op) {
      SilentFollows(cfg, e, s);
    } else if TxOf(cfg, e).Commit? {
      match e.op {
        case OpEnroll(token, key, p, d) => EnrollFollows(e.pre, s, token, key, p, d, e.now);
        case OpRevokeDevice(d) => RevokeFollows(e.pre, s, d, e.now);
        case OpIngest(m, sender) => IngestFollows(e.pre, s, m, sender, e.now, note);
        case OpReleaseDraft(_, _, _) => ReleaseOpFollows(cfg, e, s, note);
        case OpReleaseViaGrant(_, _) => ReleaseOpFollows(cfg, e, s, note);
        case OpReceipt(m, d, acked) => ReceiptFollows(e.pre, s, m, d, acked, e.now);
        case OpSweepMessages => SweepFollows(cfg, e.pre, s, e.now);
      }
    }
  }

  // -------------------------------------------------------------- whole runs

  /** Ids are minted fresh: none comes in twice in the run. */
  ghost predicate FreshIds(cfg: T.Config, tr: seq<Entry>) {
    forall i, j, id :: 0 <= i < j < |tr| && BringsIn(cfg, tr[i], id) ==> !BringsIn(cfg, tr[j], id)
  }

  ghost predicate CameIn(cfg: T.Config, tr: seq<Entry>, id: MsgId) {
    exists i :: 0 <= i < |tr| && BringsIn(cfg, tr[i], id)
  }

  /** The protocol knows no Notify call and no message that the run has not made. */
  ghost predicate KnowsOnly(cfg: T.Config, tr: seq<Entry>, s: D.Sys) {
    && (forall n :: n in s.notes ==> n < |tr|)
    && (forall k :: k in s.fanned ==> CameIn(cfg, tr, k.0))
  }

  lemma HeardBringsIn(cfg: T.Config, e: Entry, note: nat)
    requires Heard(cfg, e, note).Some? && Heard(cfg, e, note).value.Commit?
    ensures BringsIn(cfg, e, Heard(cfg, e, note).value.msg) && Heard(cfg, e, note).value.note == note
  {
    if e.op.OpReleaseDraft? || e.op.OpReleaseViaGrant? {
      HeardRelease(cfg, e, note);
    }
  }

  lemma CameInLater(cfg: T.Config, tr: seq<Entry>, id: MsgId)
    requires tr != [] && CameIn(cfg, tr[..|tr| - 1], id)
    ensures CameIn(cfg, tr, id)
  {
    var i :| 0 <= i < |tr| - 1 && BringsIn(cfg, tr[..|tr| - 1][i], id);
    assert tr[..|tr| - 1][i] == tr[i];
  }

  lemma NewToDelivery(cfg: T.Config, tr: seq<Entry>, s: D.Sys)
    requires tr != [] && FreshIds(cfg, tr) && KnowsOnly(cfg, tr[..|tr| - 1], s)
    ensures CanCommit(s, Heard(cfg, tr[|tr| - 1], |tr| - 1))
  {
    var n := |tr| - 1;
    var heard := Heard(cfg, tr[n], n);
    if heard.Some? && heard.value.Commit? {
      HeardBringsIn(cfg, tr[n], n);
      forall k | k in s.fanned ensures k.0 != heard.value.msg {
        var i :| 0 <= i < n && BringsIn(cfg, tr[..n][i], k.0);
        assert tr[..n][i] == tr[i];
      }
    }
  }

  lemma StillKnowsOnly(cfg: T.Config, tr: seq<Entry>, s: D.Sys)
    requires tr != [] && KnowsOnly(cfg, tr[..|tr| - 1], s)
    requires CanCommit(s, Heard(cfg, tr[|tr| - 1], |tr| - 1))
    ensures KnowsOnly(cfg, tr, s)
    ensures var heard := Heard(cfg, tr[|tr| - 1], |tr| - 1);
            heard.Some? && D.Enabled(s, heard.value) ==> KnowsOnly(cfg, tr, D.Apply(s, heard.value))
  {
    var n := |tr| - 1;
    var heard := Heard(cfg, tr[n], n);
    forall k | k in s.fanned ensures CameIn(cfg, tr, k.0) {
      CameInLater(cfg, tr, k.0);
    }
    if heard.Some? && heard.value.Commit? {
      HeardBringsIn(cfg, tr[n], n);
      assert CameIn(cfg, tr, heard.value.msg);
    }
  }

  /**
   Every run of the store with fresh ids is a run of the delivery protocol, whose view of it is kept throughout.  So
   what is proved of the protocol in every interleaving holds of the store's own deliveries.
   */
  lemma {:induction false} StoreRunIsDeliveryRun(cfg: T.Config, tr: seq<Entry>) returns (es: seq<D.Event>)
    requires Run(cfg, tr) && FreshIds(cfg, tr)
    ensures D.Reached(es).Some? && Shows(Final(cfg, tr), D.Reached(es).value)
    ensures KnowsOnly(cfg, tr, D.Reached(es).value)
    decreases |tr|
  {
    if tr == [] {
      es := [];
    } else {
      var n := |tr| - 1;
      assert forall i :: 0 <= i < n ==> tr[..n][i] == tr[i];
      es := StoreRunIsDeliveryRun(cfg, tr[..n]);
      var s, heard := D.Reached(es).value, Heard(cfg, tr[n], n);
      RunWellFormed(cfg, tr[..n]);
      NewToDelivery(cfg, tr, s);
      StoreStepIsDeliveryStep(cfg, tr[n], s, n);
      StillKnowsOnly(cfg, tr, s);
      if heard.Some? {
        D.Extend(es, heard.value);
        es := es + [heard.value];
      }
    }
  }

  // ----------------------------------------------------------- released means pushed

  lemma CommitIsUnacked(s: D.Sys, id: MsgId, to: nat, note: nat, c: nat)
    requires D.Enabled(s, D.Commit(id, to, note)) && D.Live(s, c)
    requires s.socks[c].device in s.devices && s.devices[s.socks[c].device] == to
    ensures var t := D.Apply(s, D.Commit(id, to, note)); D.Live(t, c) && t.Unacked(id, t.socks[c].device)
  {
    assert (id, s.socks[c].device) in D.FanOut(s, id, to);
  }

  /**
   Released means pushed.  When the store releases a draft, delivery takes its commit as one step, and from there the
   relay's own steps push the message on every live socket of the recipient.
   */
  lemma ReleasedIsPushed(cfg: T.Config, e: Entry, es: seq<D.Event>, c: nat, id: MsgId, note: nat)
    returns (all: seq<D.Event>, more: seq<D.Event>)
    requires WellFormed(e.pre) && Releases(cfg, e, id) && id in e.pre.drafts
    requires D.Reached(es).Some? && Shows(e.pre, D.Reached(es).value)
    requires D.Enabled(D.Reached(es).value, D.Commit(id, e.pre.drafts[id].mail.to, note))
    requires D.Live(D.Reached(es).value, c) && D.Reached(es).value.socks[c].person == e.pre.drafts[id].mail.to
    ensures all == es + [D.Commit(id, e.pre.drafts[id].mail.to, note)]
    ensures D.Reached(all).Some? && Shows(After(cfg, e), D.Reached(all).value)
    ensures Progress.Delivers(all, more, c, id)
  {
    var s, ev := D.Reached(es).value, D.Commit(id, e.pre.drafts[id].mail.to, note);
    ReleaseFollows(cfg, e, s, id, note);
    all := es + [ev];
    D.Extend(es, ev);
    D.ReachedIsOk(es);
    assert D.SockOk(s, c);
    CommitIsUnacked(s, id, ev.to, note, c);
    more := Progress.PushedInTheEnd(all, c, id);
  }
}
