/** What every store transaction keeps. */
module Invariants {
  import opened Base
  import opened Ids
  import opened Gate
  import opened Tables

  // One predicate per table, over just the tables its rows refer to.

  ghost predicate PersonsOk(persons: map<nat, nat>) {
    forall p, q :: p in persons && q in persons && persons[p] == persons[q] ==> p == q
  }

  ghost predicate DevicesOk(devices: map<nat, Device>, persons: map<nat, nat>) {
    && (forall d :: d in devices ==> devices[d].person in persons)
    && (forall d, e :: d in devices && e in devices && devices[d].key == devices[e].key ==> d == e)
  }

  /** A thread has two distinct parties from the roster and one of the seven states. */
  ghost predicate ThreadsOk(threads: map<nat, Thread>, persons: map<nat, nat>) {
    forall t :: t in threads ==>
      && threads[t].initiator in persons && threads[t].recipient in persons
      && threads[t].initiator != threads[t].recipient
      && !threads[t].state.OtherState?
  }

  predicate MessageRowOk(id: MsgId, m: Message, threads: map<nat, Thread>) {
    && m.mail.id == id && m.mail.thread == m.thread
    && m.thread in threads && threads[m.thread].Ends(m.sender, m.mail.to)
    && m.sentAt == Unix(m.mail.sentAt)
  }

  /** A message runs between the two parties of its thread. */
  ghost predicate MessagesOk(messages: map<MsgId, Message>, threads: map<nat, Thread>) {
    forall m :: m in messages ==> MessageRowOk(m, messages[m], threads)
  }

  /** A delivery row's device belongs to the addressee. */
  ghost predicate DeliveriesOk(deliveries: map<DeliveryKey, Delivery>, messages: map<MsgId, Message>,
                               devices: map<nat, Device>)
  {
    forall k :: k in deliveries ==>
      && k.msg in messages && k.device in devices
      && devices[k.device].person == messages[k.msg].mail.to
      && (deliveries[k].ackedAt.Some? ==> deliveries[k].deliveredAt.Some?)
  }

  predicate DraftRowOk(id: MsgId, d: Draft, threads: map<nat, Thread>) {
    && d.mail.id == id && d.mail.thread == d.thread
    && d.thread in threads && threads[d.thread].Ends(d.author, d.mail.to)
    && !d.state.OtherDraftState?
    && (d.state == PendingReview <==> d.decidedAt.None?)
  }

  ghost predicate DraftsOk(drafts: map<MsgId, Draft>, threads: map<nat, Thread>) {
    forall d :: d in drafts ==> DraftRowOk(d, drafts[d], threads)
  }

  /** Grants are held by a party of the thread, at most one active per thread, person and direction. */
  ghost predicate GrantsOk(grants: map<nat, GrantRow>, threads: map<nat, Thread>) {
    && (forall g :: g in grants ==>
          && GrantableDirection(grants[g].direction)
          && grants[g].thread in threads && threads[grants[g].thread].Party(grants[g].person))
    && (forall g, h :: g in grants && h in grants && SameActive(grants[g], grants[h]) ==> g == h)
  }

  predicate SameActive(g: GrantRow, h: GrantRow) {
    IsActiveGrant(g, h.thread, h.person, h.direction) && h.revokedAt.None?
  }

  ghost predicate WellFormed(db: Db) {
    && PersonsOk(db.persons)
    && DevicesOk(db.devices, db.persons)
    && ThreadsOk(db.threads, db.persons)
    && MessagesOk(db.messages, db.threads)
    && DeliveriesOk(db.deliveries, db.messages, db.devices)
    && DraftsOk(db.drafts, db.threads)
    && GrantsOk(db.grants, db.threads)
  }

  // ------------------------------------------------------------ what ingest leaves alone

  lemma FanOutSame(a: Db, b: Db, id: MsgId, to: nat)
    requires a.devices == b.devices
    ensures FanOut(a, id, to) == FanOut(b, id, to)
  {
  }

  ghost predicate SameDraftsAndRoster(pre: Db, post: Db) {
    post.drafts == pre.drafts && SameRoster(pre, post)
  }

  ghost predicate SameRoster(pre: Db, post: Db) {
    && post.persons == pre.persons && post.devices == pre.devices
    && post.invites == pre.invites && post.grants == pre.grants
  }

  lemma EnsureThreadFrame(db: Db, e: Mail, sender: nat)
    ensures var t := EnsureThread(db, e, sender); t.Commit? ==> t.db == db.(threads := t.db.threads)
  {
  }

  lemma IngestFrame(db: Db, e: Mail, sender: nat, now: int)
    ensures SameDraftsAndRoster(db, IngestTx(db, e, sender, now).Settle(db))
  {
    EnsureThreadFrame(db, e, sender);
  }

  lemma DeliverFrame(db: Db, id: MsgId, payload: Mail, decision: Decision<Mail>, viaGrant: bool, now: int)
    requires id in db.drafts
    ensures SameRoster(db, Deliver(db, id, payload, decision, viaGrant, now).Settle(db))
  {
    DeliverSettles(db, id, payload, decision, viaGrant, now);
    var row := Decided(db.drafts[id], payload, decision, viaGrant, now);
    IngestFrame(db.(drafts := db.drafts[id := row]), payload.(sentAt := now), row.author, now);
  }

  lemma ReleaseFrame(cfg: Config, db: Db, person: nat, id: MsgId, text: Option<string>, now: int)
    ensures SameRoster(db, ReleaseDraft(cfg, db, person, id, text, now).Settle(db))
  {
    if id in db.drafts {
      var payload := Edited(db.drafts[id].mail, text);
      var v := ApplyOutbound(OutboundOf(id, db.drafts[id], payload), db.drafts[id].state, Approve);
      if v.Allowed? {
        DeliverFrame(db, id, payload, v.value, false, now);
      }
    }
  }

  lemma GrantReleaseFrame(db: Db, id: MsgId, granter: nat, now: int)
    ensures SameRoster(db, ReleaseViaGrant(db, id, granter, now).Settle(db))
  {
    if id in db.drafts {
      var d := db.drafts[id];
      var v := ApplyOutboundGrant(Grant(d.thread, Outbound, false), OutboundOf(id, d, d.mail), d.state);
      if v.Allowed? {
        DeliverFrame(db, id, d.mail, v.value, true, now);
      }
    }
  }

  datatype Table = Roster | Threads | Messages | Tombstones | Deliveries | Drafts | Grants

  predicate BringsMail(op: Op) { op.OpIngest? || op.OpReleaseDraft? || op.OpReleaseViaGrant? }

  /** The tables an operation may change; persons, devices and invites are the roster. */
  predicate MayTouch(op: Op, t: Table) {
    match t
    case Roster => op.OpCreateInvite? || op.OpEnroll? || op.OpRevokeDevice?
    case Threads =>
      BringsMail(op) || op.OpStartThread? || op.OpThreadVerdict? || op.OpMessageVerdict? || op.OpApproveViaGrant?
    case Messages => BringsMail(op) || op.OpApproveViaGrant? || op.OpSweepMessages?
    case Tombstones => BringsMail(op) || op.OpPruneTombstones?
    case Deliveries => BringsMail(op) || op.OpReceipt? || op.OpSweepMessages?
    case Drafts => DraftOp(op) || op.OpSweepDrafts?
    case Grants => op.OpSetGrant? || op.OpRevokeGrant?
  }

  ghost predicate SparesMail(pre: Db, post: Db, op: Op) {
    && (!MayTouch(op, Messages) ==> post.messages == pre.messages)
    && (!MayTouch(op, Tombstones) ==> post.tombstones == pre.tombstones)
    && (!MayTouch(op, Deliveries) ==> post.deliveries == pre.deliveries)
    && (!MayTouch(op, Drafts) ==> post.drafts == pre.drafts)
  }

  ghost predicate SparesRest(pre: Db, post: Db, op: Op) {
    && (!MayTouch(op, Roster) ==>
          post.persons == pre.persons && post.devices == pre.devices && post.invites == pre.invites)
    && (!MayTouch(op, Threads) ==> post.threads == pre.threads)
    && (!MayTouch(op, Grants) ==> post.grants == pre.grants)
  }

  ghost predicate Spares(db: Db, t: Tx, op: Op) {
    SparesMail(db, t.Settle(db), op) && SparesRest(db, t.Settle(db), op)
  }

  lemma CreateDraftFrame(cfg: Config, db: Db, author: nat, e: Mail)
    ensures var post := CreateDraft(cfg, db, author, e).Settle(db); post == db.(drafts := post.drafts)
  {
  }

  lemma CreateDraftSpares(cfg: Config, db: Db, author: nat, e: Mail)
    ensures Spares(db, CreateDraft(cfg, db, author, e), OpCreateDraft(author, e))
  {
    CreateDraftFrame(cfg, db, author, e);
  }

  lemma DiscardDraftFrame(db: Db, person: nat, id: MsgId, now: int)
    ensures var post := DiscardDraft(db, person, id, now).Settle(db); post == db.(drafts := post.drafts)
  {
  }

  lemma DiscardDraftSpares(db: Db, person: nat, id: MsgId, now: int)
    ensures Spares(db, DiscardDraft(db, person, id, now), OpDiscardDraft(person, id))
  {
    DiscardDraftFrame(db, person, id, now);
  }

  lemma IngestSpares(cfg: Config, db: Db, e: Mail, sender: nat, now: int)
    ensures Spares(db, Ingest(cfg, db, e, sender, now), OpIngest(e, sender))
  {
    IngestFrame(db, e, sender, now);
  }

  lemma ReleaseSpares(cfg: Config, db: Db, p: nat, id: MsgId, text: Option<string>, now: int)
    ensures Spares(db, ReleaseDraft(cfg, db, p, id, text, now), OpReleaseDraft(p, id, text))
  {
    ReleaseFrame(cfg, db, p, id, text, now);
  }

  lemma GrantReleaseSpares(db: Db, id: MsgId, p: nat, now: int)
    ensures Spares(db, ReleaseViaGrant(db, id, p, now), OpReleaseViaGrant(id, p))
  {
    GrantReleaseFrame(db, id, p, now);
  }

  lemma MailSpares(cfg: Config, db: Db, op: Op, now: int)
    requires op.OpIngest? || DraftOp(op)
    ensures Spares(db, Step(cfg, db, op, now), op)
  {
    match op {
      case OpIngest(e, sender) => IngestSpares(cfg, db, e, sender, now);
      case OpCreateDraft(author, e) => CreateDraftSpares(cfg, db, author, e);
      case OpReleaseDraft(p, id, text) => ReleaseSpares(cfg, db, p, id, text, now);
      case OpDiscardDraft(p, id) => DiscardDraftSpares(db, p, id, now);
      case OpReleaseViaGrant(id, p) => GrantReleaseSpares(db, id, p, now);
    }
  }

  lemma CreateInviteFrame(db: Db, token: nat, email: nat, ttl: int, now: int)
    ensures var post := CreateInvite(db, token, email, ttl, now).Settle(db); post == db.(invites := post.invites)
  {
  }

  lemma CreateInviteSpares(db: Db, token: nat, email: nat, ttl: int, now: int)
    ensures Spares(db, CreateInvite(db, token, email, ttl, now), OpCreateInvite(token, email, ttl))
  {
    CreateInviteFrame(db, token, email, ttl, now);
  }

  lemma EnrollFrame(db: Db, token: nat, key: nat, p: nat, d: nat, now: int)
    ensures var post := Enroll(db, token, key, p, d, now).Settle(db);
            post == db.(invites := post.invites, persons := post.persons, devices := post.devices)
  {
  }

  lemma EnrollSpares(db: Db, token: nat, key: nat, p: nat, d: nat, now: int)
    ensures Spares(db, Enroll(db, token, key, p, d, now), OpEnroll(token, key, p, d))
  {
    EnrollFrame(db, token, key, p, d, now);
  }

  lemma RevokeDeviceFrame(db: Db, d: nat, now: int)
    ensures var post := RevokeDevice(db, d, now).Settle(db); post == db.(devices := post.devices)
  {
  }

  lemma RevokeDeviceSpares(db: Db, d: nat, now: int)
    ensures Spares(db, RevokeDevice(db, d, now), OpRevokeDevice(d))
  {
    RevokeDeviceFrame(db, d, now);
  }

  lemma StartThreadFrame(db: Db, t: nat, a: nat, b: nat)
    ensures var post := StartThread(db, t, a, b).Settle(db); post == db.(threads := post.threads)
  {
  }

  lemma StartThreadSpares(db: Db, t: nat, a: nat, b: nat)
    ensures Spares(db, StartThread(db, t, a, b), OpStartThread(t, a, b))
  {
    StartThreadFrame(db, t, a, b);
  }

  lemma ReceiptFrame(db: Db, m: MsgId, d: nat, acked: bool, now: int)
    ensures var post := Receipt(db, m, d, acked, now).Settle(db); post == db.(deliveries := post.deliveries)
  {
  }

  lemma ReceiptSpares(db: Db, m: MsgId, d: nat, acked: bool, now: int)
    ensures Spares(db, Receipt(db, m, d, acked, now), OpReceipt(m, d, acked))
  {
    ReceiptFrame(db, m, d, acked, now);
  }

  lemma RosterSpares(cfg: Config, db: Db, op: Op, now: int)
    requires RosterOp(op)
    ensures Spares(db, Step(cfg, db, op, now), op)
  {
    match op {
      case OpCreateInvite(token, email, ttl) => CreateInviteSpares(db, token, email, ttl, now);
      case OpEnroll(token, key, p, d) => EnrollSpares(db, token, key, p, d, now);
      case OpRevokeDevice(d) => RevokeDeviceSpares(db, d, now);
      case OpStartThread(t, a, b) => StartThreadSpares(db, t, a, b);
      case OpReceipt(m, d, acked) => ReceiptSpares(db, m, d, acked, now);
    }
  }

  lemma ThreadVerdictFrame(db: Db, t: nat, v: Verdict)
    ensures var post := ThreadVerdict(db, t, v).Settle(db); post == db.(threads := post.threads)
  {
  }

  lemma ThreadVerdictSpares(db: Db, t: nat, v: Verdict)
    ensures Spares(db, ThreadVerdict(db, t, v), OpThreadVerdict(t, v))
  {
    ThreadVerdictFrame(db, t, v);
  }

  lemma MessageVerdictFrame(db: Db, p: nat, id: MsgId, v: Verdict)
    ensures var post := MessageVerdict(db, p, id, v).Settle(db); post == db.(threads := post.threads)
  {
  }

  lemma MessageVerdictSpares(db: Db, p: nat, id: MsgId, v: Verdict)
    ensures Spares(db, MessageVerdict(db, p, id, v), OpMessageVerdict(p, id, v))
  {
    MessageVerdictFrame(db, p, id, v);
  }

  lemma ApproveViaGrantFrame(db: Db, t: nat, p: nat, id: MsgId)
    ensures var post := ApproveViaGrant(db, t, p, id).Settle(db);
            post == db.(threads := post.threads, messages := post.messages)
  {
  }

  lemma ApproveViaGrantSpares(db: Db, t: nat, p: nat, id: MsgId)
    ensures Spares(db, ApproveViaGrant(db, t, p, id), OpApproveViaGrant(t, p, id))
  {
    ApproveViaGrantFrame(db, t, p, id);
  }

  lemma SetGrantFrame(db: Db, g: nat, t: nat, p: nat, dir: Direction)
    ensures var post := SetGrant(db, g, t, p, dir).Settle(db); post == db.(grants := post.grants)
  {
  }

  lemma SetGrantSpares(db: Db, g: nat, t: nat, p: nat, dir: Direction)
    ensures Spares(db, SetGrant(db, g, t, p, dir), OpSetGrant(g, t, p, dir))
  {
    SetGrantFrame(db, g, t, p, dir);
  }

  lemma RevokeGrantFrame(db: Db, t: nat, p: nat, dir: Direction, now: int)
    ensures var post := RevokeGrant(db, t, p, dir, now).Settle(db); post == db.(grants := post.grants)
  {
  }

  lemma RevokeGrantSpares(db: Db, t: nat, p: nat, dir: Direction, now: int)
    ensures Spares(db, RevokeGrant(db, t, p, dir, now), OpRevokeGrant(t, p, dir))
  {
    RevokeGrantFrame(db, t, p, dir, now);
  }

  lemma SweepSpares(cfg: Config, db: Db, op: Op, now: int)
    requires SweepOp(op)
    ensures Spares(db, Step(cfg, db, op, now), op)
  {
  }

  lemma GateSpares(cfg: Config, db: Db, op: Op, now: int)
    requires !op.OpIngest? && !DraftOp(op) && !RosterOp(op)
    ensures Spares(db, Step(cfg, db, op, now), op)
  {
    match op {
      case OpThreadVerdict(t, v) => ThreadVerdictSpares(db, t, v);
      case OpMessageVerdict(p, id, v) => MessageVerdictSpares(db, p, id, v);
      case OpApproveViaGrant(t, p, id) => ApproveViaGrantSpares(db, t, p, id);
      case OpSetGrant(g, t, p, dir) => SetGrantSpares(db, g, t, p, dir);
      case OpRevokeGrant(t, p, dir) => RevokeGrantSpares(db, t, p, dir, now);
      case _ => SweepSpares(cfg, db, op, now);
    }
  }

  /** No operation changes a table it may not touch. */
  lemma StepSpares(cfg: Config, db: Db, op: Op, now: int)
    ensures Spares(db, Step(cfg, db, op, now), op)
  {
    if op.OpIngest? || DraftOp(op) {
      MailSpares(cfg, db, op, now);
    } else if RosterOp(op) {
      RosterSpares(cfg, db, op, now);
    } else {
      GateSpares(cfg, db, op, now);
    }
  }

  // ----------------------------------------------------- threads never change hands

  ghost predicate ThreadsKept(was: map<nat, Thread>, now: map<nat, Thread>) {
    forall t :: t in was ==>
      t in now && now[t].initiator == was[t].initiator && now[t].recipient == was[t].recipient
  }

  ghost predicate Keeps(db: Db, t: Tx) {
    WellFormed(t.Settle(db)) && ThreadsKept(db.threads, t.Settle(db).threads)
  }

  // --------------------------------------------------------- one row at a time

  lemma PutThread(threads: map<nat, Thread>, persons: map<nat, nat>, t: nat, row: Thread)
    requires ThreadsOk(threads, persons)
    requires row.initiator in persons && row.recipient in persons && row.initiator != row.recipient
    requires !row.state.OtherState?
    requires t in threads ==> row.initiator == threads[t].initiator && row.recipient == threads[t].recipient
    ensures ThreadsOk(threads[t := row], persons) && ThreadsKept(threads, threads[t := row])
  {
  }

  lemma FrameMessages(messages: map<MsgId, Message>, was: map<nat, Thread>, now: map<nat, Thread>)
    requires ThreadsKept(was, now) && MessagesOk(messages, was)
    ensures MessagesOk(messages, now)
  {
  }

  lemma FrameDrafts(drafts: map<MsgId, Draft>, was: map<nat, Thread>, now: map<nat, Thread>)
    requires ThreadsKept(was, now) && DraftsOk(drafts, was)
    ensures DraftsOk(drafts, now)
  {
  }

  lemma FrameGrants(grants: map<nat, GrantRow>, was: map<nat, Thread>, now: map<nat, Thread>)
    requires ThreadsKept(was, now) && GrantsOk(grants, was)
    ensures GrantsOk(grants, now)
  {
  }

  lemma PutMessage(messages: map<MsgId, Message>, threads: map<nat, Thread>, id: MsgId, m: Message)
    requires MessagesOk(messages, threads) && MessageRowOk(id, m, threads)
    ensures MessagesOk(messages[id := m], threads)
  {
  }

  lemma FrameDeliveries(deliveries: map<DeliveryKey, Delivery>, messages: map<MsgId, Message>,
                        devices: map<nat, Device>, id: MsgId, m: Message)
    requires DeliveriesOk(deliveries, messages, devices)
    requires id in messages ==> m.mail.to == messages[id].mail.to
    ensures DeliveriesOk(deliveries, messages[id := m], devices)
  {
  }

  lemma AddDeliveries(db: Db, messages: map<MsgId, Message>, e: Mail)
    requires DeliveriesOk(db.deliveries, messages, db.devices) && e.id in messages && messages[e.id].mail.to == e.to
    ensures DeliveriesOk(db.deliveries + FanOut(db, e.id, e.to), messages, db.devices)
  {
  }

  lemma PutDraft(drafts: map<MsgId, Draft>, threads: map<nat, Thread>, id: MsgId, d: Draft)
    requires DraftsOk(drafts, threads) && DraftRowOk(id, d, threads)
    ensures DraftsOk(drafts[id := d], threads)
  {
  }

  lemma AddGrant(db: Db, id: nat, g: GrantRow)
    requires GrantsOk(db.grants, db.threads) && id !in db.grants
    requires GrantableDirection(g.direction) && g.thread in db.threads && db.threads[g.thread].Party(g.person)
    requires !ActiveGrant(db, g.thread, g.person, g.direction)
    ensures GrantsOk(db.grants[id := g], db.threads)
  {
    forall x | x in db.grants ensures !SameActive(db.grants[x], g) && !SameActive(g, db.grants[x]) {
      assert !IsActiveGrant(db.grants[x], g.thread, g.person, g.direction);
    }
  }

  lemma RevokeKeepsGrants(db: Db, thread: nat, person: nat, direction: Direction, now: int)
    requires GrantsOk(db.grants, db.threads)
    ensures var t := RevokeGrant(db, thread, person, direction, now);
            t.Commit? ==> GrantsOk(t.db.grants, db.threads)
  {
    var t := RevokeGrant(db, thread, person, direction, now);
    if t.Commit? {
      forall g, h | g in t.db.grants && h in t.db.grants && SameActive(t.db.grants[g], t.db.grants[h])
        ensures g == h
      {
        assert SameActive(db.grants[g], db.grants[h]);
      }
    }
  }

  // ------------------------------------------------------ one lemma per kind of step

  lemma EnrollKeeps(db: Db, token: nat, key: nat, newPerson: nat, newDevice: nat, now: int)
    requires WellFormed(db)
    ensures Keeps(db, Enroll(db, token, key, newPerson, newDevice, now))
  {
    var t := Enroll(db, token, key, newPerson, newDevice, now);
    if t.Commit? {
      assert DevicesOk(t.db.devices, t.db.persons);
      assert PersonsOk(t.db.persons);
      assert DeliveriesOk(t.db.deliveries, t.db.messages, t.db.devices);
    }
  }

  lemma IngestDeliveries(db: Db, e: Mail, m: Message)
    requires DeliveriesOk(db.deliveries, db.messages, db.devices)
    requires e.id !in db.messages && m.mail.to == e.to
    ensures DeliveriesOk(db.deliveries + FanOut(db, e.id, e.to), db.messages[e.id := m], db.devices)
  {
    FrameDeliveries(db.deliveries, db.messages, db.devices, e.id, m);
    AddDeliveries(db, db.messages[e.id := m], e);
  }

  lemma WithTombstones(db: Db, tombstones: map<MsgId, int>)
    requires WellFormed(db)
    ensures WellFormed(db.(tombstones := tombstones))
  {
  }

  lemma WithDraft(db: Db, id: MsgId, d: Draft)
    requires WellFormed(db) && DraftRowOk(id, d, db.threads)
    ensures WellFormed(db.(drafts := db.drafts[id := d]))
  {
    PutDraft(db.drafts, db.threads, id, d);
  }

  /** The tables after an ingest whose thread row is `row`. */
  function Ingested(db: Db, e: Mail, row: Thread, m: Message): Db {
    db.(threads := db.threads[e.thread := row],
        messages := db.messages[e.id := m],
        tombstones := db.tombstones[e.id := Unix(e.sentAt)],
        deliveries := db.deliveries + FanOut(db, e.id, e.to))
  }

  lemma IngestShape(db: Db, e: Mail, sender: nat, now: int)
    requires ThreadsOk(db.threads, db.persons) && IngestTx(db, e, sender, now).Commit?
    ensures var t := IngestTx(db, e, sender, now).db;
            && e.thread in t.threads && e.id !in db.messages && e.id !in db.tombstones
            && t == Ingested(db, e, t.threads[e.thread], Message(e.thread, sender, e, Unix(e.sentAt), Unix(now), false))
            && ThreadRowFits(db, e.thread, t.threads[e.thread])
            && t.threads[e.thread].Ends(sender, e.to)
            && t.threads[e.thread].state == InputRequired
  {
  }

  /** A row that may stand for `thread`: valid, and with the parties the thread already has. */
  predicate ThreadRowFits(db: Db, thread: nat, row: Thread) {
    && row.initiator in db.persons && row.recipient in db.persons && row.initiator != row.recipient
    && !row.state.OtherState?
    && (thread in db.threads ==>
          row.initiator == db.threads[thread].initiator && row.recipient == db.threads[thread].recipient)
  }

  lemma IngestedKeeps(db: Db, e: Mail, row: Thread, m: Message)
    requires WellFormed(db) && ThreadRowFits(db, e.thread, row) && e.id !in db.messages
    requires MessageRowOk(e.id, m, db.threads[e.thread := row]) && m.mail == e
    ensures WellFormed(Ingested(db, e, row, m))
    ensures ThreadsKept(db.threads, Ingested(db, e, row, m).threads)
  {
    var threads := db.threads[e.thread := row];
    PutThread(db.threads, db.persons, e.thread, row);
    FrameMessages(db.messages, db.threads, threads);
    PutMessage(db.messages, threads, e.id, m);
    IngestDeliveries(db, e, m);
    FrameDrafts(db.drafts, db.threads, threads);
    FrameGrants(db.grants, db.threads, threads);
  }

  lemma IngestKeeps(db: Db, e: Mail, sender: nat, now: int)
    requires WellFormed(db)
    ensures Keeps(db, IngestTx(db, e, sender, now))
  {
    var t := IngestTx(db, e, sender, now);
    if t.Commit? {
      IngestShape(db, e, sender, now);
      var row, m := t.db.threads[e.thread], t.db.messages[e.id];
      IngestedKeeps(db, e, row, m);
      assert t.Settle(db) == Ingested(db, e, row, m);
    }
  }

  lemma DeliverSettles(db: Db, id: MsgId, payload: Mail, decision: Decision<Mail>, viaGrant: bool, now: int)
    requires id in db.drafts
    ensures var row := Decided(db.drafts[id], payload, decision, viaGrant, now);
            var t := IngestTx(db.(drafts := db.drafts[id := row]), payload.(sentAt := now), row.author, now);
            Deliver(db, id, payload, decision, viaGrant, now).Settle(db) == if t.Commit? then t.db else db
  {
  }

  lemma DecidedOk(db: Db, id: MsgId, payload: Mail, decision: Decision<Mail>, viaGrant: bool, now: int)
    requires WellFormed(db) && id in db.drafts
    requires SameAddress(payload, db.drafts[id].mail) && decision.state == Sent
    ensures WellFormed(db.(drafts := db.drafts[id := Decided(db.drafts[id], payload, decision, viaGrant, now)]))
  {
    assert DraftRowOk(id, db.drafts[id], db.threads);
    WithDraft(db, id, Decided(db.drafts[id], payload, decision, viaGrant, now));
  }

  lemma DeliverKeeps(db: Db, id: MsgId, payload: Mail, decision: Decision<Mail>, viaGrant: bool, now: int)
    requires WellFormed(db) && id in db.drafts
    requires SameAddress(payload, db.drafts[id].mail) && decision.state == Sent
    ensures Keeps(db, Deliver(db, id, payload, decision, viaGrant, now))
  {
    DecidedOk(db, id, payload, decision, viaGrant, now);
    DeliverSettles(db, id, payload, decision, viaGrant, now);
    var row := Decided(db.drafts[id], payload, decision, viaGrant, now);
    IngestKeeps(db.(drafts := db.drafts[id := row]), payload.(sentAt := now), row.author, now);
  }

  predicate SameAddress(a: Mail, b: Mail) { a.id == b.id && a.thread == b.thread && a.to == b.to }

  lemma ThreadStateKeeps(db: Db, thread: nat, next: ThreadState)
    requires WellFormed(db) && thread in db.threads && !next.OtherState?
    ensures Keeps(db, Commit(db.(threads := db.threads[thread := db.threads[thread].(state := next)]), Done))
  {
    var row := db.threads[thread].(state := next);
    PutThread(db.threads, db.persons, thread, row);
    FrameMessages(db.messages, db.threads, db.threads[thread := row]);
    FrameDrafts(db.drafts, db.threads, db.threads[thread := row]);
    FrameGrants(db.grants, db.threads, db.threads[thread := row]);
  }

  lemma VerdictKeeps(db: Db, thread: nat, v: Verdict)
    requires WellFormed(db)
    ensures Keeps(db, ThreadVerdict(db, thread, v))
  {
    if ThreadVerdict(db, thread, v).Commit? {
      ThreadStateKeeps(db, thread, ApplyInbound(db.threads[thread].state, v).value);
    }
  }

  lemma ApproveViaGrantKeeps(db: Db, thread: nat, granter: nat, id: MsgId)
    requires WellFormed(db)
    ensures Keeps(db, ApproveViaGrant(db, thread, granter, id))
  {
    var t := ApproveViaGrant(db, thread, granter, id);
    if t.Commit? && t.reply == Fired(true) {
      ThreadStateKeeps(db, thread, Working);
      if id in db.messages && db.messages[id].thread == thread {
        var m := db.messages[id].(viaGrant := true);
        assert MessageRowOk(id, db.messages[id], t.db.threads);
        PutMessage(db.messages, t.db.threads, id, m);
        FrameDeliveries(db.deliveries, db.messages, db.devices, id, m);
      }
    }
  }

  lemma StartThreadKeeps(db: Db, thread: nat, a: nat, b: nat)
    requires WellFormed(db)
    ensures Keeps(db, StartThread(db, thread, a, b))
  {
    var t := StartThread(db, thread, a, b);
    if t.Commit? {
      PutThread(db.threads, db.persons, thread, t.db.threads[thread]);
      FrameMessages(db.messages, db.threads, t.db.threads);
      FrameDrafts(db.drafts, db.threads, t.db.threads);
      FrameGrants(db.grants, db.threads, t.db.threads);
    }
  }

  lemma CreateDraftKeeps(cfg: Config, db: Db, author: nat, e: Mail)
    requires WellFormed(db)
    ensures Keeps(db, CreateDraft(cfg, db, author, e))
  {
    var t := CreateDraft(cfg, db, author, e);
    if t.Commit? {
      PutDraft(db.drafts, db.threads, e.id, t.db.drafts[e.id]);
    }
  }

  lemma DiscardDraftKeeps(db: Db, person: nat, id: MsgId, now: int)
    requires WellFormed(db)
    ensures Keeps(db, DiscardDraft(db, person, id, now))
  {
    var t := DiscardDraft(db, person, id, now);
    if t.Commit? {
      assert DraftRowOk(id, db.drafts[id], db.threads);
      PutDraft(db.drafts, db.threads, id, t.db.drafts[id]);
    }
  }

  lemma ReleaseDraftKeeps(cfg: Config, db: Db, person: nat, id: MsgId, text: Option<string>, now: int)
    requires WellFormed(db)
    ensures Keeps(db, ReleaseDraft(cfg, db, person, id, text, now))
  {
    if ReleaseDraft(cfg, db, person, id, text, now).Commit? {
      var row := db.drafts[id];
      var payload := Edited(row.mail, text);
      DeliverKeeps(db, id, payload, ApplyOutbound(OutboundOf(id, row, payload), row.state, Approve).value, false, now);
    }
  }

  lemma ReleaseViaGrantKeeps(db: Db, id: MsgId, granter: nat, now: int)
    requires WellFormed(db)
    ensures Keeps(db, ReleaseViaGrant(db, id, granter, now))
  {
    var t := ReleaseViaGrant(db, id, granter, now);
    if t.Commit? && t.reply != NoGrant {
      var row := db.drafts[id];
      var a := OutboundOf(id, row, row.mail);
      OutboundGrantIsApproval(Grant(row.thread, Outbound, false), a, row.state);
      var decision := ApplyOutboundGrant(Grant(row.thread, Outbound, false), a, row.state).value;
      DeliverKeeps(db, id, row.mail, decision, true, now);
    }
  }

  lemma SetGrantKeeps(db: Db, id: nat, thread: nat, person: nat, direction: Direction)
    requires WellFormed(db)
    ensures Keeps(db, SetGrant(db, id, thread, person, direction))
  {
    var t := SetGrant(db, id, thread, person, direction);
    if t.Commit? && !ActiveGrant(db, thread, person, direction) {
      AddGrant(db, id, t.db.grants[id]);
    }
  }

  lemma PutDevice(db: Db, d: nat, row: Device)
    requires DevicesOk(db.devices, db.persons) && DeliveriesOk(db.deliveries, db.messages, db.devices)
    requires d in db.devices && row.person == db.devices[d].person && row.key == db.devices[d].key
    ensures DevicesOk(db.devices[d := row], db.persons)
    ensures DeliveriesOk(db.deliveries, db.messages, db.devices[d := row])
  {
  }

  lemma RevokeDeviceKeeps(db: Db, device: nat, now: int)
    requires WellFormed(db)
    ensures Keeps(db, RevokeDevice(db, device, now))
  {
    var t := RevokeDevice(db, device, now);
    if t.Commit? && t.db != db {
      PutDevice(db, device, t.db.devices[device]);
    }
  }

  lemma ReceiptKeeps(db: Db, msg: MsgId, device: nat, acked: bool, now: int)
    requires WellFormed(db)
    ensures Keeps(db, Receipt(db, msg, device, acked, now))
  {
    var t := Receipt(db, msg, device, acked, now);
    if t.Commit? {
      assert DeliveriesOk(t.db.deliveries, db.messages, db.devices);
    }
  }

  lemma RevokeGrantKeeps(db: Db, thread: nat, person: nat, direction: Direction, now: int)
    requires WellFormed(db)
    ensures Keeps(db, RevokeGrant(db, thread, person, direction, now))
  {
    RevokeKeepsGrants(db, thread, person, direction, now);
  }

  lemma SweepMessagesKeeps(cfg: Config, db: Db, now: int)
    requires WellFormed(db)
    ensures Keeps(db, SweepMessages(cfg, db, now))
  {
    var post := SweepMessages(cfg, db, now).db;
    assert MessagesOk(post.messages, post.threads);
    assert DeliveriesOk(post.deliveries, post.messages, post.devices);
  }

  lemma SweepDraftsKeeps(cfg: Config, db: Db, now: int)
    requires WellFormed(db)
    ensures Keeps(db, SweepDrafts(cfg, db, now))
  {
    assert DraftsOk(SweepDrafts(cfg, db, now).db.drafts, db.threads);
  }

  lemma PruneKeeps(cfg: Config, db: Db, now: int)
    requires WellFormed(db)
    ensures Keeps(db, PruneTombstones(cfg, db, now))
  {
    WithTombstones(db, PruneTombstones(cfg, db, now).db.tombstones);
  }

  lemma SweepsKeep(cfg: Config, db: Db, op: Op, now: int)
    requires WellFormed(db) && SweepOp(op)
    ensures Keeps(db, Step(cfg, db, op, now))
  {
    match op {
      case OpSweepMessages => SweepMessagesKeeps(cfg, db, now);
      case OpSweepDrafts => SweepDraftsKeeps(cfg, db, now);
      case OpPruneTombstones => PruneKeeps(cfg, db, now);
    }
  }

  lemma MessageVerdictKeeps(db: Db, person: nat, id: MsgId, v: Verdict)
    requires WellFormed(db)
    ensures Keeps(db, MessageVerdict(db, person, id, v))
  {
    if id in db.messages {
      VerdictKeeps(db, db.messages[id].thread, v);
    }
  }

  lemma RosterStepKeeps(cfg: Config, db: Db, op: Op, now: int)
    requires WellFormed(db)
    requires RosterOp(op)
    ensures Keeps(db, Step(cfg, db, op, now))
  {
    match op {
      case OpCreateInvite(_, _, _) =>
      case OpEnroll(token, key, p, d) => EnrollKeeps(db, token, key, p, d, now);
      case OpStartThread(t, a, b) => StartThreadKeeps(db, t, a, b);
      case OpRevokeDevice(d) => RevokeDeviceKeeps(db, d, now);
      case OpReceipt(m, d, acked) => ReceiptKeeps(db, m, d, acked, now);
    }
  }

  lemma CheckedIngestKeeps(cfg: Config, db: Db, e: Mail, sender: nat, now: int)
    requires WellFormed(db)
    ensures Keeps(db, Ingest(cfg, db, e, sender, now))
  {
    if Ingest(cfg, db, e, sender, now).Commit? {
      IngestKeeps(db, e, sender, now);
      assert Ingest(cfg, db, e, sender, now) == IngestTx(db, e, sender, now);
    }
  }

  lemma IngestStepKeeps(cfg: Config, db: Db, op: Op, now: int)
    requires WellFormed(db) && op.OpIngest?
    ensures Keeps(db, Step(cfg, db, op, now))
  {
    CheckedIngestKeeps(cfg, db, op.mail, op.sender, now);
  }

  lemma DraftStepKeeps(cfg: Config, db: Db, op: Op, now: int)
    requires WellFormed(db)
    requires DraftOp(op)
    ensures Keeps(db, Step(cfg, db, op, now))
  {
    match op {
      case OpCreateDraft(author, e) => CreateDraftKeeps(cfg, db, author, e);
      case OpReleaseDraft(p, id, text) => ReleaseDraftKeeps(cfg, db, p, id, text, now);
      case OpDiscardDraft(p, id) => DiscardDraftKeeps(db, p, id, now);
      case OpReleaseViaGrant(id, p) => ReleaseViaGrantKeeps(db, id, p, now);
    }
  }

  lemma GateStepKeeps(cfg: Config, db: Db, op: Op, now: int)
    requires WellFormed(db)
    requires op.OpThreadVerdict? || op.OpMessageVerdict? || op.OpApproveViaGrant? || op.OpSetGrant? || op.OpRevokeGrant?
    ensures Keeps(db, Step(cfg, db, op, now))
  {
    match op {
      case OpThreadVerdict(t, v) => VerdictKeeps(db, t, v);
      case OpMessageVerdict(p, id, v) => MessageVerdictKeeps(db, p, id, v);
      case OpApproveViaGrant(t, p, id) => ApproveViaGrantKeeps(db, t, p, id);
      case OpSetGrant(g, t, p, dir) => SetGrantKeeps(db, g, t, p, dir);
      case OpRevokeGrant(t, p, dir) => RevokeGrantKeeps(db, t, p, dir, now);
    }
  }

  predicate RosterOp(op: Op) {
    op.OpCreateInvite? || op.OpEnroll? || op.OpRevokeDevice? || op.OpStartThread? || op.OpReceipt?
  }

  predicate DraftOp(op: Op) { op.OpCreateDraft? || op.OpReleaseDraft? || op.OpDiscardDraft? || op.OpReleaseViaGrant? }
  predicate SweepOp(op: Op) { op.OpSweepMessages? || op.OpSweepDrafts? || op.OpPruneTombstones? }

  /** Every transaction keeps the tables well formed, and no thread ever changes its parties or goes away. */
  lemma StepKeeps(cfg: Config, db: Db, op: Op, now: int)
    requires WellFormed(db)
    ensures Keeps(db, Step(cfg, db, op, now))
  {
    if op.OpIngest? {
      IngestStepKeeps(cfg, db, op, now);
    } else if SweepOp(op) {
      SweepsKeep(cfg, db, op, now);
    } else if RosterOp(op) {
      RosterStepKeeps(cfg, db, op, now);
    } else if DraftOp(op) {
      DraftStepKeeps(cfg, db, op, now);
    } else {
      GateStepKeeps(cfg, db, op, now);
    }
  }
}
