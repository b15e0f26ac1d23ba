/**
 The relay's tables and what each store transaction does to them.  A transaction either commits new
 tables or aborts and leaves them alone.  Times are nanoseconds; stored times are whole seconds.
 Display labels, creation times and updated_at are not kept: nothing below reads them.
 */
module Tables {
  import opened Base
  import opened Ids
  import opened Gate

  const SECOND := 1_000_000_000

  /** time.Time.Unix: seconds, rounded down. */
  function Unix(ns: int): int { ns / SECOND }

  datatype Body = Body(role: string, parts: seq<string>)

  /** An envelope as the store sees it.  `state` is only what the sender asserts. */
  datatype Mail = Mail(id: MsgId, thread: nat, to: nat, state: ThreadState, sentAt: int, body: Body)

  datatype Device = Device(person: nat, key: nat, revokedAt: Option<int>)
  datatype Invite = Invite(email: nat, expiresAt: int, usedAt: Option<int>)
  datatype Thread = Thread(initiator: nat, recipient: nat, state: ThreadState) {
    predicate Party(p: nat) { p == initiator || p == recipient }
    predicate Ends(a: nat, b: nat) { (a == initiator && b == recipient) || (a == recipient && b == initiator) }
  }
  datatype Message = Message(thread: nat, sender: nat, mail: Mail, sentAt: int, receivedAt: int, viaGrant: bool)
  datatype DeliveryKey = DeliveryKey(msg: MsgId, device: nat)
  datatype Delivery = Delivery(deliveredAt: Option<int>, ackedAt: Option<int>)
  datatype Draft = Draft(
    thread: nat, author: nat, mail: Mail, state: DraftState, viaGrant: bool, decidedAt: Option<int>)
  datatype GrantRow = GrantRow(thread: nat, person: nat, direction: Direction, revokedAt: Option<int>)

  datatype Db = Db(
    persons: map<nat, nat>,                       // id -> email
    devices: map<nat, Device>,
    invites: map<nat, Invite>,
    threads: map<nat, Thread>,
    messages: map<MsgId, Message>,
    tombstones: map<MsgId, int>,                  // id -> signed sent_at, in seconds
    deliveries: map<DeliveryKey, Delivery>,
    drafts: map<MsgId, Draft>,
    grants: map<nat, GrantRow>)

  const EMPTY_DB := Db(map[], map[], map[], map[], map[], map[], map[], map[], map[])

  /** Operator settings, and the envelope size check (T-16) as the predicate it is. */
  datatype Config = Config(maxAge: nat, maxSkew: nat, ackGrace: nat, hardTTL: nat, fits: Mail -> bool)

  datatype Error =
    | ErrReplay | ErrNotFresh | ErrNotParticipant | ErrNotFound | ErrInviteInvalid | ErrKeyInUse
    | ErrBadEnvelope | ErrConstraint | ErrGate(gate: GateError)

  datatype Reply =
    | Done
    | Fired(fired: bool)
    | NewState(state: ThreadState)
    | Released(recipient: nat, release: Release<Mail>)
    | NoGrant

  datatype Tx = Commit(db: Db, reply: Reply) | Abort(error: Error) {
    /** writeTx: the tables after the transaction. */
    function Settle(was: Db): Db { if Commit? then db else was }
  }

  // ------------------------------------------------------------ identity

  function CreateInvite(db: Db, token: nat, email: nat, ttl: int, now: int): Tx {
    if token in db.invites then Abort(ErrConstraint)
    else Commit(db.(invites := db.invites[token := Invite(email, Unix(now + ttl), None)]), Done)
  }

  predicate InviteOpen(db: Db, token: nat, now: int) {
    token in db.invites && db.invites[token].usedAt.None? && db.invites[token].expiresAt > Unix(now)
  }

  predicate KeyInUse(devices: map<nat, Device>, key: nat) {
    exists d | d in devices :: devices[d].key == key
  }

  /** The person on the roster with this email, if there is one. */
  ghost function PersonOf(persons: map<nat, nat>, email: nat): Option<nat> {
    if p: nat :| p in persons && persons[p] == email then Some(p) else None
  }

  /** Who joins under this email: the person already on the roster, or the new one if its id is free. */
  ghost function Joiner(persons: map<nat, nat>, email: nat, newPerson: nat): Option<nat> {
    var known := PersonOf(persons, email);
    if known.None? && newPerson !in persons then Some(newPerson) else known
  }

  /** Consumes the invite, finds or creates its person, registers the device; the new ids are minted for the call. */
  ghost function Enroll(db: Db, token: nat, key: nat, newPerson: nat, newDevice: nat, now: int): Tx {
    if !InviteOpen(db, token, now) then Abort(ErrInviteInvalid)
    else
      var invite := db.invites[token];
      var person := Joiner(db.persons, invite.email, newPerson);
      if person.None? then Abort(ErrConstraint)
      else if KeyInUse(db.devices, key) then Abort(ErrKeyInUse)
      else if newDevice in db.devices then Abort(ErrConstraint)
      else
        Commit(
          db.(invites := db.invites[token := invite.(usedAt := Some(Unix(now)))],
              persons := db.persons[person.value := invite.email],
              devices := db.devices[newDevice := Device(person.value, key, None)]),
          Done)
  }

  function RevokeDevice(db: Db, device: nat, now: int): Tx {
    if device !in db.devices then Abort(ErrNotFound)
    else if db.devices[device].revokedAt.Some? then Commit(db, Done)
    else Commit(db.(devices := db.devices[device := db.devices[device].(revokedAt := Some(Unix(now)))]), Done)
  }

  predicate Active(db: Db, device: nat) {
    device in db.devices && db.devices[device].revokedAt.None?
  }

  // ------------------------------------------------------------- threads

  /** The row the schema accepts: both ends on the roster and distinct. */
  predicate ThreadInsertable(db: Db, thread: nat, a: nat, b: nat) {
    thread !in db.threads && a in db.persons && b in db.persons && a != b
  }

  function StartThread(db: Db, thread: nat, initiator: nat, recipient: nat): Tx {
    if !ThreadInsertable(db, thread, initiator, recipient) then Abort(ErrConstraint)
    else Commit(db.(threads := db.threads[thread := Thread(initiator, recipient, Submitted)]), Done)
  }

  // ------------------------------------------------------------- ingest

  function EnsureThread(db: Db, e: Mail, sender: nat): Tx {
    if e.thread !in db.threads then
      if !ThreadInsertable(db, e.thread, sender, e.to) then Abort(ErrConstraint)
      else Commit(db.(threads := db.threads[e.thread := Thread(sender, e.to, InputRequired)]), Done)
    else if db.threads[e.thread].Ends(sender, e.to) then Commit(db, Done)
    else Abort(ErrNotParticipant)
  }

  /** One open delivery row per active device of the recipient. */
  function FanOut(db: Db, id: MsgId, to: nat): map<DeliveryKey, Delivery> {
    map d | d in db.devices && db.devices[d].person == to && Active(db, d)
      :: DeliveryKey(id, d) := Delivery(None, None)
  }

  function IngestTx(db: Db, e: Mail, sender: nat, now: int): Tx {
    if e.id in db.tombstones then Abort(ErrReplay)
    else
      var t := EnsureThread(db, e, sender);
      if t.Abort? then t
      else if e.id in db.messages || sender !in db.persons || e.thread !in t.db.threads then Abort(ErrConstraint)
      else
        Commit(
          t.db.(messages := db.messages[e.id := Message(e.thread, sender, e, Unix(e.sentAt), Unix(now), false)],
                tombstones := db.tombstones[e.id := Unix(e.sentAt)],
                threads := t.db.threads[e.thread := t.db.threads[e.thread].(state := InputRequired)],
                deliveries := db.deliveries + FanOut(db, e.id, e.to)),
          Done)
  }

  predicate Fresh(cfg: Config, sentAt: int, now: int) {
    now - cfg.maxAge <= sentAt <= now + cfg.maxSkew
  }

  function Ingest(cfg: Config, db: Db, e: Mail, sender: nat, now: int): Tx {
    if e.id.NotUuid? then Abort(ErrReplay)
    else if !Fresh(cfg, e.sentAt, now) then Abort(ErrNotFresh)
    else IngestTx(db, e, sender, now)
  }

  /** A delivery row changes only where it had no time yet. */
  function Touch(d: Delivery, acked: bool, now: int): Delivery {
    Delivery(if d.deliveredAt.Some? then d.deliveredAt else Some(Unix(now)),
             if d.ackedAt.Some? || !acked then d.ackedAt else Some(Unix(now)))
  }

  /** MarkDelivered, and Ack when `acked`. */
  function Receipt(db: Db, msg: MsgId, device: nat, acked: bool, now: int): Tx {
    var k := DeliveryKey(msg, device);
    if k !in db.deliveries then Abort(ErrNotFound)
    else Commit(db.(deliveries := db.deliveries[k := Touch(db.deliveries[k], acked, now)]), Done)
  }

  // ------------------------------------------------------------- drafts

  /** The draft joins the thread its envelope names, as every caller arranges. */
  function CreateDraft(cfg: Config, db: Db, author: nat, e: Mail): Tx {
    if e.id.NotUuid? || !cfg.fits(e) then Abort(ErrBadEnvelope)
    else if e.thread !in db.threads then Abort(ErrNotFound)
    else if !db.threads[e.thread].Ends(author, e.to) then Abort(ErrNotParticipant)
    else if e.id in db.drafts then Abort(ErrConstraint)
    else Commit(db.(drafts := db.drafts[e.id := Draft(e.thread, author, e, PendingReview, false, None)]), Done)
  }

  function OutboundOf(id: MsgId, d: Draft, payload: Mail): Approvable<Mail> {
    Approvable(Outbound, d.thread, id, payload)
  }

  /** The row a decision writes. */
  function Decided(d: Draft, payload: Mail, decision: Decision<Mail>, viaGrant: bool, now: int): Draft {
    d.(mail := payload, state := decision.state, viaGrant := viaGrant, decidedAt := Some(Unix(now)))
  }

  /** setDraftDecided and deliverInTx: the released envelope is sent when it is released. */
  function Deliver(db: Db, id: MsgId, payload: Mail, decision: Decision<Mail>, viaGrant: bool, now: int): Tx
    requires id in db.drafts
  {
    var row := Decided(db.drafts[id], payload, decision, viaGrant, now);
    match IngestTx(db.(drafts := db.drafts[id := row]), payload.(sentAt := now), row.author, now)
    case Abort(e) => Abort(e)
    case Commit(db', _) =>
      if decision.release.Minted? then Commit(db', Released(payload.to, decision.release.release))
      else Commit(db', Done)
  }

  function Edited(m: Mail, text: Option<string>): Mail {
    match text
    case None => m
    case Some(t) => m.(body := Body(m.body.role, [t]))
  }

  function ReleaseDraft(cfg: Config, db: Db, person: nat, id: MsgId, text: Option<string>, now: int): Tx {
    if id !in db.drafts || db.drafts[id].author != person then Abort(ErrNotFound)
    else
      var row := db.drafts[id];
      var payload := Edited(row.mail, text);
      if text.Some? && !cfg.fits(payload) then Abort(ErrBadEnvelope)
      else
        match ApplyOutbound(OutboundOf(id, row, payload), row.state, Approve)
        case Refused(e) => Abort(ErrGate(e))
        case Allowed(decision) => Deliver(db, id, payload, decision, false, now)
  }

  function DiscardDraft(db: Db, person: nat, id: MsgId, now: int): Tx {
    if id !in db.drafts || db.drafts[id].author != person then Abort(ErrNotFound)
    else
      var row := db.drafts[id];
      match ApplyOutbound(OutboundOf(id, row, row.mail), row.state, Reject)
      case Refused(e) => Abort(ErrGate(e))
      case Allowed(decision) =>
        Commit(db.(drafts := db.drafts[id := Decided(row, row.mail, decision, false, now)]), Done)
  }

  predicate ActiveGrant(db: Db, thread: nat, person: nat, direction: Direction) {
    exists g | g in db.grants :: IsActiveGrant(db.grants[g], thread, person, direction)
  }

  predicate IsActiveGrant(g: GrantRow, thread: nat, person: nat, direction: Direction) {
    g.thread == thread && g.person == person && g.direction == direction && g.revokedAt.None?
  }

  function ReleaseViaGrant(db: Db, id: MsgId, granter: nat, now: int): Tx {
    if id !in db.drafts then Abort(ErrNotFound)
    else
      var row := db.drafts[id];
      if row.author != granter || !ActiveGrant(db, row.thread, granter, Outbound) then Commit(db, NoGrant)
      else
        match ApplyOutboundGrant(Grant(row.thread, Outbound, false), OutboundOf(id, row, row.mail), row.state)
        case Refused(e) => Abort(ErrGate(e))
        case Allowed(decision) => Deliver(db, id, row.mail, decision, true, now)
  }

  // ----------------------------------------------------------- verdicts

  function ThreadVerdict(db: Db, thread: nat, v: Verdict): Tx {
    if thread !in db.threads then Abort(ErrNotFound)
    else
      match ApplyInbound(db.threads[thread].state, v)
      case Refused(e) => Abort(ErrGate(e))
      case Allowed(next) =>
        Commit(db.(threads := db.threads[thread := db.threads[thread].(state := next)]), NewState(next))
  }

  /** No message of the same thread was received later. */
  predicate Latest(db: Db, id: MsgId)
    requires id in db.messages
  {
    forall m | m in db.messages && db.messages[m].thread == db.messages[id].thread ::
      db.messages[m].receivedAt <= db.messages[id].receivedAt
  }

  function MessageVerdict(db: Db, person: nat, id: MsgId, v: Verdict): Tx {
    if id !in db.messages || db.messages[id].thread !in db.threads || !Latest(db, id) then Abort(ErrNotFound)
    else
      var m := db.messages[id];
      if !db.threads[m.thread].Party(person) || person == m.sender then Abort(ErrNotFound)
      else ThreadVerdict(db, m.thread, v)
  }

  function ApproveViaGrant(db: Db, thread: nat, granter: nat, id: MsgId): Tx {
    if !ActiveGrant(db, thread, granter, Inbound) then Commit(db, Fired(false))
    else if thread !in db.threads then Abort(ErrNotFound)
    else
      var a := Approvable(Inbound, thread, id, ());
      match ApplyInboundGrant(Grant(thread, Inbound, false), a, db.threads[thread].state)
      case Refused(e) => Abort(ErrGate(e))
      case Allowed(next) =>
        Commit(
          db.(threads := db.threads[thread := db.threads[thread].(state := next)],
              messages :=
                if id in db.messages && db.messages[id].thread == thread
                then db.messages[id := db.messages[id].(viaGrant := true)] else db.messages),
          Fired(true))
  }

  predicate GrantableDirection(d: Direction) { d == Inbound || d == Outbound }

  function SetGrant(db: Db, id: nat, thread: nat, person: nat, direction: Direction): Tx {
    if !GrantableDirection(direction) then Abort(ErrGate(ErrWrongDirection))
    else if thread !in db.threads || !db.threads[thread].Party(person) then Abort(ErrNotParticipant)
    else if ActiveGrant(db, thread, person, direction) then Commit(db, Done)
    else if id in db.grants || person !in db.persons then Abort(ErrConstraint)
    else Commit(db.(grants := db.grants[id := GrantRow(thread, person, direction, None)]), Done)
  }

  function RevokeGrant(db: Db, thread: nat, person: nat, direction: Direction, now: int): Tx {
    if !GrantableDirection(direction) then Abort(ErrGate(ErrWrongDirection))
    else if thread !in db.threads || !db.threads[thread].Party(person) then Abort(ErrNotParticipant)
    else if !ActiveGrant(db, thread, person, direction) then Abort(ErrNotFound)
    else
      Commit(
        db.(grants := map g | g in db.grants ::
              if IsActiveGrant(db.grants[g], thread, person, direction)
              then db.grants[g].(revokedAt := Some(Unix(now))) else db.grants[g]),
        Done)
  }

  // ---------------------------------------------------------- retention

  predicate AllAckedBy(db: Db, id: MsgId, cutoff: int) {
    && (exists k | k in db.deliveries :: k.msg == id)
    && forall k | k in db.deliveries && k.msg == id ::
         db.deliveries[k].ackedAt.Some? && db.deliveries[k].ackedAt.value <= cutoff
  }

  predicate Expired(cfg: Config, db: Db, id: MsgId, now: int)
    requires id in db.messages
  {
    db.messages[id].receivedAt <= Unix(now - cfg.hardTTL) || AllAckedBy(db, id, Unix(now - cfg.ackGrace))
  }

  function ExpiredMessages(cfg: Config, db: Db, now: int): set<MsgId> {
    set m | m in db.messages && Expired(cfg, db, m, now)
  }

  /** The tables without some messages and their delivery rows. */
  function Without(db: Db, gone: set<MsgId>): Db {
    db.(messages := db.messages - gone,
        deliveries := map k | k in db.deliveries && k.msg !in gone :: db.deliveries[k])
  }

  function SweepMessages(cfg: Config, db: Db, now: int): Tx {
    Commit(Without(db, ExpiredMessages(cfg, db, now)), Done)
  }

  predicate StaleDraft(cfg: Config, d: Draft, now: int) {
    (d.state == Sent || d.state == Discarded) && d.decidedAt.Some? && d.decidedAt.value <= Unix(now - cfg.hardTTL)
  }

  function SweepDrafts(cfg: Config, db: Db, now: int): Tx {
    Commit(db.(drafts := map d | d in db.drafts && !StaleDraft(cfg, db.drafts[d], now) :: db.drafts[d]), Done)
  }

  function PruneTombstones(cfg: Config, db: Db, now: int): Tx {
    Commit(
      db.(tombstones := map m | m in db.tombstones && db.tombstones[m] >= Unix(now - cfg.maxAge) :: db.tombstones[m]),
      Done)
  }

  // ----------------------------------------------------------- one step

  datatype Op =
    | OpCreateInvite(token: nat, email: nat, ttl: int)
    | OpEnroll(token: nat, key: nat, newPerson: nat, newDevice: nat)
    | OpRevokeDevice(device: nat)
    | OpStartThread(thread: nat, initiator: nat, recipient: nat)
    | OpIngest(mail: Mail, sender: nat)
    | OpReceipt(msg: MsgId, device: nat, acked: bool)
    | OpCreateDraft(author: nat, mail: Mail)
    | OpReleaseDraft(person: nat, draft: MsgId, text: Option<string>)
    | OpDiscardDraft(person: nat, draft: MsgId)
    | OpReleaseViaGrant(draft: MsgId, granter: nat)
    | OpThreadVerdict(thread: nat, verdict: Verdict)
    | OpMessageVerdict(person: nat, msg: MsgId, verdict: Verdict)
    | OpApproveViaGrant(thread: nat, granter: nat, msg: MsgId)
    | OpSetGrant(grant: nat, thread: nat, person: nat, direction: Direction)
    | OpRevokeGrant(thread: nat, person: nat, direction: Direction)
    | OpSweepMessages
    | OpSweepDrafts
    | OpPruneTombstones

  ghost function Step(cfg: Config, db: Db, op: Op, now: int): Tx {
    match op
    case OpCreateInvite(token, email, ttl) => CreateInvite(db, token, email, ttl, now)
    case OpEnroll(token, key, p, d) => Enroll(db, token, key, p, d, now)
    case OpRevokeDevice(d) => RevokeDevice(db, d, now)
    case OpStartThread(t, a, b) => StartThread(db, t, a, b)
    case OpIngest(e, sender) => Ingest(cfg, db, e, sender, now)
    case OpReceipt(m, d, acked) => Receipt(db, m, d, acked, now)
    case OpCreateDraft(author, e) => CreateDraft(cfg, db, author, e)
    case OpReleaseDraft(p, id, text) => ReleaseDraft(cfg, db, p, id, text, now)
    case OpDiscardDraft(p, id) => DiscardDraft(db, p, id, now)
    case OpReleaseViaGrant(id, p) => ReleaseViaGrant(db, id, p, now)
    case OpThreadVerdict(t, v) => ThreadVerdict(db, t, v)
    case OpMessageVerdict(p, id, v) => MessageVerdict(db, p, id, v)
    case OpApproveViaGrant(t, p, id) => ApproveViaGrant(db, t, p, id)
    case OpSetGrant(g, t, p, dir) => SetGrant(db, g, t, p, dir)
    case OpRevokeGrant(t, p, dir) => RevokeGrant(db, t, p, dir, now)
    case OpSweepMessages => SweepMessages(cfg, db, now)
    case OpSweepDrafts => SweepDrafts(cfg, db, now)
    case OpPruneTombstones => PruneTombstones(cfg, db, now)
  }

  // -------------------------------------------------------------- queries

  /** The rows Inbox returns for a device: messages it has not acked. */
  predicate InInbox(db: Db, device: nat, id: MsgId) {
    && id in db.messages && DeliveryKey(id, device) in db.deliveries
    && db.deliveries[DeliveryKey(id, device)].ackedAt.None?
  }

  /** The rows InboundAwaiting returns for a person. */
  predicate Awaiting(db: Db, person: nat, id: MsgId) {
    && id in db.messages
    && var m := db.messages[id];
    && m.thread in db.threads && m.sender in db.persons
    && db.threads[m.thread].state == InputRequired
    && db.threads[m.thread].Party(person)
    && m.sender != person
    && Latest(db, id)
  }

  predicate DraftAwaiting(db: Db, person: nat, id: MsgId) {
    id in db.drafts && db.drafts[id].author == person && db.drafts[id].state == PendingReview
  }

  predicate HasActivity(db: Db, person: nat) {
    || (exists m | m in db.messages ::
          var r := db.messages[m];
          r.thread in db.threads && db.threads[r.thread].state == InputRequired &&
          db.threads[r.thread].Party(person) && r.sender != person)
    || (exists d | d in db.drafts :: db.drafts[d].author == person && db.drafts[d].state == PendingReview)
  }
}
