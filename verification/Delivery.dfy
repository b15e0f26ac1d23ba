/**
 The delivery protocol as interleaved steps: connection handlers, one writer per socket, Notify calls in flight, and
 the store's commits, acks, sweeps and revocations.
 */
module Delivery {
  import opened Base
  import opened Ids
  import opened Registry

  /** Where a connection's handler is, from the moment its socket is registered. */
  datatype Handler =
    | Superseding(prior: Option<nat>)  // registered; the socket it superseded, if any, still to be closed
    | Opening                        // writer still to be started
    | Greeting                       // first wake still to be sent
    | Reading
    | Leaving                        // the read loop has ended
    | Cancelled
    | Removed
    | Ended

  /** Where a connection's writer is. */
  datatype Writer =
    | NotStarted
    | Waiting
    | Woken                          // took the wake, device still to be checked
    | Checked                        // inbox still to be read
    | Pushing(list: seq<MsgId>)
    | Stopped

  datatype Sock = Sock(
    person: nat, device: nat, handler: Handler, writer: Writer,
    open: bool, wake: bool, pushed: set<MsgId>)
  {
    /** The deferred remove has run. */
    predicate Gone() { handler.Removed? || handler.Ended? }
    predicate Torn() { handler.Cancelled? || handler.Removed? || handler.Ended? }
    predicate FirstWakeToCome() { handler.Superseding? || handler.Opening? || handler.Greeting? }
  }

  /** A Notify call: snapshot still to be taken, or these sockets still to be signalled. */
  datatype Note = Called(person: nat) | Signalling(targets: set<nat>)

  datatype Sys = Sys(
    devices: map<nat, nat>,          // device -> its person
    revoked: set<nat>,
    rows: map<(MsgId, nat), bool>,   // delivery rows of stored messages: acked or not
    fanned: set<(MsgId, nat)>,       // every delivery row there ever was
    conns: Conns<nat>,
    socks: map<nat, Sock>,           // every socket that was ever registered
    notes: map<nat, Note>)
  {
    predicate Active(d: nat) { d in devices && d !in revoked }

    /** Inbox: stored and not acked. */
    predicate Unacked(m: MsgId, d: nat) { (m, d) in rows && !rows[(m, d)] }
  }

  const START := Sys(map[], {}, map[], {}, map[], map[], map[])

  datatype Event =
    | Enroll(device: nat, person: nat)
    | Revoke(device: nat)
    | Commit(msg: MsgId, to: nat, note: nat)     // a message is ingested; its Notify is called next
    | Ack(msg: MsgId, device: nat)
    | Sweep(gone: set<MsgId>)
    | TakeSnapshot(note: nat)
    | Signal(note: nat, sock: nat)
    | EndNotify(note: nat)
    | Connect(sock: nat, person: nat, device: nat)
    | CloseOld(sock: nat)
    | StartWriter(sock: nat)
    | FirstWake(sock: nat)
    | Drop(sock: nat)                            // closed by its peer, by the network or by severRevoked
    | LeaveLoop(sock: nat)
    | CancelCtx(sock: nat)
    | Deregister(sock: nat)
    | FinalClose(sock: nat)
    | TakeWake(sock: nat)
    | CheckDevice(sock: nat)
    | ReadInbox(sock: nat, list: seq<MsgId>)
    | Push(sock: nat)
    | PushFails(sock: nat)
    | EndDrain(sock: nat)
    | StopWriter(sock: nat)
    | CloseAll

  /** One socket replaced. */
  function With(s: Sys, c: nat, k: Sock): Sys { s.(socks := s.socks[c := k]) }

  function Close(s: Sys, cs: set<nat>): Sys {
    s.(socks := map c | c in s.socks :: if c in cs then s.socks[c].(open := false) else s.socks[c])
  }

  function Registrants(h: Conns<nat>): set<nat> {
    set p, d | p in h && d in h[p] :: h[p][d]
  }

  function FanOut(s: Sys, m: MsgId, to: nat): map<(MsgId, nat), bool> {
    map d | d in s.devices && s.devices[d] == to && s.Active(d) :: (m, d) := false
  }

  // ---------------------------------------------------------- when a step can happen

  predicate Lists(s: Sys, d: nat, list: seq<MsgId>) {
    && (forall i :: 0 <= i < |list| ==> s.Unacked(list[i], d))
    && (forall k :: k in s.rows && k.1 == d && !s.rows[k] ==> k.0 in list)
  }

  predicate Enabled(s: Sys, e: Event) {
    match e
    case Enroll(d, _) => d !in s.devices
    case Revoke(_) => true
    case Commit(m, _, n) => n !in s.notes && forall k | k in s.fanned :: k.0 != m
    case Ack(m, d) => (m, d) in s.rows
    case Sweep(_) => true
    case TakeSnapshot(n) => n in s.notes && s.notes[n].Called?
    case Signal(n, c) => n in s.notes && s.notes[n].Signalling? && c in s.notes[n].targets && c in s.socks
    case EndNotify(n) => n in s.notes && s.notes[n] == Signalling({})
    case Connect(c, p, d) => c !in s.socks && d in s.devices && s.devices[d] == p
    case CloseAll => true
    case _ => e.sock in s.socks && SockEnabled(s, s.socks[e.sock], e)
  }

  predicate SockEnabled(s: Sys, k: Sock, e: Event) {
    match e
    case CloseOld(_) => k.handler.Superseding?
    case StartWriter(_) => k.handler.Opening?
    case FirstWake(_) => k.handler.Greeting?
    case Drop(_) => true
    case LeaveLoop(_) => k.handler.Reading? && (!k.open || !s.Active(k.device))
    case CancelCtx(_) => k.handler.Leaving?
    case Deregister(_) => k.handler.Cancelled?
    case FinalClose(_) => k.handler.Removed?
    case TakeWake(_) => k.writer.Waiting? && k.wake
    case CheckDevice(_) => k.writer.Woken?
    case ReadInbox(_, list) => k.writer.Checked? && Lists(s, k.device, list)
    case Push(_) => k.writer.Pushing? && k.writer.list != [] && k.open
    case PushFails(_) => k.writer.Pushing? && k.writer.list != []
    case EndDrain(_) => k.writer == Pushing([])
    case StopWriter(_) => k.writer.Waiting? && k.Torn()
    case _ => false
  }

  // ---------------------------------------------------------------- what it does

  function Apply(s: Sys, e: Event): Sys
    requires Enabled(s, e)
  {
    match e
    case Enroll(d, p) => s.(devices := s.devices[d := p])
    case Revoke(d) => s.(revoked := s.revoked + {d})
    case Commit(m, to, n) =>
      var fan := FanOut(s, m, to);
      s.(rows := s.rows + fan, fanned := s.fanned + fan.Keys, notes := s.notes[n := Called(to)])
    case Ack(m, d) => s.(rows := s.rows[(m, d) := true])
    case Sweep(gone) => s.(rows := map k | k in s.rows && k.0 !in gone :: s.rows[k])
    case TakeSnapshot(n) => s.(notes := s.notes[n := Signalling(Row(s.conns, s.notes[n].person).Values)])
    case Signal(n, c) =>
      With(s, c, s.socks[c].(wake := true)).(notes := s.notes[n := Signalling(s.notes[n].targets - {c})])
    case EndNotify(n) => s.(notes := s.notes - {n})
    case Connect(c, p, d) =>
      var prior := if d in Row(s.conns, p) then Some(Row(s.conns, p)[d]) else None;
      With(s, c, Sock(p, d, Superseding(prior), NotStarted, true, false, {})).(conns := Add(s.conns, p, d, c))
    case CloseAll => Close(s, Registrants(s.conns)).(conns := map[])
    case CloseOld(c) =>
      var prior := s.socks[c].handler.prior;
      var t :=
        if prior.Some? && prior.value in s.socks then With(s, prior.value, s.socks[prior.value].(open := false)) else s;
      With(t, c, t.socks[c].(handler := Opening))
    case Deregister(c) =>
      var k := s.socks[c];
      With(s, c, k.(handler := Removed)).(conns := Remove(s.conns, k.person, k.device, c))
    case _ => With(s, e.sock, ApplySock(s, s.socks[e.sock], e))
  }

  /** The steps that change one socket and nothing else. */
  function ApplySock(s: Sys, k: Sock, e: Event): Sock {
    match e
    case StartWriter(_) => k.(handler := Greeting, writer := Waiting)
    case FirstWake(_) => k.(handler := Reading, wake := true)
    case Drop(_) => k.(open := false)
    case LeaveLoop(_) => k.(handler := Leaving)
    case CancelCtx(_) => k.(handler := Cancelled)
    case FinalClose(_) => k.(handler := Ended, open := false)
    case TakeWake(_) => k.(writer := Woken, wake := false)
    case CheckDevice(_) => if s.Active(k.device) then k.(writer := Checked) else k.(writer := Waiting, open := false)
    case ReadInbox(_, list) => k.(writer := Pushing(list))
    case Push(_) =>
      if k.writer.Pushing? && k.writer.list != [] then
        k.(writer := Pushing(k.writer.list[1..]), pushed := k.pushed + {k.writer.list[0]})
      else k
    case PushFails(_) => k.(writer := Waiting, open := false)
    case EndDrain(_) => k.(writer := Waiting)
    case StopWriter(_) => k.(writer := Stopped)
    case _ => k
  }

  /** The state after these steps from the start, if each could happen when its turn came. */
  function Reached(es: seq<Event>): Option<Sys>
    decreases |es|
  {
    if es == [] then Some(START)
    else
      match Reached(es[..|es| - 1])
      case None => None
      case Some(s) => if Enabled(s, es[|es| - 1]) then Some(Apply(s, es[|es| - 1])) else None
  }

  lemma Extend(es: seq<Event>, e: Event)
    requires Reached(es).Some? && Enabled(Reached(es).value, e)
    ensures Reached(es + [e]) == Some(Apply(Reached(es).value, e))
  {
    assert (es + [e])[..|es|] == es;
  }

  // ------------------------------------------------------------- the invariant

  /** A registered socket sits where its handler put it, and that handler's remove has not run. */
  ghost predicate ConnsOk(s: Sys) {
    && NoEmptyRow(s.conns)
    && forall p, d :: d in Row(s.conns, p) ==> Seated(s, p, d, Row(s.conns, p)[d])
  }

  predicate Seated(s: Sys, p: nat, d: nat, c: nat) {
    && c in s.socks && s.socks[c].person == p && s.socks[c].device == d && !s.socks[c].Gone()
    && d in s.devices && s.devices[d] == p
  }

  ghost predicate RowsOk(s: Sys) {
    forall k :: k in s.rows ==> k in s.fanned
  }

  /** A handler that has left its loop left a closed socket or a revoked device; a writer runs until it is cancelled. */
  predicate StagesOk(s: Sys, k: Sock) {
    && (k.handler.Leaving? || k.Torn() ==> !k.open || !s.Active(k.device))
    && (k.writer.Stopped? ==> k.Torn())
    && (k.writer.NotStarted? <==> k.handler.Superseding? || k.handler.Opening?)
    && k.device in s.devices && s.devices[k.device] == k.person
  }

  /** Whatever is pushed on a socket was fanned out to its own device. */
  ghost predicate OwnMailOnly(s: Sys, k: Sock) {
    && (forall m :: m in k.pushed ==> (m, k.device) in s.fanned)
    && (k.writer.Pushing? ==> forall m :: m in k.writer.list ==> (m, k.device) in s.fanned)
  }

  /** A registered, open socket of an active device. */
  predicate Live(s: Sys, c: nat) {
    && c in s.socks && s.socks[c].open && s.Active(s.socks[c].device)
    && Registered(s.conns, s.socks[c].person, s.socks[c].device, c)
  }

  predicate OwedBy(n: Note, person: nat, c: nat) {
    n == Called(person) || (n.Signalling? && c in n.targets)
  }

  /** The writer is yet to read the inbox: woken, about to be, or with a signal on its way. */
  ghost predicate OwedRead(s: Sys, c: nat)
    requires c in s.socks
  {
    var k := s.socks[c];
    || k.wake || k.writer.Woken? || k.writer.Checked? || k.FirstWakeToCome()
    || exists n :: n in s.notes && OwedBy(s.notes[n], k.person, c)
  }

  ghost predicate Covered(s: Sys, c: nat, m: MsgId)
    requires c in s.socks
  {
    var k := s.socks[c];
    m in k.pushed || (k.writer.Pushing? && m in k.writer.list) || OwedRead(s, c)
  }

  /** No wake-up is lost for this socket. */
  ghost predicate NoneLost(s: Sys, c: nat)
    requires c in s.socks
  {
    Live(s, c) ==> forall m :: s.Unacked(m, s.socks[c].device) ==> Covered(s, c, m)
  }

  ghost predicate SockOk(s: Sys, c: nat)
    requires c in s.socks
  {
    StagesOk(s, s.socks[c]) && OwnMailOnly(s, s.socks[c]) && NoneLost(s, c)
  }

  ghost predicate Inv(s: Sys) {
    && ConnsOk(s) && RowsOk(s)
    && forall c :: c in s.socks ==> SockOk(s, c)
  }

  // --------------------------------------------- steps that change one socket only

  predicate Local(e: Event) {
    || e.StartWriter? || e.FirstWake? || e.Drop? || e.LeaveLoop? || e.CancelCtx? || e.FinalClose? || e.TakeWake?
    || e.CheckDevice? || e.ReadInbox? || e.Push? || e.PushFails? || e.EndDrain? || e.StopWriter?
  }

  lemma LocalStages(s: Sys, e: Event, k: Sock)
    requires Local(e) && e.sock in s.socks && SockEnabled(s, s.socks[e.sock], e) && StagesOk(s, s.socks[e.sock])
    requires k == ApplySock(s, s.socks[e.sock], e)
    ensures StagesOk(s, k)
    ensures (s.socks[e.sock].Gone() <==> k.Gone())
    ensures k.person == s.socks[e.sock].person && k.device == s.socks[e.sock].device
  {
  }

  lemma LocalMail(s: Sys, e: Event)
    requires Local(e) && Enabled(s, e) && SockOk(s, e.sock) && RowsOk(s)
    ensures var t := Apply(s, e); OwnMailOnly(t, t.socks[e.sock])
  {
    var k := s.socks[e.sock];
    if e.Push? {
      HeadOrTail(k.writer.list);
    } else if e.ReadInbox? {
      forall m | m in e.list ensures (m, k.device) in s.fanned {
        assert s.Unacked(m, k.device);
      }
    }
  }

  lemma HeadOrTail<T>(list: seq<T>)
    requires list != []
    ensures forall x :: x in list <==> x == list[0] || x in list[1..]
  {
    assert list == [list[0]] + list[1..];
  }

  lemma LocalShape(s: Sys, e: Event)
    requires Local(e) && Enabled(s, e)
    ensures Apply(s, e) == With(s, e.sock, ApplySock(s, s.socks[e.sock], e)) && SockEnabled(s, s.socks[e.sock], e)
  {
  }

  /** A read owed stays owed until it is made. */
  lemma LocalOwes(s: Sys, e: Event, k: Sock)
    requires Local(e) && e.sock in s.socks && SockEnabled(s, s.socks[e.sock], e) && !e.ReadInbox? && OwedRead(s, e.sock)
    requires k == ApplySock(s, s.socks[e.sock], e) && k.open && s.Active(k.device)
    ensures OwedRead(With(s, e.sock, k), e.sock)
  {
    var t := With(s, e.sock, k);
    assert t.socks[e.sock] == k && k.person == s.socks[e.sock].person;
    if n :| n in s.notes && OwedBy(s.notes[n], k.person, e.sock) {
      assert n in t.notes && OwedBy(t.notes[n], k.person, e.sock);
    }
  }

  lemma LocalCovers(s: Sys, e: Event, k: Sock, m: MsgId)
    requires Local(e) && e.sock in s.socks && SockEnabled(s, s.socks[e.sock], e) && SockOk(s, e.sock)
    requires k == ApplySock(s, s.socks[e.sock], e) && k.open && s.Active(k.device)
    requires Registered(s.conns, k.person, k.device, e.sock) && s.Unacked(m, k.device)
    ensures Covered(With(s, e.sock, k), e.sock, m)
  {
    var t := With(s, e.sock, k);
    assert t.socks[e.sock] == k;
    assert Live(s, e.sock);
    assert Covered(s, e.sock, m);
    if e.ReadInbox? {
      assert (m, k.device) in s.rows;
    } else if OwedRead(s, e.sock) {
      LocalOwes(s, e, k);
    } else if e.Push? {
      HeadOrTail(s.socks[e.sock].writer.list);
    }
  }

  /** A socket keeps its promise while its writer rests, no mail is added and no read it is owed is forgotten. */
  lemma WriterRests(s: Sys, t: Sys, c: nat)
    requires c in s.socks && c in t.socks && SockOk(s, c) && StagesOk(t, t.socks[c])
    requires var j, k := s.socks[c], t.socks[c]; k.writer == j.writer && k.pushed == j.pushed && k.device == j.device
    requires s.fanned <= t.fanned
    requires forall m :: t.Unacked(m, t.socks[c].device) ==> s.Unacked(m, t.socks[c].device)
    requires Live(t, c) ==> Live(s, c)
    requires Live(t, c) && OwedRead(s, c) ==> OwedRead(t, c)
    ensures SockOk(t, c)
  {
    forall m | Live(t, c) && t.Unacked(m, t.socks[c].device) ensures Covered(t, c, m) {
      assert Covered(s, c, m);
    }
  }

  lemma SameOwed(s: Sys, t: Sys, c: nat)
    requires c in s.socks && c in t.socks && t.socks[c] == s.socks[c]
    requires forall n :: n in s.notes && OwedBy(s.notes[n], s.socks[c].person, c) ==>
               n in t.notes && OwedBy(t.notes[n], s.socks[c].person, c)
    ensures OwedRead(s, c) ==> OwedRead(t, c)
  {
    if n :| n in s.notes && OwedBy(s.notes[n], s.socks[c].person, c) {
      assert n in t.notes && OwedBy(t.notes[n], t.socks[c].person, c);
    }
  }

  /** Another socket's step leaves this one as it was. */
  lemma OthersKeep(s: Sys, c: nat, k: Sock, x: nat)
    requires x in s.socks && x != c && SockOk(s, x)
    ensures SockOk(With(s, c, k), x)
  {
    var t := With(s, c, k);
    assert t.socks[x] == s.socks[x];
    SameOwed(s, t, x);
    WriterRests(s, t, x);
  }

  lemma LocalKeeps(s: Sys, e: Event)
    requires Local(e) && Enabled(s, e) && Inv(s)
    ensures Inv(Apply(s, e))
  {
    LocalShape(s, e);
    var c := e.sock;
    var k := ApplySock(s, s.socks[c], e);
    var t := With(s, c, k);
    assert t.socks[c] == k;
    LocalStages(s, e, k);
    LocalMail(s, e);
    forall m | Live(t, c) && t.Unacked(m, k.device) ensures Covered(t, c, m) {
      LocalCovers(s, e, k, m);
    }
    forall x | x in t.socks && x != c ensures SockOk(t, x) {
      OthersKeep(s, c, k, x);
    }
    WithConns(s, c, k);
  }

  /** Replacing one socket by one of the same place, not gone unless it was, keeps the registry. */
  lemma WithConns(s: Sys, c: nat, k: Sock)
    requires ConnsOk(s) && c in s.socks && k.person == s.socks[c].person && k.device == s.socks[c].device
    requires k.Gone() ==> s.socks[c].Gone()
    ensures ConnsOk(With(s, c, k))
  {
  }

  /** The registry stays sound while sockets keep their place and none of them is gone. */
  lemma ConnsStay(s: Sys, t: Sys)
    requires ConnsOk(s) && t.conns == s.conns
    requires forall c :: c in s.socks ==> c in t.socks && SamePlace(s.socks[c], t.socks[c])
    requires forall d :: d in s.devices ==> d in t.devices && t.devices[d] == s.devices[d]
    ensures ConnsOk(t)
  {
  }

  predicate SamePlace(j: Sock, k: Sock) {
    k.person == j.person && k.device == j.device && (k.Gone() ==> j.Gone())
  }

  // -------------------------------------------------------- the store's own steps

  lemma EnrollKeeps(s: Sys, e: Event)
    requires Inv(s) && e.Enroll? && Enabled(s, e)
    ensures Inv(Apply(s, e))
  {
    var t := Apply(s, e);
    ConnsStay(s, t);
    forall c | c in t.socks ensures SockOk(t, c) {
      SameOwed(s, t, c);
      WriterRests(s, t, c);
    }
  }

  lemma RevokeKeeps(s: Sys, e: Event)
    requires Inv(s) && e.Revoke? && Enabled(s, e)
    ensures Inv(Apply(s, e))
  {
    var t := Apply(s, e);
    ConnsStay(s, t);
    forall c | c in t.socks ensures SockOk(t, c) {
      SameOwed(s, t, c);
      WriterRests(s, t, c);
    }
  }

  lemma RowsShrink(s: Sys, e: Event)
    requires Inv(s) && (e.Ack? || e.Sweep?) && Enabled(s, e)
    ensures Inv(Apply(s, e))
  {
    var t := Apply(s, e);
    ConnsStay(s, t);
    forall c | c in t.socks ensures SockOk(t, c) {
      SameOwed(s, t, c);
      WriterRests(s, t, c);
    }
  }

  lemma CommitKeeps(s: Sys, e: Event)
    requires Inv(s) && e.Commit? && Enabled(s, e)
    ensures Inv(Apply(s, e))
  {
    var t := Apply(s, e);
    ConnsStay(s, t);
    forall c | c in t.socks ensures SockOk(t, c) {
      CommitKeepsSock(s, e, t, c);
    }
  }

  /** The new message is on the list of no device but the addressee's, and for those its Notify is still to come. */
  lemma CommitKeepsSock(s: Sys, e: Event, t: Sys, c: nat)
    requires e.Commit? && Enabled(s, e) && t == Apply(s, e) && c in s.socks && SockOk(s, c)
    ensures SockOk(t, c)
  {
    SameOwed(s, t, c);
    if s.socks[c].person == e.to {
      assert e.note in t.notes && OwedBy(t.notes[e.note], e.to, c);
      assert OwedRead(t, c);
    } else {
      WriterRests(s, t, c);
    }
  }

  // --------------------------------------------------------------------- Notify

  /** The snapshot takes in every registered socket of the person. */
  lemma TakeSnapshotKeeps(s: Sys, e: Event)
    requires Inv(s) && e.TakeSnapshot? && Enabled(s, e)
    ensures Inv(Apply(s, e))
  {
    var t := Apply(s, e);
    ConnsStay(s, t);
    forall c | c in t.socks ensures SockOk(t, c) {
      if Live(t, c) {
        SameOwed(s, t, c);
      }
      WriterRests(s, t, c);
    }
  }

  lemma SignalKeeps(s: Sys, e: Event)
    requires Inv(s) && e.Signal? && Enabled(s, e)
    ensures Inv(Apply(s, e))
  {
    var t := Apply(s, e);
    var k := s.socks[e.sock].(wake := true);
    assert t.socks == s.socks[e.sock := k];
    ConnsStay(s, t);
    forall c | c in t.socks ensures SockOk(t, c) {
      if c != e.sock {
        SameOwed(s, t, c);
      }
      WriterRests(s, t, c);
    }
  }

  lemma EndNotifyKeeps(s: Sys, e: Event)
    requires Inv(s) && e.EndNotify? && Enabled(s, e)
    ensures Inv(Apply(s, e))
  {
    var t := Apply(s, e);
    ConnsStay(s, t);
    forall c | c in t.socks ensures SockOk(t, c) {
      SameOwed(s, t, c);
      WriterRests(s, t, c);
    }
  }

  // --------------------------------------------------------- handlers and the hub

  lemma ConnectKeepsConns(s: Sys, e: Event)
    requires ConnsOk(s) && e.Connect? && Enabled(s, e)
    ensures ConnsOk(Apply(s, e))
  {
    AddRegisters(s.conns, e.person, e.device, e.sock);
  }

  lemma ConnectKeeps(s: Sys, e: Event)
    requires Inv(s) && e.Connect? && Enabled(s, e)
    ensures Inv(Apply(s, e))
  {
    var t := Apply(s, e);
    ConnectKeepsConns(s, e);
    AddRegisters(s.conns, e.person, e.device, e.sock);
    forall c | c in t.socks ensures SockOk(t, c) {
      if c != e.sock {
        SameOwed(s, t, c);
        WriterRests(s, t, c);
      }
    }
  }

  lemma OpeningKeeps(s: Sys, c: nat)
    requires Inv(s) && c in s.socks && s.socks[c].handler.Superseding?
    ensures Inv(With(s, c, s.socks[c].(handler := Opening)))
  {
    var k := s.socks[c].(handler := Opening);
    var t := With(s, c, k);
    forall x | x in t.socks && x != c ensures SockOk(t, x) {
      OthersKeep(s, c, k, x);
    }
    WithConns(s, c, k);
  }

  /** CloseOld closes the socket that was superseded, as a Drop would, and moves on. */
  lemma CloseOldShape(s: Sys, e: Event)
    requires e.CloseOld? && Enabled(s, e)
    ensures var prior := s.socks[e.sock].handler.prior;
            var t := if prior.Some? && prior.value in s.socks then Apply(s, Drop(prior.value)) else s;
            Apply(s, e) == With(t, e.sock, t.socks[e.sock].(handler := Opening))
  {
  }

  lemma CloseOldKeeps(s: Sys, e: Event)
    requires Inv(s) && e.CloseOld? && Enabled(s, e)
    ensures Inv(Apply(s, e))
  {
    var c, prior := e.sock, s.socks[e.sock].handler.prior;
    CloseOldShape(s, e);
    if prior.Some? && prior.value in s.socks {
      LocalKeeps(s, Drop(prior.value));
      OpeningKeeps(Apply(s, Drop(prior.value)), c);
    } else {
      OpeningKeeps(s, c);
    }
  }

  lemma DeregisterKeepsConns(s: Sys, e: Event)
    requires ConnsOk(s) && e.Deregister? && Enabled(s, e)
    ensures ConnsOk(Apply(s, e))
  {
    var k, t := s.socks[e.sock], Apply(s, e);
    RemoveEvictsOnlyItself(s.conns, k.person, k.device, e.sock);
    forall p, d | d in Row(t.conns, p) ensures Seated(t, p, d, Row(t.conns, p)[d]) {
      var x := Row(t.conns, p)[d];
      assert Registered(t.conns, p, d, x);
      assert Registered(s.conns, p, d, x) && Seated(s, p, d, x);
      assert x != e.sock;
    }
  }

  lemma DeregisterKeeps(s: Sys, e: Event)
    requires Inv(s) && e.Deregister? && Enabled(s, e)
    ensures Inv(Apply(s, e))
  {
    var k, t := s.socks[e.sock], Apply(s, e);
    DeregisterKeepsConns(s, e);
    RemoveEvictsOnlyItself(s.conns, k.person, k.device, e.sock);
    forall c | c in t.socks ensures SockOk(t, c) {
      if c != e.sock {
        SameOwed(s, t, c);
      }
      WriterRests(s, t, c);
    }
  }

  lemma CloseAllKeeps(s: Sys, e: Event)
    requires Inv(s) && e.CloseAll?
    ensures Inv(Apply(s, e))
  {
    var t := Apply(s, e);
    forall c | c in t.socks ensures SockOk(t, c) {
      WriterRests(s, t, c);
    }
  }

  // ------------------------------------------------------------------ whole runs

  lemma StoreKeeps(s: Sys, e: Event)
    requires Inv(s) && Enabled(s, e) && (e.Enroll? || e.Revoke? || e.Commit? || e.Ack? || e.Sweep?)
    ensures Inv(Apply(s, e))
  {
    if e.Enroll? {
      EnrollKeeps(s, e);
    } else if e.Revoke? {
      RevokeKeeps(s, e);
    } else if e.Commit? {
      CommitKeeps(s, e);
    } else {
      RowsShrink(s, e);
    }
  }

  lemma NotifyKeeps(s: Sys, e: Event)
    requires Inv(s) && Enabled(s, e) && (e.TakeSnapshot? || e.Signal? || e.EndNotify?)
    ensures Inv(Apply(s, e))
  {
    if e.TakeSnapshot? {
      TakeSnapshotKeeps(s, e);
    } else if e.Signal? {
      SignalKeeps(s, e);
    } else {
      EndNotifyKeeps(s, e);
    }
  }

  lemma HubKeeps(s: Sys, e: Event)
    requires Inv(s) && Enabled(s, e) && (e.Connect? || e.CloseOld? || e.Deregister? || e.CloseAll?)
    ensures Inv(Apply(s, e))
  {
    if e.Connect? {
      ConnectKeeps(s, e);
    } else if e.CloseOld? {
      CloseOldKeeps(s, e);
    } else if e.Deregister? {
      DeregisterKeeps(s, e);
    } else {
      CloseAllKeeps(s, e);
    }
  }

  lemma EventKeeps(s: Sys, e: Event)
    requires Inv(s) && Enabled(s, e)
    ensures Inv(Apply(s, e))
  {
    if e.Enroll? || e.Revoke? || e.Commit? || e.Ack? || e.Sweep? {
      StoreKeeps(s, e);
    } else if e.TakeSnapshot? || e.Signal? || e.EndNotify? {
      NotifyKeeps(s, e);
    } else if e.Connect? || e.CloseOld? || e.Deregister? || e.CloseAll? {
      HubKeeps(s, e);
    } else {
      LocalKeeps(s, e);
    }
  }

  /** The invariant holds in every state that any interleaving reaches. */
  lemma {:induction false} ReachedIsOk(es: seq<Event>)
    requires Reached(es).Some?
    ensures Inv(Reached(es).value)
    decreases |es|
  {
    if es == [] {
    } else {
      var n := |es| - 1;
      ReachedIsOk(es[..n]);
      EventKeeps(Reached(es[..n]).value, es[n]);
    }
  }

  /**
   No wake-up is lost.  In every interleaving, each message that an active device has not acked is, for its registered
   and open socket, already pushed, on the list being pushed, or owed a read by a writer that has not stopped.
   */
  lemma NoWakeUpLost(es: seq<Event>, c: nat, m: MsgId)
    requires Reached(es).Some?
    requires var s := Reached(es).value; Live(s, c) && s.Unacked(m, s.socks[c].device)
    ensures Covered(Reached(es).value, c, m) && !Reached(es).value.socks[c].writer.Stopped?
  {
    ReachedIsOk(es);
    assert SockOk(Reached(es).value, c);
  }

  /** Once everything in flight has settled, a live socket has been pushed all of its device's unacked mail. */
  lemma SettledMeansPushed(es: seq<Event>, c: nat, m: MsgId)
    requires Reached(es).Some?
    requires var s := Reached(es).value;
             && Live(s, c) && s.Unacked(m, s.socks[c].device)
             && s.notes == map[] && s.socks[c].handler.Reading? && s.socks[c].writer.Waiting? && !s.socks[c].wake
    ensures m in Reached(es).value.socks[c].pushed
  {
    NoWakeUpLost(es, c, m);
  }

  /** A socket is only ever pushed mail fanned out to its own device. */
  lemma PushedIsOwnMail(es: seq<Event>, c: nat, m: MsgId)
    requires Reached(es).Some? && c in Reached(es).value.socks && m in Reached(es).value.socks[c].pushed
    ensures (m, Reached(es).value.socks[c].device) in Reached(es).value.fanned
  {
    ReachedIsOk(es);
    assert SockOk(Reached(es).value, c);
  }

  /** A registered socket sits where its handler put it, that handler has not removed it, and no row is empty. */
  lemma RegistryNeverLeaks(es: seq<Event>)
    requires Reached(es).Some?
    ensures ConnsOk(Reached(es).value)
    ensures OnePersonEach(Reached(es).value.conns)
    ensures (forall c :: c in Reached(es).value.socks ==> Reached(es).value.socks[c].Gone()) ==>
              Reached(es).value.conns == map[]
  {
    ReachedIsOk(es);
    var s := Reached(es).value;
    forall p, q, d | d in Row(s.conns, p) && d in Row(s.conns, q) ensures p == q {
      assert Seated(s, p, d, Row(s.conns, p)[d]) && Seated(s, q, d, Row(s.conns, q)[d]);
    }
    if s.conns != map[] {
      SomeoneRegistered(s);
    }
  }

  lemma SomeoneRegistered(s: Sys)
    requires ConnsOk(s) && s.conns != map[]
    ensures exists c :: c in s.socks && !s.socks[c].Gone()
  {
    var p :| p in s.conns;
    var d :| d in s.conns[p];
    assert Seated(s, p, d, Row(s.conns, p)[d]);
  }

  /** The deferred remove of one socket unregisters no other, whatever superseded what. */
  lemma RemoveSparesReplacement(es: seq<Event>, c: nat, x: nat)
    requires Reached(es).Some? && Enabled(Reached(es).value, Deregister(c)) && x != c
    ensures var s := Reached(es).value;
            var t := Apply(s, Deregister(c));
            forall p, d :: Registered(t.conns, p, d, x) <==> Registered(s.conns, p, d, x)
  {
    ReachedIsOk(es);
    var s := Reached(es).value;
    RemoveEvictsOnlyItself(s.conns, s.socks[c].person, s.socks[c].device, c);
  }
}
