/** What becomes of each socket over a run of the delivery protocol. */
module Sockets {
  import opened Base
  import opened Ids
  import opened Registry
  import opened Delivery

  // ------------------------------------------------------------ open and closed

  /**
   The steps that close socket `c`: its peer or the network, a push that fails, its handler's end, a wake that finds its
   device revoked, the handler of the socket that superseded it, and the hub's shutdown if it is registered.
   */
  predicate Closes(s: Sys, e: Event, c: nat)
    requires c in s.socks
  {
    match e
    case Drop(k) => k == c
    case PushFails(k) => k == c
    case FinalClose(k) => k == c
    case CheckDevice(k) => k == c && !s.Active(s.socks[c].device)
    case CloseOld(k) => k in s.socks && s.socks[k].handler == Superseding(Some(c))
    case CloseAll => Registered(s.conns, s.socks[c].person, s.socks[c].device, c)
    case _ => false
  }

  ghost predicate ClosedAt(es: seq<Event>, j: nat, c: nat) {
    && j < |es| && Reached(es[..j]).Some? && c in Reached(es[..j]).value.socks
    && Closes(Reached(es[..j]).value, es[j], c)
  }

  lemma RegistrantIsRegistered(s: Sys, c: nat)
    requires ConnsOk(s) && c in s.socks
    ensures c in Registrants(s.conns) <==> Registered(s.conns, s.socks[c].person, s.socks[c].device, c)
  {
    if c in Registrants(s.conns) {
      var p, d :| p in s.conns && d in s.conns[p] && s.conns[p][d] == c;
      assert Seated(s, p, d, Row(s.conns, p)[d]);
    }
  }

  /** The step leaves the socket open exactly if it was, and does not close it. */
  predicate OpenOr(s: Sys, t: Sys, e: Event, c: nat)
    requires c in s.socks
  {
    c in t.socks && (t.socks[c].open <==> s.socks[c].open && !Closes(s, e, c))
  }

  lemma LocalOpen(s: Sys, e: Event, c: nat)
    requires Enabled(s, e) && Local(e) && c in s.socks
    ensures OpenOr(s, Apply(s, e), e, c)
  {
    LocalShape(s, e);
  }

  lemma HubOpen(s: Sys, e: Event, c: nat)
    requires Inv(s) && Enabled(s, e) && (e.Connect? || e.CloseOld? || e.Deregister? || e.CloseAll?) && c in s.socks
    ensures OpenOr(s, Apply(s, e), e, c)
  {
    RegistrantIsRegistered(s, c);
  }

  lemma OtherOpen(s: Sys, e: Event, c: nat)
    requires Enabled(s, e) && c in s.socks
    requires e.Enroll? || e.Revoke? || e.Commit? || e.Ack? || e.Sweep? || e.TakeSnapshot? || e.Signal? || e.EndNotify?
    ensures OpenOr(s, Apply(s, e), e, c)
  {
  }

  lemma StepOpen(s: Sys, e: Event, c: nat)
    requires Inv(s) && Enabled(s, e) && c in s.socks
    ensures OpenOr(s, Apply(s, e), e, c)
  {
    if Local(e) {
      LocalOpen(s, e, c);
    } else if e.Connect? || e.CloseOld? || e.Deregister? || e.CloseAll? {
      HubOpen(s, e, c);
    } else {
      OtherOpen(s, e, c);
    }
  }

  lemma ClosedBefore(es: seq<Event>, j: nat, c: nat)
    requires j + 1 < |es|
    ensures ClosedAt(es[..|es| - 1], j, c) <==> ClosedAt(es, j, c)
  {
    assert es[..|es| - 1][..j] == es[..j];
  }

  /** A socket is open exactly until one of those steps closes it. */
  lemma {:induction false} OpenUntilClosed(es: seq<Event>, i: nat, c: nat)
    requires Reached(es).Some? && i < |es| && es[i].Connect? && es[i].sock == c
    ensures c in Reached(es).value.socks
    ensures Reached(es).value.socks[c].open <==> forall j :: i < j < |es| ==> !ClosedAt(es, j, c)
    decreases |es|
  {
    var n := |es| - 1;
    if i < n {
      OpenUntilClosed(es[..n], i, c);
      ReachedIsOk(es[..n]);
      StepOpen(Reached(es[..n]).value, es[n], c);
      forall j | i < j < n ensures ClosedAt(es[..n], j, c) <==> ClosedAt(es, j, c) {
        ClosedBefore(es, j, c);
      }
      assert ClosedAt(es, n, c) <==> Closes(Reached(es[..n]).value, es[n], c);
    }
  }

  predicate ClosedWith(s: Sys, c: nat, pushed: set<MsgId>) {
    c in s.socks && !s.socks[c].open && s.socks[c].pushed == pushed
  }

  lemma StepClosedWith(s: Sys, e: Event, c: nat, pushed: set<MsgId>)
    requires Enabled(s, e) && ClosedWith(s, c, pushed)
    ensures ClosedWith(Apply(s, e), c, pushed)
  {
    if Local(e) {
      LocalShape(s, e);
    }
  }

  /** A closed socket stays closed, and nothing more is pushed on it. */
  lemma {:induction false} ClosedGetsNoMore(es: seq<Event>, k: nat, c: nat)
    requires Reached(es).Some? && k <= |es| && Reached(es[..k]).Some?
    requires c in Reached(es[..k]).value.socks && !Reached(es[..k]).value.socks[c].open
    ensures ClosedWith(Reached(es).value, c, Reached(es[..k]).value.socks[c].pushed)
    decreases |es|
  {
    if k == |es| {
      assert es[..k] == es;
    } else {
      var n := |es| - 1;
      assert es[..n][..k] == es[..k];
      ClosedGetsNoMore(es[..n], k, c);
      StepClosedWith(Reached(es[..n]).value, es[n], c, Reached(es[..k]).value.socks[c].pushed);
    }
  }

  // ------------------------------------------------- one open socket a device

  /** The handler of the socket that superseded `c` has still to close it. */
  predicate Superseded(s: Sys, c: nat) {
    exists x | x in s.socks :: s.socks[x].handler == Superseding(Some(c))
  }

  predicate Kept(s: Sys, c: nat)
    requires c in s.socks
  {
    var k := s.socks[c];
    && (k.open && !k.Gone() ==> Registered(s.conns, k.person, k.device, c) || Superseded(s, c))
    && (k.handler.Ended? ==> !k.open)
  }

  ghost predicate NoOrphans(s: Sys) {
    forall c :: c in s.socks ==> Kept(s, c)
  }

  lemma LocalKept(s: Sys, e: Event, c: nat)
    requires Inv(s) && Enabled(s, e) && Local(e) && c in s.socks && Kept(s, c)
    ensures Kept(Apply(s, e), c)
  {
    LocalShape(s, e);
    LocalStages(s, e, ApplySock(s, s.socks[e.sock], e));
    StillSuperseded(s, Apply(s, e), c);
  }

  lemma StillSuperseded(s: Sys, t: Sys, c: nat)
    requires forall x :: x in s.socks && s.socks[x].handler.Superseding? ==>
               x in t.socks && t.socks[x].handler == s.socks[x].handler
    ensures Superseded(s, c) ==> Superseded(t, c)
  {
  }

  lemma ConnectKept(s: Sys, e: Event, c: nat)
    requires Inv(s) && Enabled(s, e) && e.Connect? && (c in s.socks ==> Kept(s, c)) && c in Apply(s, e).socks
    ensures Kept(Apply(s, e), c)
  {
    var t := Apply(s, e);
    AddRegisters(s.conns, e.person, e.device, e.sock);
    StillSuperseded(s, t, c);
    if c in s.socks && Registered(s.conns, e.person, e.device, c) {
      assert t.socks[e.sock].handler == Superseding(Some(c));
    }
  }

  lemma CloseOldSupersedes(s: Sys, e: Event, c: nat)
    requires Enabled(s, e) && e.CloseOld? && c in s.socks && Superseded(s, c) && !Closes(s, e, c)
    ensures Superseded(Apply(s, e), c)
  {
    var x :| x in s.socks && s.socks[x].handler == Superseding(Some(c));
    assert Apply(s, e).socks[x].handler == Superseding(Some(c));
  }

  lemma CloseOldShifts(s: Sys, e: Event, c: nat)
    requires Enabled(s, e) && e.CloseOld? && c in s.socks
    ensures var t := Apply(s, e);
            && t.conns == s.conns && c in t.socks
            && t.socks[c].person == s.socks[c].person && t.socks[c].device == s.socks[c].device
            && (t.socks[c].Gone() <==> s.socks[c].Gone()) && (t.socks[c].handler.Ended? <==> s.socks[c].handler.Ended?)
  {
  }

  lemma CloseOldKept(s: Sys, e: Event, c: nat)
    requires Inv(s) && Enabled(s, e) && e.CloseOld? && c in s.socks && Kept(s, c)
    ensures Kept(Apply(s, e), c)
  {
    StepOpen(s, e, c);
    CloseOldShifts(s, e, c);
    if Superseded(s, c) && !Closes(s, e, c) {
      CloseOldSupersedes(s, e, c);
    }
  }

  lemma DeregisterKept(s: Sys, e: Event, c: nat)
    requires Inv(s) && Enabled(s, e) && e.Deregister? && c in s.socks && Kept(s, c)
    ensures Kept(Apply(s, e), c)
  {
    var k := s.socks[e.sock];
    RemoveEvictsOnlyItself(s.conns, k.person, k.device, e.sock);
    StillSuperseded(s, Apply(s, e), c);
  }

  lemma CloseAllKept(s: Sys, e: Event, c: nat)
    requires Inv(s) && e.CloseAll? && c in s.socks && Kept(s, c)
    ensures Kept(Apply(s, e), c)
  {
    RegistrantIsRegistered(s, c);
    StillSuperseded(s, Apply(s, e), c);
  }

  lemma OtherKept(s: Sys, e: Event, c: nat)
    requires Enabled(s, e) && c in s.socks && Kept(s, c)
    requires e.Enroll? || e.Revoke? || e.Commit? || e.Ack? || e.Sweep? || e.TakeSnapshot? || e.Signal? || e.EndNotify?
    ensures c in Apply(s, e).socks && Kept(Apply(s, e), c)
  {
    StillSuperseded(s, Apply(s, e), c);
  }

  lemma HubKept(s: Sys, e: Event, c: nat)
    requires Inv(s) && Enabled(s, e) && (e.CloseOld? || e.Deregister? || e.CloseAll?) && c in s.socks && Kept(s, c)
    ensures c in Apply(s, e).socks && Kept(Apply(s, e), c)
  {
    if e.CloseOld? {
      CloseOldKept(s, e, c);
    } else if e.Deregister? {
      DeregisterKept(s, e, c);
    } else {
      CloseAllKept(s, e, c);
    }
  }

  lemma SocksStand(s: Sys, e: Event, c: nat)
    requires Enabled(s, e) && !e.Connect? && c in Apply(s, e).socks
    ensures c in s.socks
  {
  }

  lemma StepKept(s: Sys, e: Event, c: nat)
    requires Inv(s) && Enabled(s, e) && (c in s.socks ==> Kept(s, c)) && c in Apply(s, e).socks
    ensures Kept(Apply(s, e), c)
  {
    if e.Connect? {
      ConnectKept(s, e, c);
    } else {
      SocksStand(s, e, c);
      if e.CloseOld? || e.Deregister? || e.CloseAll? {
        HubKept(s, e, c);
      } else if Local(e) {
        LocalKept(s, e, c);
      } else {
        OtherKept(s, e, c);
      }
    }
  }

  lemma {:induction false} ReachedHasNoOrphans(es: seq<Event>)
    requires Reached(es).Some?
    ensures NoOrphans(Reached(es).value)
    decreases |es|
  {
    if es == [] {
    } else {
      var n := |es| - 1;
      ReachedHasNoOrphans(es[..n]);
      ReachedIsOk(es[..n]);
      forall c | c in Reached(es).value.socks ensures Kept(Reached(es).value, c) {
        StepKept(Reached(es[..n]).value, es[n], c);
      }
    }
  }

  /**
   In every interleaving a device has two open sockets with running handlers only while the handler of the one that
   superseded has still to close the other.
   */
  lemma OneOpenSocket(es: seq<Event>, c: nat, x: nat)
    requires Reached(es).Some? && c != x
    requires c in Reached(es).value.socks && x in Reached(es).value.socks
    requires var s := Reached(es).value;
             && s.socks[c].device == s.socks[x].device && s.socks[c].open && s.socks[x].open
             && !s.socks[c].Gone() && !s.socks[x].Gone()
    ensures Superseded(Reached(es).value, c) || Superseded(Reached(es).value, x)
  {
    ReachedIsOk(es);
    ReachedHasNoOrphans(es);
    var s := Reached(es).value;
    assert SockOk(s, c) && SockOk(s, x) && Kept(s, c) && Kept(s, x);
  }

  /** And none is left open once its handler has ended. */
  lemma EndedIsClosed(es: seq<Event>, c: nat)
    requires Reached(es).Some? && c in Reached(es).value.socks && Reached(es).value.socks[c].handler.Ended?
    ensures !Reached(es).value.socks[c].open
  {
    ReachedHasNoOrphans(es);
    assert Kept(Reached(es).value, c);
  }

  /** The steps with which a handler ends. */
  function Ending(c: nat): seq<Event> { [LeaveLoop(c), CancelCtx(c), Deregister(c), FinalClose(c)] }

  /** Where one of those steps takes the handler. */
  function Next(e: Event): Handler {
    match e
    case LeaveLoop(_) => Leaving
    case CancelCtx(_) => Cancelled
    case Deregister(_) => Removed
    case _ => Ended
  }

  lemma EndingStep(s: Sys, e: Event, c: nat)
    requires c in s.socks && e in Ending(c) && SockEnabled(s, s.socks[c], e)
    ensures Enabled(s, e) && c in Apply(s, e).socks && Apply(s, e).socks[c].handler == Next(e)
  {
  }

  /** A handler at this stage of its run. */
  predicate At(es: seq<Event>, c: nat, h: Handler) {
    Reached(es).Some? && c in Reached(es).value.socks && Reached(es).value.socks[c].handler == h
  }

  lemma EndingGoesOn(es: seq<Event>, e: Event, c: nat)
    requires Reached(es).Some? && c in Reached(es).value.socks && e in Ending(c)
    requires SockEnabled(Reached(es).value, Reached(es).value.socks[c], e)
    ensures At(es + [e], c, Next(e))
  {
    EndingStep(Reached(es).value, e, c);
    Extend(es, e);
  }

  lemma Concat4(es: seq<Event>, a: Event, b: Event, c: Event, d: Event)
    ensures es + [a] + [b] + [c] + [d] == es + [a, b, c, d]
  {
  }

  /**
   The handler of a socket that is closed, or whose device is revoked, can end whatever else is going on, and then the
   socket is closed and registered nowhere.
   */
  lemma SeveredCanEnd(es: seq<Event>, c: nat)
    requires At(es, c, Reading)
    requires !Reached(es).value.socks[c].open || Reached(es).value.socks[c].device in Reached(es).value.revoked
    ensures At(es + Ending(c), c, Ended)
    ensures var t := Reached(es + Ending(c)).value;
            !t.socks[c].open && forall p, d :: !Registered(t.conns, p, d, c)
  {
    EndingGoesOn(es, LeaveLoop(c), c);
    EndingGoesOn(es + [LeaveLoop(c)], CancelCtx(c), c);
    EndingGoesOn(es + [LeaveLoop(c)] + [CancelCtx(c)], Deregister(c), c);
    EndingGoesOn(es + [LeaveLoop(c)] + [CancelCtx(c)] + [Deregister(c)], FinalClose(c), c);
    Concat4(es, LeaveLoop(c), CancelCtx(c), Deregister(c), FinalClose(c));
    EndedIsClosed(es + Ending(c), c);
    GoneIsUnregistered(es + Ending(c), c);
  }

  lemma GoneIsUnregistered(es: seq<Event>, c: nat)
    requires Reached(es).Some? && c in Reached(es).value.socks && Reached(es).value.socks[c].Gone()
    ensures forall p, d :: !Registered(Reached(es).value.conns, p, d, c)
  {
    ReachedIsOk(es);
  }

  // -------------------------------------------------------------- wake-ups

  /** How often the writer of socket `c` took a wake. */
  function Taken(es: seq<Event>, c: nat): nat {
    if es == [] then 0 else Taken(es[..|es| - 1], c) + if es[|es| - 1] == TakeWake(c) then 1 else 0
  }

  predicate Wakes(e: Event, c: nat) { e == FirstWake(c) || (e.Signal? && e.sock == c) }

  /** How often it was sent one. */
  function Given(es: seq<Event>, c: nat): nat {
    if es == [] then 0 else Given(es[..|es| - 1], c) + if Wakes(es[|es| - 1], c) then 1 else 0
  }

  function Slot(s: Sys, c: nat): nat { if c in s.socks && s.socks[c].wake then 1 else 0 }

  lemma StepSlot(s: Sys, e: Event, c: nat)
    requires Enabled(s, e)
    ensures Slot(Apply(s, e), c) + (if e == TakeWake(c) then 1 else 0) <= Slot(s, c) + if Wakes(e, c) then 1 else 0
  {
    if Local(e) {
      LocalShape(s, e);
    }
  }

  /** A writer wakes no more often than it was signalled: it never polls, however signals coalesce. */
  lemma {:induction false} NoIdleWake(es: seq<Event>, c: nat)
    requires Reached(es).Some?
    ensures Taken(es, c) + Slot(Reached(es).value, c) <= Given(es, c)
    decreases |es|
  {
    if es == [] {
    } else {
      var n := |es| - 1;
      NoIdleWake(es[..n], c);
      StepSlot(Reached(es[..n]).value, es[n], c);
    }
  }

  // ------------------------------------------------------------ revoked devices

  /** What a socket has been pushed or is being pushed. */
  function Due(k: Sock): set<MsgId> {
    k.pushed + if k.writer.Pushing? then set m | m in k.writer.list else {}
  }

  /** The device of socket `c` is revoked, no read of its inbox is under way, and it gets nothing beyond `bound`. */
  predicate CutOff(s: Sys, c: nat, bound: set<MsgId>) {
    && c in s.socks && s.socks[c].device in s.revoked && !s.socks[c].writer.Checked? && Due(s.socks[c]) <= bound
  }

  lemma PushedWasDue(k: Sock)
    requires k.writer.Pushing? && k.writer.list != []
    ensures Due(k.(writer := Pushing(k.writer.list[1..]), pushed := k.pushed + {k.writer.list[0]})) == Due(k)
  {
    HeadOrTail(k.writer.list);
  }

  lemma LocalCutOff(s: Sys, e: Event, c: nat, bound: set<MsgId>)
    requires Enabled(s, e) && Local(e) && CutOff(s, c, bound)
    ensures CutOff(Apply(s, e), c, bound)
  {
    LocalShape(s, e);
    if e.Push? && e.sock == c {
      PushedWasDue(s.socks[c]);
    }
  }

  lemma OtherCutOff(s: Sys, e: Event, c: nat, bound: set<MsgId>)
    requires Enabled(s, e) && !Local(e) && CutOff(s, c, bound)
    ensures CutOff(Apply(s, e), c, bound)
  {
    var t := Apply(s, e);
    assert c in t.socks && s.revoked <= t.revoked && t.socks[c].device == s.socks[c].device;
    assert t.socks[c].writer == s.socks[c].writer && t.socks[c].pushed == s.socks[c].pushed;
  }

  lemma StepCutOff(s: Sys, e: Event, c: nat, bound: set<MsgId>)
    requires Enabled(s, e) && CutOff(s, c, bound)
    ensures CutOff(Apply(s, e), c, bound)
  {
    if Local(e) {
      LocalCutOff(s, e, c, bound);
    } else {
      OtherCutOff(s, e, c, bound);
    }
  }

  lemma {:induction false} CutOffStays(es: seq<Event>, k: nat, c: nat, bound: set<MsgId>)
    requires Reached(es).Some? && k <= |es| && Reached(es[..k]).Some? && CutOff(Reached(es[..k]).value, c, bound)
    ensures CutOff(Reached(es).value, c, bound)
    decreases |es|
  {
    if k == |es| {
      assert es[..k] == es;
    } else {
      var n := |es| - 1;
      assert es[..n][..k] == es[..k];
      CutOffStays(es[..n], k, c, bound);
      StepCutOff(Reached(es[..n]).value, es[n], c, bound);
    }
  }

  /**
   Once a device is revoked, its socket is pushed nothing more than the list its writer may be half way through, unless
   the writer had already checked the device and was about to read.
   */
  lemma RevokedGetsNoMore(es: seq<Event>, k: nat, c: nat, m: MsgId)
    requires Reached(es).Some? && k <= |es| && Reached(es[..k]).Some?
    requires var s := Reached(es[..k]).value;
             c in s.socks && s.socks[c].device in s.revoked && !s.socks[c].writer.Checked?
    ensures c in Reached(es).value.socks
    ensures m in Reached(es).value.socks[c].pushed ==>
              var was := Reached(es[..k]).value.socks[c];
              m in was.pushed || (was.writer.Pushing? && m in was.writer.list)
  {
    CutOffStays(es, k, c, Due(Reached(es[..k]).value.socks[c]));
  }
}
