/** Progress of delivery: what a live socket is owed, the relay brings by finitely many steps of its own. */
module Progress {
  import opened Base
  import opened Ids
  import opened Registry
  import opened Delivery

  /** The relay's own steps that bring mail towards socket `c`: none waits on its peer, and each is about `c`. */
  predicate Brings(s: Sys, e: Event, c: nat) {
    && c in s.socks
    && match e
       case TakeSnapshot(n) => n in s.notes && s.notes[n] == Called(s.socks[c].person)
       case Signal(_, x) => x == c
       case CloseOld(x) => x == c
       case StartWriter(x) => x == c
       case FirstWake(x) => x == c
       case TakeWake(x) => x == c
       case CheckDevice(x) => x == c
       case ReadInbox(x, _) => x == c
       case Push(x) => x == c
       case EndDrain(x) => x == c
       case _ => false
  }

  /** A live socket that has not been pushed a message its device has not acked. */
  predicate Wants(s: Sys, c: nat, m: MsgId) {
    Live(s, c) && s.Unacked(m, s.socks[c].device) && m !in s.socks[c].pushed
  }

  /** How far the socket's writer is from pushing `m`, stage by stage. */
  ghost function Stage(s: Sys, c: nat, m: MsgId): nat
    requires c in s.socks
  {
    var k := s.socks[c];
    match k.writer
    case Pushing(list) => if m in list then 0 else 6
    case Checked => 1
    case Woken => 2
    case Waiting =>
      if k.wake then 3 else if k.handler.Greeting? || (exists n :: n in s.notes && Targets(s.notes[n], c)) then 4 else 5
    case NotStarted => if k.handler.Opening? then 7 else 8
    case Stopped => 9
  }

  predicate Targets(n: Note, c: nat) { n.Signalling? && c in n.targets }

  /** How many frames are left on the list being pushed. */
  function Left(s: Sys, c: nat): nat
    requires c in s.socks
  {
    if s.socks[c].writer.Pushing? then |s.socks[c].writer.list| else 0
  }

  /** Nearer: pushed, at an earlier stage, or with a shorter list. */
  ghost predicate Nearer(s: Sys, t: Sys, c: nat, m: MsgId)
    requires c in s.socks && c in t.socks
  {
    || m in t.socks[c].pushed
    || Stage(t, c, m) < Stage(s, c, m)
    || (Stage(t, c, m) == Stage(s, c, m) && Left(t, c) < Left(s, c))
  }

  /** A step towards `c`, after which `c` is as live, the message as unacked, and its push nearer. */
  ghost predicate Advances(s: Sys, e: Event, c: nat, m: MsgId) {
    && Enabled(s, e) && Brings(s, e, c)
    && var t := Apply(s, e);
    && c in s.socks && Live(t, c) && t.Unacked(m, t.socks[c].device)
    && Nearer(s, t, c, m)
  }

  // ------------------------------------------------------ a socket never supersedes itself

  predicate PriorsOk(s: Sys) {
    forall c :: c in s.socks && s.socks[c].handler.Superseding? ==> s.socks[c].handler.prior != Some(c)
  }

  lemma ConnectPriors(s: Sys, e: Event)
    requires PriorsOk(s) && ConnsOk(s) && e.Connect? && Enabled(s, e)
    ensures PriorsOk(Apply(s, e))
  {
    if e.device in Row(s.conns, e.person) {
      assert Seated(s, e.person, e.device, Row(s.conns, e.person)[e.device]);
    }
  }

  lemma StepPriors(s: Sys, e: Event)
    requires PriorsOk(s) && ConnsOk(s) && Enabled(s, e)
    ensures PriorsOk(Apply(s, e))
  {
    if Local(e) {
      LocalShape(s, e);
    } else if e.Connect? {
      ConnectPriors(s, e);
    }
  }

  lemma {:induction false} ReachedPriors(es: seq<Event>)
    requires Reached(es).Some?
    ensures PriorsOk(Reached(es).value)
    decreases |es|
  {
    if es == [] {
    } else {
      var n := |es| - 1;
      ReachedPriors(es[..n]);
      ReachedIsOk(es[..n]);
      StepPriors(Reached(es[..n]).value, es[n]);
    }
  }

  // ------------------------------------------------------------------ the next step

  /** The writer is pushing: the next frame, or the end of the list. */
  lemma PushAdvances(s: Sys, c: nat, m: MsgId) returns (e: Event)
    requires Wants(s, c, m) && s.socks[c].writer.Pushing?
    ensures Advances(s, e, c, m)
  {
    var list := s.socks[c].writer.list;
    if list == [] {
      e := EndDrain(c);
    } else {
      e := Push(c);
      HeadOrTail(list);
    }
    LocalShape(s, e);
  }

  /** The writer was woken: the device check, then the read, which lists every unacked message. */
  lemma ReadAdvances(s: Sys, c: nat, m: MsgId) returns (e: Event)
    requires Wants(s, c, m) && (s.socks[c].writer.Woken? || s.socks[c].writer.Checked?)
    ensures Advances(s, e, c, m)
  {
    if s.socks[c].writer.Woken? {
      e := CheckDevice(c);
    } else {
      var list := Listing(s, s.socks[c].device);
      e := ReadInbox(c, list);
      assert (m, s.socks[c].device) in s.rows;
    }
    LocalShape(s, e);
  }

  lemma Listing(s: Sys, d: nat) returns (list: seq<MsgId>)
    ensures Lists(s, d, list)
  {
    var due := set k | k in s.rows && k.1 == d && !s.rows[k] :: k.0;
    list := [];
    var rest := due;
    while rest != {}
      invariant rest <= due && forall m :: m in list <==> m in due && m !in rest
      decreases |rest|
    {
      var m :| m in rest;
      list := list + [m];
      rest := rest - {m};
    }
    forall i | 0 <= i < |list| ensures s.Unacked(list[i], d) {
      assert list[i] in due;
    }
  }

  /** The writer is not started: the handler closes the socket it superseded and starts it. */
  lemma StartAdvances(s: Sys, c: nat, m: MsgId) returns (e: Event)
    requires Wants(s, c, m) && s.socks[c].writer.NotStarted? && StagesOk(s, s.socks[c]) && PriorsOk(s)
    ensures Advances(s, e, c, m)
  {
    if s.socks[c].handler.Superseding? {
      e := CloseOld(c);
      var t := Apply(s, e);
      assert t.socks[c] == s.socks[c].(handler := Opening);
    } else {
      e := StartWriter(c);
      LocalShape(s, e);
    }
  }

  /** The writer waits: its wake, the handler's first wake, or a Notify call for its person. */
  lemma WakeAdvances(s: Sys, c: nat, m: MsgId) returns (e: Event)
    requires Wants(s, c, m) && s.socks[c].writer.Waiting? && SockOk(s, c)
    ensures Advances(s, e, c, m)
  {
    var k := s.socks[c];
    if k.wake {
      e := TakeWake(c);
      LocalShape(s, e);
    } else if k.handler.Greeting? {
      e := FirstWake(c);
      LocalShape(s, e);
    } else {
      assert Covered(s, c, m);
      var n :| n in s.notes && OwedBy(s.notes[n], k.person, c);
      if x :| x in s.notes && Targets(s.notes[x], c) {
        e := Signal(x, c);
      } else {
        e := TakeSnapshot(n);
        SnapshotTargets(s, n, c);
      }
    }
  }

  lemma SnapshotTargets(s: Sys, n: nat, c: nat)
    requires Live(s, c) && n in s.notes && s.notes[n] == Called(s.socks[c].person)
    ensures var t := Apply(s, TakeSnapshot(n)); n in t.notes && Targets(t.notes[n], c)
  {
  }

  /** What a live socket is still owed never waits on its peer: some step of the relay itself brings it nearer. */
  lemma OwedCanBePaid(es: seq<Event>, c: nat, m: MsgId) returns (e: Event)
    requires Reached(es).Some? && Wants(Reached(es).value, c, m)
    ensures Advances(Reached(es).value, e, c, m)
  {
    var s := Reached(es).value;
    NoWakeUpLost(es, c, m);
    ReachedIsOk(es);
    ReachedPriors(es);
    assert SockOk(s, c);
    match s.socks[c].writer {
      case Pushing(_) => e := PushAdvances(s, c, m);
      case Woken => e := ReadAdvances(s, c, m);
      case Checked => e := ReadAdvances(s, c, m);
      case NotStarted => e := StartAdvances(s, c, m);
      case Waiting => e := WakeAdvances(s, c, m);
    }
  }

  // ---------------------------------------------------------------- all the way

  /** Each of these steps, taken in turn after `es`, is one the relay takes towards `c`. */
  ghost predicate AllBring(es: seq<Event>, more: seq<Event>, c: nat)
    decreases |more|
  {
    more == [] ||
    (Reached(es).Some? && Brings(Reached(es).value, more[0], c) && AllBring(es + [more[0]], more[1..], c))
  }

  /** After `es`, these steps of the relay towards `c` push `m` on it, and leave it live. */
  ghost predicate Delivers(es: seq<Event>, more: seq<Event>, c: nat, m: MsgId) {
    && AllBring(es, more, c)
    && Reached(es + more).Some?
    && var s := Reached(es + more).value; Live(s, c) && m in s.socks[c].pushed
  }

  lemma DeliversFirst(es: seq<Event>, e: Event, more: seq<Event>, c: nat, m: MsgId)
    requires Reached(es).Some? && Brings(Reached(es).value, e, c) && Delivers(es + [e], more, c, m)
    ensures Delivers(es, [e] + more, c, m)
  {
    assert ([e] + more)[1..] == more;
    assert es + ([e] + more) == es + [e] + more;
  }

  /**
   Delivery completes.  In every reachable state, a message that a live socket's device has not acked is pushed on that
   socket after finitely many steps of the relay itself, each towards that socket.
   */
  lemma {:induction false} PushedInTheEnd(es: seq<Event>, c: nat, m: MsgId) returns (more: seq<Event>)
    requires Reached(es).Some?
    requires var s := Reached(es).value; Live(s, c) && s.Unacked(m, s.socks[c].device)
    ensures Delivers(es, more, c, m)
    decreases var s := Reached(es).value; if m in s.socks[c].pushed then 0 else 1,
              Stage(Reached(es).value, c, m), Left(Reached(es).value, c)
  {
    var s := Reached(es).value;
    if m in s.socks[c].pushed {
      more := [];
      assert es + more == es;
    } else {
      var e := OwedCanBePaid(es, c, m);
      Extend(es, e);
      var rest := PushedInTheEnd(es + [e], c, m);
      DeliversFirst(es, e, rest, c, m);
      more := [e] + rest;
    }
  }
}
