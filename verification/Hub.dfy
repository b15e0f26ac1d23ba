/** The registry of live sockets: who is connected, per person and per device. */
module Registry {

  type Conns<C> = map<nat, map<nat, C>>

  function Row<C>(h: Conns<C>, person: nat): map<nat, C> {
    if person in h then h[person] else map[]
  }

  predicate Registered<C(==)>(h: Conns<C>, person: nat, device: nat, c: C) {
    device in Row(h, person) && Row(h, person)[device] == c
  }

  function Add<C>(h: Conns<C>, person: nat, device: nat, c: C): Conns<C> {
    h[person := Row(h, person)[device := c]]
  }

  function Remove<C(==)>(h: Conns<C>, person: nat, device: nat, c: C): Conns<C> {
    if !Registered(h, person, device, c) then h
    else
      var left := h[person] - {device};
      if left == map[] then h - {person} else h[person := left]
  }

  /** A person without sockets has no entry. */
  predicate NoEmptyRow<C>(h: Conns<C>) {
    forall p | p in h :: h[p] != map[]
  }

  /** A device is connected under one person only. */
  ghost predicate OnePersonEach<C>(h: Conns<C>) {
    forall p, q, d :: d in Row(h, p) && d in Row(h, q) ==> p == q
  }

  // ---------------------------------------------------------------- the laws

  /** Add puts `c` in its place and touches no other. */
  lemma AddRegisters<C>(h: Conns<C>, person: nat, device: nat, c: C)
    ensures var g := Add(h, person, device, c);
            && Registered(g, person, device, c)
            && (forall p, d :: p != person || d != device ==>
                  (d in Row(g, p) <==> d in Row(h, p)) && (d in Row(g, p) ==> Row(g, p)[d] == Row(h, p)[d]))
            && (NoEmptyRow(h) ==> NoEmptyRow(g))
  {
    var g := Add(h, person, device, c);
    assert device in g[person];
    forall p | NoEmptyRow(h) && p in g ensures g[p] != map[] {
      if p == person {
        assert device in g[p];
      }
    }
  }

  /** Remove takes out `c` where it is registered and no other socket anywhere: a superseded one evicts nobody. */
  lemma RemoveEvictsOnlyItself<C>(h: Conns<C>, person: nat, device: nat, c: C)
    requires NoEmptyRow(h)
    ensures var g := Remove(h, person, device, c);
            && !Registered(g, person, device, c)
            && (forall p, d, x :: p != person || d != device || x != c ==>
                  (Registered(g, p, d, x) <==> Registered(h, p, d, x)))
            && NoEmptyRow(g)
  {
    var g := Remove(h, person, device, c);
    if Registered(h, person, device, c) {
      var left := h[person] - {device};
      forall p ensures Row(g, p) == if p == person then left else Row(h, p) {
      }
    }
  }

  /** Adding and then removing a socket that superseded nobody leaves the registry as it was. */
  lemma AddThenRemove<C>(h: Conns<C>, person: nat, device: nat, c: C)
    requires NoEmptyRow(h) && device !in Row(h, person)
    ensures Remove(Add(h, person, device, c), person, device, c) == h
  {
    var left := Add(h, person, device, c)[person] - {device};
    assert left == Row(h, person);
    if person in h {
      assert left == h[person];
    }
  }
}

/** The hub as it runs, over socket objects that it closes and wakes. */
module Hub {
  import opened Ids
  import opened Registry
  import opened Tables
  import Store

  /** One live socket, its wake slot, which holds at most one signal, and what was written to it. */
  class WsConn {
    var open: bool
    var wake: bool
    var sent: seq<MsgId>

    constructor ()
      ensures open && !wake && sent == []
    {
      open, wake, sent := true, false, [];
    }

    method CloseNow()
      modifies this`open
      ensures !open
    {
      open := false;
    }

    /** A send that does not block: a signal already waiting absorbs this one. */
    method Wake()
      modifies this`wake
      ensures wake
    {
      if !wake {
        wake := true;
      }
    }

    /**
     drainInbox: pushes the device's unacked mail in order, marking each message delivered at the time `clock` gives.
     `writes` is how many frame writes the network lets through before one fails.  A revoked device or a failed write
     closes the socket; otherwise all of the inbox is sent.
     */
    method DrainInbox(store: Store.Relay, device: nat, writes: nat, clock: nat -> int) returns (ghost inbox: seq<MsgId>)
      modifies this`open, this`sent, store
      ensures var was := old(store.db);
              if !Active(was, device) then !open && sent == old(sent) && store.db == was
              else
                var pushed := if |inbox| <= writes then inbox else inbox[..writes];
                && (forall id :: id in inbox <==> InInbox(was, device, id)) && Store.InOrder(was.messages, inbox)
                && sent == old(sent) + pushed && store.db == Store.Marked(was, device, pushed, clock)
                && open == (old(open) && |inbox| <= writes)
    {
      inbox := [];
      if !Active(store.db, device) {
        CloseNow();
        return;
      }
      var items := store.Inbox(device);
      inbox := items;
      PushAll(store, device, items, writes, clock);
    }

    method PushAll(store: Store.Relay, device: nat, items: seq<MsgId>, writes: nat, clock: nat -> int)
      modifies this`open, this`sent, store
      ensures var pushed := if |items| <= writes then items else items[..writes];
              && sent == old(sent) + pushed && store.db == Store.Marked(old(store.db), device, pushed, clock)
              && open == (old(open) && |items| <= writes)
    {
      for i := 0 to |items|
        invariant open == old(open) && i <= writes && sent == old(sent) + items[..i]
        invariant store.db == Store.Marked(old(store.db), device, items[..i], clock)
      {
        if i == writes {
          CloseNow();
          return;
        }
        sent := sent + [items[i]];
        var _ := store.ReportReceipt(items[i], device, false, clock(i));
        assert items[..i + 1][..i] == items[..i];
      }
      assert items[..|items|] == items;
    }
  }

  class Hub {
    var conns: Conns<WsConn>

    ghost function Sockets(): set<WsConn>
      reads this
    {
      set p, d | p in conns && d in conns[p] :: conns[p][d]
    }

    constructor ()
      ensures conns == map[]
    {
      conns := map[];
    }

    /** Registers `c`; a socket it supersedes is closed, and no other. */
    method Add(person: nat, device: nat, c: WsConn)
      modifies this, Row(conns, person).Values`open
      ensures conns == Registry.Add(old(conns), person, device, c)
      ensures var row := old(Row(conns, person));
              forall s :: s in row.Values ==> s.open == (old(s.open) && !(device in row && row[device] == s))
    {
      var byDevice: map<nat, WsConn> := if person in conns then conns[person] else map[];
      conns := conns[person := byDevice[device := c]];
      if device in byDevice {
        byDevice[device].CloseNow();
      }
    }

    /** Drops the socket only if it is still the registered one. */
    method Remove(person: nat, device: nat, c: WsConn)
      modifies this
      ensures conns == Registry.Remove(old(conns), person, device, c)
    {
      if person in conns {
        var byDevice: map<nat, WsConn> := conns[person];
        if device in byDevice && byDevice[device] == c {
          byDevice := byDevice - {device};
          conns := conns[person := byDevice];
          if |byDevice| == 0 {
            conns := conns - {person};
          }
        }
      }
    }

    method Snapshot(person: nat) returns (out: map<nat, WsConn>)
      ensures out == Row(conns, person)
    {
      out := map[];
      if person in conns {
        out := conns[person];
      }
    }

    /** Every registered socket by device; none is missed, since a device sits under one person. */
    method Devices() returns (out: map<nat, WsConn>)
      requires OnePersonEach(conns)
      ensures forall p, d, c :: Registered(conns, p, d, c) ==> d in out && out[d] == c
      ensures forall d :: d in out ==> exists p :: Registered(conns, p, d, out[d])
    {
      out := map[];
      var todo := conns.Keys;
      while todo != {}
        invariant todo <= conns.Keys
        invariant forall p, d, c :: p !in todo && Registered(conns, p, d, c) ==> d in out && out[d] == c
        invariant forall d :: d in out ==> exists p :: p !in todo && Registered(conns, p, d, out[d])
        decreases |todo|
      {
        var p :| p in todo;
        forall d | d in out ensures d !in conns[p] {
          var q :| q !in todo && Registered(conns, q, d, out[d]);
          assert d in Row(conns, p) ==> q == p;
        }
        ghost var was := out;
        out := out + conns[p];
        todo := todo - {p};
        forall d | d in out ensures exists q :: q !in todo && Registered(conns, q, d, out[d]) {
          if d in conns[p] {
            assert Registered(conns, p, d, out[d]);
          } else {
            var q :| q !in todo + {p} && Registered(conns, q, d, was[d]);
            assert Registered(conns, q, d, out[d]);
          }
        }
      }
    }

    /** Closes every registered socket and forgets them all. */
    method CloseAll()
      modifies this, Sockets()`open
      ensures conns == map[]
      ensures forall s :: s in old(Sockets()) ==> !s.open
    {
      var todo: set<WsConn> := set p, d | p in conns && d in conns[p] :: conns[p][d];
      ghost var all := todo;
      while todo != {}
        invariant todo <= all
        invariant conns == old(conns)
        invariant forall s :: s in all - todo ==> !s.open
        decreases |todo|
      {
        var s :| s in todo;
        s.CloseNow();
        todo := todo - {s};
      }
      conns := map[];
    }

    /** Notify: signals every connected device of a person, and changes nothing else. */
    method Notify(person: nat)
      modifies Row(conns, person).Values`wake
      ensures forall s :: s in Row(conns, person).Values ==> s.wake
    {
      var row := Snapshot(person);
      var todo := row.Values;
      while todo != {}
        invariant todo <= row.Values
        invariant forall s :: s in row.Values && s !in todo ==> s.wake
        decreases |todo|
      {
        var s :| s in todo;
        s.Wake();
        todo := todo - {s};
      }
    }

    /** Closes every registered socket whose device is no longer active, and no other. */
    method SeverRevoked(active: set<nat>)
      requires OnePersonEach(conns) && OneDeviceEach(conns)
      modifies Sockets()`open
      ensures forall p, d, c :: Registered(conns, p, d, c) ==> c.open == (old(c.open) && d in active)
    {
      var row := Devices();
      CloseInactive(row, active);
    }
  }

  method CloseInactive(row: map<nat, WsConn>, active: set<nat>)
    requires forall d, e :: d in row && e in row && row[d] == row[e] ==> d == e
    modifies row.Values`open
    ensures forall d :: d in row ==> row[d].open == (old(row[d].open) && d in active)
  {
    var todo := row.Keys;
    while todo != {}
      invariant todo <= row.Keys
      invariant forall d :: d in row ==> row[d].open == (old(row[d].open) && (d in active || d in todo))
      decreases |todo|
    {
      var d :| d in todo;
      if d !in active {
        row[d].CloseNow();
      }
      todo := todo - {d};
    }
  }

  /** A socket is registered for one device only. */
  ghost predicate OneDeviceEach(h: Conns<WsConn>) {
    forall p, q, d, e :: d in Row(h, p) && e in Row(h, q) && Row(h, p)[d] == Row(h, q)[e] ==> d == e
  }
}
