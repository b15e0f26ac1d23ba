/** What a person's lists hold, in terms of what came in and when. */
module Shown {
  import opened Base
  import opened Ids
  import opened Gate
  import opened Tables
  import opened Invariants
  import opened Runs
  import opened Releases
  import opened Retention

  // ------------------------------------------------------- the inbound list

  /** `second` is the last in which a stored message of thread `t` was received. */
  ghost predicate LastSecond(db: Db, t: nat, second: int) {
    && (exists m :: m in db.messages && db.messages[m].thread == t && db.messages[m].receivedAt == second)
    && (forall m :: m in db.messages && db.messages[m].thread == t ==> db.messages[m].receivedAt <= second)
  }

  /** On a thread that awaits a verdict, exactly the messages of its last second are on their addressee's list. */
  lemma LastSecondIsListed(db: Db, t: nat, second: int, id: MsgId, person: nat)
    requires WellFormed(db) && t in db.threads && LastSecond(db, t, second)
    requires id in db.messages && db.messages[id].thread == t
    ensures Awaiting(db, person, id) <==>
            && db.threads[t].state == InputRequired
            && db.messages[id].receivedAt == second && db.messages[id].mail.to == person
  {
    assert MessageRowOk(id, db.messages[id], db.threads);
    var m :| m in db.messages && db.messages[m].thread == t && db.messages[m].receivedAt == second;
    if Awaiting(db, person, id) {
      assert db.messages[m].receivedAt <= db.messages[id].receivedAt;
    }
  }

  lemma LastSecondIsDecidable(db: Db, t: nat, second: int, id: MsgId, person: nat, v: Verdict)
    requires WellFormed(db) && t in db.threads && LastSecond(db, t, second)
    requires id in db.messages && db.messages[id].thread == t
    requires db.messages[id].receivedAt != second || db.messages[id].mail.to != person
    ensures MessageVerdict(db, person, id, v) == Abort(ErrNotFound)
  {
    assert MessageRowOk(id, db.messages[id], db.threads);
    var m :| m in db.messages && db.messages[m].thread == t && db.messages[m].receivedAt == second;
    if Latest(db, id) {
      assert db.messages[m].receivedAt <= db.messages[id].receivedAt;
    }
  }

  /**
   A message that another one on its thread followed, in a later second, is on nobody's list and beyond every verdict,
   as long as the later one is stored.
   */
  lemma SupersededIsGone(cfg: Config, tr: seq<Entry>, i: nat, j: nat, a: MsgId, b: MsgId, person: nat, v: Verdict)
    requires Run(cfg, tr)
    requires StoredSince(cfg, tr, Final(cfg, tr), i, a) && StoredSince(cfg, tr, Final(cfg, tr), j, b)
    requires Final(cfg, tr).messages[a].thread == Final(cfg, tr).messages[b].thread
    requires Unix(tr[i].now) < Unix(tr[j].now)
    ensures !Awaiting(Final(cfg, tr), person, a)
    ensures MessageVerdict(Final(cfg, tr), person, a, v) == Abort(ErrNotFound)
  {
    ReceivedThen(cfg, tr, i, a);
    ReceivedThen(cfg, tr, j, b);
    OlderIsGone(Final(cfg, tr), a, b, person, v);
  }

  lemma OlderIsGone(db: Db, a: MsgId, b: MsgId, person: nat, v: Verdict)
    requires a in db.messages && b in db.messages && db.messages[a].thread == db.messages[b].thread
    requires db.messages[a].receivedAt < db.messages[b].receivedAt
    ensures !Awaiting(db, person, a) && MessageVerdict(db, person, a, v) == Abort(ErrNotFound)
  {
  }

  /** And the one nothing followed in a later second is on its addressee's list while the thread awaits a verdict. */
  lemma NewestIsListed(cfg: Config, tr: seq<Entry>, i: nat, a: MsgId)
    requires Run(cfg, tr) && StoredSince(cfg, tr, Final(cfg, tr), i, a)
    requires var db := Final(cfg, tr);
             && db.messages[a].thread in db.threads && db.threads[db.messages[a].thread].state == InputRequired
             && forall b, j: nat :: StoredSince(cfg, tr, db, j, b) && db.messages[b].thread == db.messages[a].thread ==>
                  Unix(tr[j].now) <= Unix(tr[i].now)
    ensures Awaiting(Final(cfg, tr), Final(cfg, tr).messages[a].mail.to, a)
  {
    var db := Final(cfg, tr);
    RunWellFormed(cfg, tr);
    assert MessageRowOk(a, db.messages[a], db.threads);
    ReceivedThen(cfg, tr, i, a);
    forall b | b in db.messages && db.messages[b].thread == db.messages[a].thread
      ensures db.messages[b].receivedAt <= db.messages[a].receivedAt
    {
      var j := MessageStory(cfg, tr, b);
      ReceivedThen(cfg, tr, j, b);
    }
  }

  // --------------------------------------------------------- the draft list

  /** A draft is on its author's list from the step that creates it until it is released or discarded, and only then. */
  lemma ListedUntilDecided(cfg: Config, tr: seq<Entry>, id: MsgId, person: nat) returns (c: nat)
    requires Run(cfg, tr) && id in Final(cfg, tr).drafts
    ensures c < |tr| && Creates(cfg, tr[c], id)
    ensures DraftAwaiting(Final(cfg, tr), person, id) <==> tr[c].op.author == person && Undecided(cfg, tr, c, id)
  {
    c := DraftStory(cfg, tr, id);
    var row := Final(cfg, tr).drafts[id];
    match row.state {
      case PendingReview =>
      case Sent => var r: nat :| ReleasedAt(cfg, tr, c, r, id, row);
      case Discarded => var r: nat :| DiscardedAt(cfg, tr, c, r, id, row);
    }
  }

  // --------------------------------------------------------------- activity

  /** A stored message to this person on a thread that awaits a verdict. */
  predicate Unanswered(db: Db, person: nat, m: MsgId) {
    && m in db.messages && db.messages[m].mail.to == person
    && db.messages[m].thread in db.threads && db.threads[db.messages[m].thread].state == InputRequired
  }

  lemma UnansweredIsOthers(db: Db, person: nat, m: MsgId)
    requires WellFormed(db) && m in db.messages
    ensures var r := db.messages[m];
            Unanswered(db, person, m) <==>
            && r.thread in db.threads && db.threads[r.thread].state == InputRequired
            && db.threads[r.thread].Party(person) && r.sender != person
  {
    assert MessageRowOk(m, db.messages[m], db.threads);
  }

  /** HasActivity is exact about a pending draft of theirs, or a message to them on a thread awaiting a verdict. */
  lemma ActivityIsExact(db: Db, person: nat)
    requires WellFormed(db)
    ensures HasActivity(db, person) <==>
              (exists d :: DraftAwaiting(db, person, d)) || (exists m :: Unanswered(db, person, m))
  {
    forall m | m in db.messages ensures UnansweredHere(db, person, m) {
      UnansweredIsOthers(db, person, m);
    }
    if d :| d in db.drafts && db.drafts[d].author == person && db.drafts[d].state == PendingReview {
      assert DraftAwaiting(db, person, d);
    }
  }

  predicate UnansweredHere(db: Db, person: nat, m: MsgId)
    requires m in db.messages
  {
    var r := db.messages[m];
    Unanswered(db, person, m) <==>
    && r.thread in db.threads && db.threads[r.thread].state == InputRequired
    && db.threads[r.thread].Party(person) && r.sender != person
  }

  /** Two people on one thread: 2 asked in second 0, and 1 answered in second 1 without deciding. */
  const ASKED := Mail(Uuid(1), 7, 1, Submitted, 0, Body("agent", ["?"]))
  const ANSWERED := Mail(Uuid(2), 7, 2, Submitted, SECOND, Body("agent", ["!"]))
  const ANSWERED_DB := Db(
    map[1 := 1, 2 := 2], map[], map[],
    map[7 := Thread(2, 1, InputRequired)],
    map[Uuid(1) := Message(7, 2, ASKED, 0, 0, false), Uuid(2) := Message(7, 1, ANSWERED, 1, 1, false)],
    map[], map[], map[], map[])

  /** It can be true with nothing on either list: the person answered without deciding. */
  lemma ActivityWithoutAnythingAwaiting()
    ensures WellFormed(ANSWERED_DB) && HasActivity(ANSWERED_DB, 1)
    ensures forall id :: !Awaiting(ANSWERED_DB, 1, id) && !DraftAwaiting(ANSWERED_DB, 1, id)
  {
    var db := ANSWERED_DB;
    assert Uuid(1) in db.messages && Uuid(2) in db.messages;
    assert db.messages[Uuid(1)].thread == db.messages[Uuid(2)].thread;
  }

  // ---------------------------------------------------------------- verdicts

  /** A thread takes a verdict exactly while it awaits one: approved it is working, declined rejected. */
  lemma ThreadVerdictIsExact(db: Db, t: nat, v: Verdict)
    ensures var r := ThreadVerdict(db, t, v);
            && (r.Commit? <==> t in db.threads && db.threads[t].state == InputRequired && (v == Approve || v == Reject))
            && (r.Commit? ==>
                  && r.db == db.(threads := r.db.threads) && r.db.threads.Keys == db.threads.Keys
                  && r.db.threads[t].state == (if v == Approve then Working else Rejected)
                  && forall u :: u in db.threads && u != t ==> r.db.threads[u] == db.threads[u])
  {
  }

  /**
   A grant approves exactly where one stands inbound for that person on a named thread that awaits a verdict; the thread
   is then working, and of the messages only that one, if it is of that thread, gains the mark.
   */
  lemma GrantVerdictIsExact(db: Db, t: nat, p: nat, id: MsgId)
    ensures var r := ApproveViaGrant(db, t, p, id);
            && (r == Commit(db, Fired(false)) <==> !ActiveGrant(db, t, p, Inbound))
            && (r.Commit? && r.reply == Fired(true) <==>
                ActiveGrant(db, t, p, Inbound) && t in db.threads && t != EMPTY && db.threads[t].state == InputRequired)
            && (r.Commit? && r.reply == Fired(true) ==>
                  && r.db == db.(threads := r.db.threads, messages := r.db.messages)
                  && r.db.threads.Keys == db.threads.Keys && r.db.threads[t].state == Working
                  && (forall u :: u in db.threads && u != t ==> r.db.threads[u] == db.threads[u]))
  {
  }

  /** A thread that was only started awaits nothing: no verdict applies before a message comes in. */
  lemma StartedAwaitsNothing(db: Db, t: nat, a: nat, b: nat, v: Verdict)
    ensures var r := StartThread(db, t, a, b);
            && (r.Commit? <==> t !in db.threads && a in db.persons && b in db.persons && a != b)
            && (r.Commit? ==>
                  && r.db == db.(threads := r.db.threads) && t in r.db.threads
                  && r.db.threads[t].initiator == a && r.db.threads[t].recipient == b
                  && ThreadVerdict(r.db, t, v) == Abort(ErrGate(ErrIllegalTransition)))
  {
  }
}
