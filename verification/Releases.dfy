/** The life of a draft over a run: release is delivery, and it has consent. */
module Releases {
  import opened Base
  import opened Ids
  import opened Gate
  import opened Tables
  import opened Invariants
  import opened Runs

  ghost predicate Creates(cfg: Config, e: Entry, id: MsgId) {
    e.op.OpCreateDraft? && e.op.mail.id == id && TxOf(cfg, e).Commit?
  }

  ghost predicate Discards(cfg: Config, e: Entry, id: MsgId) {
    e.op.OpDiscardDraft? && e.op.draft == id && TxOf(cfg, e).Commit?
  }

  /** The row CreateDraft inserts. */
  function NewDraft(op: Op): Draft
    requires op.OpCreateDraft?
  {
    Draft(op.mail.thread, op.author, op.mail, PendingReview, false, None)
  }

  function DiscardedRow(d: Draft, now: int): Draft {
    d.(state := Discarded, viaGrant := false, decidedAt := Some(Unix(now)))
  }

  // ------------------------------------------------------------ one draft, one step

  /** What one step can do to one draft. */
  ghost predicate DraftMoves(cfg: Config, e: Entry, post: Db, id: MsgId) {
    && (id !in e.pre.drafts ==>
          && !Releases(cfg, e, id) && !Discards(cfg, e, id)
          && (id in post.drafts <==> Creates(cfg, e, id))
          && (id in post.drafts ==> post.drafts[id] == NewDraft(e.op)))
    && (id in e.pre.drafts ==> DraftGoesOn(cfg, e, post, id))
  }

  ghost predicate DraftGoesOn(cfg: Config, e: Entry, post: Db, id: MsgId)
    requires id in e.pre.drafts
  {
    var was := e.pre.drafts[id];
    && !Creates(cfg, e, id)
    && (if id !in post.drafts then
          e.op.OpSweepDrafts? && StaleDraft(cfg, was, e.now) && was.state != PendingReview
        else if Releases(cfg, e, id) then
          was.state == PendingReview && Consented(e, id) && post.drafts[id] == ReleasedRow(was, e.op, e.now)
        else if Discards(cfg, e, id) then
          was.state == PendingReview && e.op.person == was.author && post.drafts[id] == DiscardedRow(was, e.now)
        else post.drafts[id] == was)
    && (Releases(cfg, e, id) ==> id in post.drafts)
    && (Discards(cfg, e, id) ==> id in post.drafts)
  }

  lemma DraftsLeftAlone(cfg: Config, db: Db, op: Op, now: int)
    requires !MayTouch(op, Drafts)
    ensures Step(cfg, db, op, now).Settle(db).drafts == db.drafts
  {
    StepSpares(cfg, db, op, now);
  }

  lemma CreateMoves(cfg: Config, e: Entry, id: MsgId)
    requires e.op.OpCreateDraft?
    ensures DraftMoves(cfg, e, After(cfg, e), id)
  {
  }

  lemma DiscardMoves(cfg: Config, e: Entry, id: MsgId)
    requires e.op.OpDiscardDraft?
    ensures DraftMoves(cfg, e, After(cfg, e), id)
  {
  }

  lemma SweepDraftMoves(cfg: Config, e: Entry, id: MsgId)
    requires e.op.OpSweepDrafts?
    ensures DraftMoves(cfg, e, After(cfg, e), id)
  {
  }

  lemma ReleaseMovesDrafts(cfg: Config, e: Entry, id: MsgId)
    requires e.op.OpReleaseDraft? || e.op.OpReleaseViaGrant?
    ensures DraftMoves(cfg, e, After(cfg, e), id)
  {
    var d := e.op.draft;
    if Releases(cfg, e, d) {
      ReleaseShape(cfg, e, d);
      var row := ReleasedRow(e.pre.drafts[d], e.op, e.now);
      IngestFrame(e.pre.(drafts := e.pre.drafts[d := row]), row.mail.(sentAt := e.now), row.author, e.now);
      assert After(cfg, e).drafts == e.pre.drafts[d := row];
    } else {
      NotReleased(cfg, e);
    }
  }

  lemma StepDraft(cfg: Config, e: Entry, id: MsgId)
    ensures DraftMoves(cfg, e, After(cfg, e), id)
  {
    match e.op {
      case OpCreateDraft(_, _) => CreateMoves(cfg, e, id);
      case OpDiscardDraft(_, _) => DiscardMoves(cfg, e, id);
      case OpReleaseDraft(_, _, _) => ReleaseMovesDrafts(cfg, e, id);
      case OpReleaseViaGrant(_, _) => ReleaseMovesDrafts(cfg, e, id);
      case OpSweepDrafts => SweepDraftMoves(cfg, e, id);
      case _ => DraftsLeftAlone(cfg, e.pre, e.op, e.now);
    }
  }

  // ----------------------------------------------------------------- whole runs

  /** From `c` on nothing has released or discarded the draft. */
  ghost predicate Undecided(cfg: Config, tr: seq<Entry>, c: nat, id: MsgId) {
    forall j :: c < j < |tr| ==> !Releases(cfg, tr[j], id) && !Discards(cfg, tr[j], id)
  }

  /** Step `r` is the one decision taken on the draft since `c`. */
  ghost predicate DecidedOnlyAt(cfg: Config, tr: seq<Entry>, c: nat, r: nat, id: MsgId) {
    && c < r < |tr|
    && forall j :: c < j < |tr| && j != r ==> !Releases(cfg, tr[j], id) && !Discards(cfg, tr[j], id)
  }

  ghost predicate ReleasedAt(cfg: Config, tr: seq<Entry>, c: nat, r: nat, id: MsgId, row: Draft)
    requires c < |tr| && tr[c].op.OpCreateDraft?
  {
    && DecidedOnlyAt(cfg, tr, c, r, id)
    && Releases(cfg, tr[r], id) && Consented(tr[r], id) && tr[r].pre.drafts[id] == NewDraft(tr[c].op)
    && row == ReleasedRow(NewDraft(tr[c].op), tr[r].op, tr[r].now)
  }

  ghost predicate DiscardedAt(cfg: Config, tr: seq<Entry>, c: nat, r: nat, id: MsgId, row: Draft)
    requires c < |tr| && tr[c].op.OpCreateDraft?
  {
    && DecidedOnlyAt(cfg, tr, c, r, id)
    && Discards(cfg, tr[r], id) && tr[r].op.person == row.author
    && row == DiscardedRow(NewDraft(tr[c].op), tr[r].now)
  }

  /** The whole story of a draft row, from the step `c` that created it. */
  ghost predicate Story(cfg: Config, tr: seq<Entry>, c: nat, id: MsgId, row: Draft) {
    && c < |tr| && Creates(cfg, tr[c], id)
    && (forall j :: c < j < |tr| ==> !Creates(cfg, tr[j], id))
    && match row.state
       case PendingReview => row == NewDraft(tr[c].op) && Undecided(cfg, tr, c, id)
       case Sent => exists r: nat :: ReleasedAt(cfg, tr, c, r, id, row)
       case Discarded => exists r: nat :: DiscardedAt(cfg, tr, c, r, id, row)
       case OtherDraftState(_) => false
  }

  lemma CreatedGoesOn(cfg: Config, front: seq<Entry>, last: Entry, c: nat, id: MsgId)
    requires c < |front| && Creates(cfg, front[c], id) && !Creates(cfg, last, id)
    requires forall j :: c < j < |front| ==> !Creates(cfg, front[j], id)
    ensures var tr := front + [last];
            tr[c] == front[c] && forall j :: c < j < |tr| ==> !Creates(cfg, tr[j], id)
  {
  }

  lemma UndecidedGoesOn(cfg: Config, front: seq<Entry>, last: Entry, c: nat, id: MsgId)
    requires c < |front| && Undecided(cfg, front, c, id)
    requires !Releases(cfg, last, id) && !Discards(cfg, last, id)
    ensures Undecided(cfg, front + [last], c, id)
  {
  }

  lemma UndecidedThenDecided(cfg: Config, front: seq<Entry>, last: Entry, c: nat, id: MsgId)
    requires c < |front| && Undecided(cfg, front, c, id)
    ensures DecidedOnlyAt(cfg, front + [last], c, |front|, id)
  {
  }

  lemma DecidedGoesOn(cfg: Config, front: seq<Entry>, last: Entry, c: nat, r: nat, id: MsgId)
    requires DecidedOnlyAt(cfg, front, c, r, id)
    requires !Releases(cfg, last, id) && !Discards(cfg, last, id)
    ensures DecidedOnlyAt(cfg, front + [last], c, r, id)
  {
  }

  lemma UnchangedGoesOn(cfg: Config, front: seq<Entry>, last: Entry, c: nat, id: MsgId, row: Draft)
    requires Story(cfg, front, c, id, row)
    requires !Creates(cfg, last, id) && !Releases(cfg, last, id) && !Discards(cfg, last, id)
    ensures Story(cfg, front + [last], c, id, row)
  {
    var tr := front + [last];
    CreatedGoesOn(cfg, front, last, c, id);
    match row.state {
      case PendingReview =>
        UndecidedGoesOn(cfg, front, last, c, id);
      case Sent =>
        var r: nat :| ReleasedAt(cfg, front, c, r, id, row);
        DecidedGoesOn(cfg, front, last, c, r, id);
        assert tr[r] == front[r];
        assert ReleasedAt(cfg, tr, c, r, id, row);
      case Discarded =>
        var r: nat :| DiscardedAt(cfg, front, c, r, id, row);
        DecidedGoesOn(cfg, front, last, c, r, id);
        assert tr[r] == front[r];
        assert DiscardedAt(cfg, tr, c, r, id, row);
    }
  }

  lemma ReleaseEndsStory(cfg: Config, front: seq<Entry>, last: Entry, c: nat, id: MsgId)
    requires id in last.pre.drafts && Story(cfg, front, c, id, last.pre.drafts[id])
    requires !Creates(cfg, last, id) && Releases(cfg, last, id) && Consented(last, id)
    requires last.pre.drafts[id].state == PendingReview
    ensures Story(cfg, front + [last], c, id, ReleasedRow(last.pre.drafts[id], last.op, last.now))
  {
    CreatedGoesOn(cfg, front, last, c, id);
    UndecidedThenDecided(cfg, front, last, c, id);
    assert ReleasedAt(cfg, front + [last], c, |front|, id, ReleasedRow(last.pre.drafts[id], last.op, last.now));
  }

  lemma DiscardEndsStory(cfg: Config, front: seq<Entry>, last: Entry, c: nat, id: MsgId)
    requires id in last.pre.drafts && Story(cfg, front, c, id, last.pre.drafts[id])
    requires !Creates(cfg, last, id) && Discards(cfg, last, id) && last.op.person == last.pre.drafts[id].author
    requires last.pre.drafts[id].state == PendingReview
    ensures Story(cfg, front + [last], c, id, DiscardedRow(last.pre.drafts[id], last.now))
  {
    CreatedGoesOn(cfg, front, last, c, id);
    UndecidedThenDecided(cfg, front, last, c, id);
    assert DiscardedAt(cfg, front + [last], c, |front|, id, DiscardedRow(last.pre.drafts[id], last.now));
  }

  lemma StoryGoesOn(cfg: Config, front: seq<Entry>, last: Entry, post: Db, c: nat, id: MsgId)
    requires id in last.pre.drafts && id in post.drafts && DraftMoves(cfg, last, post, id)
    requires Story(cfg, front, c, id, last.pre.drafts[id])
    ensures Story(cfg, front + [last], c, id, post.drafts[id])
  {
    if Releases(cfg, last, id) {
      ReleaseEndsStory(cfg, front, last, c, id);
    } else if Discards(cfg, last, id) {
      DiscardEndsStory(cfg, front, last, c, id);
    } else {
      UnchangedGoesOn(cfg, front, last, c, id, post.drafts[id]);
    }
  }

  /**
   In every reachable state each draft row was created by a known step, and: it is `sent` exactly when one later
   step released it, with its author's consent; `discarded` exactly when its author discarded it; and otherwise it
   is pending, as created, and nothing ever released it.
   */
  lemma {:induction false} DraftStory(cfg: Config, tr: seq<Entry>, id: MsgId) returns (c: nat)
    requires Run(cfg, tr) && id in Final(cfg, tr).drafts
    ensures Story(cfg, tr, c, id, Final(cfg, tr).drafts[id])
    decreases |tr|
  {
    var n := |tr| - 1;
    StepDraft(cfg, tr[n], id);
    if id in tr[n].pre.drafts {
      c := DraftStory(cfg, tr[..n], id);
      StoryGoesOn(cfg, tr[..n], tr[n], Final(cfg, tr), c, id);
      assert tr == tr[..n] + [tr[n]];
    } else {
      c := n;
      assert Undecided(cfg, tr, c, id);
    }
  }

  /**
   Release is delivery: a `sent` row was released by one step `r`, and that step's transaction brought in the row's
   envelope, edits included, sent at that moment by the row's author.
   */
  lemma SentWasDelivered(cfg: Config, tr: seq<Entry>, id: MsgId) returns (c: nat, r: nat)
    requires Run(cfg, tr) && id in Final(cfg, tr).drafts && Final(cfg, tr).drafts[id].state == Sent
    ensures c < r < |tr| && Creates(cfg, tr[c], id) && ReleasedAt(cfg, tr, c, r, id, Final(cfg, tr).drafts[id])
    ensures Delivered(tr[r], After(cfg, tr[r]), id, Final(cfg, tr).drafts[id])
  {
    var row := Final(cfg, tr).drafts[id];
    c := DraftStory(cfg, tr, id);
    r :| ReleasedAt(cfg, tr, c, r, id, row);
    EntryWellFormed(cfg, tr, r);
    ReleaseArrives(cfg, tr[r], id);
  }

  ghost predicate Delivered(e: Entry, post: Db, id: MsgId, row: Draft) {
    && Arrives(e.pre, post, id, e.now)
    && post.messages[id].mail == row.mail.(sentAt := e.now)
    && post.messages[id].sender == row.author
    && row.decidedAt == Some(post.messages[id].sentAt) == Some(post.messages[id].receivedAt)
    && row.viaGrant == e.op.OpReleaseViaGrant?
  }

  /** Whatever arrives was either ingested as such or released with its author's consent: there is no third way in. */
  lemma ArrivalHadConsent(cfg: Config, e: Entry, id: MsgId)
    requires WellFormed(e.pre) && id in After(cfg, e).messages && id !in e.pre.messages
    ensures (e.op.OpIngest? && e.op.mail.id == id && After(cfg, e).messages[id].sender == e.op.sender) ||
            (Releases(cfg, e, id) && Consented(e, id) && After(cfg, e).messages[id].sender == e.pre.drafts[id].author)
  {
    StepMessage(cfg, e, id);
    if Releases(cfg, e, id) {
      ReleaseShape(cfg, e, id);
      ReleaseArrives(cfg, e, id);
    } else {
      IngestArrives(e.pre, e.op.mail, e.op.sender, e.now);
    }
  }

  /** Once decided, a row never changes again: it can only be swept. */
  lemma {:induction false} DecidedForever(cfg: Config, tr: seq<Entry>, i: nat, id: MsgId)
    requires Run(cfg, tr) && i <= |tr| && id in Final(cfg, tr[..i]).drafts && id in Final(cfg, tr).drafts
    requires Final(cfg, tr[..i]).drafts[id].state != PendingReview
    requires forall j :: i <= j < |tr| ==> !Creates(cfg, tr[j], id)
    ensures Final(cfg, tr).drafts[id] == Final(cfg, tr[..i]).drafts[id]
    decreases |tr|
  {
    var n := |tr| - 1;
    if i <= n {
      assert tr[..n][..i] == tr[..i];
      StepDraft(cfg, tr[n], id);
      DecidedForever(cfg, tr[..n], i, id);
    } else {
      assert tr[..i] == tr;
    }
  }
}
