/** The approval gate: the one authority on which verdict moves what. */
module Gate {
  import opened Ids

  /** The seven A2A thread states, and any other text someone may assert. */
  datatype ThreadState =
    Submitted | Working | InputRequired | Completed | Failed | Canceled | Rejected | OtherState(text: string)

  datatype DraftState = PendingReview | Sent | Discarded | OtherDraftState(text: string)

  datatype Direction = Inbound | Outbound | OtherDirection(text: string)

  datatype Verdict = Approve | Reject | OtherVerdict(text: string)

  datatype GateError = ErrUnknownState | ErrIllegalTransition | ErrNoGrant | ErrWrongDirection

  datatype Gated<+T> = Allowed(value: T) | Refused(error: GateError)

  /** What is up for a verdict; P is the payload, which the gate never inspects. */
  datatype Approvable<+P> = Approvable(direction: Direction, thread: nat, id: MsgId, payload: P)

  /** Proof that an outbound reply cleared the gate. */
  datatype Release<+P> = Release(thread: nat, id: MsgId, payload: P, viaGrant: bool)

  datatype Decision<+P> = Decision(state: DraftState, release: Mint<P>)

  datatype Mint<+P> = Minted(release: Release<P>) | NothingMinted

  datatype Grant = Grant(thread: nat, direction: Direction, revoked: bool) {
    predicate Covers<P>(a: Approvable<P>) {
      && !revoked && thread != EMPTY && (direction == Inbound || direction == Outbound)
      && thread == a.thread && direction == a.direction
    }
  }

  function ApplyInbound(current: ThreadState, v: Verdict): (r: Gated<ThreadState>)
    ensures r.Allowed? <==> current == InputRequired && (v == Approve || v == Reject)
    ensures r.Allowed? ==> (r.value == Working <==> v == Approve) && (r.value == Rejected <==> v == Reject)
    ensures r.Refused? ==> r.error == if current.OtherState? then ErrUnknownState else ErrIllegalTransition
  {
    if current.OtherState? then Refused(ErrUnknownState)
    else if current != InputRequired then Refused(ErrIllegalTransition)
    else
      match v
      case Approve => Allowed(Working)
      case Reject => Allowed(Rejected)
      case _ => Refused(ErrIllegalTransition)
  }

  /** A Release is minted exactly by approving a pending outbound draft, and for that draft. */
  function ApplyOutbound<P>(a: Approvable<P>, cur: DraftState, v: Verdict): (r: Gated<Decision<P>>)
    ensures r.Allowed? <==> a.direction == Outbound && cur == PendingReview && (v == Approve || v == Reject)
    ensures r.Allowed? && v == Approve ==>
              r.value.state == Sent && r.value.release == Minted(Release(a.thread, a.id, a.payload, false))
    ensures r.Allowed? && v == Reject ==> r.value.state == Discarded && r.value.release == NothingMinted
    ensures r == Refused(ErrWrongDirection) <==> a.direction != Outbound
    ensures r == Refused(ErrUnknownState) <==> a.direction == Outbound && cur.OtherDraftState?
    ensures r != Refused(ErrNoGrant)
  {
    if a.direction != Outbound then Refused(ErrWrongDirection)
    else if cur.OtherDraftState? then Refused(ErrUnknownState)
    else if cur != PendingReview then Refused(ErrIllegalTransition)
    else
      match v
      case Approve => Allowed(Decision(Sent, Minted(Release(a.thread, a.id, a.payload, false))))
      case Reject => Allowed(Decision(Discarded, NothingMinted))
      case _ => Refused(ErrIllegalTransition)
  }

  function ApplyInboundGrant<P>(g: Grant, a: Approvable<P>, cur: ThreadState): Gated<ThreadState> {
    if a.direction != Inbound then Refused(ErrWrongDirection)
    else if !g.Covers(a) then Refused(ErrNoGrant)
    else ApplyInbound(cur, Approve)
  }

  function ApplyOutboundGrant<P>(g: Grant, a: Approvable<P>, cur: DraftState): Gated<Decision<P>> {
    if !g.Covers(a) then Refused(ErrNoGrant)
    else
      match ApplyOutbound(a, cur, Approve)
      case Refused(e) => Refused(e)
      case Allowed(d) =>
        Allowed(if d.release.Minted? then d.(release := Minted(d.release.release.(viaGrant := true))) else d)
  }

  /** A grant moves a thread only where a human approval in its own direction would have. */
  lemma InboundGrantIsApproval<P>(g: Grant, a: Approvable<P>, cur: ThreadState)
    ensures ApplyInboundGrant(g, a, cur).Allowed? <==>
            && !g.revoked && g.thread != EMPTY && g.direction == Inbound && a.direction == Inbound
            && g.thread == a.thread && cur == InputRequired
    ensures ApplyInboundGrant(g, a, cur).Allowed? ==>
              ApplyInboundGrant(g, a, cur) == ApplyInbound(cur, Approve)
    ensures ApplyInboundGrant(g, a, cur) == Refused(ErrWrongDirection) <==> a.direction != Inbound
    ensures ApplyInboundGrant(g, a, cur) == Refused(ErrNoGrant) <==>
            a.direction == Inbound && (g.revoked || g.thread == EMPTY || g.direction != Inbound || g.thread != a.thread)
  {
  }

  lemma OutboundGrantIsApproval<P>(g: Grant, a: Approvable<P>, cur: DraftState)
    ensures ApplyOutboundGrant(g, a, cur).Allowed? <==>
            && !g.revoked && g.thread != EMPTY && g.direction == Outbound && a.direction == Outbound
            && g.thread == a.thread && cur == PendingReview
    ensures ApplyOutboundGrant(g, a, cur).Allowed? ==>
              ApplyOutboundGrant(g, a, cur).value ==
              Decision(Sent, Minted(Release(a.thread, a.id, a.payload, true)))
    ensures ApplyOutboundGrant(g, a, cur) == Refused(ErrNoGrant) <==>
            || g.revoked || g.thread == EMPTY || (g.direction != Inbound && g.direction != Outbound)
            || g.thread != a.thread || g.direction != a.direction
  {
  }
}
