/** Recovery episodes at the boundary between lwIP and the adapter: the hook's
    episode flags and markers next to the adapter's binding and PRR activity. */
module RecoveryHooks {
  import opened Words

  /** What the congestion controller and PRR reported during one callback. */
  datatype Outcome = Outcome(
    controllerOk: bool,     // controller accepted the event and its policy was applied
    prrCapable: bool,       // SACK negotiated, Reno or CUBIC bound
    triggerBytes: u32,      // bytes delivered by the triggering ACK
    recoverFs: u32,
    ssthresh: u32,
    prrApplied: bool)       // the PRR grant was representable

  /** Which controller family is bound: one of them owns its recovery window. */
  datatype Owner = LossBased | RecoveryOwner

  /** Whether PRR is active after an attempt to begin it. */
  function Begun(was: bool, o: Outcome): bool
  {
    if !o.prrCapable || o.triggerBytes == 0 || o.recoverFs == 0 || o.ssthresh == 0 then was else o.prrApplied
  }

  class Connection {
    // struct tcp_shift_lwip_cc_hook
    var enterEvents: nat
    var exitEvents: nat
    var endSeq: u32
    var active: bool
    var exitPending: bool
    var controllerOwned: bool
    // struct tcp_shift_lwip_cc_adapter
    var bound: bool
    var prrActive: bool
    const owner: Owner
    /** Episodes ended by a retransmission timeout. */
    ghost var cancelled: nat

    /** Holds at every hook boundary. */
    ghost predicate Valid()
      reads this
    {
      && (bound && prrActive ==> active)
      && (controllerOwned ==> active)
      && (!active ==> endSeq == 0)
      && (exitPending ==> !active)
      && enterEvents == exitEvents + cancelled + (if active then 1 else 0)
    }

    /** Within an episode the end marker stands still and no event is counted twice. */
    twostate predicate SameEpisode()
      reads this
    {
      && (old(active) && active ==> endSeq == old(endSeq) && enterEvents == old(enterEvents))
      && (active == old(active) ==>
           enterEvents == old(enterEvents) && exitEvents == old(exitEvents) && cancelled == old(cancelled))
    }

    constructor (owner: Owner)
      ensures Valid() && bound && !active && enterEvents == 0 && this.owner == owner
    {
      enterEvents, exitEvents, endSeq, cancelled := 0, 0, 0, 0;
      active, exitPending, controllerOwned, prrActive, bound := false, false, false, false, true;
      this.owner := owner;
    }

    method MarkEnter(sndNxt: u32)
      modifies this`endSeq, this`active, this`exitPending, this`enterEvents
      ensures old(active) ==>
        endSeq == old(endSeq) && exitPending == old(exitPending) && enterEvents == old(enterEvents)
      ensures !old(active) ==> endSeq == sndNxt && !exitPending && enterEvents == old(enterEvents) + 1
      ensures active
    {
      if active { return; }
      endSeq, active, exitPending := sndNxt, true, false;
      enterEvents := enterEvents + 1;
    }

    method MarkExit()
      modifies this`active, this`exitPending, this`controllerOwned, this`endSeq, this`exitEvents
      ensures !active
      ensures !old(active) ==>
        && exitPending == old(exitPending) && endSeq == old(endSeq)
        && exitEvents == old(exitEvents) && controllerOwned == old(controllerOwned)
      ensures old(active) ==> exitPending && !controllerOwned && endSeq == 0 && exitEvents == old(exitEvents) + 1
    {
      if !active { return; }
      active, exitPending, controllerOwned, endSeq := false, true, false, 0;
      exitEvents := exitEvents + 1;
    }

    /** `tcp_shift_lwip_cc_prr_begin`: PRR is active afterwards if it started, or
        if it was active and could not be restarted. */
    method PrrBegin(o: Outcome)
      modifies this`prrActive
      ensures prrActive == Begun(old(prrActive), o)
    {
      if !o.prrCapable || o.triggerBytes == 0 || o.recoverFs == 0 || o.ssthresh == 0 { return; }
      prrActive := true;
      if !o.prrApplied { prrActive := false; }
    }

    /** `tcp_shift_lwip_cc_hook_loss`: a handled loss opens an episode, or joins the current one. */
    method Loss(lost: u32, sndNxt: u32, o: Outcome) returns (handled: bool)
      requires Valid()
      modifies this
      ensures Valid() && SameEpisode() && exitEvents == old(exitEvents) && cancelled == old(cancelled)
      ensures handled == (old(bound) && lost != 0 && o.controllerOk)
      ensures handled ==> active && bound && (!old(active) ==> endSeq == sndNxt && enterEvents == old(enterEvents) + 1)
      ensures handled ==> if owner == RecoveryOwner then controllerOwned && prrActive == old(prrActive)
                          else prrActive == Begun(old(prrActive), o) && controllerOwned == old(controllerOwned)
      ensures !handled ==> active == old(active) && bound == (old(bound) && lost == 0) && prrActive == old(prrActive)
    {
      if !bound || lost == 0 { return false; }
      if !o.controllerOk {
        bound := false;
        return false;
      }
      if owner == LossBased { PrrBegin(o); } else { controllerOwned := true; }
      MarkEnter(sndNxt);
      return true;
    }

    /** `tcp_shift_lwip_cc_hook_rack_retrans_loss`: more congestion, same episode. */
    method RackRetransLoss(lost: u32, o: Outcome) returns (handled: bool)
      requires Valid()
      modifies this`bound, this`prrActive
      ensures Valid() && active == old(active) && endSeq == old(endSeq) && enterEvents == old(enterEvents)
      ensures handled == (old(bound) && lost != 0 && o.controllerOk)
      ensures bound == (old(bound) && (lost == 0 || o.controllerOk || owner == RecoveryOwner))
      ensures prrActive == if handled && owner == LossBased && old(prrActive) then Begun(true, o) else old(prrActive)
    {
      if !bound || lost == 0 { return false; }
      if !o.controllerOk {
        if owner == LossBased { bound := false; }
        return false;
      }
      if owner == LossBased && prrActive { PrrBegin(o); }
      return true;
    }

    /** `tcp_shift_lwip_cc_hook_tlp_loss`: a congestion response outside any episode bookkeeping. */
    method TlpLoss(lost: u32, o: Outcome) returns (handled: bool)
      requires Valid()
      modifies this`bound
      ensures Valid() && handled == (old(bound) && lost != 0 && o.controllerOk)
      ensures bound == (old(bound) && (lost == 0 || o.controllerOk || owner == RecoveryOwner))
    {
      if !bound || lost == 0 { return false; }
      if !o.controllerOk {
        if owner == LossBased { bound := false; }
        return false;
      }
      return true;
    }

    /** `tcp_shift_lwip_cc_on_ack_observe`: an ACK of nothing is ignored; a failure to
        prepare the observation (the smoothed RTT, or a refused tail-loss response) or
        to apply PRR unbinds the adapter. */
    method AckSeen(acked: u32, prepared: bool, prrApplied: bool) returns (handled: bool)
      requires Valid()
      modifies this`bound
      ensures Valid() && handled == (old(bound) && acked != 0 && prepared && (!prrActive || prrApplied))
      ensures bound == (old(bound) && (acked == 0 || handled))
    {
      if !bound || acked == 0 { return false; }
      if !prepared || (prrActive && !prrApplied) {
        bound := false;
        return false;
      }
      return true;
    }

    /** `tcp_shift_lwip_cc_on_sack` up to the controller: blocks that deliver nothing
        change nothing; PRR is applied here only when no cumulative ACK follows. */
    method SackSeen(newly: u32, advances: bool, srttOk: bool, prrApplied: bool, policyOk: bool) returns (handled: bool)
      requires Valid()
      modifies this`bound
      ensures Valid()
      ensures handled == (old(bound) && (newly == 0 || (srttOk && (!prrActive || advances || prrApplied) && policyOk)))
      ensures bound == handled
    {
      if !bound { return false; }
      if newly == 0 { return true; }
      if !srttOk || (prrActive && !advances && !prrApplied) || !policyOk {
        bound := false;
        return false;
      }
      return true;
    }

    /** `tcp_shift_lwip_cc_hook_recovery_exit`: closes the episode whatever the adapter says. */
    method RecoveryExit(ssthresh: u32, cwndLimit: u32, exitOk: bool) returns (handled: bool)
      requires Valid()
      modifies this
      ensures Valid() && !active && cancelled == old(cancelled) && enterEvents == old(enterEvents)
      ensures exitEvents == old(exitEvents) + (if old(active) then 1 else 0)
      ensures bound ==> !prrActive
    {
      handled := false;
      if active { handled := OnRecoveryExit(ssthresh, cwndLimit, exitOk); }
      MarkExit();
    }

    method OnRecoveryExit(ssthresh: u32, cwndLimit: u32, exitOk: bool) returns (handled: bool)
      modifies this`prrActive, this`bound
      ensures bound == (old(bound) && (!old(prrActive) || 0 < ssthresh <= cwndLimit))
      ensures bound ==> !prrActive
      ensures handled == (bound && if owner == RecoveryOwner then controllerOwned && exitOk else old(prrActive))
    {
      if !bound { return false; }
      handled := false;
      if prrActive {
        if ssthresh == 0 {
          bound := false;
          return false;
        }
        prrActive := false;
        if ssthresh > cwndLimit {
          bound := false;
          return false;
        }
        handled := true;
      }
      if owner == RecoveryOwner { handled := controllerOwned && exitOk; }
    }

    /** `tcp_shift_lwip_cc_hook_timeout`: an RTO ends the episode even when the
        controller callback fails. */
    method Timeout(controllerOk: bool) returns (handled: bool)
      requires Valid()
      modifies this
      ensures Valid() && handled == (old(bound) && controllerOk) && bound == handled
      ensures !active && !exitPending == (!old(exitPending) || handled)
      ensures enterEvents == old(enterEvents) && exitEvents == old(exitEvents)
      ensures cancelled == old(cancelled) + (if old(active) then 1 else 0)
      ensures bound ==> !prrActive
    {
      handled := false;
      if bound {
        prrActive := false;
        if controllerOk { handled := true; } else { bound := false; }
      }
      if handled || active || controllerOwned {
        if active { cancelled := cancelled + 1; }
        active, exitPending, controllerOwned, endSeq := false, false, false, 0;
      }
    }
  }
}
