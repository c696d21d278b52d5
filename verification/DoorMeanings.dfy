/**
  * What each door of the ledger does, said of who holds which number rather than of how the door
  * works: when it takes, what it then changes, and that it changes nothing else.
  */
module DoorMeanings {
  import opened Basics
  import opened Reserver
  import opened Ledgers
  import opened LedgerInvariant
  import LedgerRuns

  /** Of the numbers in `mine` those are out that are burnt or held; the others are as they were. */
  ghost predicate OutIffNeeded(l: Ledger, l': Ledger, mine: set<Slot>) {
    && (forall s | s in mine :: s in l'.reserved <==> s in l'.spent || IsHeld(l', s))
    && (forall s | s !in mine :: s in l'.reserved <==> s in l.reserved)
  }

  /** Only this send changed, and numbers. */
  predicate OnlySend(l: Ledger, l': Ledger, id: Id) {
    && l'.claims == l.claims && l'.lastClaim == l.lastClaim && l'.lastTicket == l.lastTicket && l'.stranded == l.stranded
    && l'.jobs.Keys == l.jobs.Keys && forall other | other in l.jobs && other != id :: l'.jobs[other] == l.jobs[other]
  }

  ghost function SlotSet(j: Job): (slots: set<Slot>)
    ensures forall s :: s in slots <==> exists i :: 0 <= i < |j.legs| && j.SlotOf(i) == s
  {
    set i | 0 <= i < |j.legs| :: j.SlotOf(i)
  }

  // ---- Writing a send's numbers

  lemma SyncedNumbers(l: Ledger, id: Id)
    requires id in l.jobs
    ensures var l' := SyncNonce(l, id);
            && l' == l.(reserved := l'.reserved, spent := l'.spent)
            && (forall s :: s in l'.spent <==> s in l.spent || JobSpent(l.jobs[id], s))
            && (forall s | s !in SlotSet(l.jobs[id]) :: s in l'.reserved <==> s in l.reserved)
            && (forall h, s :: Holds(l', h, s) <==> Holds(l, h, s))
  {
    var j := l.jobs[id];
    forall s | s in SpentSlots(j) + UnspentSlots(j) ensures s in SlotSet(j) {
      if s in SpentSlots(j) { assert JobSpent(j, s); }
    }
    var burnt := l.(reserved := l.reserved + SpentSlots(j), spent := l.spent + SpentSlots(j));
    ReleaseFrame(burnt, UnspentSlots(j));
    assert forall h, s :: Holds(burnt, h, s) <==> Holds(l, h, s);
  }

  /** After it, the send's numbers are out exactly while they are burnt or held. */
  lemma SyncedIsNeeded(l: Ledger, id: Id, was: Ledger)
    requires id in l.jobs && was.reserved == l.reserved && Inv(SyncNonce(l, id))
    ensures OutIffNeeded(was, SyncNonce(l, id), SlotSet(l.jobs[id]))
  {
    var l', j := SyncNonce(l, id), l.jobs[id];
    SyncedNumbers(l, id);
    forall s | s in SlotSet(j) ensures s in l'.reserved <==> s in l'.spent || IsHeld(l', s) {
      if s in l'.spent || IsHeld(l', s) {
        if IsHeld(l', s) { var h :| Holds(l', h, s); }
      } else {
        NotNeededIsGiven(l, id, s);
      }
    }
  }

  lemma NotNeededIsGiven(l: Ledger, id: Id, s: Slot)
    requires id in l.jobs && s in SlotSet(l.jobs[id])
    requires s !in SyncNonce(l, id).spent && !IsHeld(SyncNonce(l, id), s)
    ensures s !in SyncNonce(l, id).reserved
  {
    var j := l.jobs[id];
    var i :| 0 <= i < |j.legs| && j.SlotOf(i) == s;
    var burnt := l.(reserved := l.reserved + SpentSlots(j), spent := l.spent + SpentSlots(j));
    SyncedNumbers(l, id);
    assert !JobSpent(j, s);
    assert !j.LegSpent(i) && s in UnspentSlots(j);
    if IsHeld(burnt, s) {
      var h :| Holds(burnt, h, s);
      assert Holds(SyncNonce(l, id), h, s);
    }
  }

  // ---- Settling and cancelling

  /**
    * A settle is written exactly when no ticket is out that is not the caller's, and the send is
    * unsettled, or a ticket brings the hash of one that settled otherwise.
    */
  lemma WhatASettleDoes(l: Ledger, id: Id, status: Status, ticket: Option<nat>)
    requires Inv(l)
    ensures var outcome, l' := SettleOutcome(l, id, status, ticket), Settle(l, id, status, ticket);
            && (outcome.NoSuchSend? <==> id !in l.jobs)
            && (outcome.Written? <==>
                  && id in l.jobs
                  && (l.jobs[id].broadcast.Some? ==> ticket.Some? && l.jobs[id].OwnedBy(ticket.value))
                  && (l.jobs[id].status.AwaitingApproval? || (status.Broadcast? && ticket.Some? && !l.jobs[id].status.Broadcast?)))
            && (!outcome.Written? ==> l' == l)
            && (outcome.Written? ==> WritesStatus(l, l', id, status) && (outcome.changed <==> l.jobs[id].status != status))
  {
    if SettleOutcome(l, id, status, ticket).Written? {
      SettleKeeps(l, id, status, ticket);
      WritingAStatus(l, id, status);
    }
  }

  /** The send has the status; its numbers are out while burnt or held, its departed legs burnt; nothing else changed. */
  ghost predicate WritesStatus(l: Ledger, l': Ledger, id: Id, status: Status)
    requires id in l.jobs
  {
    && OnlySend(l, l', id) && l'.jobs[id] == l.jobs[id].(status := status)
    && (forall s :: s in l'.spent <==> s in l.spent || JobSpent(l'.jobs[id], s))
    && (forall i | 0 <= i < |l.jobs[id].legs| && (status.Broadcast? || l.jobs[id].legs[i].left) :: l.jobs[id].SlotOf(i) in l'.spent)
    && OutIffNeeded(l, l', SlotSet(l.jobs[id]))
  }

  lemma WritingAStatus(l: Ledger, id: Id, status: Status)
    requires id in l.jobs && Inv(l) && Inv(SyncNonce(WriteStatus(l, id, status), id))
    ensures WritesStatus(l, SyncNonce(WriteStatus(l, id, status), id), id, status)
  {
    var m := WriteStatus(l, id, status);
    var j, k := l.jobs[id], m.jobs[id];
    assert forall i | 0 <= i < |j.legs| :: k.SlotOf(i) == j.SlotOf(i);
    assert SlotSet(k) == SlotSet(j);
    SyncedNumbers(m, id);
    SyncedIsNeeded(m, id, l);
    forall i | 0 <= i < |j.legs| && (status.Broadcast? || j.legs[i].left) ensures JobSpent(k, j.SlotOf(i)) {
      assert k.LegSpent(i);
    }
  }

  /**
    * A cancel is accepted exactly while the send is unsettled and no broadcast owns it. It then
    * answers the cancelled send as stored; the number of each of its calls is out only if it was burnt,
    * or somebody else holds it; nothing is burnt. A refused one changes nothing, and says which it was.
    */
  lemma WhatACancelDoes(l: Ledger, id: Id)
    requires Inv(l)
    ensures var (l', answer) := ClaimCancel(l, id);
            && (answer.Ok? <==> id in l.jobs && l.jobs[id].status.AwaitingApproval? && l.jobs[id].broadcast.None?)
            && (answer.Err? ==> l' == l)
            && (answer == Err(NoSend) <==> id !in l.jobs)
            && (answer == Err(AlreadySettled) <==> id in l.jobs && !l.jobs[id].status.AwaitingApproval?)
            && (answer == Err(BeingBroadcast) <==>
                  id in l.jobs && l.jobs[id].status.AwaitingApproval? && l.jobs[id].broadcast.Some?)
            && (answer.Ok? ==> Cancels(l, l', id) && answer.value == l'.jobs[id])
  {
    var (l', answer) := ClaimCancel(l, id);
    if answer.Ok? {
      WhatASettleDoes(l, id, Cancelled, None);
      CancellingBurnsNothing(l, l', id);
      forall i | 0 <= i < |l.jobs[id].legs| && !l.jobs[id].legs[i].left
        ensures l.jobs[id].SlotOf(i) in l'.reserved <==> l.jobs[id].SlotOf(i) in l.spent || HeldElsewhere(l, id, l.jobs[id].SlotOf(i))
      {
        OnlyOthersHoldIt(l, l', id, i);
      }
    }
  }

  ghost predicate HeldElsewhere(l: Ledger, id: Id, s: Slot) {
    exists h :: h != ByJob(id) && Holds(l, h, s)
  }

  ghost predicate Cancels(l: Ledger, l': Ledger, id: Id)
    requires id in l.jobs
  {
    && OnlySend(l, l', id) && l'.jobs[id] == l.jobs[id].(status := Cancelled) && l'.spent == l.spent
    && (forall i | 0 <= i < |l.jobs[id].legs| && !l.jobs[id].legs[i].left ::
          l.jobs[id].SlotOf(i) in l'.reserved <==> l.jobs[id].SlotOf(i) in l.spent || HeldElsewhere(l, id, l.jobs[id].SlotOf(i)))
    && (forall s | s !in SlotSet(l.jobs[id]) :: s in l'.reserved <==> s in l.reserved)
  }

  lemma CancellingBurnsNothing(l: Ledger, l': Ledger, id: Id)
    requires Inv(l) && id in l.jobs && !l.jobs[id].status.Broadcast? && WritesStatus(l, l', id, Cancelled)
    ensures l'.spent == l.spent
  {
    var j, k := l.jobs[id], l'.jobs[id];
    forall t | JobSpent(k, t) ensures t in l.spent {
      var n :| 0 <= n < |k.legs| && k.SlotOf(n) == t && k.LegSpent(n);
      assert j.SlotOf(n) == t && j.LegSpent(n) && JobSpent(j, t);
    }
  }

  lemma OnlyOthersHoldIt(l: Ledger, l': Ledger, id: Id, i: nat)
    requires Inv(l) && id in l.jobs && WritesStatus(l, l', id, Cancelled) && i < |l.jobs[id].legs| && !l.jobs[id].legs[i].left
    requires !l.jobs[id].status.Broadcast?
    ensures l.jobs[id].SlotOf(i) in l'.reserved <==> l.jobs[id].SlotOf(i) in l.spent || HeldElsewhere(l, id, l.jobs[id].SlotOf(i))
  {
    var j, k, s := l.jobs[id], l'.jobs[id], l.jobs[id].SlotOf(i);
    CancellingBurnsNothing(l, l', id);
    forall n | 0 <= n < |k.legs| && k.HoldsLeg(n) ensures k.SlotOf(n) != s {
      assert j.legs[n].left && n != i;
    }
    assert forall h | h != ByJob(id) :: Holds(l', h, s) <==> Holds(l, h, s);
    assert IsHeld(l', s) <==> HeldElsewhere(l, id, s) by {
      if IsHeld(l', s) { var h :| Holds(l', h, s); assert h != ByJob(id); }
      if HeldElsewhere(l, id, s) { var h :| h != ByJob(id) && Holds(l, h, s); assert Holds(l', h, s); }
    }
  }

  // ---- Broadcasting

  /** A broadcast is claimed exactly while the send is unsettled and unclaimed, with a ticket never given before. */
  lemma WhatAClaimDoes(l: Ledger, id: Id, now: nat)
    requires Inv(l)
    ensures var (l', answer) := ClaimBroadcast(l, id, now);
            && (answer.Unknown? <==> id !in l.jobs)
            && (answer.Settled? <==> id in l.jobs && !l.jobs[id].status.AwaitingApproval?)
            && (answer.InFlight? <==> id in l.jobs && l.jobs[id].status.AwaitingApproval? && l.jobs[id].broadcast.Some?)
            && (!answer.Claimed? ==> l' == l)
            && (answer.Claimed? ==>
                  && l' == l.(jobs := l'.jobs, lastTicket := l'.lastTicket)
                  && OnlySend(l, l'.(lastTicket := l.lastTicket), id)
                  && l'.jobs[id].OwnedBy(answer.ticket) && l'.jobs[id] == l.jobs[id].(broadcast := l'.jobs[id].broadcast)
                  && (forall t: nat, other | other in l.jobs && l.jobs[other].OwnedBy(t) :: t < answer.ticket <= l'.lastTicket)
                  && Reports(l'.jobs[id], now))
  {
    var (l', answer) := ClaimBroadcast(l, id, now);
    if answer.Claimed? { AClaimedSendReports(l'.jobs[id], now); }
  }

  /** Claimed at `since`: it is being broadcast for three minutes, and stuck from then on. */
  ghost predicate Reports(j: Job, since: nat) {
    forall t: nat :: j.ReportedStatus(t) == if t >= since + 180 then "stuck" else "broadcasting"
  }

  lemma AClaimedSendReports(j: Job, since: nat)
    requires j.status.AwaitingApproval? && j.broadcast.Some? && j.broadcast.value.claimedAt == since
    ensures Reports(j, since)
  {}

  /** What is reported of a send, word by word, and that just two of the words are not final. */
  lemma WhatIsReported(j: Job, now: nat)
    ensures var word := j.ReportedStatus(now);
            && (word == "awaitingApproval" <==> j.status.AwaitingApproval? && j.broadcast.None?)
            && (word == "broadcasting" <==> j.status.AwaitingApproval? && j.broadcast.Some? && now < j.broadcast.value.claimedAt + 180)
            && (word == "stuck" <==> j.status.AwaitingApproval? && j.broadcast.Some? && now >= j.broadcast.value.claimedAt + 180)
            && (word == "broadcast" <==> j.status.Broadcast?)
            && (word == "rejected" <==> j.status.Rejected?)
            && (word == "cancelled" <==> j.status.Cancelled?)
            && (word == "failed" <==> j.status.Failed?)
            && (j.IsFinal(now) <==> word != "awaitingApproval" && word != "broadcasting")
  {}

  /** Under its ticket, and nobody else's, a call that exists may leave: it is marked, and its number is burnt. */
  lemma WhatLeavingDoes(l: Ledger, id: Id, ticket: nat, leg: nat)
    requires Inv(l)
    ensures var (l', mayLeave) := Leaving(l, id, ticket, leg);
            && (mayLeave <==> id in l.jobs && l.jobs[id].OwnedBy(ticket) && leg < |l.jobs[id].legs|)
            && (!mayLeave ==> l' == l)
            && (mayLeave ==>
                  && OnlySend(l, l', id) && OnlyLeg(l.jobs[id], l'.jobs[id], leg)
                  && l'.jobs[id].legs[leg] == l.jobs[id].legs[leg].(left := true)
                  && l.jobs[id].SlotOf(leg) in l'.spent
                  && (forall s :: s in l'.spent <==> s in l.spent || JobSpent(l'.jobs[id], s))
                  && OutIffNeeded(l, l', SlotSet(l.jobs[id])))
  {
    var (l', mayLeave) := Leaving(l, id, ticket, leg);
    if mayLeave {
      var m := MarkLeft(l, id, leg);
      LeavingKeeps(l, id, ticket, leg);
      assert forall i | 0 <= i < |l.jobs[id].legs| :: m.jobs[id].SlotOf(i) == l.jobs[id].SlotOf(i);
      assert SlotSet(m.jobs[id]) == SlotSet(l.jobs[id]);
      assert m.jobs[id].LegSpent(leg) && JobSpent(m.jobs[id], l.jobs[id].SlotOf(leg));
      SyncedNumbers(m, id);
      SyncedIsNeeded(m, id, l);
    }
  }

  /** The send is as it was but for one leg. */
  predicate OnlyLeg(j: Job, k: Job, leg: nat) {
    && k == j.(legs := k.legs) && |k.legs| == |j.legs| && leg < |j.legs|
    && forall i | 0 <= i < |j.legs| && i != leg :: k.legs[i] == j.legs[i]
  }

  /** A hash is taken exactly under the ticket and by a leg already gone, which then carries it; nothing else changed. */
  lemma WhatLandingDoes(l: Ledger, id: Id, ticket: nat, leg: nat, hash: string)
    ensures var (l', took) := Landed(l, id, ticket, leg, hash);
            && (took <==> id in l.jobs && l.jobs[id].OwnedBy(ticket) && leg < |l.jobs[id].legs| && l.jobs[id].legs[leg].left)
            && (!took ==> l' == l)
            && (took ==>
                  && OnlySend(l, l', id) && l' == l.(jobs := l'.jobs) && OnlyLeg(l.jobs[id], l'.jobs[id], leg)
                  && l'.jobs[id].legs[leg] == l.jobs[id].legs[leg].(hash := Some(hash)))
  {}

  // ---- Claims

  /**
    * A claim is opened exactly for one to eight calls, and on a pinned number exactly for one call
    * while nobody has yet to leave there. It has a number for each call, which are then reserved; a
    * pinned one names what it takes over exactly when the number was out. Nothing else changes.
    */
  lemma WhatOpeningDoes(l: Ledger, account: Account, reading: nat, count: nat, pinned: Option<nat>,
                        l': Ledger, answer: Result<nat, OpenError>)
    requires Inv(l) && Opens(l, account, reading, count, pinned, l', answer)
    ensures answer == Err(BadCount) <==> !(1 <= count <= 8)
    ensures answer == Err(PinnedBundle) <==> 2 <= count <= 8 && pinned.Some?
    ensures answer == Err(OpenError.HeldUnleft) <==> count == 1 && pinned.Some? && IsHeldUnleft(l, Slot(account, pinned.value))
    ensures answer.Err? ==> l' == l
    ensures answer.Ok? ==> Claims(l, l', answer.value) && l'.claims[answer.value].account == account
    ensures answer.Ok? ==> |l'.claims[answer.value].nonces| == count
    ensures answer.Ok? && pinned.Some? ==>
              var c := l'.claims[answer.value];
              c.nonces == [pinned.value] && (c.replacing.None? <==> Slot(account, pinned.value) !in l.reserved + l.spent)
    ensures answer.Ok? && pinned.None? ==>
              var c := l'.claims[answer.value];
              c.replacing.None? && LeastFreeRun(c.nonces, Taken(l, account), reading)
  {
    match pinned
    case None =>
      if answer.Ok? { FreeRunIsTheLeastFree(Taken(l, account), reading, count); }
    case Some(n) =>
      var s := Slot(account, n);
      assert IsHeldUnleft(l, s) ==> s in l.reserved by {
        if IsHeldUnleft(l, s) { var h :| HoldsUnleft(l, h, s); UnleftHolds(l, h, s); }
      }
      assert SlotsOf(account, [n]) == {s} by { assert n in [n]; }
      if answer.Ok? && s in l.reserved + l.spent {
        var r :| PinNames(l, s, r) && l' == OpenReplacing(l, s, r);
        assert r.Send? ==> s in l.spent;
      }
  }

  /** One new claim, under a number never used, its numbers reserved; nothing else changed. */
  ghost predicate Claims(l: Ledger, l': Ledger, claim: nat) {
    && (forall c | c in l.claims :: c < claim) && claim in l'.claims && l'.claims == l.claims[claim := l'.claims[claim]]
    && claim <= l'.lastClaim && l' == l.(claims := l'.claims, reserved := l'.reserved, lastClaim := l'.lastClaim)
    && l'.reserved == l.reserved + SlotsOf(l'.claims[claim].account, l'.claims[claim].nonces)
  }

  /** The claim's numbers pass to a send that waits for its approval; none of them is freed, burnt or lost on the way. */
  lemma WhatACommitDoes(l: Ledger, claim: nat, id: Id, draft: Job)
    requires Inv(l) && claim in l.claims && FreshDraft(draft, |l.claims[claim].nonces|)
    ensures var l', c := Commit(l, claim, id, draft), l.claims[claim];
            && l' == l.(jobs := l'.jobs, claims := l'.claims, stranded := l'.stranded)
            && claim !in l'.claims && (forall o | o in l.claims && o != claim :: o in l'.claims && l'.claims[o] == l.claims[o])
            && l'.jobs == l.jobs[id := l'.jobs[id]]
            && (forall i | 0 <= i < |c.nonces| :: i < |l'.jobs[id].legs| && l'.jobs[id].legs[i] == Leg(c.nonces[i], false, None))
            && |l'.jobs[id].legs| == |c.nonces|
            && l'.jobs[id].account == c.account && l'.jobs[id].replacing == c.replacing
            && l'.jobs[id].status.AwaitingApproval? && l'.jobs[id].broadcast.None?
            && (forall s :: s in l'.stranded <==>
                  (s in l.stranded || (id in l.jobs && s in SlotSet(l.jobs[id]) && exists t :: JobHolds(l.jobs[id], t))))
  {
    var l', c := Commit(l, claim, id, draft), l.claims[claim];
    FromClaimHolds(c, draft, Slot(c.account, 0));
    if id in l.jobs {
      var j := l.jobs[id];
      forall s ensures s in j.Slots() <==> s in SlotSet(j) {
        if s in SlotSet(j) { var i :| 0 <= i < |j.legs| && j.SlotOf(i) == s; assert j.Slots()[i] == s; }
        if s in j.Slots() { var i :| 0 <= i < |j.Slots()| && j.Slots()[i] == s; assert j.SlotOf(i) == s; }
      }
      if j.HoldsNonce() {
        var i :| 0 <= i < |j.legs| && j.HoldsLeg(i);
        assert JobHolds(j, j.SlotOf(i));
      }
      if t :| JobHolds(j, t) { OverwrittenIsStranded(j, t); }
    }
  }

  /** A dropped claim leaves its numbers out exactly while they are burnt or somebody else holds them. */
  lemma WhatAbandoningDoes(l: Ledger, claim: nat)
    requires Inv(l) && claim in l.claims
    ensures var l', c := Abandon(l, claim), l.claims[claim];
            && l' == l.(claims := l.claims - {claim}, reserved := l'.reserved)
            && OutIffNeeded(l, l', SlotsOf(c.account, c.nonces))
  {
    var c := l.claims[claim];
    var dropped := l.(claims := l.claims - {claim});
    var slots := SlotsOf(c.account, c.nonces);
    var l' := Release(dropped, slots);
    AbandonKeeps(l, claim);
    ReleaseFrame(dropped, slots);
    forall s | s in slots ensures s in l'.reserved <==> s in l'.spent || IsHeld(l', s) {
      assert IsHeld(l', s) <==> IsHeld(dropped, s);
    }
  }

  // ---- Over runs

  lemma {:induction false} ATicketIsKept(ls: seq<Ledger>, ds: seq<Door>, i: nat, k: nat, id: Id)
    requires LedgerRuns.IsRun(ls, ds) && LedgerRuns.FreshIds(ls, ds) && i <= k < |ls|
    requires id in ls[i].jobs && ls[i].jobs[id].broadcast.Some?
    ensures id in ls[k].jobs && ls[k].jobs[id].broadcast == ls[i].jobs[id].broadcast
    decreases k
  {
    if i < k {
      ATicketIsKept(ls, ds, i, k - 1, id);
      assert Step(ls[k - 1], ds[k - 1], ls[k - 1 + 1]);
    }
  }

  /**
    * Whatever happens after a broadcast was claimed at `now`, until it is settled the send is reported
    * as being broadcast for three minutes and as stuck from then on; and its ticket stays the only one.
    */
  lemma AClaimedSendIsStuckAfterThreeMinutes(ls: seq<Ledger>, ds: seq<Door>, i: nat, k: nat, id: Id, now: nat)
    requires LedgerRuns.IsRun(ls, ds) && LedgerRuns.FreshIds(ls, ds) && i < k < |ls|
    requires ds[i] == DoClaimBroadcast(id, now) && ClaimBroadcast(ls[i], id, now).1.Claimed?
    ensures id in ls[k].jobs && ls[k].jobs[id].OwnedBy(ClaimBroadcast(ls[i], id, now).1.ticket)
    ensures ls[k].jobs[id].status.AwaitingApproval? ==> Reports(ls[k].jobs[id], now)
  {
    assert Step(ls[i], ds[i], ls[i + 1]);
    ATicketIsKept(ls, ds, i + 1, k, id);
    if ls[k].jobs[id].status.AwaitingApproval? { AClaimedSendReports(ls[k].jobs[id], now); }
  }
}
