/**
  * What the interleavings guarantee about money: two sends leave on one number only when the
  * later was told to replace the earlier, and no leg goes out twice.
  */
module Money {
  import opened Basics
  import opened Reserver
  import opened Ledgers
  import opened LedgerInvariant
  import LedgerRuns
  import DoorMeanings
  import Roots
  import opened Dispatch
  import opened DispatchProofs

  /** A history of one process: any number of sends, polls and cancels, in any interleaving. */
  ghost predicate IsHistory(ws: seq<World>, es: seq<Event>) {
    && |ws| == |es| + 1
    && ws[0] == START
    && forall i | 0 <= i < |es| :: Next(ws[i], es[i], ws[i + 1])
  }

  ghost predicate Reachable(w: World) {
    exists ws, es :: IsHistory(ws, es) && ws[|es|] == w
  }

  lemma {:induction false} EveryHistoryKeeps(ws: seq<World>, es: seq<Event>, k: nat)
    requires IsHistory(ws, es) && k < |ws|
    ensures WorldInv(ws[k])
  {
    if k == 0 {
      EmptyHoldsNothing();
    } else {
      EveryHistoryKeeps(ws, es, k - 1);
      EveryEventKeeps(ws[k - 1], es[k - 1], ws[k]);
    }
  }

  lemma PollsAreOk(ws: seq<World>, es: seq<Event>, k: nat)
    requires IsHistory(ws, es) && k < |ws|
    ensures PollsOk(ws[k]) && Numbered(ws[k].ledger)
  {
    EveryHistoryKeeps(ws, es, k);
  }

  lemma ReachableIsSound(w: World)
    requires Reachable(w)
    ensures WorldInv(w)
  {
    var ws, es :| IsHistory(ws, es) && ws[|es|] == w;
    EveryHistoryKeeps(ws, es, |es|);
  }

  // ---- Two sends at one number

  /**
    * If two transactions left at one number, they belong to different sends and the later was
    * pinned: it names a send that had left there before the later's claim was opened.
    */
  lemma ALaterLeaverReplacesAnEarlierOne(w: World, earlier: nat, later: nat)
    requires Reachable(w) && earlier < later < |w.log| && w.log[earlier].slot == w.log[later].slot
    ensures w.log[earlier].id != w.log[later].id
    ensures w.log[later].replacing.Some? && w.log[later].replacing.value.Send?
    ensures exists k | 0 <= k < w.log[later].born ::
              k < later && w.log[k].id == w.log[later].replacing.value.id && w.log[k].slot == w.log[later].slot
    ensures w.log[later].born <= later
  {
    ReachableIsSound(w);
    var before := w.log[..later];
    assert before[earlier].slot == w.log[later].slot && Logged(before, w.log[later].slot);
    assert Lineage(before, w.seeded, w.log[later].slot, w.log[later].replacing, w.log[later].born);
    var x := w.log[later].replacing.value.id;
    var k :| 0 <= k < |before| && k < w.log[later].born && before[k].id == x && before[k].slot == w.log[later].slot;
    assert w.log[k] == before[k];
    assert EntryOk(w, w.log[earlier]) && EntryOk(w, w.log[later]);
    var j := w.ledger.jobs[w.log[later].id];
    assert DistinctLegs(j);
  }

  predicate IsRoot(d: Departure) { Roots.NamesNobody(d.replacing) }

  /**
    * The sends that left at one number form a tree with exactly one root: the first to leave,
    * which is unnamed, or took over a number a previous process had burnt.
    */
  lemma OneRootPerNumber(w: World, k: nat)
    requires Reachable(w) && k < |w.log|
    ensures IsRoot(w.log[k]) <==> forall m | 0 <= m < k :: w.log[m].slot != w.log[k].slot
    ensures w.log[k].replacing == Some(Departed) ==> w.log[k].slot in w.seeded
  {
    ReachableIsSound(w);
    assert Lineage(w.log[..k], w.seeded, w.log[k].slot, w.log[k].replacing, w.log[k].born);
    assert forall m | 0 <= m < k :: w.log[..k][m] == w.log[m];
    if m :| 0 <= m < k && w.log[m].slot == w.log[k].slot {
      ALaterLeaverReplacesAnEarlierOne(w, m, k);
    }
  }

  // ---- One leg, one departure

  /** Every leg is handed to the broadcast at most once, and exactly the departed legs were. */
  lemma EveryLegLeavesAtMostOnce(w: World, id: Id, leg: nat)
    requires Reachable(w) && id in w.ledger.jobs && leg < |w.ledger.jobs[id].legs|
    ensures w.ledger.jobs[id].legs[leg].left <==> LogHas(w.log, id, leg)
    ensures forall k, m | 0 <= k < m < |w.log| :: !(w.log[k].id == w.log[m].id && w.log[k].leg == w.log[m].leg)
    ensures forall k | 0 <= k < |w.log| && w.log[k].id == id && w.log[k].leg == leg ::
              w.log[k].slot == w.ledger.jobs[id].SlotOf(leg)
  {
    ReachableIsSound(w);
    assert forall k | 0 <= k < |w.log| :: EntryOk(w, w.log[k]);
  }

  /**
    * Departed legs are a prefix of the bundle and all but possibly the last carry a hash; a
    * send settled as broadcast has every leg departed, with its hash.
    */
  lemma BundlesLeaveInOrder(w: World, id: Id)
    requires Reachable(w) && id in w.ledger.jobs
    ensures WellSent(w.ledger.jobs[id])
  {
    ReachableIsSound(w);
  }

  /** A poll that recorded a leg is never refused by `leaving`, and its settle is always written. */
  lemma TheOwnerIsNeverRefused(w: World, poll: nat, status: Status)
    requires Reachable(w) && poll in w.polls && w.polls[poll].Sending? && status.Terminal()
    requires status.Broadcast? ==> w.polls[poll].phase.Finishing?
    ensures var p := w.polls[poll];
            SettleOutcome(w.ledger, p.id, status, Some(p.ticket)) == Written(true)
    ensures var p := w.polls[poll];
            p.phase.Burning? ==> Ledgers.Leaving(w.ledger, p.id, p.ticket, p.phase.leg).1
  {
    ReachableIsSound(w);
    OwnerSettles(w, poll, status);
    if w.polls[poll].phase.Burning? { TheOwnerMayLeave(w, poll); }
  }

  // ---- A send that ended before its broadcast

  /** The send ended and nobody ever owned its broadcast. */
  predicate EndedUnclaimed(l: Ledger, id: Id, status: Status) {
    id in l.jobs && l.jobs[id].status == status && status.Terminal() && l.jobs[id].broadcast.None?
  }

  lemma EndedStaysEnded(w: World, e: Event, w': World, id: Id, status: Status)
    requires Next(w, e, w') && EndedUnclaimed(w.ledger, id, status)
    requires !(e.Leaves? || e.Lands? || e.Fails? || e.Finishes?) || w.polls[e.poll].id != id
    ensures EndedUnclaimed(w'.ledger, id, status)
  {}

  /** None of its calls is in the log. */
  predicate NoneLeft(log: seq<Departure>, id: Id) { forall k | 0 <= k < |log| :: log[k].id != id }

  lemma NobodySendsIt(w: World, e: Event, w': World, id: Id, status: Status)
    requires PollsOk(w) && Next(w, e, w') && EndedUnclaimed(w.ledger, id, status) && NoneLeft(w.log, id)
    ensures !(e.Leaves? || e.Lands? || e.Fails? || e.Finishes?) || w.polls[e.poll].id != id
    ensures NoneLeft(w'.log, id)
  {
    if e.Leaves? || e.Lands? || e.Fails? || e.Finishes? { assert PollOk(w.ledger, w.polls[e.poll]); }
  }

  lemma StillNobodySendsIt(w: World, e: Event, w': World, id: Id, status: Status)
    requires PollsOk(w) && Next(w, e, w') && EndedUnclaimed(w.ledger, id, status) && NoneLeft(w.log, id)
    ensures EndedUnclaimed(w'.ledger, id, status) && NoneLeft(w'.log, id)
  {
    NobodySendsIt(w, e, w', id, status);
    EndedStaysEnded(w, e, w', id, status);
  }

  lemma {:induction false} NothingOfItLeaves(ws: seq<World>, es: seq<Event>, i: nat, k: nat, id: Id, status: Status)
    requires IsHistory(ws, es) && i <= k < |ws| && EndedUnclaimed(ws[i].ledger, id, status) && NoneLeft(ws[i].log, id)
    ensures EndedUnclaimed(ws[k].ledger, id, status) && NoneLeft(ws[k].log, id)
    decreases k
  {
    if i < k {
      NothingOfItLeaves(ws, es, i, k - 1, id, status);
      PollsAreOk(ws, es, k - 1);
      assert Next(ws[k - 1], es[k - 1], ws[k - 1 + 1]);
      StillNobodySendsIt(ws[k - 1], es[k - 1], ws[k], id, status);
    }
  }

  /** Of a send that ended before its broadcast was claimed no call was or will ever be handed over, and its end is final. */
  lemma AnEndedSendNeverLeaves(ws: seq<World>, es: seq<Event>, i: nat, k: nat, id: Id, status: Status)
    requires IsHistory(ws, es) && i <= k < |ws| && EndedUnclaimed(ws[i].ledger, id, status)
    ensures EndedUnclaimed(ws[k].ledger, id, status) && NoneLeft(ws[k].log, id)
  {
    EveryHistoryKeeps(ws, es, i);
    UnclaimedHasNotLeft(ws[i], id);
    NothingOfItLeaves(ws, es, i, k, id, status);
  }

  /** So it is once a cancel was accepted. */
  lemma NothingLeavesAfterACancel(ws: seq<World>, es: seq<Event>, i: nat, k: nat, id: Id)
    requires IsHistory(ws, es) && i < k < |ws| && es[i] == Cancel(id) && ClaimCancel(ws[i].ledger, id).1.Ok?
    ensures EndedUnclaimed(ws[k].ledger, id, Cancelled) && NoneLeft(ws[k].log, id)
  {
    EveryHistoryKeeps(ws, es, i);
    assert Next(ws[i], es[i], ws[i + 1]);
    DoorMeanings.WhatACancelDoes(ws[i].ledger, id);
    AnEndedSendNeverLeaves(ws, es, i + 1, k, id, Cancelled);
  }

  lemma UnclaimedHasNotLeft(w: World, id: Id)
    requires LogOk(w) && JobsOk(w.ledger) && id in w.ledger.jobs && w.ledger.jobs[id].broadcast.None?
    ensures NoneLeft(w.log, id)
  {
    forall k | 0 <= k < |w.log| ensures w.log[k].id != id {
      assert EntryOk(w, w.log[k]);
      assert WellSent(w.ledger.jobs[id]);
    }
  }

  // ---- Why the discipline is needed

  /** Two sends whose bytes may both have left at one number, though neither names a send that left there. */
  predicate Collision(l: Ledger, a: Id, b: Id, s: Slot) {
    && a != b && a in l.jobs && b in l.jobs
    && Roots.NamesNobody(l.jobs[a].replacing) && Roots.NamesNobody(l.jobs[b].replacing)
    && JobSpent(l.jobs[a], s) && JobSpent(l.jobs[b], s)
  }

  /** The send names another one whose bytes may have left at the number. */
  predicate TakesOver(l: Ledger, id: Id, s: Slot) {
    && id in l.jobs && !Roots.NamesNobody(l.jobs[id].replacing) && l.jobs[id].replacing.value.id != id
    && l.jobs[id].replacing.value.id in l.jobs && JobSpent(l.jobs[l.jobs[id].replacing.value.id], s)
  }

  /**
    * What stands between the doors and a collision: in a guarded run of them there is none, and of
    * two sends that may have left at one number one took it over from a send that had.
    */
  lemma GuardedDoorsNeverCollide(ls: seq<Ledger>, ds: seq<Door>, k: nat, a: Id, b: Id, s: Slot)
    requires LedgerRuns.IsRun(ls, ds) && LedgerRuns.FreshIds(ls, ds) && k < |ls|
    requires forall i | 0 <= i < k :: Roots.Guarded(ls[i], ds[i]) || Roots.Disciplined(ls[i], ds[i])
    ensures !Collision(ls[k], a, b, s)
    ensures var l := ls[k];
            a != b && a in l.jobs && b in l.jobs && JobSpent(l.jobs[a], s) && JobSpent(l.jobs[b], s) ==>
              TakesOver(l, a, s) || TakesOver(l, b, s)
  {
    Roots.GuardedRunsHaveOneRoot(ls, ds, k);
    Roots.NamesHaveLeftAlong(ls, ds, k);
    var l := ls[k];
    if Collision(l, a, b, s) {
      assert Roots.IsRoot(l, ByJob(a), s) && Roots.IsRoot(l, ByJob(b), s);
    }
  }

  /**
    * The doors alone do not keep the money safe. A ticket that outlives its settle still
    * releases a leg, though its number went to somebody else: two unnamed sends leave at number 5.
    */
  lemma TheDoorsAloneAllowACollision()
    ensures exists l: Ledger, s: Slot :: ReachableByDoors(l, 9) && Collision(l, "a", "b", s)
  {
    var account := Account(1, "x");
    var s := Slot(account, 5);
    var draft := Job(account, [Leg(5, false, None)], AwaitingApproval, None, None);
    var a2 := draft.(broadcast := Some(Broadcasting(1, 0)), status := Failed(""));
    var b1 := draft.(broadcast := Some(Broadcasting(2, 0)));
    var a3, b2 := a2.(legs := [Leg(5, true, None)]), b1.(legs := [Leg(5, true, None)]);
    var l7 := Ledger(map["a" := a2, "b" := b1], map[], {s}, {}, 2, 2, []);
    AnotherSendTakesFive(account, draft, a2, b1, l7);
    BothLeaveAtFive(l7, a2, b1, a3, b2, s);
  }

  lemma BothLeaveAtFive(l7: Ledger, a2: Job, b1: Job, a3: Job, b2: Job, s: Slot)
    requires ReachableByDoors(l7, 7) && l7 == Ledger(map["a" := a2, "b" := b1], map[], {s}, {}, 2, 2, [])
    requires a2.legs == b1.legs == [Leg(5, false, None)] && a2.SlotOf(0) == s == b1.SlotOf(0)
    requires a2.OwnedBy(1) && b1.OwnedBy(2) && a2.replacing.None? && b1.replacing.None?
    requires a3 == a2.(legs := [Leg(5, true, None)]) && b2 == b1.(legs := [Leg(5, true, None)])
    ensures exists l: Ledger, t: Slot :: ReachableByDoors(l, 9) && Collision(l, "a", "b", t)
  {
    var l8 := Ledger(map["a" := a3, "b" := b1], map[], {s}, {s}, 2, 2, []);
    var l9 := Ledger(map["a" := a3, "b" := b2], map[], {s}, {s}, 2, 2, []);
    BurnsFive(l7, l8, "a", 1, s);
    OneMoreDoor(l7, 7, DoLeaving("a", 1, 0), l8);
    BurnsFive(l8, l9, "b", 2, s);
    OneMoreDoor(l8, 8, DoLeaving("b", 2, 0), l9);
    assert a3.SlotOf(0) == s && b2.SlotOf(0) == s;
    assert Collision(l9, "a", "b", s);
  }

  lemma AnotherSendTakesFive(account: Account, draft: Job, a2: Job, b1: Job, l7: Ledger)
    requires draft == Job(account, [Leg(5, false, None)], AwaitingApproval, None, None)
    requires a2 == draft.(broadcast := Some(Broadcasting(1, 0)), status := Failed(""))
    requires b1 == draft.(broadcast := Some(Broadcasting(2, 0)))
    requires l7 == Ledger(map["a" := a2, "b" := b1], map[], {Slot(account, 5)}, {}, 2, 2, [])
    ensures ReachableByDoors(l7, 7)
  {
    var s := Slot(account, 5);
    var l4 := Ledger(map["a" := a2], map[], {}, {}, 1, 1, []);
    var l5 := Ledger(map["a" := a2], map[2 := Claim(account, [5], None)], {s}, {}, 2, 1, []);
    var l6 := Ledger(map["a" := a2, "b" := draft], map[], {s}, {}, 2, 1, []);
    ASettledSendGivesFiveBack(account, draft, a2, l4);
    OpensAtFive(l4, l5, account);
    OneMoreDoor(l4, 4, DoOpen(account, 5, 1, None), l5);
    CommitsTheDraft(l5, l6, 2, "b", draft);
    OneMoreDoor(l5, 5, DoCommit(2, "b", draft), l6);
    OneMoreDoor(l6, 6, DoClaimBroadcast("b", 0), l7);
  }

  lemma ASettledSendGivesFiveBack(account: Account, draft: Job, a2: Job, l4: Ledger)
    requires draft == Job(account, [Leg(5, false, None)], AwaitingApproval, None, None)
    requires a2 == draft.(broadcast := Some(Broadcasting(1, 0)), status := Failed(""))
    requires l4 == Ledger(map["a" := a2], map[], {}, {}, 1, 1, [])
    ensures ReachableByDoors(l4, 4)
  {
    var l3 := Ledger(map["a" := draft.(broadcast := Some(Broadcasting(1, 0)))], map[], {Slot(account, 5)}, {}, 1, 1, []);
    ASendTakesFive(account, draft, l3);
    GivesBackFive(l3, l4);
    OneMoreDoor(l3, 3, DoSettle("a", Failed(""), Some(1)), l4);
  }

  lemma ASendTakesFive(account: Account, draft: Job, l3: Ledger)
    requires draft == Job(account, [Leg(5, false, None)], AwaitingApproval, None, None)
    requires l3 == Ledger(map["a" := draft.(broadcast := Some(Broadcasting(1, 0)))], map[], {Slot(account, 5)}, {}, 1, 1, [])
    ensures ReachableByDoors(l3, 3)
  {
    var l1 := Ledger(map[], map[1 := Claim(account, [5], None)], {Slot(account, 5)}, {}, 1, 0, []);
    var l2 := Ledger(map["a" := draft], map[], {Slot(account, 5)}, {}, 1, 0, []);
    NoDoorYet();
    OpensAtFive(EMPTY, l1, account);
    OneMoreDoor(EMPTY, 0, DoOpen(account, 5, 1, None), l1);
    CommitsTheDraft(l1, l2, 1, "a", draft);
    OneMoreDoor(l1, 1, DoCommit(1, "a", draft), l2);
    OneMoreDoor(l2, 2, DoClaimBroadcast("a", 0), l3);
  }

  lemma NoDoorYet()
    ensures ReachableByDoors(EMPTY, 0)
  {
    assert LedgerRuns.IsRun([EMPTY], []) && LedgerRuns.FreshIds([EMPTY], []);
  }

  /** The ledger can be brought about from the empty one in `n` doors, no request id used twice. */
  ghost predicate ReachableByDoors(l: Ledger, n: nat) {
    exists ls: seq<Ledger>, ds: seq<Door> ::
      LedgerRuns.IsRun(ls, ds) && LedgerRuns.FreshIds(ls, ds) && |ds| == n && ls[n] == l
  }

  lemma OneMoreDoor(l: Ledger, n: nat, d: Door, l': Ledger)
    requires ReachableByDoors(l, n) && Step(l, d, l') && (d.DoCommit? ==> d.id !in l.jobs)
    ensures ReachableByDoors(l', n + 1)
  {
    var ls, ds :| LedgerRuns.IsRun(ls, ds) && LedgerRuns.FreshIds(ls, ds) && |ds| == n && ls[n] == l;
    var ls', ds' := ls + [l'], ds + [d];
    forall i | 0 <= i < |ds'| ensures Step(ls'[i], ds'[i], ls'[i + 1]) && (ds'[i].DoCommit? ==> ds'[i].id !in ls'[i].jobs) {
      if i < n { assert ls'[i] == ls[i] && ls'[i + 1] == ls[i + 1] && ds'[i] == ds[i]; }
    }
    assert LedgerRuns.IsRun(ls', ds') && LedgerRuns.FreshIds(ls', ds') && ls'[n + 1] == l';
  }

  lemma OpensAtFive(l: Ledger, l': Ledger, account: Account)
    requires l.reserved == {} && l.spent == {} && l.claims == map[]
    requires l' == l.(claims := map[l.lastClaim + 1 := Claim(account, [5], None)], reserved := {Slot(account, 5)},
                      lastClaim := l.lastClaim + 1)
    ensures Step(l, DoOpen(account, 5, 1, None), l')
  {
    assert LeastFree(Taken(l, account), 5) == 5;
    assert FreeRun(Taken(l, account), 5, 1) == [5] + FreeRun(Taken(l, account) + {5}, 5, 0);
    assert FreeRun(Taken(l, account), 5, 1) == [5];
    assert SlotsOf(account, [5]) == {Slot(account, 5)} by {
      assert forall s: Slot | s.account == account && s.number == 5 :: s == Slot(account, 5);
    }
    assert l'.reserved == l.reserved + SlotsOf(account, [5]);
    assert l'.claims == l.claims[l.lastClaim + 1 := Claim(account, [5], None)];
    assert Opens(l, account, 5, 1, None, l', Ok(l.lastClaim + 1));
  }

  lemma CommitsTheDraft(l: Ledger, l': Ledger, claim: nat, id: Id, draft: Job)
    requires claim in l.claims && l.claims == map[claim := Claim(draft.account, [5], None)] && id !in l.jobs
    requires draft == Job(draft.account, [Leg(5, false, None)], AwaitingApproval, None, None)
    requires l' == l.(claims := map[], jobs := l.jobs[id := draft])
    ensures Step(l, DoCommit(claim, id, draft), l')
  {
    assert FromClaim(l.claims[claim], draft).legs == draft.legs;
    assert l.claims - {claim} == map[];
  }

  lemma GivesBackFive(l: Ledger, l': Ledger)
    requires l.jobs.Keys == {"a"} && l.claims == map[] && l.spent == {}
    requires var j := l.jobs["a"];
             && j.legs == [Leg(5, false, None)] && j.status == AwaitingApproval && j.OwnedBy(1)
             && l.reserved == {j.SlotOf(0)}
             && l' == l.(jobs := map["a" := j.(status := Failed(""))], reserved := {})
    ensures Step(l, DoSettle("a", Failed(""), Some(1)), l')
  {
    var m := WriteStatus(l, "a", Failed(""));
    var k := m.jobs["a"];
    assert m.jobs == map["a" := k];
    assert SpentSlots(k) == {};
    assert k.SlotOf(0) in UnspentSlots(k);
    var burnt := m.(reserved := m.reserved + SpentSlots(k), spent := m.spent + SpentSlots(k));
    assert forall h :: !Holds(burnt, h, k.SlotOf(0));
    assert SyncNonce(m, "a").reserved == {};
    assert burnt.spent == {};
  }

  lemma BurnsFive(l: Ledger, l': Ledger, id: Id, ticket: nat, s: Slot)
    requires id in l.jobs && l.reserved == {s} && l.spent <= {s}
    requires var j := l.jobs[id];
             && j.legs == [Leg(5, false, None)] && j.OwnedBy(ticket) && j.SlotOf(0) == s
             && l' == l.(jobs := l.jobs[id := j.(legs := [Leg(5, true, None)])], spent := {s})
    ensures Step(l, DoLeaving(id, ticket, 0), l')
  {
    var m := MarkLeft(l, id, 0);
    var k := m.jobs[id];
    assert k.legs == [Leg(5, true, None)];
    assert k.SlotOf(0) == s && SpentSlots(k) == {s};
    assert SyncNonce(m, id).reserved == {s};
    assert l.spent + {s} == {s};
  }
}
