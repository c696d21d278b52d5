/**
  * What the doors alone keep about who may leave at a number, and exactly which use of them
  * breaks it: one root per number, counting the sends whose bytes may have left. A root names no
  * send of this ledger: it replaces nothing, or a departed stranger.
  */
module Roots {
  import opened Basics
  import opened Reserver
  import opened Ledgers
  import opened LedgerInvariant
  import LedgerRuns

  predicate NamesNobody(r: Option<Replacing>) { r.None? || r.value.Departed? }

  /** A holder that replaces no send this ledger knows. */
  predicate Unnamed(l: Ledger, h: Holder) {
    match h
    case ByClaim(c) => c in l.claims && NamesNobody(l.claims[c].replacing)
    case ByJob(id) => id in l.jobs && NamesNobody(l.jobs[id].replacing)
  }

  predicate IsRoot(l: Ledger, h: Holder, s: Slot) { Holds(l, h, s) && Unnamed(l, h) }

  ghost predicate OneRoot(l: Ledger) {
    forall h1, h2, s :: IsRoot(l, h1, s) && IsRoot(l, h2, s) ==> h1 == h2
  }

  /** A number some other root has. */
  ghost predicate RootedElsewhere(l: Ledger, id: Id, s: Slot) {
    exists h :: h != ByJob(id) && IsRoot(l, h, s)
  }

  /** The legs a door would make count as left although their send no longer holds their numbers. */
  predicate Revives(l: Ledger, d: Door, i: nat) {
    match d
    case DoLeaving(id, ticket, leg) =>
      id in l.jobs && l.jobs[id].OwnedBy(ticket) && i == leg < |l.jobs[id].legs| && !l.jobs[id].HoldsLeg(leg)
    case DoSettle(id, status, owner) =>
      && id in l.jobs && SettleOutcome(l, id, status, owner).Written? && status.Broadcast?
      && i < |l.jobs[id].legs| && !l.jobs[id].HoldsLeg(i)
    case _ => false
  }

  /** No root's leg is revived at a number that another root has by now. */
  ghost predicate Guarded(l: Ledger, d: Door) {
    (d.DoLeaving? || d.DoSettle?) && d.id in l.jobs && NamesNobody(l.jobs[d.id].replacing) ==>
      forall i: nat | i < |l.jobs[d.id].legs| && Revives(l, d, i) :: !RootedElsewhere(l, d.id, l.jobs[d.id].SlotOf(i))
  }

  // ---- One door

  /** A door that adds no root keeps them single. */
  lemma FewerRootsAreSingle(l: Ledger, l': Ledger)
    requires OneRoot(l) && forall h, s | IsRoot(l', h, s) :: IsRoot(l, h, s)
    ensures OneRoot(l')
  {}

  lemma OneJobGrows(l: Ledger, l': Ledger, id: Id, grown: set<Slot>)
    requires OneRoot(l) && id in l.jobs && id in l'.jobs
    requires l'.claims == l.claims && l'.jobs == l.jobs[id := l'.jobs[id]] && l'.jobs[id].replacing == l.jobs[id].replacing
    requires forall s :: JobHolds(l'.jobs[id], s) <==> JobHolds(l.jobs[id], s) || s in grown
    ensures OneRoot(l') <==> (NamesNobody(l.jobs[id].replacing) ==> forall s | s in grown :: !RootedElsewhere(l, id, s))
  {
    assert forall h, s | h != ByJob(id) :: IsRoot(l', h, s) <==> IsRoot(l, h, s);
    if NamesNobody(l.jobs[id].replacing) {
      assert forall s | s in grown :: IsRoot(l', ByJob(id), s);
      assert forall h, s | h != ByJob(id) && IsRoot(l, h, s) :: RootedElsewhere(l, id, s);
      if s :| s in grown && RootedElsewhere(l, id, s) {
        var h :| h != ByJob(id) && IsRoot(l, h, s);
        assert IsRoot(l', h, s) && IsRoot(l', ByJob(id), s);
      } else {
        forall h, s | IsRoot(l', ByJob(id), s) && h != ByJob(id) ensures !IsRoot(l', h, s) {
          if s in grown { assert !RootedElsewhere(l, id, s); } else { assert IsRoot(l, ByJob(id), s); }
        }
      }
    }
  }

  ghost function Revived(l: Ledger, d: Door, id: Id): (slots: set<Slot>)
    requires id in l.jobs
    ensures forall s :: s in slots <==> exists i: nat :: i < |l.jobs[id].legs| && Revives(l, d, i) && l.jobs[id].SlotOf(i) == s
  {
    set i | 0 <= i < |l.jobs[id].legs| && Revives(l, d, i) :: l.jobs[id].SlotOf(i)
  }

  lemma LeavingIsSafeIffGuarded(l: Ledger, d: Door, l': Ledger)
    requires OneRoot(l) && Step(l, d, l') && d.DoLeaving?
    ensures OneRoot(l') <==> Guarded(l, d)
  {
    if d.id in l.jobs && l.jobs[d.id].OwnedBy(d.ticket) && d.leg < |l.jobs[d.id].legs| {
      var j, k := l.jobs[d.id], l'.jobs[d.id];
      forall s ensures JobHolds(k, s) <==> JobHolds(j, s) || s in Revived(l, d, d.id) {
        if s in Revived(l, d, d.id) { assert k.SlotOf(d.leg) == s && k.HoldsLeg(d.leg); }
        if i :| 0 <= i < |j.legs| && j.SlotOf(i) == s && j.HoldsLeg(i) { assert k.SlotOf(i) == s && k.HoldsLeg(i); }
        if i :| 0 <= i < |k.legs| && k.SlotOf(i) == s && k.HoldsLeg(i) {
          assert j.SlotOf(i) == s && (j.HoldsLeg(i) || Revives(l, d, i));
        }
      }
      OneJobGrows(l, l', d.id, Revived(l, d, d.id));
    }
  }

  lemma SettlingIsSafeIffGuarded(l: Ledger, d: Door, l': Ledger)
    requires OneRoot(l) && Step(l, d, l') && d.DoSettle?
    ensures OneRoot(l') <==> Guarded(l, d)
  {
    if SettleOutcome(l, d.id, d.status, d.owner).Written? {
      var j, k := l.jobs[d.id], l'.jobs[d.id];
      if d.status.Broadcast? {
        forall s ensures JobHolds(k, s) <==> JobHolds(j, s) || s in Revived(l, d, d.id) {
          if i: nat :| i < |j.legs| && j.SlotOf(i) == s { assert k.SlotOf(i) == s && k.HoldsLeg(i); }
          if i :| 0 <= i < |k.legs| && k.SlotOf(i) == s && k.HoldsLeg(i) {
            assert j.SlotOf(i) == s && (j.HoldsLeg(i) || Revives(l, d, i));
          }
        }
        OneJobGrows(l, l', d.id, Revived(l, d, d.id));
      } else {
        SettlingFrees(l, d, l');
      }
    }
  }

  /** Any other status leaves the send no number it did not hold. */
  lemma SettlingFrees(l: Ledger, d: Door, l': Ledger)
    requires OneRoot(l) && Step(l, d, l') && d.DoSettle? && !d.status.Broadcast?
    ensures OneRoot(l')
  {
    forall h, s | IsRoot(l', h, s) ensures IsRoot(l, h, s) {
      if h == ByJob(d.id) {
        var j, k := l.jobs[d.id], l'.jobs[d.id];
        var i :| 0 <= i < |k.legs| && k.SlotOf(i) == s && k.HoldsLeg(i);
        assert j.SlotOf(i) == s && j.HoldsLeg(i);
      }
    }
    FewerRootsAreSingle(l, l');
  }

  lemma OpeningIsSafe(l: Ledger, d: Door, l': Ledger)
    requires Contained(l) && l.spent <= l.reserved && Numbered(l) && OneRoot(l) && Step(l, d, l') && d.DoOpen?
    ensures OneRoot(l')
  {
    var answer :| Opens(l, d.account, d.reading, d.count, d.pinned, l', answer);
    if answer.Ok? {
      var c := l.lastClaim + 1;
      forall h, s | IsRoot(l', h, s) && h != ByClaim(c) ensures IsRoot(l, h, s) { OldRootsOnly(l, d, l', s, h); }
      forall h, s | IsRoot(l', ByClaim(c), s) ensures !Holds(l, h, s) {
        NobodyHeldIt(l, d, l', s, h);
      }
    }
  }

  lemma OldRootsOnly(l: Ledger, d: Door, l': Ledger, s: Slot, h: Holder)
    requires Step(l, d, l') && d.DoOpen? && h != ByClaim(l.lastClaim + 1) && IsRoot(l', h, s)
    ensures IsRoot(l, h, s)
  {}

  /** A claim that names nobody is opened on a number nobody held. */
  lemma NobodyHeldIt(l: Ledger, d: Door, l': Ledger, s: Slot, h: Holder)
    requires Contained(l) && l.spent <= l.reserved && Step(l, d, l') && d.DoOpen? && l'.lastClaim == l.lastClaim + 1
    requires IsRoot(l', ByClaim(l'.lastClaim), s)
    ensures !Holds(l, h, s)
  {
    var answer :| Opens(l, d.account, d.reading, d.count, d.pinned, l', answer);
    FreeRunIsTheLeastFree(Taken(l, d.account), d.reading, d.count);
    if s in l.reserved { HoldingIsUnleftOrSpent(l, h, s); }
  }

  lemma CommittingIsSafe(l: Ledger, d: Door, l': Ledger)
    requires OneRoot(l) && Step(l, d, l') && d.DoCommit? && d.id !in l.jobs
    ensures OneRoot(l')
  {
    forall s ensures IsRoot(l', ByJob(d.id), s) ==> IsRoot(l, ByClaim(d.claim), s) {
      FromClaimHolds(l.claims[d.claim], d.draft, s);
    }
    assert forall h, s | h != ByJob(d.id) && IsRoot(l', h, s) :: h != ByClaim(d.claim) && IsRoot(l, h, s);
  }

  lemma TheOthersAddNone(l: Ledger, d: Door, l': Ledger)
    requires OneRoot(l) && Step(l, d, l') && (d.DoAbandon? || d.DoClaimBroadcast? || d.DoLanded? || d.DoSeed?)
    ensures OneRoot(l')
  {
    forall h, s | IsRoot(l', h, s) ensures IsRoot(l, h, s) {
      if h.ByJob? {
        var k := l'.jobs[h.id];
        var i :| 0 <= i < |k.legs| && k.SlotOf(i) == s && k.HoldsLeg(i);
        assert l.jobs[h.id].SlotOf(i) == s && l.jobs[h.id].HoldsLeg(i);
      }
    }
    FewerRootsAreSingle(l, l');
  }

  /**
    * With fresh ids, a door leaves every number one root if and only if it revives no root's leg
    * at a number that another root has: only `leaving` under a settled send's ticket, or a
    * correction to a broadcast before every leg left, can.
    */
  lemma ADoorIsSafeIffGuarded(l: Ledger, d: Door, l': Ledger)
    requires Inv(l) && OneRoot(l) && Step(l, d, l') && (d.DoCommit? ==> d.id !in l.jobs)
    ensures OneRoot(l') <==> Guarded(l, d)
  {
    match d
    case DoOpen(_, _, _, _) => OpeningIsSafe(l, d, l');
    case DoCommit(_, _, _) => CommittingIsSafe(l, d, l');
    case DoLeaving(_, _, _) => LeavingIsSafeIffGuarded(l, d, l');
    case DoSettle(_, _, _) => SettlingIsSafeIffGuarded(l, d, l');
    case DoCancel(id) =>
      if ClaimCancel(l, id).1.Ok? { SettlingFrees(l, DoSettle(id, Cancelled, None), l'); }
    case _ => TheOthersAddNone(l, d, l');
  }

  /** The order a broadcast keeps, said of one door: no leg leaves after its send settled, and a broadcast has sent them all. */
  ghost predicate Disciplined(l: Ledger, d: Door) { forall i: nat :: !Revives(l, d, i) }

  /** A run in which every door is guarded never has two roots at a number; the broadcast order guards them. */
  lemma {:induction false} GuardedRunsHaveOneRoot(ls: seq<Ledger>, ds: seq<Door>, k: nat)
    requires LedgerRuns.IsRun(ls, ds) && LedgerRuns.FreshIds(ls, ds) && k < |ls|
    requires forall i | 0 <= i < k :: Guarded(ls[i], ds[i]) || Disciplined(ls[i], ds[i])
    ensures OneRoot(ls[k])
  {
    if k > 0 {
      GuardedRunsHaveOneRoot(ls, ds, k - 1);
      LedgerRuns.EveryRunKeeps(ls, ds, k - 1);
      assert Guarded(ls[k - 1], ds[k - 1]);
      ADoorIsSafeIffGuarded(ls[k - 1], ds[k - 1], ls[k]);
    }
  }

  // ---- What a name means

  /** What is replaced by name has left at that number, and is another send. */
  predicate NameHasLeft(l: Ledger, r: Option<Replacing>, s: Slot) {
    r.Some? && r.value.Send? ==> r.value.id in l.jobs && JobSpent(l.jobs[r.value.id], s)
  }

  ghost predicate NamesHaveLeft(l: Ledger) {
    && (forall c, s | c in l.claims && ClaimAt(l.claims[c], s) :: NameHasLeft(l, l.claims[c].replacing, s))
    && (forall id, i | id in l.jobs && 0 <= i < |l.jobs[id].legs| ::
          NameHasLeft(l, l.jobs[id].replacing, l.jobs[id].SlotOf(i)) && l.jobs[id].replacing != Some(Send(id)))
  }

  lemma NamesStay(l: Ledger, d: Door, l': Ledger)
    requires NamesHaveLeft(l) && Step(l, d, l') && (d.DoCommit? ==> d.id !in l.jobs)
    ensures NamesHaveLeft(l')
  {
    forall r: Option<Replacing>, s | NameHasLeft(l, r, s) ensures NameHasLeft(l', r, s) {
      if r.Some? && r.value.Send? { LedgerRuns.SpentLegsStaySpent(l, d, l', r.value.id, s); }
    }
    if d.DoOpen? {
      ANewClaimNamesWhatLeft(l, d, l');
    } else if d.DoCommit? {
      ANewJobNamesWhatLeft(l, d, l');
    } else {
      forall id, i | id in l'.jobs && 0 <= i < |l'.jobs[id].legs|
        ensures NameHasLeft(l', l'.jobs[id].replacing, l'.jobs[id].SlotOf(i)) && l'.jobs[id].replacing != Some(Send(id))
      {
        assert l'.jobs[id].SlotOf(i) == l.jobs[id].SlotOf(i);
      }
    }
  }

  lemma ANewClaimNamesWhatLeft(l: Ledger, d: Door, l': Ledger)
    requires NamesHaveLeft(l) && Step(l, d, l') && d.DoOpen?
    requires forall r: Option<Replacing>, s :: NameHasLeft(l, r, s) ==> NameHasLeft(l', r, s)
    ensures NamesHaveLeft(l')
  {
    var answer :| Opens(l, d.account, d.reading, d.count, d.pinned, l', answer);
    forall c, s | c in l'.claims && ClaimAt(l'.claims[c], s) ensures NameHasLeft(l', l'.claims[c].replacing, s) {
      if c == l.lastClaim + 1 && l' != l { assert NameHasLeft(l, l'.claims[c].replacing, s); }
    }
  }

  lemma ANewJobNamesWhatLeft(l: Ledger, d: Door, l': Ledger)
    requires NamesHaveLeft(l) && Step(l, d, l') && d.DoCommit? && d.id !in l.jobs
    requires forall r: Option<Replacing>, s :: NameHasLeft(l, r, s) ==> NameHasLeft(l', r, s)
    ensures NamesHaveLeft(l')
  {
    forall id, i | id in l'.jobs && 0 <= i < |l'.jobs[id].legs|
      ensures NameHasLeft(l', l'.jobs[id].replacing, l'.jobs[id].SlotOf(i)) && l'.jobs[id].replacing != Some(Send(id))
    {
      var s := l'.jobs[id].SlotOf(i);
      if id == d.id {
        var c := l.claims[d.claim];
        FromClaimHolds(c, d.draft, s);
        assert ClaimAt(c, s) && NameHasLeft(l, c.replacing, s);
      } else {
        assert l'.jobs[id] == l.jobs[id] && s == l.jobs[id].SlotOf(i);
      }
    }
  }

  lemma {:induction false} NamesHaveLeftAlong(ls: seq<Ledger>, ds: seq<Door>, k: nat)
    requires LedgerRuns.IsRun(ls, ds) && LedgerRuns.FreshIds(ls, ds) && k < |ls|
    ensures NamesHaveLeft(ls[k])
  {
    if k > 0 {
      NamesHaveLeftAlong(ls, ds, k - 1);
      NamesStay(ls[k - 1], ds[k - 1], ls[k]);
    }
  }
}
