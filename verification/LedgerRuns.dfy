/** Whole runs of the ledger: what is never handed out again, what comes back, who may settle what. */
module LedgerRuns {
  import opened Basics
  import opened Reserver
  import opened Ledgers
  import opened LedgerInvariant

  /** A history: the ledgers passed through from the empty one, and the door taken between each two. */
  ghost predicate IsRun(ls: seq<Ledger>, ds: seq<Door>) {
    && |ls| == |ds| + 1
    && ls[0] == EMPTY
    && forall i | 0 <= i < |ds| :: Step(ls[i], ds[i], ls[i + 1])
  }

  /** No send takes a request id already used. */
  ghost predicate FreshIds(ls: seq<Ledger>, ds: seq<Door>)
    requires IsRun(ls, ds)
  {
    forall i | 0 <= i < |ds| && ds[i].DoCommit? :: ds[i].id !in ls[i].jobs
  }

  lemma {:induction false} EveryRunKeeps(ls: seq<Ledger>, ds: seq<Door>, k: nat)
    requires IsRun(ls, ds) && k < |ls|
    ensures Inv(ls[k])
  {
    if k == 0 {
      EmptyHoldsNothing();
    } else {
      EveryRunKeeps(ls, ds, k - 1);
      EveryDoorKeeps(ls[k - 1], ds[k - 1], ls[k]);
    }
  }

  // ---- The audit is weaker

  /** What the running audit checks. */
  ghost predicate Audited(l: Ledger) { Contained(l) && OneCounted(l) }

  /** The audit would stay silent on a ledger about to send two transactions at one number. */
  lemma TheAuditAloneMissesACollision()
    ensures exists l: Ledger :: Audited(l) && !OneUnleft(l)
  {
    var a := Account(1, "a");
    var s := Slot(a, 5);
    var first := Job(a, [Leg(5, false, None)], AwaitingApproval, None, None);
    var second := first.(replacing := Some(Departed));
    var l := EMPTY.(jobs := map["x" := first, "y" := second], reserved := {s});
    assert first.SlotOf(0) == s && second.SlotOf(0) == s;
    assert HoldsUnleft(l, ByJob("x"), s) && HoldsUnleft(l, ByJob("y"), s);
    assert !OneUnleft(l) by { assert ByJob("x") != ByJob("y"); }
    assert forall h, t | Holds(l, h, t) :: t == s;
    assert Contained(l);
    assert forall h | Counts(l, h) :: h == ByJob("x");
    assert OneCounted(l);
  }

  // ---- Burnt numbers

  lemma SpentGrows(l: Ledger, d: Door, l': Ledger)
    requires Step(l, d, l')
    ensures l.spent <= l'.spent
  {}

  lemma {:induction false} SpentGrowsAlong(ls: seq<Ledger>, ds: seq<Door>, i: nat, k: nat)
    requires IsRun(ls, ds) && i <= k < |ls|
    ensures ls[i].spent <= ls[k].spent
    decreases k - i
  {
    if i < k {
      SpentGrowsAlong(ls, ds, i, k - 1);
      SpentGrows(ls[k - 1], ds[k - 1], ls[k]);
    }
  }

  /**
    * A number whose bytes may have left is never handed to an unpinned send again: whatever
    * happens in between, repeated ids, wild tickets and backward readings included.
    */
  lemma ADepartedNumberIsNeverReissued(ls: seq<Ledger>, ds: seq<Door>, i: nat, k: nat, id: Id, s: Slot)
    requires IsRun(ls, ds) && i <= k < |ds|
    requires id in ls[i].jobs && JobSpent(ls[i].jobs[id], s)
    requires ds[k].DoOpen? && ds[k].pinned.None?
    ensures forall c | c in ls[k + 1].claims && c !in ls[k].claims :: !ClaimAt(ls[k + 1].claims[c], s)
  {
    EveryRunKeeps(ls, ds, i);
    EveryRunKeeps(ls, ds, k);
    SpentGrowsAlong(ls, ds, i, k);
    var l, l', d := ls[k], ls[k + 1], ds[k];
    var answer :| Opens(l, d.account, d.reading, d.count, d.pinned, l', answer);
    if answer.Ok? {
      FreeRunIsTheLeastFree(Taken(l, d.account), d.reading, d.count);
      var run := FreeRun(Taken(l, d.account), d.reading, d.count);
      assert s in l.spent && l'.claims[l'.lastClaim] == Claim(d.account, run, None);
      assert s.account == d.account ==> s.number in Taken(l, d.account);
    }
  }

  /**
    * An unpinned bundle of `count` calls gets exactly the `count` least numbers at or above the
    * chain reading that are neither reserved nor spent, in increasing order.
    */
  lemma AnUnpinnedBundleTakesTheLeastFree(l: Ledger, account: Account, reading: nat, count: nat, l': Ledger)
    requires Step(l, DoOpen(account, reading, count, None), l') && 0 < count <= MAX_LEGS
    ensures l'.lastClaim in l'.claims
    ensures var c := l'.claims[l'.lastClaim];
            && c.account == account && c.replacing == None && |c.nonces| == count
            && LeastFreeRun(c.nonces, Taken(l, account), reading)
            && l'.reserved == l.reserved + SlotsOf(account, c.nonces)
  {
    FreeRunIsTheLeastFree(Taken(l, account), reading, count);
  }

  /** Two bundles open at once on one account never share a number unless one of them is pinned. */
  lemma OpenBundlesAreDisjoint(ls: seq<Ledger>, ds: seq<Door>, k: nat, c1: nat, c2: nat)
    requires IsRun(ls, ds) && k < |ls| && c1 != c2
    requires c1 in ls[k].claims && c2 in ls[k].claims && ls[k].claims[c1].account == ls[k].claims[c2].account
    ensures forall n | n in ls[k].claims[c1].nonces :: n !in ls[k].claims[c2].nonces
  {
    EveryRunKeeps(ls, ds, k);
    var l := ls[k];
    forall n | n in l.claims[c1].nonces ensures n !in l.claims[c2].nonces {
      var s := Slot(l.claims[c1].account, n);
      assert HoldsUnleft(l, ByClaim(c1), s) && !HoldsUnleft(l, ByClaim(c2), s);
    }
  }

  // ---- The reserved set kept step by step is the one that could be recomputed

  lemma {:induction false} FreshIdsStrandNothing(ls: seq<Ledger>, ds: seq<Door>, k: nat)
    requires IsRun(ls, ds) && FreshIds(ls, ds) && k < |ls|
    ensures ls[k].stranded == []
  {
    if k > 0 { FreshIdsStrandNothing(ls, ds, k - 1); }
  }

  /**
    * Reserved is at least spent and held, at most those and the stranded, in every reachable
    * ledger; with fresh ids it is exactly spent and held.
    */
  lemma ReservedIsSpentOrHeld(ls: seq<Ledger>, ds: seq<Door>, k: nat, s: Slot)
    requires IsRun(ls, ds) && k < |ls|
    ensures s in ls[k].spent || IsHeld(ls[k], s) ==> s in ls[k].reserved
    ensures s in ls[k].reserved ==> s in ls[k].spent || IsHeld(ls[k], s) || s in ls[k].stranded
    ensures FreshIds(ls, ds) ==> (s in ls[k].reserved <==> s in ls[k].spent || IsHeld(ls[k], s))
  {
    EveryRunKeeps(ls, ds, k);
    if FreshIds(ls, ds) { FreshIdsStrandNothing(ls, ds, k); }
  }

  /** A burnt number that no process before this one seeded is burnt by a send this ledger still knows. */
  ghost predicate SpentExplained(l: Ledger) {
    forall s :: s in l.spent ==> SpentByJob(l, s)
  }

  lemma SpentLegsStaySpent(l: Ledger, d: Door, l': Ledger, id: Id, s: Slot)
    requires Step(l, d, l') && id in l.jobs && JobSpent(l.jobs[id], s) && (d.DoCommit? ==> d.id != id)
    ensures id in l'.jobs && JobSpent(l'.jobs[id], s)
  {
    var j, k := l.jobs[id], l'.jobs[id];
    var i :| 0 <= i < |j.legs| && j.SlotOf(i) == s && j.LegSpent(i);
    assert k.SlotOf(i) == s && k.LegSpent(i);
  }

  lemma NewlySpentIsSpentByAJob(l: Ledger, d: Door, l': Ledger, s: Slot)
    requires Step(l, d, l') && !d.DoSeed? && s in l'.spent && s !in l.spent
    ensures SpentByJob(l', s)
  {
    assert d.DoLeaving? || d.DoSettle? || d.DoCancel?;
    assert d.id in l'.jobs && JobSpent(l'.jobs[d.id], s);
  }

  lemma SpentStaysExplained(l: Ledger, d: Door, l': Ledger)
    requires SpentExplained(l) && Step(l, d, l') && !d.DoSeed? && (d.DoCommit? ==> d.id !in l.jobs)
    ensures SpentExplained(l')
  {
    forall s | s in l'.spent ensures SpentByJob(l', s) {
      if s in l.spent {
        var id :| id in l.jobs && JobSpent(l.jobs[id], s);
        SpentLegsStaySpent(l, d, l', id, s);
      } else {
        NewlySpentIsSpentByAJob(l, d, l', s);
      }
    }
  }

  lemma {:induction false} SpentIsExplainedAlong(ls: seq<Ledger>, ds: seq<Door>, k: nat)
    requires IsRun(ls, ds) && FreshIds(ls, ds) && k < |ls|
    requires forall i | 0 <= i < |ds| :: !ds[i].DoSeed?
    ensures SpentExplained(ls[k])
  {
    if k > 0 {
      SpentIsExplainedAlong(ls, ds, k - 1);
      SpentStaysExplained(ls[k - 1], ds[k - 1], ls[k]);
    }
  }

  /**
    * The other direction of safety: a run in which nothing left, no claim is still open and
    * every send was settled without a broadcast ends with nothing reserved.
    */
  lemma NothingLeftNothingReserved(ls: seq<Ledger>, ds: seq<Door>)
    requires IsRun(ls, ds) && FreshIds(ls, ds)
    requires forall i | 0 <= i < |ds| :: !ds[i].DoSeed?
    requires var l := ls[|ds|];
             && l.claims == map[]
             && (forall id | id in l.jobs :: l.jobs[id].status.Terminal() && !l.jobs[id].status.Broadcast?)
             && (forall id, i | id in l.jobs && 0 <= i < |l.jobs[id].legs| :: !l.jobs[id].legs[i].left)
    ensures ls[|ds|].reserved == {}
  {
    var l := ls[|ds|];
    SpentIsExplainedAlong(ls, ds, |ds|);
    forall s ensures s !in l.reserved {
      ReservedIsSpentOrHeld(ls, ds, |ds|, s);
      assert !SpentByJob(l, s);
      assert forall h :: !Holds(l, h, s);
    }
  }

  // ---- Who may settle, and what comes back

  /** The door is the ticket holder's own. */
  predicate OwnersDoor(d: Door, id: Id, ticket: nat) {
    match d
    case DoLeaving(i, t, _) => i == id && t == ticket
    case DoLanded(i, t, _, _) => i == id && t == ticket
    case DoSettle(i, _, owner) => i == id && owner == Some(ticket)
    case _ => false
  }

  /** While a ticket is out, a send changes only through its holder's doors. */
  lemma OnlyTheOwnerMovesAClaimedSend(l: Ledger, d: Door, l': Ledger, id: Id)
    requires Step(l, d, l') && id in l.jobs && l.jobs[id].broadcast.Some?
    requires !(d.DoCommit? && d.id == id)
    requires !OwnersDoor(d, id, l.jobs[id].broadcast.value.ticket)
    ensures id in l'.jobs && l'.jobs[id] == l.jobs[id]
    ensures d.DoSettle? && d.id == id ==> l' == l
    ensures d.DoCancel? && d.id == id ==> l' == l && ClaimCancel(l, id).1.Err?
  {}

  /** The first terminal status wins, except that a ticketed broadcast hash corrects it. */
  lemma ATerminalStatusIsOnlyCorrected(l: Ledger, d: Door, l': Ledger, id: Id)
    requires Step(l, d, l') && id in l.jobs && l.jobs[id].status.Terminal()
    requires !(d.DoCommit? && d.id == id)
    ensures id in l'.jobs && l'.jobs[id].status.Terminal()
    ensures l'.jobs[id].status != l.jobs[id].status ==>
              && d.DoSettle? && d.id == id && d.owner.Some? && d.status.Broadcast?
              && l'.jobs[id].status == d.status && !l.jobs[id].status.Broadcast?
              && (l.jobs[id].broadcast.Some? ==> l.jobs[id].OwnedBy(d.owner.value))
  {}

  /**
    * A send that ends without a broadcast lets go of exactly the numbers of its unsent legs that
    * were never spent and nobody else holds; what was sent stays burnt.
    */
  lemma AFailedBundleGivesBackWhatNeverLeft(l: Ledger, id: Id, status: Status, ticket: Option<nat>, i: nat)
    requires Inv(l) && SettleOutcome(l, id, status, ticket).Written?
    requires status.Terminal() && !status.Broadcast? && i < |l.jobs[id].legs|
    ensures var l' := Settle(l, id, status, ticket);
            var s := l.jobs[id].SlotOf(i);
            && l'.jobs[id] == l.jobs[id].(status := status)
            && (l.jobs[id].legs[i].left ==> s in l'.spent)
            && (!l.jobs[id].legs[i].left ==> (s !in l'.reserved <==> s !in l.spent && !IsHeld(l', s)))
  {
    var l' := Settle(l, id, status, ticket);
    var m := WriteStatus(l, id, status);
    var k := m.jobs[id];
    var s := l.jobs[id].SlotOf(i);
    SettleKeeps(l, id, status, ticket);
    assert k.SlotOf(i) == s;
    if l.jobs[id].legs[i].left {
      assert JobSpent(l'.jobs[id], s);
    } else {
      var burnt := m.(reserved := m.reserved + SpentSlots(k), spent := m.spent + SpentSlots(k));
      ReleaseFrame(burnt, UnspentSlots(k));
      assert !k.LegSpent(i) && s in UnspentSlots(k);
      if s in SpentSlots(k) {
        assert Holds(l', ByJob(id), s) by { assert JobSpent(k, s); }
      }
      if IsHeld(burnt, s) { var h :| Holds(burnt, h, s); assert Holds(l', h, s); }
    }
  }

  /** `live` and `final` are complementary readings of one send. */
  lemma LiveIsNotFinal(j: Job, now: nat)
    ensures j.IsFinal(now) <==> j.status.Terminal() || j.IsStuck(now)
  {}

  lemma FinalStaysFinalOverADoor(l: Ledger, d: Door, l': Ledger, id: Id, now: nat)
    requires Step(l, d, l') && id in l.jobs && !(d.DoCommit? && d.id == id)
    requires l.jobs[id].status.Terminal() || l.jobs[id].IsStuck(now)
    ensures id in l'.jobs && (l'.jobs[id].status.Terminal() || l'.jobs[id].IsStuck(now))
  {}

  lemma {:induction false} DoneStaysDone(ls: seq<Ledger>, ds: seq<Door>, i: nat, k: nat, id: Id, now: nat)
    requires IsRun(ls, ds) && FreshIds(ls, ds) && i <= k < |ls|
    requires id in ls[i].jobs && (ls[i].jobs[id].status.Terminal() || ls[i].jobs[id].IsStuck(now))
    ensures id in ls[k].jobs && (ls[k].jobs[id].status.Terminal() || ls[k].jobs[id].IsStuck(now))
    decreases k - i
  {
    if i < k {
      DoneStaysDone(ls, ds, i, k - 1, id, now);
      assert !(ds[k - 1].DoCommit? && ds[k - 1].id == id);
      FinalStaysFinalOverADoor(ls[k - 1], ds[k - 1], ls[k - 1 + 1], id, now);
    }
  }

  /** With time that never runs backwards, a send reported final is final for ever. */
  lemma FinalStaysFinal(ls: seq<Ledger>, ds: seq<Door>, i: nat, k: nat, id: Id, now: nat, later: nat)
    requires IsRun(ls, ds) && FreshIds(ls, ds) && i <= k < |ls| && now <= later
    requires id in ls[i].jobs && ls[i].jobs[id].IsFinal(now)
    ensures id in ls[k].jobs && ls[k].jobs[id].IsFinal(later)
  {
    LiveIsNotFinal(ls[i].jobs[id], now);
    DoneStaysDone(ls, ds, i, k, id, now);
    LiveIsNotFinal(ls[k].jobs[id], later);
  }
}
