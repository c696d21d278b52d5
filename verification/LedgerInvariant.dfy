/**
  * What every door of the ledger keeps, with any arguments and in any order. Stronger than what
  * the running audit checks: the audit cannot see a second holder that names what it takes over
  * from, a burnt number that is not reserved, or a reservation nobody accounts for.
  */
module LedgerInvariant {
  import opened Basics
  import opened Reserver
  import opened Ledgers

  // ---- The invariant

  /** Whatever anybody holds is reserved. */
  ghost predicate Contained(l: Ledger) {
    forall h, s :: Holds(l, h, s) ==> s in l.reserved
  }

  /** Every leg that may have left has its number burnt. */
  ghost predicate DepartedAreSpent(l: Ledger) {
    forall id, s :: id in l.jobs && JobSpent(l.jobs[id], s) ==> s in l.spent
  }

  /** No number has two holders that have not left, whether or not one of them is named. */
  ghost predicate OneUnleft(l: Ledger) {
    forall h1, h2, s :: HoldsUnleft(l, h1, s) && HoldsUnleft(l, h2, s) ==> h1 == h2
  }

  /** No two of the holders that the audit counts share a number. */
  ghost predicate OneCounted(l: Ledger) {
    forall h1, h2, s ::
      Holds(l, h1, s) && Holds(l, h2, s) && Counts(l, h1) && Counts(l, h2) ==> h1 == h2
  }

  /** Every reservation is burnt, held, or recorded as stranded. */
  ghost predicate Accounted(l: Ledger) {
    forall s :: s in l.reserved ==> s in l.spent || IsHeld(l, s) || s in l.stranded
  }

  predicate Distinct(numbers: seq<nat>) {
    forall i, j | 0 <= i < j < |numbers| :: numbers[i] != numbers[j]
  }

  predicate DistinctLegs(j: Job) {
    forall i, k | 0 <= i < k < |j.legs| :: j.legs[i].nonce != j.legs[k].nonce
  }

  /** Counters are ahead of everything numbered from them, and no bundle repeats a number. */
  ghost predicate Numbered(l: Ledger) {
    && (forall c | c in l.claims :: c <= l.lastClaim && 0 < |l.claims[c].nonces| && Distinct(l.claims[c].nonces))
    && (forall id | id in l.jobs :: 0 < |l.jobs[id].legs| && DistinctLegs(l.jobs[id]))
    && (forall id | id in l.jobs && l.jobs[id].broadcast.Some? :: l.jobs[id].broadcast.value.ticket <= l.lastTicket)
  }

  ghost predicate Inv(l: Ledger) {
    && Contained(l)
    && l.spent <= l.reserved
    && DepartedAreSpent(l)
    && OneUnleft(l)
    && OneCounted(l)
    && Accounted(l)
    && Numbered(l)
  }

  lemma EmptyHoldsNothing()
    ensures Inv(EMPTY)
  {}

  // ---- Steps that only write numbers

  lemma ReleaseFrame(l: Ledger, slots: set<Slot>)
    ensures var r := Release(l, slots);
            && r.(reserved := l.reserved) == l
            && r.reserved <= l.reserved
            && (forall h, s :: Holds(r, h, s) <==> Holds(l, h, s))
            && (forall h, s :: HoldsUnleft(r, h, s) <==> HoldsUnleft(l, h, s))
            && (forall h :: Counts(r, h) <==> Counts(l, h))
  {}

  /** Writing a job's numbers restores everything the change to that job put in doubt. */
  lemma SyncRestores(l: Ledger, id: Id)
    requires id in l.jobs && l.spent <= l.reserved && Numbered(l) && OneUnleft(l) && OneCounted(l)
    requires forall h, s :: Holds(l, h, s) ==> s in l.reserved || JobSpent(l.jobs[id], s)
    requires forall other, s :: other in l.jobs && other != id && JobSpent(l.jobs[other], s) ==> s in l.spent
    requires forall s :: s in l.reserved ==>
      s in l.spent || IsHeld(l, s) || s in l.stranded || s in UnspentSlots(l.jobs[id])
    ensures Inv(SyncNonce(l, id))
  {
    var j := l.jobs[id];
    var burnt := l.(reserved := l.reserved + SpentSlots(j), spent := l.spent + SpentSlots(j));
    var r := Release(burnt, UnspentSlots(j));
    ReleaseFrame(burnt, UnspentSlots(j));
    assert forall h, s :: Holds(burnt, h, s) <==> Holds(l, h, s);
    assert forall h, s :: HoldsUnleft(burnt, h, s) <==> HoldsUnleft(l, h, s);
    assert forall h :: Counts(burnt, h) <==> Counts(l, h);
    forall h, s | Holds(r, h, s) ensures s in r.reserved {
      assert Holds(burnt, h, s) && IsHeld(burnt, s);
    }
    forall s | s in r.reserved ensures s in r.spent || IsHeld(r, s) || s in r.stranded {
      if s !in l.spent && s !in SpentSlots(j) {
        if s in UnspentSlots(j) {
          assert IsHeld(burnt, s);
          var h :| Holds(burnt, h, s);
          assert Holds(r, h, s);
        } else if s !in l.stranded {
          var h :| Holds(l, h, s);
          assert Holds(r, h, s);
        }
      }
    }
  }

  // ---- Door by door

  lemma ReserveKeeps(l: Ledger, c: Claim, slots: set<Slot>)
    requires Inv(l) && 0 < |c.nonces| && Distinct(c.nonces)
    requires slots == SlotsOf(c.account, c.nonces) && slots !! l.reserved
    ensures Inv(AddClaim(l.(reserved := l.reserved + slots), c))
  {
    var l' := AddClaim(l.(reserved := l.reserved + slots), c);
    var added := ByClaim(l.lastClaim + 1);
    forall h, s | Holds(l', h, s) ensures h == added || Holds(l, h, s) {}
    forall h, s | HoldsUnleft(l', h, s) ensures h == added || (HoldsUnleft(l, h, s) && Holds(l, h, s)) {
      UnleftHolds(l', h, s);
    }
    forall h | Counts(l', h) ensures h == added || Counts(l, h) {}
    forall s | s in l'.reserved ensures s in l'.spent || IsHeld(l', s) || s in l'.stranded {
      if s in slots {
        assert Holds(l', added, s);
      } else if IsHeld(l, s) {
        var h :| Holds(l, h, s);
        assert Holds(l', h, s);
      }
    }
  }

  lemma HoldingIsUnleftOrSpent(l: Ledger, h: Holder, s: Slot)
    ensures Holds(l, h, s) ==> HoldsUnleft(l, h, s) || SpentByJob(l, s)
  {
    if h.ByJob? && Holds(l, h, s) {
      var j := l.jobs[h.id];
      var i :| 0 <= i < |j.legs| && j.SlotOf(i) == s && j.HoldsLeg(i);
      assert if j.LegSpent(i) then JobSpent(j, s) else JobUnleft(j, s);
    }
  }

  lemma UnleftHolds(l: Ledger, h: Holder, s: Slot)
    requires HoldsUnleft(l, h, s)
    ensures Holds(l, h, s)
  {}

  lemma ReplaceKeeps(l: Ledger, s: Slot, r: Replacing)
    requires Inv(l) && !IsHeldUnleft(l, s) && (r.Departed? || s in l.reserved)
    ensures Inv(OpenReplacing(l, s, r))
  {
    var l' := OpenReplacing(l, s, r);
    var added := ByClaim(l.lastClaim + 1);
    assert s in l'.reserved;
    assert l'.claims[l.lastClaim + 1].nonces == [s.number];
    forall h, t | Holds(l', h, t) ensures (h == added && t == s) || Holds(l, h, t) {
      if h == added { assert t == s; }
    }
    forall h, t | HoldsUnleft(l', h, t) ensures (h == added && t == s) || HoldsUnleft(l, h, t) {
      if h == added { assert t == s; }
    }
    forall h | Counts(l', h) ensures Counts(l, h) {}
    forall t | t in l'.reserved ensures t in l'.spent || IsHeld(l', t) || t in l'.stranded {
      if t == s {
        assert Holds(l', added, s);
      } else if IsHeld(l, t) {
        var h :| Holds(l, h, t);
        assert Holds(l', h, t);
      }
    }
  }

  lemma OpenKeeps(l: Ledger, account: Account, reading: nat, count: nat, pinned: Option<nat>,
                  l': Ledger, answer: Result<nat, OpenError>)
    requires Inv(l) && Opens(l, account, reading, count, pinned, l', answer)
    ensures Inv(l')
  {
    if answer.Ok? {
      match pinned
      case None =>
        var taken := Taken(l, account);
        var run := FreeRun(taken, reading, count);
        FreeRunIsTheLeastFree(taken, reading, count);
        var slots := SlotsOf(account, run);
        forall s | s in slots ensures s !in l.reserved {
          var i :| 0 <= i < |run| && run[i] == s.number;
          assert s == Slot(account, run[i]) && run[i] !in taken;
        }
        ReserveKeeps(l, Claim(account, run, None), slots);
      case Some(n) =>
        var s := Slot(account, n);
        if s !in l.reserved + l.spent {
          assert SlotsOf(account, [n]) == {s} by { assert s.number in [n]; }
          ReserveKeeps(l, Claim(account, [n], None), {s});
        } else {
          var r :| PinNames(l, s, r) && l' == OpenReplacing(l, s, r);
          ReplaceKeeps(l, s, r);
        }
    }
  }

  /** A committed job holds exactly what its claim held, and all of it unleft. */
  lemma FromClaimHolds(c: Claim, draft: Job, s: Slot)
    requires FreshDraft(draft, |c.nonces|)
    ensures var j := FromClaim(c, draft);
            && j.account == c.account && j.replacing == c.replacing
            && j.status == AwaitingApproval && j.broadcast == None
            && |j.legs| == |c.nonces|
            && (forall i | 0 <= i < |j.legs| :: j.legs[i] == Leg(c.nonces[i], false, None))
            && (JobHolds(j, s) <==> ClaimAt(c, s))
            && (JobUnleft(j, s) <==> ClaimAt(c, s))
            && !JobSpent(j, s)
  {
    var j := FromClaim(c, draft);
    assert forall i | 0 <= i < |j.legs| :: j.legs[i] == Leg(c.nonces[i], false, None);
    if ClaimAt(c, s) {
      var i :| 0 <= i < |c.nonces| && c.nonces[i] == s.number;
      assert j.SlotOf(i) == s && j.HoldsLeg(i) && !j.LegSpent(i);
    }
  }

  lemma CommitKeeps(l: Ledger, claim: nat, id: Id, draft: Job)
    requires Inv(l) && claim in l.claims && FreshDraft(draft, |l.claims[claim].nonces|)
    ensures Inv(Commit(l, claim, id, draft))
  {
    var l' := Commit(l, claim, id, draft);
    var c := l.claims[claim];
    var before, after := ByClaim(claim), ByJob(id);
    forall s { FromClaimHolds(c, draft, s); }
    forall h, s | Holds(l', h, s)
      ensures if h == after then Holds(l, before, s) else h != before && Holds(l, h, s)
    {}
    forall h, s | HoldsUnleft(l', h, s)
      ensures if h == after then HoldsUnleft(l, before, s) else h != before && HoldsUnleft(l, h, s)
    {}
    forall h | Counts(l', h) ensures if h == after then Counts(l, before) else h != before && Counts(l, h) {}
    forall s | s in l'.reserved ensures s in l'.spent || IsHeld(l', s) || s in l'.stranded {
      if s !in l.spent && s !in l.stranded {
        var h :| Holds(l, h, s);
        if h == before {
          assert Holds(l', after, s);
        } else if h == after {
          OverwrittenIsStranded(l.jobs[id], s);
        } else {
          assert Holds(l', h, s);
        }
      }
    }
  }

  lemma OverwrittenIsStranded(prev: Job, s: Slot)
    requires JobHolds(prev, s)
    ensures prev.HoldsNonce() && s in prev.Slots()
  {
    var i :| 0 <= i < |prev.legs| && prev.SlotOf(i) == s && prev.HoldsLeg(i);
    assert prev.Slots()[i] == s;
  }

  lemma AbandonKeeps(l: Ledger, claim: nat)
    requires Inv(l) && claim in l.claims
    ensures Inv(Abandon(l, claim))
  {
    var c := l.claims[claim];
    var dropped := l.(claims := l.claims - {claim});
    var slots := SlotsOf(c.account, c.nonces);
    var l' := Release(dropped, slots);
    ReleaseFrame(dropped, slots);
    forall h, s | Holds(l', h, s) ensures Holds(l, h, s) && s in l'.reserved {
      assert Holds(l, h, s) && s in l.reserved;
      assert Holds(dropped, h, s) && IsHeld(dropped, s);
    }
    forall h, s | HoldsUnleft(l', h, s) ensures HoldsUnleft(l, h, s) {}
    forall h | Counts(l', h) ensures Counts(l, h) {}
    forall s | s in l'.reserved ensures s in l'.spent || IsHeld(l', s) || s in l'.stranded {
      if s !in l.spent && s !in l.stranded {
        if s in slots {
          var h :| Holds(dropped, h, s);
          assert Holds(l', h, s);
        } else {
          var h :| Holds(l, h, s);
          assert Holds(l', h, s);
        }
      }
    }
  }

  lemma ClaimBroadcastKeeps(l: Ledger, id: Id, now: nat)
    requires Inv(l)
    ensures Inv(ClaimBroadcast(l, id, now).0)
  {
    var l' := ClaimBroadcast(l, id, now).0;
    SameHoldings(l, l');
  }

  /** Two ledgers whose jobs differ only in tickets and hashes hold the same numbers. */
  lemma SameHoldings(l: Ledger, l': Ledger)
    requires Inv(l) && Numbered(l')
    requires l'.claims == l.claims && l'.reserved == l.reserved && l'.spent == l.spent && l'.stranded == l.stranded
    requires l'.jobs.Keys == l.jobs.Keys
    requires forall id | id in l.jobs :: SameNumbers(l.jobs[id], l'.jobs[id])
    ensures Inv(l')
  {
    forall id, s | id in l.jobs
      ensures JobHolds(l.jobs[id], s) <==> JobHolds(l'.jobs[id], s)
      ensures JobUnleft(l.jobs[id], s) <==> JobUnleft(l'.jobs[id], s)
      ensures JobSpent(l.jobs[id], s) <==> JobSpent(l'.jobs[id], s)
    {
      SameNumbersHoldAlike(l.jobs[id], l'.jobs[id], s);
      SameNumbersHoldAlike(l'.jobs[id], l.jobs[id], s);
    }
    assert forall h, s :: Holds(l, h, s) <==> Holds(l', h, s);
    assert forall h, s :: HoldsUnleft(l, h, s) <==> HoldsUnleft(l', h, s);
    assert forall h :: Counts(l, h) <==> Counts(l', h);
    forall s | s in l'.reserved ensures s in l'.spent || IsHeld(l', s) || s in l'.stranded {
      if IsHeld(l, s) { var h :| Holds(l, h, s); assert Holds(l', h, s); }
    }
  }

  predicate SameNumbers(j: Job, k: Job) {
    && k.account == j.account && k.status == j.status && k.replacing == j.replacing
    && |k.legs| == |j.legs|
    && (forall i | 0 <= i < |j.legs| :: k.legs[i].nonce == j.legs[i].nonce && k.legs[i].left == j.legs[i].left)
  }

  lemma SameNumbersHoldAlike(j: Job, k: Job, s: Slot)
    requires SameNumbers(j, k)
    ensures JobHolds(j, s) ==> JobHolds(k, s)
    ensures JobUnleft(j, s) ==> JobUnleft(k, s)
    ensures JobSpent(j, s) ==> JobSpent(k, s)
  {
    assert forall i | 0 <= i < |j.legs| :: j.SlotOf(i) == k.SlotOf(i);
    assert forall i | 0 <= i < |j.legs| :: j.LegSpent(i) == k.LegSpent(i) && j.HoldsLeg(i) == k.HoldsLeg(i);
  }

  /** Changing one job, then writing its numbers, keeps the invariant when the job only lets go or leaves. */
  lemma RewriteKeeps(l: Ledger, id: Id, k: Job)
    requires Inv(l) && id in l.jobs
    requires var j := l.jobs[id];
             && k.account == j.account && k.broadcast == j.broadcast && k.replacing == j.replacing
             && |k.legs| == |j.legs|
             && (forall i | 0 <= i < |j.legs| ::
                   k.legs[i].nonce == j.legs[i].nonce && (j.LegSpent(i) ==> k.LegSpent(i)))
             && (j.status.Terminal() ==> k.status.Terminal())
    ensures Inv(SyncNonce(l.(jobs := l.jobs[id := k]), id))
  {
    var j := l.jobs[id];
    var m := l.(jobs := l.jobs[id := k]);
    assert forall i | 0 <= i < |j.legs| :: j.SlotOf(i) == k.SlotOf(i);
    forall s
      ensures JobHolds(k, s) ==> JobHolds(j, s) || JobSpent(k, s)
      ensures JobUnleft(k, s) ==> JobUnleft(j, s)
      ensures JobHolds(j, s) ==> JobHolds(k, s) || s in UnspentSlots(k)
    {
      if JobHolds(j, s) {
        var i :| 0 <= i < |j.legs| && j.SlotOf(i) == s && j.HoldsLeg(i);
        assert k.SlotOf(i) == s;
        assert k.HoldsLeg(i) || !k.LegSpent(i);
      }
    }
    assert forall h, s :: HoldsUnleft(m, h, s) ==> HoldsUnleft(l, h, s);
    forall h, s | Holds(m, h, s) && Counts(m, h) ensures Holds(l, h, s) && Counts(l, h) {
      if h == ByJob(id) {
        var i :| 0 <= i < |k.legs| && k.SlotOf(i) == s && k.HoldsLeg(i);
        assert j.SlotOf(i) == s && j.HoldsLeg(i);
      }
    }
    assert forall h, s :: Holds(m, h, s) ==> Holds(l, h, s) || JobSpent(k, s);
    forall s | s in m.reserved
      ensures s in m.spent || IsHeld(m, s) || s in m.stranded || s in UnspentSlots(k)
    {
      if IsHeld(l, s) {
        var h :| Holds(l, h, s);
        if h != ByJob(id) || JobHolds(k, s) { assert Holds(m, h, s); }
      }
    }
    SyncRestores(m, id);
  }

  lemma LeavingKeeps(l: Ledger, id: Id, ticket: nat, leg: nat)
    requires Inv(l)
    ensures Inv(Leaving(l, id, ticket, leg).0)
  {
    if Leaving(l, id, ticket, leg).1 {
      RewriteKeeps(l, id, MarkLeft(l, id, leg).jobs[id]);
    }
  }

  lemma LandedKeeps(l: Ledger, id: Id, ticket: nat, leg: nat, hash: string)
    requires Inv(l)
    ensures Inv(Landed(l, id, ticket, leg, hash).0)
  {
    SameHoldings(l, Landed(l, id, ticket, leg, hash).0);
  }

  lemma SettleKeeps(l: Ledger, id: Id, status: Status, ticket: Option<nat>)
    requires Inv(l)
    ensures Inv(Settle(l, id, status, ticket))
  {
    if SettleOutcome(l, id, status, ticket).Written? {
      RewriteKeeps(l, id, l.jobs[id].(status := status));
    }
  }

  lemma SeedKeeps(l: Ledger, slots: set<Slot>)
    requires Inv(l)
    ensures Inv(SeedSpent(l, slots))
  {
    var l' := SeedSpent(l, slots);
    assert forall h, s :: Holds(l', h, s) <==> Holds(l, h, s);
    assert forall h, s :: HoldsUnleft(l', h, s) <==> HoldsUnleft(l, h, s);
    assert forall h :: Counts(l', h) <==> Counts(l, h);
    forall s | s in l'.reserved ensures s in l'.spent || IsHeld(l', s) || s in l'.stranded {
      if s in l.reserved && IsHeld(l, s) { var h :| Holds(l, h, s); assert Holds(l', h, s); }
    }
  }

  // ---- Every door

  /** Whatever door is taken with whatever arguments, the invariant holds afterwards. */
  lemma EveryDoorKeeps(l: Ledger, d: Door, l': Ledger)
    requires Inv(l) && Step(l, d, l')
    ensures Inv(l')
  {
    match d
    case DoOpen(account, reading, count, pinned) =>
      var answer :| Opens(l, account, reading, count, pinned, l', answer);
      OpenKeeps(l, account, reading, count, pinned, l', answer);
    case DoCommit(claim, id, draft) => CommitKeeps(l, claim, id, draft);
    case DoAbandon(claim) => AbandonKeeps(l, claim);
    case DoClaimBroadcast(id, now) => ClaimBroadcastKeeps(l, id, now);
    case DoLeaving(id, ticket, leg) => LeavingKeeps(l, id, ticket, leg);
    case DoLanded(id, ticket, leg, hash) => LandedKeeps(l, id, ticket, leg, hash);
    case DoSettle(id, status, owner) => SettleKeeps(l, id, status, owner);
    case DoCancel(id) => SettleKeeps(l, id, Cancelled, None);
    case DoSeed(slots) => SeedKeeps(l, slots);
  }
}
