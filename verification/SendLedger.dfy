/**
  * The ledger of sends, claims and numbers, updated in place. A lock makes every method atomic. Each
  * checks the ledger as it ends, as giving the lock back does, and never finds anything to repair.
  */
module SendLedgers {
  import opened Basics
  import opened Reserver
  import opened Ledgers
  import opened LedgerInvariant
  import opened LedgerRuns
  import DoorMeanings

  /** A number somebody holds, as the audit lists it. */
  datatype Entry = Entry(slot: Slot, counts: bool, who: Holder)

  datatype Fault = Unreserved(who: Holder, slot: Slot) | Shared(who: Holder, slot: Slot)

  /** `e` says of its holder what the ledger says. */
  ghost predicate Listed(l: Ledger, e: Entry) {
    Holds(l, e.who, e.slot) && (e.counts <==> Counts(l, e.who))
  }

  ghost function Repaired(l: Ledger): Ledger {
    if Audited(l) then l else l.(reserved := l.reserved + HeldSlots(l))
  }

  ghost function HeldSlots(l: Ledger): (slots: set<Slot>)
    ensures forall s :: s in slots <==> IsHeld(l, s)
  {
    var byClaims := set c, n | c in l.claims && n in l.claims[c].nonces :: Slot(l.claims[c].account, n);
    var byJobs := set id, i | id in l.jobs && 0 <= i < |l.jobs[id].legs| && l.jobs[id].HoldsLeg(i) :: l.jobs[id].SlotOf(i);
    set s | s in byClaims + byJobs && IsHeld(l, s)
  }

  class SendLedger {
    var jobs: map<Id, Job>
    var claims: map<nat, Claim>
    const nonces: NonceReserver
    var lastClaim: nat
    var lastTicket: nat
    var stranded: seq<Slot>

    ghost function Abs(): Ledger
      reads this, nonces
    {
      Ledger(jobs, claims, nonces.Reserved(), nonces.Spent(), lastClaim, lastTicket, stranded)
    }

    ghost predicate Valid()
      reads this, nonces
    {
      Inv(Abs())
    }

    constructor ()
      ensures Valid() && Abs() == EMPTY && fresh(nonces)
    {
      jobs, claims, lastClaim, lastTicket, stranded := map[], map[], 0, 0, [];
      nonces := new NonceReserver();
      new;
      EmptyHoldsNothing();
    }

    // ---- Numbers

    /** The account's numbers that somebody holds. */
    method Held(account: Account) returns (numbers: set<nat>)
      ensures forall n :: n in numbers <==> IsHeld(Abs(), Slot(account, n))
    {
      numbers := {};
      ghost var l := Abs();
      var openClaims := claims.Keys;
      while openClaims != {}
        invariant openClaims <= claims.Keys
        invariant forall n | n in numbers :: IsHeld(l, Slot(account, n))
        invariant forall c, n | c in claims.Keys - openClaims && Holds(l, ByClaim(c), Slot(account, n)) :: n in numbers
        decreases openClaims
      {
        var c :| c in openClaims;
        if claims[c].account == account {
          forall n | n in claims[c].nonces ensures IsHeld(l, Slot(account, n)) {
            assert Holds(l, ByClaim(c), Slot(account, n));
          }
          numbers := numbers + (set n | n in claims[c].nonces);
        }
        openClaims := openClaims - {c};
      }
      var ids := jobs.Keys;
      while ids != {}
        invariant ids <= jobs.Keys
        invariant forall n | n in numbers :: IsHeld(l, Slot(account, n))
        invariant forall c, n | c in claims.Keys && Holds(l, ByClaim(c), Slot(account, n)) :: n in numbers
        invariant forall id, n | id in jobs.Keys - ids && Holds(l, ByJob(id), Slot(account, n)) :: n in numbers
        decreases ids
      {
        var id :| id in ids;
        var j := jobs[id];
        if j.account == account {
          forall i | 0 <= i < |j.legs| && j.HoldsLeg(i) ensures IsHeld(l, Slot(account, j.legs[i].nonce)) {
            assert j.SlotOf(i) == Slot(account, j.legs[i].nonce);
            assert Holds(l, ByJob(id), Slot(account, j.legs[i].nonce));
          }
          numbers := numbers + (set i | 0 <= i < |j.legs| && j.HoldsLeg(i) :: j.legs[i].nonce);
        }
        ids := ids - {id};
      }
      forall n ensures n in numbers <==> IsHeld(l, Slot(account, n)) {
        if IsHeld(l, Slot(account, n)) {
          var h :| Holds(l, h, Slot(account, n));
          assert n in numbers by { match h { case ByClaim(c) => case ByJob(id) => } }
        }
      }
    }

    /** Nothing else gives numbers back, and this does so only for numbers nobody holds. */
    method ReleaseIfUnheld(account: Account, number: nat)
      modifies nonces
      ensures Abs() == Release(old(Abs()), {Slot(account, number)})
    {
      var held := Held(account);
      if number !in held {
        nonces.Release(account, number);
      }
      assert Abs().reserved == Release(old(Abs()), {Slot(account, number)}).reserved;
    }

    /** Bring the numbers in line with a job: burn its spent legs, try to free the others. */
    method SyncNonce(id: Id)
      modifies nonces
      ensures Abs() == Ledgers.SyncNonce(old(Abs()), id)
    {
      if id !in jobs { return; }
      var j := jobs[id];
      ghost var l := Abs();
      SyncStarts(l, id);
      for i := 0 to |j.legs|
        invariant Abs() == SyncUpTo(l, id, i)
      {
        SyncContinues(l, id, i);
        if j.LegSpent(i) {
          var _ := Burn(j.account, j.legs[i].nonce);
        } else {
          ReleaseIfUnheld(j.account, j.legs[i].nonce);
        }
      }
      SyncEnds(l, id);
    }

    method Burn(account: Account, number: nat) returns (taken: bool)
      modifies nonces
      ensures taken <==> Slot(account, number) !in old(Abs()).spent
      ensures Abs() == Ledgers.SeedSpent(old(Abs()), {Slot(account, number)})
    {
      taken := nonces.MarkSpent(account, number);
    }

    // ---- The audit

    /** Everybody who holds a number, once for each number held. */
    method Holders() returns (entries: seq<Entry>)
      ensures forall e | e in entries :: Listed(Abs(), e)
      ensures forall h, s | Holds(Abs(), h, s) :: Entry(s, Counts(Abs(), h), h) in entries
    {
      entries := [];
      ghost var l := Abs();
      var openClaims := claims.Keys;
      while openClaims != {}
        invariant openClaims <= claims.Keys
        invariant forall e | e in entries :: Listed(l, e)
        invariant forall c, s | c in claims.Keys - openClaims && Holds(l, ByClaim(c), s) ::
          Entry(s, Counts(l, ByClaim(c)), ByClaim(c)) in entries
        decreases openClaims
      {
        var c :| c in openClaims;
        var claim := claims[c];
        var more := seq(|claim.nonces|, i requires 0 <= i < |claim.nonces| =>
          Entry(Slot(claim.account, claim.nonces[i]), claim.replacing.None?, ByClaim(c)));
        forall s | Holds(l, ByClaim(c), s) ensures Entry(s, Counts(l, ByClaim(c)), ByClaim(c)) in more {
          var i :| 0 <= i < |claim.nonces| && claim.nonces[i] == s.number;
          assert more[i] == Entry(s, claim.replacing.None?, ByClaim(c));
        }
        entries := entries + more;
        openClaims := openClaims - {c};
      }
      var ids := jobs.Keys;
      while ids != {}
        invariant ids <= jobs.Keys
        invariant forall e | e in entries :: Listed(l, e)
        invariant forall c, s | Holds(l, ByClaim(c), s) :: Entry(s, Counts(l, ByClaim(c)), ByClaim(c)) in entries
        invariant forall id, s | id in jobs.Keys - ids && Holds(l, ByJob(id), s) ::
          Entry(s, Counts(l, ByJob(id)), ByJob(id)) in entries
        decreases ids
      {
        var id :| id in ids;
        var more := HoldersOfJob(id);
        assert Abs() == l;
        entries := entries + more;
        ids := ids - {id};
      }
      forall h, s | Holds(l, h, s) ensures Entry(s, Counts(l, h), h) in entries {
        match h { case ByClaim(c) => case ByJob(id) => }
      }
    }

    method HoldersOfJob(id: Id) returns (entries: seq<Entry>)
      requires id in jobs
      ensures forall e | e in entries :: Listed(Abs(), e)
      ensures forall s | Holds(Abs(), ByJob(id), s) :: Entry(s, Counts(Abs(), ByJob(id)), ByJob(id)) in entries
    {
      entries := [];
      var j := jobs[id];
      var counts := !j.status.Terminal() && j.replacing.None?;
      for i := 0 to |j.legs|
        invariant forall e | e in entries :: Listed(Abs(), e)
        invariant forall k | 0 <= k < i && j.HoldsLeg(k) :: Entry(j.SlotOf(k), counts, ByJob(id)) in entries
      {
        if j.HoldsLeg(i) {
          assert JobHolds(j, j.SlotOf(i));
          entries := entries + [Entry(j.SlotOf(i), counts, ByJob(id))];
        }
      }
    }

    /** The faults the ledger shows: a number held but not reserved, or two counted holders of one. */
    method Violations() returns (faults: set<Fault>)
      ensures forall h, s :: Unreserved(h, s) in faults <==> Holds(Abs(), h, s) && s !in Abs().reserved
      ensures forall h, s :: Shared(h, s) in faults <==>
        Holds(Abs(), h, s) && Counts(Abs(), h) && exists w :: w != h && Holds(Abs(), w, s) && Counts(Abs(), w)
      ensures faults == {} <==> Audited(Abs())
    {
      ghost var l := Abs();
      var entries := Holders();
      assert Abs() == l;
      faults := {};
      for i := 0 to |entries|
        invariant forall h, s :: Unreserved(h, s) in faults <==>
          s !in l.reserved && exists k :: 0 <= k < i && entries[k].who == h && entries[k].slot == s
        invariant forall h, s :: Shared(h, s) in faults <==>
          exists k :: 0 <= k < i && entries[k].who == h && entries[k].slot == s && Rivalled(entries, entries[k])
      {
        var e := entries[i];
        if e.slot.number !in nonces.Of(e.slot.account).reserved {
          assert e.slot == Slot(e.slot.account, e.slot.number);
          faults := faults + {Unreserved(e.who, e.slot)};
        }
        var rivals := 0;
        for k := 0 to |entries|
          invariant rivals > 0 <==> exists m :: 0 <= m < k && Rivals(e, entries[m])
        {
          if Rivals(e, entries[k]) { rivals := rivals + 1; }
        }
        assert rivals > 0 <==> Rivalled(entries, e);
        if rivals > 0 {
          faults := faults + {Shared(e.who, e.slot)};
        }
      }
      FaultsAreTheAudit(l, entries, faults);
    }

    /** The check made at the end of every method. Its repair reserves more, never less. */
    method Audit()
      modifies nonces
      ensures Abs() == Repaired(old(Abs()))
      ensures Contained(Abs()) && old(Abs()).reserved <= Abs().reserved
    {
      var faults := Violations();
      if faults == {} { return; }
      var repairs := Holders();
      Reinstate(repairs);
      assert forall h, s | Holds(Abs(), h, s) :: Holds(old(Abs()), h, s) && IsHeld(old(Abs()), s);
    }

    /** Put back every number the entries name. */
    method Reinstate(repairs: seq<Entry>)
      requires forall e | e in repairs :: Listed(Abs(), e)
      requires forall h, s | Holds(Abs(), h, s) :: Entry(s, Counts(Abs(), h), h) in repairs
      modifies nonces
      ensures Abs() == old(Abs()).(reserved := old(Abs()).reserved + HeldSlots(old(Abs())))
    {
      ghost var l := Abs();
      for i := 0 to |repairs|
        invariant Abs() == l.(reserved := nonces.Reserved())
        invariant nonces.Reserved() == l.reserved + EntrySlots(repairs[..i])
      {
        EntrySlotsGrow(repairs, i);
        nonces.Reinstate(repairs[i].slot.account, repairs[i].slot.number);
      }
      assert repairs[..|repairs|] == repairs;
      EntrySlotsAreHeld(l, repairs);
    }

    // ---- Opening a claim

    /** Take the number a caller pinned, and say what the claim then replaces. */
    method Pin(account: Account, n: nat) returns (answer: Result<Option<Replacing>, OpenError>)
      requires Valid()
      modifies nonces
      ensures var l, s := old(Abs()), Slot(account, n);
              if s !in l.reserved + l.spent then
                answer == Ok(None) && Abs() == l.(reserved := l.reserved + {s})
              else if IsHeldUnleft(l, s) then answer == Err(HeldUnleft) && Abs() == l
              else
                answer.Ok? && answer.value.Some? && PinNames(l, s, answer.value.value)
                && Abs() == if answer.value.value.Departed? then l.(reserved := l.reserved + {s}) else l
    {
      ghost var l := Abs();
      ghost var s := Slot(account, n);
      var taken := nonces.Hold(account, n);
      if taken { return Ok(None); }
      if exists c | c in claims.Keys :: ClaimAt(claims[c], Slot(account, n)) {
        ghost var c :| c in claims.Keys && ClaimAt(claims[c], s);
        assert HoldsUnleft(l, ByClaim(c), s);
        return Err(HeldUnleft);
      }
      var unleft, named := SendsAt(Slot(account, n));
      if unleft {
        ghost var id :| id in jobs && JobUnleft(jobs[id], s);
        assert HoldsUnleft(l, ByJob(id), s);
        return Err(HeldUnleft);
      }
      assert forall h :: !HoldsUnleft(l, h, s);
      if named.Some? { return Ok(named); }
      nonces.Reinstate(account, n);
      return Ok(Some(Departed));
    }

    /** Whether a send still has the number to sign at, and a send that may have left there, if any did. */
    method SendsAt(s: Slot) returns (unleft: bool, named: Option<Replacing>)
      ensures unleft <==> exists id :: id in jobs && JobUnleft(jobs[id], s)
      ensures named.Some? ==> named.value.Send? && PinNames(Abs(), s, named.value)
      ensures !unleft && named.None? ==> !SpentByJob(Abs(), s)
    {
      unleft, named := false, None;
      var ids := jobs.Keys;
      while ids != {}
        invariant ids <= jobs.Keys && !unleft
        invariant forall id | id in jobs.Keys - ids :: !JobUnleft(jobs[id], s)
        invariant named.Some? ==> named.value.Send? && PinNames(Abs(), s, named.value)
        invariant named.None? ==> forall id | id in jobs.Keys - ids :: !JobSpent(jobs[id], s)
        decreases ids
      {
        var id :| id in ids;
        var j := jobs[id];
        if exists i | 0 <= i < |j.legs| :: j.SlotOf(i) == s && !j.LegSpent(i) && j.HoldsLeg(i) {
          assert JobUnleft(jobs[id], s);
          return true, None;
        }
        if exists i | 0 <= i < |j.legs| :: j.SlotOf(i) == s && j.LegSpent(i) {
          named := Some(Send(id));
        }
        ids := ids - {id};
      }
    }

    /** Reserve numbers for `count` calls, or the pinned one, and enter them as a claim. */
    method Open(account: Account, reading: nat, count: nat, pinned: Option<nat>)
      returns (answer: Result<nat, OpenError>)
      requires Valid()
      modifies this, nonces
      ensures Valid() && Opens(old(Abs()), account, reading, count, pinned, Abs(), answer)
    {
      ghost var l := Abs();
      if count == 0 || count > MAX_LEGS { return Err(BadCount); }
      if pinned.Some? && count != 1 { return Err(PinnedBundle); }
      var numbers: seq<nat> := [];
      var replacing: Option<Replacing> := None;
      if pinned.Some? {
        var took := Pin(account, pinned.value);
        if took.Err? { return Err(took.error); }
        numbers, replacing := [pinned.value], took.value;
      } else {
        numbers := ReserveRun(account, reading, count);
      }
      lastClaim := lastClaim + 1;
      claims := claims[lastClaim := Claim(account, numbers, replacing)];
      answer := Ok(lastClaim);
      if pinned.Some? && replacing.Some? {
        assert PinNames(l, Slot(account, pinned.value), replacing.value);
        assert Abs() == OpenReplacing(l, Slot(account, pinned.value), replacing.value);
      } else if pinned.Some? {
        assert Abs() == OpenFree(l, Slot(account, pinned.value));
      } else {
        assert Abs() == OpenRun(l, account, reading, count);
      }
      assert Opens(l, account, reading, count, pinned, Abs(), answer);
      OpenKeeps(l, account, reading, count, pinned, Abs(), answer);
      Audit();
    }

    /** One free number after the other, for calls that did not ask for theirs. */
    method ReserveRun(account: Account, reading: nat, count: nat) returns (numbers: seq<nat>)
      modifies nonces
      ensures numbers == FreeRun(Taken(old(Abs()), account), reading, count)
      ensures Abs() == old(Abs()).(reserved := old(Abs()).reserved + SlotsOf(account, numbers))
    {
      numbers := [];
      ghost var l := Abs();
      ghost var run := FreeRun(Taken(l, account), reading, count);
      TakingNone(l, account);
      for i := 0 to count
        invariant numbers == run[..i]
        invariant Abs() == Take(l, account, run[..i])
      {
        TakingOne(l, account, reading, count, i);
        var n := ReserveOne(account, reading);
        numbers := numbers + [n];
      }
    }

    method ReserveOne(account: Account, reading: nat) returns (n: nat)
      modifies nonces
      ensures n == LeastFree(Taken(old(Abs()), account), reading)
      ensures Abs() == old(Abs()).(reserved := old(Abs()).reserved + {Slot(account, n)})
    {
      assert nonces.Of(account).reserved + nonces.Of(account).spent == Taken(Abs(), account);
      n := nonces.Reserve(account, reading);
    }

    // ---- From claim to job

    /** Put a job in the place of its claim. */
    method Commit(claim: nat, id: Id, draft: Job)
      requires Valid() && claim in claims && FreshDraft(draft, |claims[claim].nonces|)
      modifies this, nonces
      ensures Valid() && Abs() == Ledgers.Commit(old(Abs()), claim, id, draft)
    {
      ghost var l := Abs();
      var job := FromClaim(claims[claim], draft);
      claims := claims - {claim};
      if id in jobs && jobs[id].HoldsNonce() {
        stranded := stranded + jobs[id].Slots();
      }
      jobs := jobs[id := job];
      assert Abs() == Ledgers.Commit(l, claim, id, draft);
      CommitKeeps(l, claim, id, draft);
      Audit();
    }

    /** A claim dropped before its approval gives back every number nobody else holds. */
    method Abandon(claim: nat)
      requires Valid() && claim in claims
      modifies this, nonces
      ensures Valid() && Abs() == Ledgers.Abandon(old(Abs()), claim)
    {
      ghost var l := Abs();
      var c := claims[claim];
      claims := claims - {claim};
      ghost var dropped := Abs();
      for i := 0 to |c.nonces|
        invariant Abs() == dropped.(reserved := nonces.Reserved())
        invariant nonces.Reserved() == Release(dropped, SlotsOf(c.account, c.nonces[..i])).reserved
      {
        HoldersOnly(dropped, Abs());
        assert c.nonces[..i + 1] == c.nonces[..i] + [c.nonces[i]];
        ReleaseIfUnheld(c.account, c.nonces[i]);
        assert forall s: Slot | s.account == c.account && s.number == c.nonces[i] :: s == Slot(c.account, c.nonces[i]);
      }
      assert c.nonces[..|c.nonces|] == c.nonces;
      assert Abs() == Ledgers.Abandon(l, claim);
      AbandonKeeps(l, claim);
      Audit();
    }

    // ---- Reading

    /** The sends that are neither settled nor stuck. */
    method Live(now: nat) returns (live: map<Id, Job>)
      ensures forall id :: id in live <==> id in jobs && !jobs[id].IsFinal(now)
      ensures forall id | id in live :: live[id] == jobs[id]
    {
      live := map id | id in jobs && !jobs[id].status.Terminal() && !jobs[id].IsStuck(now) :: jobs[id];
    }

    // ---- Broadcasting and settling

    method ClaimBroadcast(id: Id, now: nat) returns (answer: BroadcastClaim)
      requires Valid()
      modifies this, nonces
      ensures Valid() && (Abs(), answer) == Ledgers.ClaimBroadcast(old(Abs()), id, now)
    {
      ghost var l := Abs();
      var ticket := lastTicket + 1;
      if id !in jobs { return Unknown; }
      var j := jobs[id];
      if j.status.Terminal() { return Settled; }
      if j.broadcast.Some? { return InFlight; }
      jobs := jobs[id := j.(broadcast := Some(Broadcasting(ticket, now)))];
      lastTicket := ticket;
      answer := Claimed(ticket);
      ClaimBroadcastKeeps(l, id, now);
      Audit();
    }

    /** Under the ticket, let a leg go and burn its number. */
    method Leaving(id: Id, ticket: nat, leg: nat) returns (mayLeave: bool)
      requires Valid()
      modifies this, nonces
      ensures Valid() && (Abs(), mayLeave) == Ledgers.Leaving(old(Abs()), id, ticket, leg)
    {
      ghost var l := Abs();
      if id !in jobs { return false; }
      var j := jobs[id];
      if !j.OwnedBy(ticket) || leg >= |j.legs| { return false; }
      jobs := jobs[id := j.(legs := j.legs[leg := j.legs[leg].(left := true)])];
      SyncNonce(id);
      mayLeave := true;
      LeavingKeeps(l, id, ticket, leg);
      Audit();
    }

    /** Under the ticket, store a departed leg's hash. */
    method Landed(id: Id, ticket: nat, leg: nat, hash: string) returns (took: bool)
      requires Valid()
      modifies this, nonces
      ensures Valid() && (Abs(), took) == Ledgers.Landed(old(Abs()), id, ticket, leg, hash)
      ensures took <==> id in old(jobs) && old(jobs)[id].OwnedBy(ticket) && leg < |old(jobs)[id].legs| && old(jobs)[id].legs[leg].left
      ensures took ==> id in jobs && leg < |jobs[id].legs| && jobs[id].legs[leg].hash == Some(hash)
    {
      ghost var l := Abs();
      if id !in jobs { return false; }
      var j := jobs[id];
      if !j.OwnedBy(ticket) || leg >= |j.legs| || !j.legs[leg].left { return false; }
      jobs := jobs[id := j.(legs := j.legs[leg := j.legs[leg].(hash := Some(hash))])];
      took := true;
      LandedKeeps(l, id, ticket, leg, hash);
      Audit();
    }

    /** Settle a send, on behalf of a ticket's holder or, with `None`, of anybody else. */
    method Settle(id: Id, status: Status, ticket: Option<nat>) returns (outcome: Outcome)
      requires Valid()
      modifies this, nonces
      ensures Valid() && Abs() == Ledgers.Settle(old(Abs()), id, status, ticket)
      ensures outcome == SettleOutcome(old(Abs()), id, status, ticket)
    {
      ghost var l := Abs();
      if id !in jobs { return NoSuchSend; }
      var j := jobs[id];
      if j.broadcast.Some? && Some(j.broadcast.value.ticket) != ticket { return Unmoved; }
      var correcting := status.Broadcast? && ticket.Some? && !j.status.Broadcast?;
      if j.status.Terminal() && !correcting { return Unmoved; }
      outcome := Written(j.status != status);
      jobs := jobs[id := j.(status := status)];
      SyncNonce(id);
      SettleKeeps(l, id, status, ticket);
      Audit();
    }

    /**
      * Cancel a send that is still unsettled and that no broadcast owns: the stored one is answered, and
      * its numbers come back as far as they were not burnt and nobody else holds them.
      */
    method ClaimCancel(id: Id) returns (answer: Result<Job, CancelError>)
      requires Valid()
      modifies this, nonces
      ensures Valid() && (Abs(), answer) == Ledgers.ClaimCancel(old(Abs()), id)
      ensures answer.Ok? <==> id in old(jobs) && old(jobs)[id].status.AwaitingApproval? && old(jobs)[id].broadcast.None?
      ensures answer.Ok? ==> DoorMeanings.Cancels(old(Abs()), Abs(), id) && answer.value == jobs[id]
      ensures answer.Err? ==> Abs() == old(Abs())
    {
      DoorMeanings.WhatACancelDoes(Abs(), id);
      if id !in jobs { return Err(NoSend); }
      var j := jobs[id];
      if j.status.Terminal() { return Err(AlreadySettled); }
      if j.broadcast.Some? { return Err(BeingBroadcast); }
      var _ := Settle(id, Cancelled, None);
      answer := Ok(jobs[id]);
    }

    /** Burn the numbers rows on disk have open, and count those that were not burnt yet. */
    method SeedSpent(rows: seq<Slot>) returns (added: nat)
      requires Valid()
      modifies this, nonces
      ensures Valid() && Abs() == Ledgers.SeedSpent(old(Abs()), Elements(rows))
      ensures added == |Elements(rows) - old(Abs()).spent|
    {
      ghost var l := Abs();
      added := SeedRows(rows);
      SeedKeeps(l, Elements(rows));
      Audit();
    }

    method SeedRows(rows: seq<Slot>) returns (added: nat)
      modifies nonces
      ensures Abs() == Ledgers.SeedSpent(old(Abs()), Elements(rows))
      ensures added == |Elements(rows) - old(Abs()).spent|
    {
      added := 0;
      ghost var l := Abs();
      assert Elements(rows[..0]) == {} && Ledgers.SeedSpent(l, {}) == l;
      for i := 0 to |rows|
        invariant Abs() == Ledgers.SeedSpent(l, Elements(rows[..i]))
        invariant added == |Elements(rows[..i]) - l.spent|
      {
        SeedingOne(l, rows, i);
        var taken := Burn(rows[i].account, rows[i].number);
        assert Slot(rows[i].account, rows[i].number) == rows[i];
        added := added + if taken then 1 else 0;
      }
      assert rows[..|rows|] == rows;
    }
  }

  ghost function Elements(rows: seq<Slot>): set<Slot> { set s | s in rows }

  lemma SeedingOne(l: Ledger, rows: seq<Slot>, i: nat)
    requires i < |rows|
    ensures var seen, next := Elements(rows[..i]), Elements(rows[..i + 1]);
            && next == seen + {rows[i]}
            && |next - l.spent| == |seen - l.spent| + (if rows[i] in l.spent + seen then 0 else 1)
            && Ledgers.SeedSpent(Ledgers.SeedSpent(l, seen), {rows[i]}) == Ledgers.SeedSpent(l, next)
  {
    var seen, next := Elements(rows[..i]), Elements(rows[..i + 1]);
    assert rows[..i + 1] == rows[..i] + [rows[i]];
    assert next == seen + {rows[i]};
    assert (l.reserved + seen) + {rows[i]} == l.reserved + next;
    assert (l.spent + seen) + {rows[i]} == l.spent + next;
    if rows[i] in l.spent + seen {
      assert next - l.spent == seen - l.spent;
    } else {
      assert next - l.spent == (seen - l.spent) + {rows[i]};
    }
  }

  ghost function Take(l: Ledger, account: Account, numbers: seq<nat>): Ledger {
    l.(reserved := l.reserved + SlotsOf(account, numbers))
  }

  lemma TakingNone(l: Ledger, account: Account)
    ensures Take(l, account, []) == l
  {
    assert SlotsOf(account, []) == {};
  }

  /** The next number of a run is the least free once the earlier ones are taken. */
  lemma TakingOne(l: Ledger, account: Account, reading: nat, count: nat, i: nat)
    requires i < count
    ensures var run := FreeRun(Taken(l, account), reading, count);
            var before := Take(l, account, run[..i]);
            && run[i] == LeastFree(Taken(before, account), reading)
            && run[..i] + [run[i]] == run[..i + 1]
            && before.(reserved := before.reserved + {Slot(account, run[i])}) == Take(l, account, run[..i + 1])
  {
    var taken := Taken(l, account);
    var run := FreeRun(taken, reading, count);
    var before := Take(l, account, run[..i]);
    FreeRunAt(taken, reading, count, i);
    assert Taken(before, account) == taken + Numbers(run[..i]);
    assert run[..i] + [run[i]] == run[..i + 1];
    assert SlotsOf(account, run[..i + 1]) == SlotsOf(account, run[..i]) + {Slot(account, run[i])} by {
      assert forall s: Slot | s.account == account && s.number == run[i] :: s == Slot(account, run[i]);
    }
    assert (l.reserved + SlotsOf(account, run[..i])) + {Slot(account, run[i])} ==
           l.reserved + SlotsOf(account, run[..i + 1]);
  }

  /** Two counted entries of different holders at one number. */
  predicate Rivals(e: Entry, f: Entry) {
    e.counts && f.counts && e.slot == f.slot && e.who != f.who
  }

  ghost predicate Rivalled(entries: seq<Entry>, e: Entry) {
    exists m :: 0 <= m < |entries| && Rivals(e, entries[m])
  }

  ghost function EntrySlots(entries: seq<Entry>): set<Slot> { set e | e in entries :: e.slot }

  lemma EntrySlotsGrow(entries: seq<Entry>, i: nat)
    requires i < |entries|
    ensures var slot := entries[i].slot;
            && slot == Slot(slot.account, slot.number)
            && EntrySlots(entries[..i + 1]) == EntrySlots(entries[..i]) + {slot}
  {
    assert entries[..i + 1] == entries[..i] + [entries[i]];
  }

  lemma EntrySlotsAreHeld(l: Ledger, entries: seq<Entry>)
    requires forall e | e in entries :: Listed(l, e)
    requires forall h, s | Holds(l, h, s) :: Entry(s, Counts(l, h), h) in entries
    ensures EntrySlots(entries) == HeldSlots(l)
  {
    forall s ensures s in HeldSlots(l) <==> s in EntrySlots(entries) {
      if IsHeld(l, s) {
        var h :| Holds(l, h, s);
        assert Entry(s, Counts(l, h), h) in entries;
      }
    }
  }

  lemma FaultsAreTheAudit(l: Ledger, entries: seq<Entry>, faults: set<Fault>)
    requires forall e | e in entries :: Listed(l, e)
    requires forall h, s | Holds(l, h, s) :: Entry(s, Counts(l, h), h) in entries
    requires forall h, s :: Unreserved(h, s) in faults <==>
      s !in l.reserved && exists k :: 0 <= k < |entries| && entries[k].who == h && entries[k].slot == s
    requires forall h, s :: Shared(h, s) in faults <==>
      exists k :: 0 <= k < |entries| && entries[k].who == h && entries[k].slot == s && Rivalled(entries, entries[k])
    ensures forall h, s :: Unreserved(h, s) in faults <==> Holds(l, h, s) && s !in l.reserved
    ensures forall h, s :: Shared(h, s) in faults <==>
      Holds(l, h, s) && Counts(l, h) && exists w :: w != h && Holds(l, w, s) && Counts(l, w)
    ensures faults == {} <==> Audited(l)
  {
    forall h, s ensures Holds(l, h, s) <==> exists k :: 0 <= k < |entries| && entries[k].who == h && entries[k].slot == s {
      if Holds(l, h, s) {
        var e := Entry(s, Counts(l, h), h);
        var k :| 0 <= k < |entries| && entries[k] == e;
        assert entries[k].who == h && entries[k].slot == s;
      } else {
        assert forall k | 0 <= k < |entries| :: Listed(l, entries[k]);
      }
    }
    forall h, s
      ensures Shared(h, s) in faults <==>
        Holds(l, h, s) && Counts(l, h) && exists w :: w != h && Holds(l, w, s) && Counts(l, w)
    {
      if Shared(h, s) in faults {
        var k :| 0 <= k < |entries| && entries[k].who == h && entries[k].slot == s && Rivalled(entries, entries[k]);
        var m :| 0 <= m < |entries| && Rivals(entries[k], entries[m]);
        assert Listed(l, entries[k]) && Listed(l, entries[m]);
      }
      if w :| w != h && Holds(l, w, s) && Counts(l, w) && Holds(l, h, s) && Counts(l, h) {
        var e, f := Entry(s, true, h), Entry(s, true, w);
        var k :| 0 <= k < |entries| && entries[k] == e;
        var m :| 0 <= m < |entries| && entries[m] == f;
        assert Rivals(entries[k], entries[m]);
        assert entries[k].who == h && entries[k].slot == s && Rivalled(entries, entries[k]);
      }
    }
    if Audited(l) {
      forall f ensures f !in faults {
        match f
        case Unreserved(h, s) => assert Holds(l, h, s) ==> s in l.reserved;
        case Shared(h, s) =>
          assert forall w :: Holds(l, h, s) && Holds(l, w, s) && Counts(l, h) && Counts(l, w) ==> w == h;
      }
    } else if !Contained(l) {
      var h, s :| Holds(l, h, s) && s !in l.reserved;
      assert Unreserved(h, s) in faults;
    } else {
      var h, w, s :| Holds(l, h, s) && Holds(l, w, s) && Counts(l, h) && Counts(l, w) && h != w;
      assert Shared(h, s) in faults;
    }
  }

  ghost function SpentUpTo(j: Job, k: nat): set<Slot>
    requires k <= |j.legs|
  {
    set i | 0 <= i < k && j.LegSpent(i) :: j.SlotOf(i)
  }

  ghost function UnspentUpTo(j: Job, k: nat): set<Slot>
    requires k <= |j.legs|
  {
    set i | 0 <= i < k && !j.LegSpent(i) :: j.SlotOf(i)
  }

  /** What writing the first `k` legs of a send leaves of the ledger. */
  ghost function SyncUpTo(l: Ledger, id: Id, k: nat): Ledger
    requires id in l.jobs && k <= |l.jobs[id].legs|
  {
    var j := l.jobs[id];
    l.(spent := l.spent + SpentUpTo(j, k),
       reserved := set s | s in l.reserved + SpentUpTo(j, k)
                           && !(s in UnspentUpTo(j, k) && s !in l.spent && !IsHeld(l, s)))
  }

  lemma SyncStarts(l: Ledger, id: Id)
    requires id in l.jobs
    ensures SyncUpTo(l, id, 0) == l
  {
    assert SyncUpTo(l, id, 0).reserved == l.reserved;
  }

  lemma SyncContinues(l: Ledger, id: Id, k: nat)
    requires id in l.jobs && k < |l.jobs[id].legs|
    ensures var j := l.jobs[id];
            var before := SyncUpTo(l, id, k);
            SyncUpTo(l, id, k + 1) == if j.LegSpent(k) then Ledgers.SeedSpent(before, {j.SlotOf(k)})
                                      else Release(before, {j.SlotOf(k)})
  {
    if l.jobs[id].LegSpent(k) { SyncBurns(l, id, k); } else { SyncReleases(l, id, k); }
  }

  lemma SyncBurns(l: Ledger, id: Id, k: nat)
    requires id in l.jobs && k < |l.jobs[id].legs| && l.jobs[id].LegSpent(k)
    ensures SyncUpTo(l, id, k + 1) == Ledgers.SeedSpent(SyncUpTo(l, id, k), {l.jobs[id].SlotOf(k)})
  {
    var j := l.jobs[id];
    var slot := j.SlotOf(k);
    var before, after := SyncUpTo(l, id, k), SyncUpTo(l, id, k + 1);
    assert SpentUpTo(j, k + 1) == SpentUpTo(j, k) + {slot} && UnspentUpTo(j, k + 1) == UnspentUpTo(j, k);
    assert IsHeld(l, slot) by {
      assert JobSpent(j, slot);
      SpentLegIsHeld(l, id);
    }
    assert after.reserved == before.reserved + {slot};
    assert after.spent == before.spent + {slot};
  }

  lemma SyncReleases(l: Ledger, id: Id, k: nat)
    requires id in l.jobs && k < |l.jobs[id].legs| && !l.jobs[id].LegSpent(k)
    ensures SyncUpTo(l, id, k + 1) == Release(SyncUpTo(l, id, k), {l.jobs[id].SlotOf(k)})
  {
    var j := l.jobs[id];
    var slot := j.SlotOf(k);
    var before, after := SyncUpTo(l, id, k), SyncUpTo(l, id, k + 1);
    HoldersOnly(l, before);
    forall s | s in SpentUpTo(j, k) ensures IsHeld(l, s) {
      assert JobSpent(j, s);
      SpentLegIsHeld(l, id);
    }
    assert SpentUpTo(j, k + 1) == SpentUpTo(j, k) && UnspentUpTo(j, k + 1) == UnspentUpTo(j, k) + {slot};
    assert after.reserved == Release(before, {slot}).reserved;
  }

  lemma SyncEnds(l: Ledger, id: Id)
    requires id in l.jobs
    ensures SyncUpTo(l, id, |l.jobs[id].legs|) == Ledgers.SyncNonce(l, id)
  {
    var j := l.jobs[id];
    assert SpentUpTo(j, |j.legs|) == SpentSlots(j) && UnspentUpTo(j, |j.legs|) == UnspentSlots(j);
    HoldersOnly(l, l.(reserved := l.reserved + SpentSlots(j), spent := l.spent + SpentSlots(j)));
    SpentLegIsHeld(l, id);
    assert SyncUpTo(l, id, |j.legs|).reserved == Ledgers.SyncNonce(l, id).reserved;
  }

  lemma SpentLegIsHeld(l: Ledger, id: Id)
    requires id in l.jobs
    ensures forall s | JobSpent(l.jobs[id], s) :: IsHeld(l, s)
  {
    forall s | JobSpent(l.jobs[id], s) ensures IsHeld(l, s) {
      assert Holds(l, ByJob(id), s);
    }
  }

  /** Holding is a matter of claims and jobs alone. */
  lemma HoldersOnly(l: Ledger, m: Ledger)
    requires m.jobs == l.jobs && m.claims == l.claims
    ensures forall s :: IsHeld(m, s) <==> IsHeld(l, s)
    ensures forall s :: IsHeldUnleft(m, s) <==> IsHeldUnleft(l, s)
  {
    assert forall h, s :: Holds(m, h, s) <==> Holds(l, h, s);
    assert forall h, s :: HoldsUnleft(m, h, s) <==> HoldsUnleft(l, h, s);
    forall s ensures IsHeld(m, s) <==> IsHeld(l, s) {
      if IsHeld(l, s) { var h :| Holds(l, h, s); assert Holds(m, h, s); }
      if IsHeld(m, s) { var h :| Holds(m, h, s); assert Holds(l, h, s); }
    }
    forall s ensures IsHeldUnleft(m, s) <==> IsHeldUnleft(l, s) {
      if IsHeldUnleft(l, s) { var h :| HoldsUnleft(l, h, s); assert HoldsUnleft(m, h, s); }
      if IsHeldUnleft(m, s) { var h :| HoldsUnleft(m, h, s); assert HoldsUnleft(l, h, s); }
    }
  }
}
