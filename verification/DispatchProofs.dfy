/** Every event of every interleaving keeps the invariant of `Dispatch`. */
module DispatchProofs {
  import opened Basics
  import opened Reserver
  import opened Ledgers
  import opened LedgerInvariant
  import opened Dispatch

  // ---- Events in which nothing leaves and nobody takes a number

  /** The job kept its bundle and what had left, and did not come back to life. */
  predicate Tamer(j: Job, k: Job) {
    && SameBundle(j, k)
    && (forall i | 0 <= i < |j.legs| :: k.legs[i].left == j.legs[i].left)
    && (j.status.Terminal() ==> k.status.Terminal())
  }

  lemma TamerHoldsLess(j: Job, k: Job, s: Slot)
    requires Tamer(j, k) && JobUnleft(k, s)
    ensures JobUnleft(j, s)
  {
    var i :| 0 <= i < |k.legs| && k.SlotOf(i) == s && !k.LegSpent(i);
    assert j.SlotOf(i) == s && !j.LegSpent(i);
  }

  ghost predicate Quiet(w: World, w': World) {
    && w'.log == w.log && w'.jobBorn == w.jobBorn && w'.claimBorn == w.claimBorn
    && w.seeded <= w'.seeded
    && w'.ledger.jobs.Keys == w.ledger.jobs.Keys
    && (forall id | id in w.ledger.jobs :: Tamer(w.ledger.jobs[id], w'.ledger.jobs[id]))
    && (forall c | c in w'.ledger.claims :: c in w.ledger.claims && w'.ledger.claims[c] == w.ledger.claims[c])
  }

  lemma QuietKeepsTheLog(w: World, w': World)
    requires LogOk(w) && BirthsOk(w) && LineagesOk(w) && Quiet(w, w')
    ensures LogOk(w') && BirthsOk(w') && LineagesOk(w')
  {
    forall k | 0 <= k < |w.log| ensures EntryOk(w', w.log[k]) {
      assert EntryOk(w, w.log[k]);
      assert Tamer(w.ledger.jobs[w.log[k].id], w'.ledger.jobs[w.log[k].id]);
    }
    forall id, i: nat | id in w'.ledger.jobs && i < |w'.ledger.jobs[id].legs| && w'.ledger.jobs[id].legs[i].left
      ensures LogHas(w'.log, id, i)
    {
      assert Tamer(w.ledger.jobs[id], w'.ledger.jobs[id]);
    }
  }

  lemma QuietKeepsTheHolders(w: World, w': World)
    requires HoldersOk(w) && Quiet(w, w')
    ensures HoldersOk(w')
  {
    forall id, s | id in w'.ledger.jobs && JobUnleft(w'.ledger.jobs[id], s) && id in w'.jobBorn
      ensures Lineage(w'.log, w'.seeded, s, w'.ledger.jobs[id].replacing, w'.jobBorn[id])
    {
      TamerHoldsLess(w.ledger.jobs[id], w'.ledger.jobs[id], s);
    }
  }

  /** Burning what a job spent adds only numbers whose departure is in the log. */
  lemma SyncBurnsWhatLeft(w: World, id: Id)
    requires LogOk(w) && JobsOk(w.ledger) && id in w.ledger.jobs
    ensures forall s | s in SyncNonce(w.ledger, id).spent :: s in w.ledger.spent || Logged(w.log, s)
  {
    var j := w.ledger.jobs[id];
    forall s | JobSpent(j, s) ensures Logged(w.log, s) {
      var i :| 0 <= i < |j.legs| && j.SlotOf(i) == s && j.LegSpent(i);
      assert j.legs[i].left;
      assert LogHas(w.log, id, i);
      var k :| 0 <= k < |w.log| && w.log[k].id == id && w.log[k].leg == i;
      assert EntryOk(w, w.log[k]) && w.log[k].slot == s;
    }
  }

  /** A poll of another send, or one still reading, does not notice a change of this one. */
  lemma OtherPollsUnmoved(w: World, w': World, id: Id)
    requires PollsOk(w) && id in w.ledger.jobs && id in w'.ledger.jobs
    requires w'.ledger.jobs == w.ledger.jobs[id := w'.ledger.jobs[id]]
    requires SameBundle(w.ledger.jobs[id], w'.ledger.jobs[id])
    requires forall p | p in w'.polls ::
      p in w.polls && w'.polls[p] == w.polls[p] && (w.polls[p].Sending? ==> w.polls[p].id != id)
    ensures PollsOk(w')
  {
    forall p | p in w'.polls ensures PollOk(w'.ledger, w'.polls[p]) {
      assert PollOk(w.ledger, w.polls[p]);
    }
  }

  /** A settle that changes nothing but one job's status, and the numbers that follow from it. */
  lemma StatusKeeps(w: World, w': World, id: Id, status: Status)
    requires WorldInv(w) && id in w.ledger.jobs && Inv(w'.ledger) && status.Terminal()
    requires w'.ledger == SyncNonce(WriteStatus(w.ledger, id, status), id)
    requires w' == w.(ledger := w'.ledger, polls := w'.polls)
    requires WellSent(w.ledger.jobs[id].(status := status))
    requires forall p | p in w'.polls ::
      p in w.polls && w'.polls[p] == w.polls[p] && (w.polls[p].Sending? ==> w.polls[p].id != id)
    ensures WorldInv(w')
  {
    var m := w'.(ledger := WriteStatus(w.ledger, id, status));
    StatusIsQuiet(w, m, id, status);
    QuietKeepsTheLog(w, m);
    QuietKeepsTheHolders(w, m);
    OtherPollsUnmoved(w, m, id);
    NumbersWritten(m, w', id);
  }

  lemma StatusIsQuiet(w: World, m: World, id: Id, status: Status)
    requires JobsOk(w.ledger) && id in w.ledger.jobs && status.Terminal()
    requires WellSent(w.ledger.jobs[id].(status := status))
    requires m == w.(ledger := WriteStatus(w.ledger, id, status), polls := m.polls)
    ensures Quiet(w, m) && JobsOk(m.ledger)
  {}

  lemma SettlingFromOutsideKeeps(w: World, w': World, id: Id, status: Status)
    requires WorldInv(w) && (status.Rejected? || status.Failed? || status.Cancelled?)
    requires w' == w.(ledger := Settle(w.ledger, id, status, None), polls := w'.polls)
    requires forall p | p in w'.polls :: p in w.polls && w'.polls[p] == w.polls[p]
    ensures WorldInv(w')
  {
    SettleKeeps(w.ledger, id, status, None);
    if SettleOutcome(w.ledger, id, status, None).Written? {
      StatusKeeps(w, w', id, status);
    }
  }

  lemma CancelKeeps(w: World, w': World, id: Id)
    requires WorldInv(w) && Next(w, Cancel(id), w')
    ensures WorldInv(w')
  {
    SettlingFromOutsideKeeps(w, w.(ledger := Settle(w.ledger, id, Cancelled, None)), id, Cancelled);
  }

  lemma FailsKeeps(w: World, w': World, poll: nat, reason: string)
    requires WorldInv(w) && Next(w, Fails(poll, reason), w')
    ensures WorldInv(w')
  {
    var p := w.polls[poll];
    OwnerSettles(w, poll, Failed(reason));
    SettleKeeps(w.ledger, p.id, Failed(reason), Some(p.ticket));
    StatusKeeps(w, w', p.id, Failed(reason));
  }

  lemma FinishesKeeps(w: World, w': World, poll: nat, route: string)
    requires WorldInv(w) && Next(w, Finishes(poll, route), w')
    ensures WorldInv(w')
  {
    var p := w.polls[poll];
    OwnerSettles(w, poll, Broadcast(p.phase.hash, route));
    SettleKeeps(w.ledger, p.id, Broadcast(p.phase.hash, route), Some(p.ticket));
    StatusKeeps(w, w', p.id, Broadcast(p.phase.hash, route));
  }

  /** The owner's settle is always written, and what it writes is true of the legs. */
  lemma OwnerSettles(w: World, poll: nat, status: Status)
    requires PollsOk(w) && JobsOk(w.ledger)
    requires poll in w.polls && w.polls[poll].Sending? && status.Terminal()
    requires status.Broadcast? ==> w.polls[poll].phase.Finishing?
    ensures var p := w.polls[poll];
            && p.id in w.ledger.jobs
            && SettleOutcome(w.ledger, p.id, status, Some(p.ticket)) == Written(true)
            && WellSent(w.ledger.jobs[p.id].(status := status))
  {
    assert PollOk(w.ledger, w.polls[poll]) && WellSent(w.ledger.jobs[w.polls[poll].id]);
  }

  lemma AbandonKeepsWorld(w: World, w': World, claim: nat)
    requires WorldInv(w) && Next(w, Event.Abandon(claim), w')
    ensures WorldInv(w')
  {
    AbandonKeeps(w.ledger, claim);
    QuietKeepsTheLog(w, w');
    QuietKeepsTheHolders(w, w');
  }

  lemma SeedKeepsWorld(w: World, w': World, slots: set<Slot>)
    requires WorldInv(w) && Next(w, Seed(slots), w')
    ensures WorldInv(w')
  {
    SeedKeeps(w.ledger, slots);
    QuietKeepsTheLog(w, w');
    QuietKeepsTheHolders(w, w');
  }

  /** One send's job changed, and the one poll that owns it moved with it. */
  lemma OwnerMovedPolls(w: World, w': World, poll: nat, id: Id)
    requires PollsOk(w) && id in w.ledger.jobs && id in w'.ledger.jobs
    requires w'.ledger.jobs == w.ledger.jobs[id := w'.ledger.jobs[id]]
    requires SameBundle(w.ledger.jobs[id], w'.ledger.jobs[id])
    requires poll in w'.polls && w'.polls == w.polls[poll := w'.polls[poll]]
    requires w'.polls[poll].id == id && w'.polls[poll].Sending? && PollOk(w'.ledger, w'.polls[poll])
    requires forall q | q in w.polls && q != poll && w.polls[q].Sending? :: w.polls[q].id != id
    ensures PollsOk(w')
  {
    forall q | q in w'.polls ensures PollOk(w'.ledger, w'.polls[q]) {
      if q != poll { assert PollOk(w.ledger, w.polls[q]); }
    }
  }

  lemma OneJobTamed(w: World, w': World, id: Id)
    requires JobsOk(w.ledger) && id in w.ledger.jobs && id in w'.ledger.jobs
    requires w'.ledger.jobs == w.ledger.jobs[id := w'.ledger.jobs[id]]
    requires Tamer(w.ledger.jobs[id], w'.ledger.jobs[id]) && WellSent(w'.ledger.jobs[id])
    requires w' == w.(ledger := w'.ledger, polls := w'.polls) && w'.ledger.claims == w.ledger.claims
    ensures JobsOk(w'.ledger) && Quiet(w, w')
  {}

  lemma PollClaimsKeeps(w: World, w': World, poll: nat, now: nat)
    requires WorldInv(w) && Next(w, PollClaims(poll, now), w')
    ensures WorldInv(w')
  {
    ClaimBroadcastKeeps(w.ledger, w.polls[poll].id, now);
    if ClaimBroadcast(w.ledger, w.polls[poll].id, now).1.Claimed? {
      ClaimOwns(w, w', poll, now);
      QuietKeeps(w, w');
    } else {
      PollOnlyKeeps(w, w');
    }
  }

  lemma QuietKeeps(w: World, w': World)
    requires WorldInv(w) && Quiet(w, w') && Inv(w'.ledger) && JobsOk(w'.ledger) && PollsOk(w')
    requires w'.ledger.spent == w.ledger.spent && w'.ledger.stranded == w.ledger.stranded
    ensures WorldInv(w')
  {
    QuietKeepsTheLog(w, w');
    QuietKeepsTheHolders(w, w');
  }

  lemma ClaimOwns(w: World, w': World, poll: nat, now: nat)
    requires PollsOk(w) && JobsOk(w.ledger) && Numbered(w.ledger) && Next(w, PollClaims(poll, now), w')
    requires ClaimBroadcast(w.ledger, w.polls[poll].id, now).1.Claimed?
    ensures PollsOk(w') && JobsOk(w'.ledger) && Quiet(w, w')
  {
    var p := w.polls[poll];
    assert PollOk(w.ledger, p);
    var j, k := w.ledger.jobs[p.id], w'.ledger.jobs[p.id];
    assert WellSent(j) && j.broadcast.None?;
    assert SentUpTo(k, 0, 0) && |k.legs| > 0;
    forall q | q in w.polls && q != poll && w.polls[q].Sending? ensures w.polls[q].id != p.id {
      assert PollOk(w.ledger, w.polls[q]);
    }
    OwnerMovedPolls(w, w', poll, p.id);
    OneJobTamed(w, w', p.id);
  }

  lemma LandsKeeps(w: World, w': World, poll: nat)
    requires WorldInv(w) && Next(w, Lands(poll), w')
    ensures WorldInv(w')
  {
    var p := w.polls[poll];
    LandedKeeps(w.ledger, p.id, p.ticket, p.phase.leg, p.phase.hash);
    HashTaken(w, w', poll);
    QuietKeeps(w, w');
  }

  lemma TakingAHash(j: Job, leg: nat, hash: string, k: Job)
    requires WellSent(j) && leg < |j.legs| && SentUpTo(j, leg + 1, leg)
    requires k == j.(legs := j.legs[leg := j.legs[leg].(hash := Some(hash))])
    ensures SentUpTo(k, leg + 1, leg + 1) && WellSent(k) && Tamer(j, k)
  {}

  lemma HashTaken(w: World, w': World, poll: nat)
    requires PollsOk(w) && JobsOk(w.ledger) && Next(w, Lands(poll), w')
    ensures PollsOk(w') && JobsOk(w'.ledger) && Quiet(w, w')
    ensures w'.ledger == w.ledger.(jobs := w'.ledger.jobs)
  {
    var p := w.polls[poll];
    assert PollOk(w.ledger, p);
    TakingAHash(w.ledger.jobs[p.id], p.phase.leg, p.phase.hash, w'.ledger.jobs[p.id]);
    OwnerMovedPolls(w, w', poll, p.id);
    OneJobTamed(w, w', p.id);
  }

  /** Events that move only a poll. */
  lemma PollOnlyKeeps(w: World, w': World)
    requires WorldInv(w) && w' == w.(polls := w'.polls) && PollsOk(w')
    ensures WorldInv(w')
  {}

  lemma ANewReadingKeeps(w: World, e: Event, w': World)
    requires PollsOk(w) && Next(w, e, w') && e.PollReads?
    ensures PollsOk(w') && w' == w.(polls := w'.polls)
  {
    forall q | q in w'.polls ensures PollOk(w'.ledger, w'.polls[q]) {
      if q in w.polls { assert PollOk(w.ledger, w.polls[q]); }
    }
  }

  lemma PollStepKeeps(w: World, e: Event, w': World)
    requires PollsOk(w) && Next(w, e, w') && (e.PollGivesUp? || e.Records? || e.NodeAnswers?)
    ensures PollsOk(w') && w' == w.(polls := w'.polls)
  {
    forall q | q in w'.polls ensures PollOk(w'.ledger, w'.polls[q]) {
      assert PollOk(w.ledger, w.polls[q]);
    }
  }

  // ---- Taking a number

  lemma LoggedIsSpent(w: World, s: Slot)
    requires LogOk(w) && Logged(w.log, s)
    ensures SpentByJob(w.ledger, s)
  {
    var k :| 0 <= k < |w.log| && w.log[k].slot == s;
    assert EntryOk(w, w.log[k]);
    var j := w.ledger.jobs[w.log[k].id];
    assert j.SlotOf(w.log[k].leg) == s && j.LegSpent(w.log[k].leg);
    assert JobSpent(j, s);
  }

  /** A pin onto a number names its proper predecessor. */
  lemma PinHasLineage(w: World, s: Slot, r: Replacing)
    requires WorldInv(w) && PinNames(w.ledger, s, r)
    requires s in w.ledger.reserved + w.ledger.spent && !IsHeldUnleft(w.ledger, s)
    ensures Lineage(w.log, w.seeded, s, Some(r), |w.log|)
  {
    match r
    case Send(id) =>
      var j := w.ledger.jobs[id];
      var i :| 0 <= i < |j.legs| && j.SlotOf(i) == s && j.LegSpent(i);
      assert WellSent(j) && j.legs[i].left;
      assert LogHas(w.log, id, i);
      var k :| 0 <= k < |w.log| && w.log[k].id == id && w.log[k].leg == i;
      assert EntryOk(w, w.log[k]) && w.log[k].slot == s;
    case Departed =>
      if Logged(w.log, s) { LoggedIsSpent(w, s); }
      forall h ensures !Holds(w.ledger, h, s) {
        HoldingIsUnleftOrSpent(w.ledger, h, s);
      }
  }

  /** A claim with a proper lineage for each of its numbers may be added. */
  lemma ClaimAddedKeeps(w: World, w': World, c: Claim)
    requires WorldInv(w) && Inv(w'.ledger)
    requires w'.ledger == AddClaim(w.ledger, c).(reserved := w'.ledger.reserved)
    requires w' == w.(ledger := w'.ledger, claimBorn := w.claimBorn[w.ledger.lastClaim + 1 := |w.log|])
    requires forall s | ClaimAt(c, s) :: Lineage(w.log, w.seeded, s, c.replacing, |w.log|)
    ensures WorldInv(w')
  {
    TheRestStays(w, w');
    ClaimAddedKeepsHolders(w, w', c);
  }

  lemma TheRestStays(w: World, w': World)
    requires LogOk(w) && PollsOk(w) && LineagesOk(w)
    requires w' == w.(ledger := w'.ledger, claimBorn := w'.claimBorn) && w'.ledger.jobs == w.ledger.jobs
    ensures LogOk(w') && PollsOk(w') && LineagesOk(w')
  {
    forall k | 0 <= k < |w.log| ensures EntryOk(w', w.log[k]) { assert EntryOk(w, w.log[k]); }
    forall p | p in w'.polls ensures PollOk(w'.ledger, w'.polls[p]) { assert PollOk(w.ledger, w.polls[p]); }
  }

  lemma ClaimAddedKeepsHolders(w: World, w': World, c: Claim)
    requires HoldersOk(w)
    requires w'.ledger == AddClaim(w.ledger, c).(reserved := w'.ledger.reserved)
    requires w' == w.(ledger := w'.ledger, claimBorn := w.claimBorn[w.ledger.lastClaim + 1 := |w.log|])
    requires forall s | ClaimAt(c, s) :: Lineage(w.log, w.seeded, s, c.replacing, |w.log|)
    ensures HoldersOk(w')
  {
    forall o, s | o in w'.ledger.claims && ClaimAt(w'.ledger.claims[o], s) && o in w'.claimBorn
      ensures Lineage(w'.log, w'.seeded, s, w'.ledger.claims[o].replacing, w'.claimBorn[o])
    {
      if o == w.ledger.lastClaim + 1 { assert w'.ledger.claims[o] == c; }
    }
  }

  lemma OpenKeepsWorld(w: World, w': World, account: Account, reading: nat, count: nat, pinned: Option<nat>)
    requires WorldInv(w) && Next(w, Open(account, reading, count, pinned), w')
    ensures WorldInv(w')
  {
    var l, l' := w.ledger, w'.ledger;
    var answer :|
      && Opens(l, account, reading, count, pinned, l', answer)
      && w' == w.(ledger := l', claimBorn := if answer.Ok? then w.claimBorn[answer.value := |w.log|] else w.claimBorn);
    OpenKeeps(l, account, reading, count, pinned, l', answer);
    if answer.Ok? {
      var c := OpenAddsAClaim(l, account, reading, count, pinned, l', answer);
      forall s | ClaimAt(c, s) ensures Lineage(w.log, w.seeded, s, c.replacing, |w.log|) {
        OpenedHasLineage(w, account, reading, count, pinned, l', answer, c, s);
      }
      ClaimAddedKeeps(w, w', c);
    }
  }

  lemma OpenAddsAClaim(l: Ledger, account: Account, reading: nat, count: nat, pinned: Option<nat>,
                       l': Ledger, answer: Result<nat, OpenError>) returns (c: Claim)
    requires Opens(l, account, reading, count, pinned, l', answer) && answer.Ok?
    ensures l' == AddClaim(l, c).(reserved := l'.reserved) && answer.value == l.lastClaim + 1
  {
    c := l'.claims[l.lastClaim + 1];
  }

  lemma OpenedHasLineage(w: World, account: Account, reading: nat, count: nat, pinned: Option<nat>,
                         l': Ledger, answer: Result<nat, OpenError>, c: Claim, s: Slot)
    requires WorldInv(w) && Opens(w.ledger, account, reading, count, pinned, l', answer) && answer.Ok?
    requires l' == AddClaim(w.ledger, c).(reserved := l'.reserved) && ClaimAt(c, s)
    ensures Lineage(w.log, w.seeded, s, c.replacing, |w.log|)
  {
    if pinned.Some? && s in w.ledger.reserved + w.ledger.spent {
      PinnedHasLineage(w, account, reading, count, pinned, l', answer, c, s);
    } else {
      OpenedFree(w.ledger, account, reading, count, pinned, l', answer, c, s);
      FreeIsUnlogged(w, s);
    }
  }

  lemma OpenedFree(l: Ledger, account: Account, reading: nat, count: nat, pinned: Option<nat>,
                   l': Ledger, answer: Result<nat, OpenError>, c: Claim, s: Slot)
    requires Opens(l, account, reading, count, pinned, l', answer) && answer.Ok?
    requires l' == AddClaim(l, c).(reserved := l'.reserved) && ClaimAt(c, s)
    requires pinned.None? || s !in l.reserved + l.spent
    ensures c.replacing.None? && s !in l.reserved + l.spent
  {
    assert c == l'.claims[l.lastClaim + 1];
    if pinned.None? { RunIsFree(l, account, reading, count, s); } else { assert s == Slot(account, pinned.value); }
  }

  lemma PinnedHasLineage(w: World, account: Account, reading: nat, count: nat, pinned: Option<nat>,
                         l': Ledger, answer: Result<nat, OpenError>, c: Claim, s: Slot)
    requires WorldInv(w) && Opens(w.ledger, account, reading, count, pinned, l', answer) && answer.Ok? && pinned.Some?
    requires l' == AddClaim(w.ledger, c).(reserved := l'.reserved) && ClaimAt(c, s) && s in w.ledger.reserved + w.ledger.spent
    ensures Lineage(w.log, w.seeded, s, c.replacing, |w.log|)
  {
    var r := PinnedNames(w.ledger, account, reading, count, pinned, l', answer, c, s);
    PinHasLineage(w, s, r);
  }

  lemma PinnedNames(l: Ledger, account: Account, reading: nat, count: nat, pinned: Option<nat>,
                    l': Ledger, answer: Result<nat, OpenError>, c: Claim, s: Slot) returns (r: Replacing)
    requires Opens(l, account, reading, count, pinned, l', answer) && answer.Ok? && pinned.Some?
    requires l' == AddClaim(l, c).(reserved := l'.reserved) && ClaimAt(c, s) && s in l.reserved + l.spent
    ensures PinNames(l, s, r) && !IsHeldUnleft(l, s) && c.replacing == Some(r)
  {
    assert c == l'.claims[l.lastClaim + 1] && s == Slot(account, pinned.value);
    r :| PinNames(l, s, r) && l' == OpenReplacing(l, s, r);
  }

  lemma FreeIsUnlogged(w: World, s: Slot)
    requires LogOk(w) && DepartedAreSpent(w.ledger) && s !in w.ledger.spent
    ensures !Logged(w.log, s)
  {
    if Logged(w.log, s) { LoggedIsSpent(w, s); }
  }

  lemma RunIsFree(l: Ledger, account: Account, reading: nat, count: nat, s: Slot)
    requires s.account == account && s.number in FreeRun(Taken(l, account), reading, count)
    ensures s !in l.reserved + l.spent
  {
    FreeRunIsTheLeastFree(Taken(l, account), reading, count);
    assert s == Slot(account, s.number);
  }

  lemma CommitKeepsWorld(w: World, w': World, claim: nat, id: Id, draft: Job)
    requires WorldInv(w) && Next(w, Event.Commit(claim, id, draft), w')
    ensures WorldInv(w')
  {
    CommitKeeps(w.ledger, claim, id, draft);
    NewJobIsUnsent(w, w', claim, id, draft);
    NewJobKeepsTheLog(w, w', claim, id, draft);
    NewJobKeepsTheHolders(w, w', claim, id, draft);
  }

  lemma NewJobIsUnsent(w: World, w': World, claim: nat, id: Id, draft: Job)
    requires JobsOk(w.ledger) && PollsOk(w) && Committing(w, claim, id, draft, w')
    ensures JobsOk(w'.ledger) && PollsOk(w')
  {
    FromClaimHolds(w.ledger.claims[claim], draft, Slot(draft.account, 0));
    assert WellSent(w'.ledger.jobs[id]);
    forall p | p in w'.polls ensures PollOk(w'.ledger, w'.polls[p]) { assert PollOk(w.ledger, w.polls[p]); }
  }

  lemma NewJobKeepsTheLog(w: World, w': World, claim: nat, id: Id, draft: Job)
    requires LogOk(w) && BirthsOk(w) && LineagesOk(w) && Committing(w, claim, id, draft, w')
    ensures LogOk(w') && BirthsOk(w') && LineagesOk(w')
  {
    FromClaimHolds(w.ledger.claims[claim], draft, Slot(draft.account, 0));
    forall k | 0 <= k < |w.log| ensures EntryOk(w', w.log[k]) { assert EntryOk(w, w.log[k]); }
    forall o, i: nat | o in w'.ledger.jobs && i < |w'.ledger.jobs[o].legs| && w'.ledger.jobs[o].legs[i].left
      ensures LogHas(w'.log, o, i)
    {
      assert o != id;
    }
  }

  lemma NewJobKeepsTheHolders(w: World, w': World, claim: nat, id: Id, draft: Job)
    requires HoldersOk(w) && Committing(w, claim, id, draft, w')
    ensures HoldersOk(w')
  {
    forall o, s | o in w'.ledger.jobs && JobUnleft(w'.ledger.jobs[o], s) && o in w'.jobBorn
      ensures Lineage(w'.log, w'.seeded, s, w'.ledger.jobs[o].replacing, w'.jobBorn[o])
    {
      FromClaimHolds(w.ledger.claims[claim], draft, s);
    }
  }

  // ---- Leaving

  /** A recorded leg of the owner's is never refused by the ledger. */
  lemma TheOwnerMayLeave(w: World, poll: nat)
    requires WorldInv(w) && InPhase(w, poll, (ph: Phase) => ph.Burning?)
    ensures var p := w.polls[poll];
            && Ledgers.Leaving(w.ledger, p.id, p.ticket, p.phase.leg).1
            && p.phase.leg < |p.job.legs| && p.id in w.jobBorn
            && JobUnleft(w.ledger.jobs[p.id], p.job.SlotOf(p.phase.leg))
  {
    var p := w.polls[poll];
    assert PollOk(w.ledger, p);
    var j := w.ledger.jobs[p.id];
    assert j.SlotOf(p.phase.leg) == p.job.SlotOf(p.phase.leg) && !j.LegSpent(p.phase.leg);
  }

  lemma LeavesKeeps(w: World, w': World, poll: nat)
    requires WorldInv(w) && Next(w, Leaves(poll), w')
    ensures WorldInv(w')
    ensures |w'.log| == |w.log| + 1 && w'.log[..|w.log|] == w.log
  {
    var p := w.polls[poll];
    var m := LeavingMarks(w, w', poll);
    LeavingKeeps(w.ledger, p.id, p.ticket, p.phase.leg);
    LeavingWritesTheLog(w, m, poll);
    LeavingKeepsPolls(w, m, poll);
    LeavingKeepsHolders(w, m, poll);
    LongerLogKnowsMore(w, m);
    NumbersWritten(m, w', p.id);
  }

  /** A burn is a mark on the leg, followed by the writing of the send's numbers. */
  lemma LeavingMarks(w: World, w': World, poll: nat) returns (m: World)
    requires WorldInv(w) && Next(w, Leaves(poll), w')
    ensures JustLeft(w, m, poll)
    ensures w' == m.(ledger := SyncNonce(m.ledger, w.polls[poll].id))
    ensures w'.ledger == Ledgers.Leaving(w.ledger, w.polls[poll].id, w.polls[poll].ticket, w.polls[poll].phase.leg).0
    ensures |w'.log| == |w.log| + 1 && w'.log[..|w.log|] == w.log
  {
    TheOwnerMayLeave(w, poll);
    var p := w.polls[poll];
    m := w'.(ledger := MarkLeft(w.ledger, p.id, p.phase.leg));
  }

  lemma LongerLogKnowsMore(w: World, m: World)
    requires SpentIsKnown(w) && |w.log| <= |m.log| && m.log[..|w.log|] == w.log
    requires m.ledger.spent == w.ledger.spent && m.ledger.stranded == w.ledger.stranded && m.seeded == w.seeded
    ensures SpentIsKnown(m)
  {
    forall s | Logged(w.log, s) ensures Logged(m.log, s) {
      var k :| 0 <= k < |w.log| && w.log[k].slot == s;
      assert m.log[k] == m.log[..|w.log|][k];
    }
  }

  /** Writing a send's numbers completes a change already made to its job. */
  lemma NumbersWritten(m: World, w': World, id: Id)
    requires JobsOk(m.ledger) && PollsOk(m) && LogOk(m) && BirthsOk(m) && HoldersOk(m) && LineagesOk(m)
    requires SpentIsKnown(m) && id in m.ledger.jobs
    requires w' == m.(ledger := SyncNonce(m.ledger, id)) && Inv(w'.ledger)
    ensures WorldInv(w')
  {
    SyncBurnsWhatLeft(m, id);
    SameJobsAndClaims(m, w');
  }

  /** Writing numbers changes nothing that is said of jobs, claims, polls and the log. */
  lemma SameJobsAndClaims(m: World, w': World)
    requires JobsOk(m.ledger) && PollsOk(m) && LogOk(m) && BirthsOk(m) && HoldersOk(m) && LineagesOk(m)
    requires w' == m.(ledger := w'.ledger)
    requires w'.ledger.jobs == m.ledger.jobs && w'.ledger.claims == m.ledger.claims
    ensures JobsOk(w'.ledger) && PollsOk(w') && LogOk(w') && BirthsOk(w') && HoldersOk(w') && LineagesOk(w')
  {
    forall k | 0 <= k < |m.log| ensures EntryOk(w', m.log[k]) { assert EntryOk(m, m.log[k]); }
    forall q | q in m.polls ensures PollOk(w'.ledger, m.polls[q]) { assert PollOk(m.ledger, m.polls[q]); }
  }

  /** The world just after the leg was marked as left, its numbers not yet written. */
  ghost predicate JustLeft(w: World, m: World, poll: nat) {
    && InPhase(w, poll, (ph: Phase) => ph.Burning?)
    && var p := w.polls[poll];
       var leg := p.phase.leg;
       && leg < |p.job.legs| && PollOk(w.ledger, p) && p.id in w.jobBorn
       && leg < |w.ledger.jobs[p.id].legs|
       && m == w.(ledger := MarkLeft(w.ledger, p.id, leg),
                  polls := w.polls[poll := p.(phase := OnWire(leg))],
                  log := w.log + [Departure(p.job.SlotOf(leg), p.id, leg, w.ledger.jobs[p.id].replacing, w.jobBorn[p.id])])
  }

  lemma LeavingWritesTheLog(w: World, m: World, poll: nat)
    requires WorldInv(w) && JustLeft(w, m, poll)
    ensures LogOk(m) && BirthsOk(m) && LineagesOk(m) && JobsOk(m.ledger)
  {
    LegMarked(w, m, poll);
    LeavingIsLogged(w, m, poll);
    LeavingHasLineage(w, m, poll);
  }

  lemma LegMarked(w: World, m: World, poll: nat)
    requires JobsOk(w.ledger) && JustLeft(w, m, poll)
    ensures JobsOk(m.ledger)
    ensures var p := w.polls[poll];
            && SentUpTo(m.ledger.jobs[p.id], p.phase.leg + 1, p.phase.leg)
            && m.ledger.jobs[p.id].SlotOf(p.phase.leg) == p.job.SlotOf(p.phase.leg)
            && w.ledger.jobs[p.id].SlotOf(p.phase.leg) == p.job.SlotOf(p.phase.leg)
            && !w.ledger.jobs[p.id].legs[p.phase.leg].left
            && JobUnleft(w.ledger.jobs[p.id], p.job.SlotOf(p.phase.leg))
  {
    var p := w.polls[poll];
    var leg := p.phase.leg;
    var j, k := w.ledger.jobs[p.id], m.ledger.jobs[p.id];
    assert SentUpTo(k, leg + 1, leg);
    assert WellSent(k);
    assert j.SlotOf(leg) == p.job.SlotOf(leg) && !j.LegSpent(leg);
  }

  lemma LeavingIsLogged(w: World, m: World, poll: nat)
    requires JobsOk(w.ledger) && LogOk(w) && BirthsOk(w) && JustLeft(w, m, poll)
    ensures LogOk(m) && BirthsOk(m)
  {
    LegMarked(w, m, poll);
    var p := w.polls[poll];
    var leg := p.phase.leg;
    var last := |w.log|;
    forall i | 0 <= i < |m.log| ensures EntryOk(m, m.log[i]) && m.log[i].born <= i {
      if i < last { assert EntryOk(w, w.log[i]) && m.log[i] == w.log[i]; }
    }
    forall a, b | 0 <= a < b < |m.log| ensures !(m.log[a].id == m.log[b].id && m.log[a].leg == m.log[b].leg) {
      assert EntryOk(w, w.log[a]);
    }
    LeftLegsAreLogged(w, m, poll);
  }

  lemma LeftLegsAreLogged(w: World, m: World, poll: nat)
    requires LogOk(w) && JustLeft(w, m, poll)
    ensures forall id, i: nat | id in m.ledger.jobs && i < |m.ledger.jobs[id].legs| && m.ledger.jobs[id].legs[i].left ::
              LogHas(m.log, id, i)
  {
    var p := w.polls[poll];
    forall id, i: nat | id in m.ledger.jobs && i < |m.ledger.jobs[id].legs| && m.ledger.jobs[id].legs[i].left
      ensures LogHas(m.log, id, i)
    {
      if id == p.id && i == p.phase.leg {
        assert m.log[|w.log|].id == id && m.log[|w.log|].leg == i;
      } else {
        assert w.ledger.jobs[id].legs[i].left;
        var a :| 0 <= a < |w.log| && w.log[a].id == id && w.log[a].leg == i;
        assert m.log[a] == w.log[a];
      }
    }
  }

  lemma LeavingHasLineage(w: World, m: World, poll: nat)
    requires JobsOk(w.ledger) && HoldersOk(w) && LineagesOk(w) && JustLeft(w, m, poll)
    ensures LineagesOk(m)
  {
    LegMarked(w, m, poll);
    forall i | 0 <= i < |m.log|
      ensures Lineage(m.log[..i], m.seeded, m.log[i].slot, m.log[i].replacing, m.log[i].born)
    {
      if i < |w.log| {
        assert m.log[..i] == w.log[..i] && m.log[i] == w.log[i];
      } else {
        assert m.log[..i] == w.log;
      }
    }
  }

  lemma LeavingKeepsPolls(w: World, m: World, poll: nat)
    requires PollsOk(w) && JustLeft(w, m, poll)
    ensures PollsOk(m)
  {
    var p := w.polls[poll];
    assert SentUpTo(m.ledger.jobs[p.id], p.phase.leg + 1, p.phase.leg);
    forall q | q in m.polls ensures PollOk(m.ledger, m.polls[q]) {
      if q != poll { assert PollOk(w.ledger, w.polls[q]); }
    }
  }

  /** Nobody else could have been waiting to leave at this number, so nobody's lineage is spoilt. */
  lemma LeavingKeepsHolders(w: World, m: World, poll: nat)
    requires WorldInv(w) && JustLeft(w, m, poll)
    ensures HoldersOk(m)
  {
    var p := w.polls[poll];
    var leg := p.phase.leg;
    var j, k := w.ledger.jobs[p.id], m.ledger.jobs[p.id];
    var s0 := j.SlotOf(leg);
    assert !j.LegSpent(leg) && JobUnleft(j, s0);
    assert HoldsUnleft(w.ledger, ByJob(p.id), s0);
    forall c, s | c in m.ledger.claims && ClaimAt(m.ledger.claims[c], s) && c in m.claimBorn
      ensures Lineage(m.log, m.seeded, s, m.ledger.claims[c].replacing, m.claimBorn[c])
    {
      assert HoldsUnleft(w.ledger, ByClaim(c), s);
      assert s != s0;
      LineageOutlives(w.log, m.log, w.seeded, s, m.ledger.claims[c].replacing, m.claimBorn[c]);
    }
    forall id, s | id in m.ledger.jobs && JobUnleft(m.ledger.jobs[id], s) && id in m.jobBorn
      ensures Lineage(m.log, m.seeded, s, m.ledger.jobs[id].replacing, m.jobBorn[id])
    {
      if id == p.id {
        var i :| 0 <= i < |k.legs| && k.SlotOf(i) == s && !k.LegSpent(i);
        assert i != leg && j.SlotOf(i) == s && !j.LegSpent(i);
        assert DistinctLegs(j) && j.legs[i].nonce != j.legs[leg].nonce;
      } else {
        assert HoldsUnleft(w.ledger, ByJob(id), s) && ByJob(id) != ByJob(p.id);
      }
      assert JobUnleft(w.ledger.jobs[id], s) && s != s0;
      LineageOutlives(w.log, m.log, w.seeded, s, m.ledger.jobs[id].replacing, m.jobBorn[id]);
    }
  }

  /** A departure elsewhere spoils nobody's lineage. */
  lemma LineageOutlives(log: seq<Departure>, log': seq<Departure>, seeded: set<Slot>, s: Slot, r: Option<Replacing>, born: nat)
    requires Lineage(log, seeded, s, r, born)
    requires |log'| == |log| + 1 && log'[..|log|] == log && log'[|log|].slot != s
    ensures Lineage(log', seeded, s, r, born)
  {
    assert forall k | 0 <= k < |log| :: log'[k] == log'[..|log|][k];
  }

  // ---- Every event

  lemma LedgerEventsKeep(w: World, e: Event, w': World)
    requires WorldInv(w) && Next(w, e, w') && (e.Open? || e.Commit? || e.Abandon? || e.Cancel? || e.Seed?)
    ensures WorldInv(w')
  {
    match e
    case Open(account, reading, count, pinned) => OpenKeepsWorld(w, w', account, reading, count, pinned);
    case Commit(claim, id, draft) => CommitKeepsWorld(w, w', claim, id, draft);
    case Abandon(claim) => AbandonKeepsWorld(w, w', claim);
    case Cancel(id) => CancelKeeps(w, w', id);
    case Seed(slots) => SeedKeepsWorld(w, w', slots);
  }

  lemma SettlesKeep(w: World, e: Event, w': World)
    requires WorldInv(w) && Next(w, e, w') && (e.PollSettles? || e.Fails? || e.Finishes?)
    ensures WorldInv(w')
  {
    match e
    case PollSettles(poll, status) => SettlingFromOutsideKeeps(w, w', w.polls[poll].id, status);
    case Fails(poll, reason) => FailsKeeps(w, w', poll, reason);
    case Finishes(poll, route) => FinishesKeeps(w, w', poll, route);
  }

  lemma SendingEventsKeep(w: World, e: Event, w': World)
    requires WorldInv(w) && Next(w, e, w') && (e.PollClaims? || e.Leaves? || e.Lands?)
    ensures WorldInv(w')
  {
    match e
    case PollClaims(poll, now) => PollClaimsKeeps(w, w', poll, now);
    case Leaves(poll) => LeavesKeeps(w, w', poll);
    case Lands(poll) => LandsKeeps(w, w', poll);
  }

  lemma PollingEventsKeep(w: World, e: Event, w': World)
    requires WorldInv(w) && Next(w, e, w') && (e.PollReads? || e.PollGivesUp? || e.Records? || e.NodeAnswers?)
    ensures WorldInv(w')
  {
    if e.PollReads? { ANewReadingKeeps(w, e, w'); } else { PollStepKeeps(w, e, w'); }
    PollOnlyKeeps(w, w');
  }

  lemma EveryEventKeeps(w: World, e: Event, w': World)
    requires WorldInv(w) && Next(w, e, w')
    ensures WorldInv(w')
  {
    if e.Open? || e.Commit? || e.Abandon? || e.Cancel? || e.Seed? {
      LedgerEventsKeep(w, e, w');
    } else if e.PollSettles? || e.Fails? || e.Finishes? {
      SettlesKeep(w, e, w');
    } else if e.PollClaims? || e.Leaves? || e.Lands? {
      SendingEventsKeep(w, e, w');
    } else {
      PollingEventsKeep(w, e, w');
    }
  }
}
