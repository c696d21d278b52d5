/**
  * Processes that come and go over one disk. A process may die at any moment, also in the middle
  * of a write; the next one starts with an empty ledger and whatever the files then hold.
  */
module Recovery {
  import opened Basics
  import opened Reserver
  import opened Ledgers
  import opened LedgerInvariant
  import opened Rows
  import opened Disks
  import opened Store
  import Histories
  import opened Dispatch
  import opened DispatchProofs

  /** The files of every address. */
  type Directory = map<string, Files>

  function FilesOf(disk: Directory, address: string): Files {
    if address in disk then disk[address] else map[]
  }

  /** A process that ended: what left under it, and what each address's files held when it first unlocked them. */
  datatype Ended = Ended(log: seq<Departure>, unlocked: Directory)

  /** The running process over the disk; `burnt` is what it seeded when it first unlocked an address. */
  datatype System = System(disk: Directory, world: World, unlocked: Directory, burnt: set<Slot>, gone: seq<Ended>)

  datatype Step =
    | Works(address: string, files: Files)
    | Acts(event: Event)
    | RecordsIntent(poll: nat, draft: Record, files: Files)
    | Unlocks(address: string, keys: set<nat>, slots: set<Slot>)
    | Dies

  /** The draft row of the leg signed at `s`, before its identity and status are set. */
  predicate DraftAt(draft: Record, s: Slot) {
    draft.chain == s.account.chain && draft.from == s.account.address && draft.nonce == Some(s.number) && draft.replacedBy.None?
  }

  /** What reading every file of the address yields when all of them read and every key is at hand. */
  ghost predicate AllHeld(f: Files, keys: set<nat>, slots: set<Slot>) {
    && (forall name | name in f :: name.generation in keys)
    && (forall s :: s in slots <==> exists name, row :: Histories.SeenHeld(f, keys, {}, name, row, s))
  }

  ghost predicate Happens(s: System, step: Step, s': System) {
    match step
    // Any door of the history, or a crash in the middle of one, or a move to a new key.
    case Works(address, files) =>
      Preserves(FilesOf(s.disk, address), files) && s' == s.(disk := s.disk[address := files])
    // Anything a send, poll or cancel does that needs no disk; a bundle opens on an unlocked account.
    case Acts(e) =>
      && !e.Seed? && !(e.Records? && e.ok) && (e.Open? ==> e.account.address in s.unlocked)
      && Next(s.world, e, s'.world) && s' == s.(world := s'.world)
    case RecordsIntent(poll, draft, files) =>
      Next(s.world, Records(poll, true), s'.world) && s.world.polls[poll].phase.leg < |s.world.polls[poll].job.legs| &&
      var p := s.world.polls[poll];
      var address := p.job.account.address;
      && DraftAt(draft, p.job.SlotOf(p.phase.leg))
      && Preserves(FilesOf(s.disk, address), files)
      && Stored(files, Rec(Rows.Intent(p.id, p.phase.leg, draft)))
      && s' == s.(world := s'.world, disk := s.disk[address := files])
    case Unlocks(address, keys, slots) =>
      var files := FilesOf(s.disk, address);
      && AllHeld(files, keys, slots)
      && Next(s.world, Seed(slots), s'.world)
      && s' == (if address in s.unlocked then s
                else s.(unlocked := s.unlocked[address := files],
                        burnt := s.burnt + set slot | slot in slots && slot.account.address == address))
               .(world := s'.world)
    case Dies => s' == System(s.disk, START, map[], {}, s.gone + [Ended(s.world.log, s.unlocked)])
  }

  /** Any number of processes over whatever the disk first holds. */
  ghost predicate IsLife(ss: seq<System>, steps: seq<Step>) {
    && |ss| == |steps| + 1
    && ss[0] == System(ss[0].disk, START, map[], {}, [])
    && forall i | 0 <= i < |steps| :: Happens(ss[i], steps[i], ss[i + 1])
  }

  ghost predicate Lives(s: System) {
    exists ss, steps :: IsLife(ss, steps) && ss[|steps|] == s
  }

  // ---- What is on disk

  /** The row of one leg of one send. */
  predicate IsRowOf(row: Row, s: Slot, id: Id, leg: nat) {
    && row.Rec? && row.rec.WellFormed() && row.rec.requestId == Some(id) && row.rec.leg == leg
    && row.rec.nonce == Some(s.number) && Account(row.rec.chain, row.rec.from) == s.account
  }

  ghost predicate Recorded(f: Files, s: Slot, id: Id, leg: nat) {
    exists row :: Stored(f, row) && IsRowOf(row, s, id, leg)
  }

  /** No stored row of the leg says its outcome is still open. */
  ghost predicate Settled(f: Files, s: Slot, id: Id, leg: nat) {
    forall row | Stored(f, row) && IsRowOf(row, s, id, leg) :: !row.rec.status.Unknown? && !row.rec.status.Pending?
  }

  lemma RowsOutliveWork(f: Files, f': Files, s: Slot, id: Id, leg: nat)
    requires Preserves(f, f') && Recorded(f, s, id, leg)
    ensures Recorded(f', s, id, leg)
  {
    var row :| Stored(f, row) && IsRowOf(row, s, id, leg);
    var row' :| Stored(f', row') && Carries(row, row');
  }

  ghost predicate DepartureRecorded(disk: Directory, d: Departure) {
    Recorded(FilesOf(disk, d.slot.account.address), d.slot, d.id, d.leg)
  }

  ghost predicate LogRecorded(disk: Directory, log: seq<Departure>) {
    forall k | 0 <= k < |log| :: DepartureRecorded(disk, log[k])
  }

  predicate AboutToLeave(p: Poll) {
    p.Sending? && p.phase.Burning? && p.phase.leg < |p.job.legs|
  }

  /** Every poll about to burn a leg's number has that leg's row on disk. */
  ghost predicate PollsRecorded(disk: Directory, w: World) {
    forall q | q in w.polls && AboutToLeave(w.polls[q]) ::
      var p := w.polls[q];
      Recorded(FilesOf(disk, p.job.account.address), p.job.SlotOf(p.phase.leg), p.id, p.phase.leg)
  }

  // ---- What each process knows of the ones before

  predicate OnUnlocked(l: Ledger, unlocked: Directory) {
    && (forall c | c in l.claims :: l.claims[c].account.address in unlocked)
    && (forall id | id in l.jobs :: l.jobs[id].account.address in unlocked)
  }

  /** Nothing this process sends unpinned is at a number it seeded before its account opened. */
  predicate UnnamedClear(l: Ledger, burnt: set<Slot>) {
    && (forall c, n | c in l.claims && l.claims[c].replacing.None? && n in l.claims[c].nonces :: Slot(l.claims[c].account, n) !in burnt)
    && (forall id, i | id in l.jobs && l.jobs[id].replacing.None? && 0 <= i < |l.jobs[id].legs| :: l.jobs[id].SlotOf(i) !in burnt)
  }

  /** An earlier departure at an address this process unlocked: its row was there, and open rows were burnt. */
  ghost predicate KnownAtUnlock(d: Departure, unlocked: Directory, burnt: set<Slot>) {
    d.slot.account.address in unlocked ==>
      var f := unlocked[d.slot.account.address];
      Recorded(f, d.slot, d.id, d.leg) && (Settled(f, d.slot, d.id, d.leg) || d.slot in burnt)
  }

  ghost predicate EarlierKnown(gone: seq<Ended>, unlocked: Directory, burnt: set<Slot>) {
    forall p, k | 0 <= p < |gone| && 0 <= k < |gone[p].log| :: KnownAtUnlock(gone[p].log[k], unlocked, burnt)
  }

  /** `later` went out unpinned at the number of an earlier process's `earlier`, whose row had settled by then. */
  ghost predicate SettledBefore(earlier: Departure, later: Departure, unlocked: Directory) {
    earlier.slot == later.slot && later.replacing.None? ==>
      && later.slot.account.address in unlocked
      && var f := unlocked[later.slot.account.address];
         Recorded(f, earlier.slot, earlier.id, earlier.leg) && Settled(f, earlier.slot, earlier.id, earlier.leg)
  }

  ghost predicate ProcessesApart(gone: seq<Ended>) {
    forall p, q, i, k | 0 <= p < q < |gone| && 0 <= i < |gone[p].log| && 0 <= k < |gone[q].log| ::
      SettledBefore(gone[p].log[i], gone[q].log[k], gone[q].unlocked)
  }

  ghost predicate SystemInv(s: System) {
    && WorldInv(s.world)
    && OnUnlocked(s.world.ledger, s.unlocked)
    && UnnamedClear(s.world.ledger, s.burnt) && s.burnt <= s.world.ledger.spent
    && PollsRecorded(s.disk, s.world) && LogRecorded(s.disk, s.world.log)
    && (forall p | 0 <= p < |s.gone| :: LogRecorded(s.disk, s.gone[p].log))
    && EarlierKnown(s.gone, s.unlocked, s.burnt)
    && ProcessesApart(s.gone)
  }

  // ---- One event of one process

  ghost predicate JobsKept(l: Ledger, l': Ledger) {
    forall id | id in l.jobs :: id in l'.jobs && SameBundle(l.jobs[id], l'.jobs[id])
  }

  lemma SettlingKeepsJobs(w: World, e: Event, w': World)
    requires Next(w, e, w') && (e.Cancel? || e.PollSettles? || e.Fails? || e.Finishes?)
    ensures JobsKept(w.ledger, w'.ledger) && w'.ledger.jobs.Keys == w.ledger.jobs.Keys
  {
    match e
    case Cancel(id) => ASettleKeepsJobs(w.ledger, id, Cancelled, None);
    case PollSettles(poll, status) => ASettleKeepsJobs(w.ledger, w.polls[poll].id, status, None);
    case Fails(poll, reason) => ASettleKeepsJobs(w.ledger, w.polls[poll].id, Status.Failed(reason), Some(w.polls[poll].ticket));
    case Finishes(poll, route) =>
      ASettleKeepsJobs(w.ledger, w.polls[poll].id, Status.Broadcast(w.polls[poll].phase.hash, route), Some(w.polls[poll].ticket));
  }

  lemma ASettleKeepsJobs(l: Ledger, id: Id, status: Status, ticket: Option<nat>)
    ensures JobsKept(l, Settle(l, id, status, ticket)) && Settle(l, id, status, ticket).jobs.Keys == l.jobs.Keys
  {}

  lemma ALegKeepsJobs(l: Ledger, id: Id, ticket: nat, leg: nat, hash: string, now: nat)
    ensures var l' := Ledgers.Leaving(l, id, ticket, leg).0; JobsKept(l, l') && l'.jobs.Keys == l.jobs.Keys
    ensures var l' := Ledgers.Landed(l, id, ticket, leg, hash).0; JobsKept(l, l') && l'.jobs.Keys == l.jobs.Keys
    ensures var l' := ClaimBroadcast(l, id, now).0; JobsKept(l, l') && l'.jobs.Keys == l.jobs.Keys
  {}

  lemma SendingKeepsJobs(w: World, e: Event, w': World)
    requires Next(w, e, w') && (e.Leaves? || e.Lands? || e.PollClaims?)
    ensures JobsKept(w.ledger, w'.ledger) && w'.ledger.jobs.Keys == w.ledger.jobs.Keys
  {
    match e
    case Leaves(poll) =>
      ALegKeepsJobs(w.ledger, w.polls[poll].id, w.polls[poll].ticket, w.polls[poll].phase.leg, "", 0);
    case Lands(poll) =>
      ALegKeepsJobs(w.ledger, w.polls[poll].id, w.polls[poll].ticket, w.polls[poll].phase.leg, w.polls[poll].phase.hash, 0);
    case PollClaims(poll, now) => ALegKeepsJobs(w.ledger, w.polls[poll].id, 0, 0, "", now);
  }

  lemma EventsKeepJobs(w: World, e: Event, w': World)
    requires Next(w, e, w')
    ensures JobsKept(w.ledger, w'.ledger)
    ensures !e.Commit? ==> w'.ledger.jobs.Keys == w.ledger.jobs.Keys
  {
    if e.Cancel? || e.PollSettles? || e.Fails? || e.Finishes? {
      SettlingKeepsJobs(w, e, w');
    } else if e.Leaves? || e.Lands? || e.PollClaims? {
      SendingKeepsJobs(w, e, w');
    }
  }

  lemma EventsKeepClaims(w: World, e: Event, w': World)
    requires Next(w, e, w')
    ensures w.ledger.spent <= w'.ledger.spent
    ensures !e.Open? ==> forall c | c in w'.ledger.claims :: c in w.ledger.claims && w'.ledger.claims[c] == w.ledger.claims[c]
  {}

  lemma EventsKeepUnlocked(w: World, e: Event, w': World, unlocked: Directory)
    requires Next(w, e, w') && OnUnlocked(w.ledger, unlocked)
    requires e.Open? ==> e.account.address in unlocked
    ensures OnUnlocked(w'.ledger, unlocked)
  {
    EventsKeepJobs(w, e, w');
    EventsKeepClaims(w, e, w');
  }

  lemma EventsKeepUnnamedClear(w: World, e: Event, w': World, burnt: set<Slot>)
    requires Next(w, e, w') && UnnamedClear(w.ledger, burnt) && burnt <= w.ledger.spent
    ensures UnnamedClear(w'.ledger, burnt) && burnt <= w'.ledger.spent
  {
    EventsKeepJobs(w, e, w');
    EventsKeepClaims(w, e, w');
    if e.Open? {
      var answer :| Ledgers.Opens(w.ledger, e.account, e.reading, e.count, e.pinned, w'.ledger, answer);
      ANewClaimIsClear(w.ledger, e.account, e.reading, e.count, e.pinned, w'.ledger, answer, burnt);
    } else {
      forall id, i | id in w'.ledger.jobs && w'.ledger.jobs[id].replacing.None? && 0 <= i < |w'.ledger.jobs[id].legs|
        ensures w'.ledger.jobs[id].SlotOf(i) !in burnt
      {
        if id in w.ledger.jobs { assert w'.ledger.jobs[id].SlotOf(i) == w.ledger.jobs[id].SlotOf(i); }
      }
    }
  }

  lemma ANewClaimIsClear(l: Ledger, account: Account, reading: nat, count: nat, pinned: Option<nat>, l': Ledger,
                         answer: Result<nat, OpenError>, burnt: set<Slot>)
    requires Ledgers.Opens(l, account, reading, count, pinned, l', answer) && UnnamedClear(l, burnt) && burnt <= l.spent
    ensures UnnamedClear(l', burnt)
  {
    forall n | n in FreeRun(Taken(l, account), reading, count) ensures Slot(account, n) !in burnt {
      RunIsFree(l, account, reading, count, Slot(account, n));
    }
  }

  /** What an event adds to the log is a poll's own recorded leg. */
  lemma WhatLeavesWasRecorded(w: World, e: Event, w': World, disk: Directory)
    requires Next(w, e, w') && PollsRecorded(disk, w) && LogRecorded(disk, w.log)
    ensures LogRecorded(disk, w'.log)
  {
    if e.Leaves? && w'.log != w.log {
      var p := w.polls[e.poll];
      assert AboutToLeave(p);
    }
  }

  lemma EventsKeepPollsRecorded(w: World, e: Event, w': World, disk: Directory)
    requires Next(w, e, w') && PollsRecorded(disk, w) && !(e.Records? && e.ok)
    ensures PollsRecorded(disk, w')
  {}

  lemma ActsKeeps(s: System, e: Event, s': System)
    requires SystemInv(s) && Happens(s, Acts(e), s')
    ensures SystemInv(s')
  {
    EveryEventKeeps(s.world, e, s'.world);
    EventsKeepUnlocked(s.world, e, s'.world, s.unlocked);
    EventsKeepUnnamedClear(s.world, e, s'.world, s.burnt);
    WhatLeavesWasRecorded(s.world, e, s'.world, s.disk);
    EventsKeepPollsRecorded(s.world, e, s'.world, s.disk);
  }

  // ---- Work on disk

  lemma WorkKeepsTheRecord(disk: Directory, address: string, files: Files, w: World, gone: seq<Ended>)
    requires Preserves(FilesOf(disk, address), files)
    requires PollsRecorded(disk, w) && LogRecorded(disk, w.log)
    requires forall p | 0 <= p < |gone| :: LogRecorded(disk, gone[p].log)
    ensures PollsRecorded(disk[address := files], w) && LogRecorded(disk[address := files], w.log)
    ensures forall p | 0 <= p < |gone| :: LogRecorded(disk[address := files], gone[p].log)
  {
    var disk' := disk[address := files];
    forall slot: Slot, id, leg | Recorded(FilesOf(disk, slot.account.address), slot, id, leg)
      ensures Recorded(FilesOf(disk', slot.account.address), slot, id, leg)
    {
      if slot.account.address == address { RowsOutliveWork(FilesOf(disk, address), files, slot, id, leg); }
    }
    forall d | DepartureRecorded(disk, d) ensures DepartureRecorded(disk', d) {}
    forall q | q in w.polls && AboutToLeave(w.polls[q])
      ensures Recorded(FilesOf(disk', w.polls[q].job.account.address), w.polls[q].job.SlotOf(w.polls[q].phase.leg),
                       w.polls[q].id, w.polls[q].phase.leg)
    {
      assert w.polls[q].job.SlotOf(w.polls[q].phase.leg).account == w.polls[q].job.account;
    }
  }

  lemma WorksKeeps(s: System, address: string, files: Files, s': System)
    requires SystemInv(s) && Happens(s, Works(address, files), s')
    ensures SystemInv(s')
  {
    WorkKeepsTheRecord(s.disk, address, files, s.world, s.gone);
  }

  lemma RecordsIntentKeeps(s: System, poll: nat, draft: Record, files: Files, s': System)
    requires SystemInv(s) && Happens(s, RecordsIntent(poll, draft, files), s')
    ensures SystemInv(s')
  {
    var e := Records(poll, true);
    EveryEventKeeps(s.world, e, s'.world);
    EventsKeepUnlocked(s.world, e, s'.world, s.unlocked);
    EventsKeepUnnamedClear(s.world, e, s'.world, s.burnt);
    WorkKeepsTheRecord(s.disk, s.world.polls[poll].job.account.address, files, s.world, s.gone);
    TheIntentIsItsRow(s, poll, draft, files, s');
  }

  lemma TheIntentIsItsRow(s: System, poll: nat, draft: Record, files: Files, s': System)
    requires Happens(s, RecordsIntent(poll, draft, files), s') && PollsRecorded(s'.disk, s.world)
    ensures PollsRecorded(s'.disk, s'.world) && s'.world.log == s.world.log
  {
    var p := s.world.polls[poll];
    assert IsRowOf(Rec(Rows.Intent(p.id, p.phase.leg, draft)), p.job.SlotOf(p.phase.leg), p.id, p.phase.leg);
  }

  // ---- Unlocking and dying

  /** A stored row that is still open is among what the unlock reads. */
  lemma WhatIsOpenIsBurnt(f: Files, keys: set<nat>, slots: set<Slot>, s: Slot, id: Id, leg: nat)
    requires AllHeld(f, keys, slots)
    ensures Settled(f, s, id, leg) || s in slots
  {
    if row :| Stored(f, row) && IsRowOf(row, s, id, leg) && (row.rec.status.Unknown? || row.rec.status.Pending?) {
      var name :| StoredAt(f, name, row);
      assert Histories.SeenHeld(f, keys, {}, name, row, s);
    }
  }

  lemma UnlocksKeeps(s: System, address: string, keys: set<nat>, slots: set<Slot>, s': System)
    requires SystemInv(s) && Happens(s, Unlocks(address, keys, slots), s')
    ensures SystemInv(s')
  {
    var e := Seed(slots);
    EveryEventKeeps(s.world, e, s'.world);
    EventsKeepUnlocked(s.world, e, s'.world, s.unlocked);
    EventsKeepUnnamedClear(s.world, e, s'.world, s.burnt);
    if address !in s.unlocked {
      var f := FilesOf(s.disk, address);
      forall p, k | 0 <= p < |s.gone| && 0 <= k < |s.gone[p].log|
        ensures KnownAtUnlock(s.gone[p].log[k], s'.unlocked, s'.burnt)
      {
        var d := s.gone[p].log[k];
        assert KnownAtUnlock(d, s.unlocked, s.burnt);
        if d.slot.account.address == address {
          assert LogRecorded(s.disk, s.gone[p].log) && DepartureRecorded(s.disk, d);
          WhatIsOpenIsBurnt(f, keys, slots, d.slot, d.id, d.leg);
        }
      }
    }
  }

  /** An unpinned send of this process left only where every earlier departure had settled. */
  lemma TheLivingIsApart(s: System, p: nat, i: nat, k: nat)
    requires SystemInv(s) && p < |s.gone| && i < |s.gone[p].log| && k < |s.world.log|
    ensures SettledBefore(s.gone[p].log[i], s.world.log[k], s.unlocked)
  {
    var later, earlier := s.world.log[k], s.gone[p].log[i];
    assert EntryOk(s.world, later) && KnownAtUnlock(earlier, s.unlocked, s.burnt);
    assert s.world.ledger.jobs[later.id].SlotOf(later.leg).account == s.world.ledger.jobs[later.id].account;
  }

  lemma TheDeadAreApart(s: System)
    requires SystemInv(s)
    ensures ProcessesApart(s.gone + [Ended(s.world.log, s.unlocked)])
  {
    var gone := s.gone + [Ended(s.world.log, s.unlocked)];
    forall p, q, i, k | 0 <= p < q < |gone| && 0 <= i < |gone[p].log| && 0 <= k < |gone[q].log|
      ensures SettledBefore(gone[p].log[i], gone[q].log[k], gone[q].unlocked)
    {
      if q == |s.gone| { TheLivingIsApart(s, p, i, k); }
    }
  }

  lemma ANewProcessIsSound(disk: Directory, gone: seq<Ended>)
    requires ProcessesApart(gone) && forall p | 0 <= p < |gone| :: LogRecorded(disk, gone[p].log)
    ensures SystemInv(System(disk, START, map[], {}, gone))
  {
    EmptyHoldsNothing();
  }

  lemma DiesKeeps(s: System, s': System)
    requires SystemInv(s) && Happens(s, Dies, s')
    ensures SystemInv(s')
  {
    TheDeadAreApart(s);
    ANewProcessIsSound(s.disk, s'.gone);
  }

  lemma {:induction false} EveryLifeKeeps(ss: seq<System>, steps: seq<Step>, k: nat)
    requires IsLife(ss, steps) && k < |ss|
    ensures SystemInv(ss[k])
  {
    if k == 0 {
      ANewProcessIsSound(ss[0].disk, []);
    } else {
      EveryLifeKeeps(ss, steps, k - 1);
      var s, s' := ss[k - 1], ss[k];
      match steps[k - 1]
      case Works(address, files) => WorksKeeps(s, address, files, s');
      case Acts(e) => ActsKeeps(s, e, s');
      case RecordsIntent(poll, draft, files) => RecordsIntentKeeps(s, poll, draft, files, s');
      case Unlocks(address, keys, slots) => UnlocksKeeps(s, address, keys, slots, s');
      case Dies => DiesKeeps(s, s');
    }
  }

  lemma LivesAreSound(s: System)
    requires Lives(s)
    ensures SystemInv(s)
  {
    var ss, steps :| IsLife(ss, steps) && ss[|steps|] == s;
    EveryLifeKeeps(ss, steps, |steps|);
  }

  // ---- The results

  /** Whatever may have left, under any process, has its row on disk. */
  lemma NothingLeavesUnrecorded(s: System)
    requires Lives(s)
    ensures LogRecorded(s.disk, s.world.log)
    ensures forall p | 0 <= p < |s.gone| :: LogRecorded(s.disk, s.gone[p].log)
  {
    LivesAreSound(s);
  }

  /**
    * Two transactions at one number under different processes: the later was pinned, or the
    * earlier's row, in every copy, had settled when the later's process unlocked the account.
    */
  lemma ACrashNeverFreesANumber(s: System, p: nat, i: nat, k: nat)
    requires Lives(s) && p < |s.gone| && i < |s.gone[p].log| && k < |s.world.log|
    requires s.gone[p].log[i].slot == s.world.log[k].slot
    ensures s.world.log[k].replacing.Some? ||
            var d := s.gone[p].log[i];
            && d.slot.account.address in s.unlocked
            && Recorded(s.unlocked[d.slot.account.address], d.slot, d.id, d.leg)
            && Settled(s.unlocked[d.slot.account.address], d.slot, d.id, d.leg)
  {
    LivesAreSound(s);
    TheLivingIsApart(s, p, i, k);
  }

  /** And so for any two processes that ended. */
  lemma ACrashNeverFreedANumber(s: System)
    requires Lives(s)
    ensures ProcessesApart(s.gone)
  {
    LivesAreSound(s);
  }

  /** A number that was open on disk at the unlock is never returned by an unpinned open. */
  lemma AnOpenRowBlocksTheNumber(s: System, p: nat, i: nat, e: Event, s': System)
    requires Lives(s) && p < |s.gone| && i < |s.gone[p].log|
    requires Happens(s, Acts(e), s') && e.Open? && e.pinned.None? && e.account == s.gone[p].log[i].slot.account
    requires var d := s.gone[p].log[i]; !Settled(s.unlocked[e.account.address], d.slot, d.id, d.leg)
    ensures forall c | c in s'.world.ledger.claims && c !in s.world.ledger.claims ::
              !ClaimAt(s'.world.ledger.claims[c], s.gone[p].log[i].slot)
  {
    LivesAreSound(s);
    var d := s.gone[p].log[i];
    assert KnownAtUnlock(d, s.unlocked, s.burnt);
    var answer :| Ledgers.Opens(s.world.ledger, e.account, e.reading, e.count, e.pinned, s'.world.ledger, answer);
    if d.slot.number in FreeRun(Taken(s.world.ledger, e.account), e.reading, e.count) {
      RunIsFree(s.world.ledger, e.account, e.reading, e.count, d.slot);
    }
  }
}
