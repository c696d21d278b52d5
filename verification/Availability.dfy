/** Which numbers are out, in every state any number of processes can bring about, and which are free. */
module Availability {
  import opened Basics
  import opened Reserver
  import opened Ledgers
  import opened LedgerInvariant
  import Histories
  import opened Dispatch
  import opened DispatchProofs
  import opened Recovery

  /** The process that runs after `k` steps started after `from`. */
  ghost predicate RunsSince(ss: seq<System>, steps: seq<Step>, from: nat, k: nat)
    requires IsLife(ss, steps)
  {
    && from <= k < |ss| && (from == 0 || steps[from - 1].Dies?)
    && forall j | from <= j < k :: !steps[j].Dies?
  }

  /** One of the process's unlocks found the number held by an open row, in some file of the account. */
  ghost predicate FoundOpen(ss: seq<System>, steps: seq<Step>, from: nat, k: nat, n: Slot)
    requires IsLife(ss, steps) && k < |ss|
  {
    exists j | from <= j < k :: steps[j].Unlocks? && HeldOnDisk(ss[j], steps[j], n)
  }

  ghost predicate HeldOnDisk(s: System, unlock: Step, n: Slot)
    requires unlock.Unlocks?
  {
    exists name, row :: Histories.SeenHeld(FilesOf(s.disk, unlock.address), unlock.keys, {}, name, row, n)
  }

  lemma SeedsAreSpent(w: World, e: Event, w': World)
    requires Next(w, e, w') && w.seeded <= w.ledger.spent
    ensures w'.seeded <= w'.ledger.spent && (!e.Seed? ==> w'.seeded == w.seeded)
  {
    EventsKeepClaims(w, e, w');
  }

  lemma AStepSeeds(s: System, step: Step, s': System, n: Slot)
    requires Happens(s, step, s') && !step.Dies? && s.world.seeded <= s.world.ledger.spent
    ensures s'.world.seeded <= s'.world.ledger.spent
    ensures n in s'.world.seeded <==> n in s.world.seeded || (step.Unlocks? && HeldOnDisk(s, step, n))
  {
    match step
    case Works(_, _) =>
    case Acts(e) => SeedsAreSpent(s.world, e, s'.world);
    case RecordsIntent(poll, _, _) => SeedsAreSpent(s.world, Records(poll, true), s'.world);
    case Unlocks(_, _, slots) => SeedsAreSpent(s.world, Seed(slots), s'.world);
  }

  /** What a process has seeded is what its unlocks found open, and all of it is burnt. */
  lemma {:induction false} SeededIsWhatWasFoundOpen(ss: seq<System>, steps: seq<Step>, from: nat, k: nat, n: Slot)
    requires IsLife(ss, steps) && RunsSince(ss, steps, from, k)
    ensures n in ss[k].world.seeded <==> FoundOpen(ss, steps, from, k, n)
    ensures ss[k].world.seeded <= ss[k].world.ledger.spent
    decreases k
  {
    if k == from {
      if from > 0 { assert Happens(ss[from - 1], steps[from - 1], ss[from - 1 + 1]); }
    } else {
      SeededIsWhatWasFoundOpen(ss, steps, from, k - 1, n);
      assert Happens(ss[k - 1], steps[k - 1], ss[k - 1 + 1]);
      AStepSeeds(ss[k - 1], steps[k - 1], ss[k], n);
    }
  }

  /**
    * In every state of every process a number is out if and only if the process found it held open
    * on disk, let its bytes go, or holds it for a send of its own.
    */
  lemma ANumberIsOutIffSomethingHoldsIt(ss: seq<System>, steps: seq<Step>, from: nat, k: nat, n: Slot)
    requires IsLife(ss, steps) && RunsSince(ss, steps, from, k)
    ensures var w := ss[k].world;
            n in w.ledger.reserved + w.ledger.spent <==>
              FoundOpen(ss, steps, from, k, n) || Logged(w.log, n) || IsHeld(w.ledger, n)
  {
    EveryLifeKeeps(ss, steps, k);
    SeededIsWhatWasFoundOpen(ss, steps, from, k, n);
    OutIffHeld(ss[k].world, n);
  }

  lemma OutIffHeld(w: World, n: Slot)
    requires WorldInv(w) && w.seeded <= w.ledger.spent
    ensures n in w.ledger.reserved + w.ledger.spent <==> n in w.seeded || Logged(w.log, n) || IsHeld(w.ledger, n)
  {
    if Logged(w.log, n) { LoggedIsSpent(w, n); }
  }

  /** And a number nothing holds is what the next open at it takes, a crash before or not. */
  lemma ANumberWithoutARowIsFreeAgain(ss: seq<System>, steps: seq<Step>, from: nat, k: nat, n: Slot)
    requires IsLife(ss, steps) && RunsSince(ss, steps, from, k)
    requires !FoundOpen(ss, steps, from, k, n) && !Logged(ss[k].world.log, n) && !IsHeld(ss[k].world.ledger, n)
    ensures var l := OpenRun(ss[k].world.ledger, n.account, n.number, 1);
            l.claims[l.lastClaim] == Claim(n.account, [n.number], None)
  {
    ANumberIsOutIffSomethingHoldsIt(ss, steps, from, k, n);
    var taken := Taken(ss[k].world.ledger, n.account);
    assert FreeRun(taken, n.number, 1) == [n.number] + FreeRun(taken + {n.number}, n.number, 0);
  }
}
