/**
  * The send ledger as a value, and what each of its doors does to it. The class that updates
  * these fields in place is `SendLedger`; its methods are proved against the doors below.
  */
module Ledgers {
  import opened Basics
  import opened Reserver

  const MAX_LEGS := 8
  const STUCK_AFTER_SECS := 180

  datatype Status =
    | AwaitingApproval
    | Broadcast(hash: string, route: string)
    | Rejected
    | Cancelled
    | Failed(reason: string)
  {
    predicate Terminal() { !AwaitingApproval? }

    function Label(): string {
      match this
      case AwaitingApproval => "awaitingApproval"
      case Broadcast(_, _) => "broadcast"
      case Rejected => "rejected"
      case Cancelled => "cancelled"
      case Failed(_) => "failed"
    }
  }

  /** A call of a bundle, with its number, its progress and the node's hash. */
  datatype Leg = Leg(nonce: nat, left: bool, hash: Option<string>)

  /** What a pinned number takes over from. */
  datatype Replacing = Send(id: Id) | Departed

  /** Who is broadcasting, by ticket, and since when. */
  datatype Broadcasting = Broadcasting(ticket: nat, claimedAt: nat)

  datatype Job = Job(account: Account, legs: seq<Leg>, status: Status,
                     broadcast: Option<Broadcasting>, replacing: Option<Replacing>)
  {
    /** The leg is on its way, or the whole send is. */
    predicate LegSpent(i: nat)
      requires i < |legs|
    {
      legs[i].left || status.Broadcast?
    }

    /** Whether the leg's number is still the job's own. */
    predicate HoldsLeg(i: nat)
      requires i < |legs|
    {
      !status.Terminal() || LegSpent(i)
    }

    predicate HoldsNonce() {
      exists i | 0 <= i < |legs| :: HoldsLeg(i)
    }

    function SlotOf(i: nat): Slot
      requires i < |legs|
    {
      Slot(account, legs[i].nonce)
    }

    function Slots(): seq<Slot> {
      seq(|legs|, i requires 0 <= i < |legs| => SlotOf(i))
    }

    predicate OwnedBy(ticket: nat) {
      broadcast.Some? && broadcast.value.ticket == ticket
    }

    predicate IsStuck(now: nat) {
      && !status.Terminal()
      && broadcast.Some?
      && (if now < broadcast.value.claimedAt then 0 else now - broadcast.value.claimedAt) >= STUCK_AFTER_SECS
    }

    function ReportedStatus(now: nat): string {
      if status.Terminal() || broadcast.None? then status.Label()
      else if IsStuck(now) then "stuck"
      else "broadcasting"
    }

    predicate IsFinal(now: nat) {
      ReportedStatus(now) !in ["awaitingApproval", "broadcasting"]
    }
  }

  /** Numbers reserved for a send whose approval has not been asked for yet. */
  datatype Claim = Claim(account: Account, nonces: seq<nat>, replacing: Option<Replacing>)

  /**
    * The job of a claim takes account, numbers and what it replaces from there, whatever the draft
    * says, and no more legs than there are numbers.
    */
  function FromClaim(c: Claim, draft: Job): Job {
    var count := if |draft.legs| <= |c.nonces| then |draft.legs| else |c.nonces|;
    draft.(account := c.account, replacing := c.replacing,
           legs := seq(count, i requires 0 <= i < count => draft.legs[i].(nonce := c.nonces[i])))
  }

  /** A draft as a send request builds it: one leg per number, nothing left, nothing decided. */
  predicate FreshDraft(draft: Job, count: nat) {
    && |draft.legs| == count
    && draft.status == AwaitingApproval
    && draft.broadcast == None
    && (forall i | 0 <= i < count :: !draft.legs[i].left && draft.legs[i].hash == None)
  }

  datatype Ledger = Ledger(jobs: map<Id, Job>, claims: map<nat, Claim>,
                           reserved: set<Slot>, spent: set<Slot>,
                           lastClaim: nat, lastTicket: nat, stranded: seq<Slot>)

  const EMPTY := Ledger(map[], map[], {}, {}, 0, 0, [])

  // ---- Who holds a number

  datatype Holder = ByClaim(claim: nat) | ByJob(id: Id)

  predicate ClaimAt(c: Claim, s: Slot) { c.account == s.account && s.number in c.nonces }

  /** Job `j` holds `s`: it can still move, or the leg there may have left. */
  predicate JobHolds(j: Job, s: Slot) {
    exists i | 0 <= i < |j.legs| :: j.SlotOf(i) == s && j.HoldsLeg(i)
  }

  /** Job `j` can still sign at `s` and has not. */
  predicate JobUnleft(j: Job, s: Slot) {
    !j.status.Terminal() && exists i | 0 <= i < |j.legs| :: j.SlotOf(i) == s && !j.LegSpent(i)
  }

  /** Some leg of `j` numbered `s` is on its way. */
  predicate JobSpent(j: Job, s: Slot) {
    exists i | 0 <= i < |j.legs| :: j.SlotOf(i) == s && j.LegSpent(i)
  }

  predicate Holds(l: Ledger, h: Holder, s: Slot) {
    match h
    case ByClaim(c) => c in l.claims && ClaimAt(l.claims[c], s)
    case ByJob(id) => id in l.jobs && JobHolds(l.jobs[id], s)
  }

  /** A holder whose bytes have not left: two of these on one number is a collision. */
  predicate HoldsUnleft(l: Ledger, h: Holder, s: Slot) {
    match h
    case ByClaim(c) => c in l.claims && ClaimAt(l.claims[c], s)
    case ByJob(id) => id in l.jobs && JobUnleft(l.jobs[id], s)
  }

  /** The holders the audit counts: unsettled, and not named as a replacement. */
  predicate Counts(l: Ledger, h: Holder) {
    match h
    case ByClaim(c) => c in l.claims && l.claims[c].replacing.None?
    case ByJob(id) => id in l.jobs && !l.jobs[id].status.Terminal() && l.jobs[id].replacing.None?
  }

  ghost predicate IsHeld(l: Ledger, s: Slot) { exists h :: Holds(l, h, s) }

  ghost predicate IsHeldUnleft(l: Ledger, s: Slot) { exists h :: HoldsUnleft(l, h, s) }

  ghost predicate SpentByJob(l: Ledger, s: Slot) { exists id :: id in l.jobs && JobSpent(l.jobs[id], s) }

  // ---- The doors

  ghost function SlotsOf(account: Account, numbers: seq<nat>): (slots: set<Slot>)
    ensures forall s :: s in slots <==> s.account == account && s.number in numbers
  {
    set n | n in numbers :: Slot(account, n)
  }

  ghost function SpentSlots(j: Job): (slots: set<Slot>)
    ensures forall s :: s in slots <==> JobSpent(j, s)
  {
    set i | 0 <= i < |j.legs| && j.LegSpent(i) :: j.SlotOf(i)
  }

  ghost function UnspentSlots(j: Job): (slots: set<Slot>) {
    set i | 0 <= i < |j.legs| && !j.LegSpent(i) :: j.SlotOf(i)
  }

  /** Let go of those of `slots` that nobody holds and that were never spent. */
  ghost function Release(l: Ledger, slots: set<Slot>): Ledger {
    l.(reserved := set s | s in l.reserved && !(s in slots && s !in l.spent && !IsHeld(l, s)))
  }

  /** Burn the legs that may have left, let go of the others once nobody holds them. */
  ghost function SyncNonce(l: Ledger, id: Id): Ledger {
    if id !in l.jobs then l
    else
      var j := l.jobs[id];
      Release(l.(reserved := l.reserved + SpentSlots(j), spent := l.spent + SpentSlots(j)), UnspentSlots(j))
  }

  /** Every number of one account that is out: what the scan steps over. */
  ghost function Taken(l: Ledger, account: Account): (numbers: set<nat>)
    ensures forall n :: n in numbers <==> Slot(account, n) in l.reserved + l.spent
  {
    var slots := l.reserved + l.spent;
    set s | s in slots && s.account == account :: s.number
  }

  datatype OpenError = BadCount | PinnedBundle | HeldUnleft

  function AddClaim(l: Ledger, c: Claim): Ledger {
    l.(claims := l.claims[l.lastClaim + 1 := c], lastClaim := l.lastClaim + 1)
  }

  /** What a pin may name: a send that left there, or `Departed` when no send here did. */
  ghost predicate PinNames(l: Ledger, s: Slot, r: Replacing) {
    match r
    case Send(id) => id in l.jobs && JobSpent(l.jobs[id], s)
    case Departed => !SpentByJob(l, s)
  }

  ghost function OpenRun(l: Ledger, account: Account, reading: nat, count: nat): Ledger {
    var run := FreeRun(Taken(l, account), reading, count);
    AddClaim(l.(reserved := l.reserved + SlotsOf(account, run)), Claim(account, run, None))
  }

  ghost function OpenFree(l: Ledger, s: Slot): Ledger {
    AddClaim(l.(reserved := l.reserved + {s}), Claim(s.account, [s.number], None))
  }

  ghost function OpenReplacing(l: Ledger, s: Slot, r: Replacing): Ledger {
    AddClaim(if r.Departed? then l.(reserved := l.reserved + {s}) else l, Claim(s.account, [s.number], Some(r)))
  }

  /** `open` as a relation: which of several departed sends a pin names is the map's own choice. */
  ghost predicate Opens(l: Ledger, account: Account, reading: nat, count: nat, pinned: Option<nat>,
                        l': Ledger, answer: Result<nat, OpenError>)
  {
    if count == 0 || count > MAX_LEGS then l' == l && answer == Err(BadCount)
    else match pinned
      case None =>
        l' == OpenRun(l, account, reading, count) && answer == Ok(l.lastClaim + 1)
      case Some(n) =>
        var s := Slot(account, n);
        if count != 1 then l' == l && answer == Err(PinnedBundle)
        else if s !in l.reserved + l.spent then l' == OpenFree(l, s) && answer == Ok(l.lastClaim + 1)
        else if IsHeldUnleft(l, s) then l' == l && answer == Err(HeldUnleft)
        else answer == Ok(l.lastClaim + 1) && exists r :: PinNames(l, s, r) && l' == OpenReplacing(l, s, r)
  }

  function Commit(l: Ledger, claim: nat, id: Id, draft: Job): Ledger
    requires claim in l.claims
  {
    l.(claims := l.claims - {claim},
       jobs := l.jobs[id := FromClaim(l.claims[claim], draft)],
       stranded := l.stranded + if id in l.jobs && l.jobs[id].HoldsNonce() then l.jobs[id].Slots() else [])
  }

  ghost function Abandon(l: Ledger, claim: nat): Ledger
    requires claim in l.claims
  {
    Release(l.(claims := l.claims - {claim}), SlotsOf(l.claims[claim].account, l.claims[claim].nonces))
  }

  datatype BroadcastClaim = Claimed(ticket: nat) | InFlight | Settled | Unknown

  function ClaimBroadcast(l: Ledger, id: Id, now: nat): (Ledger, BroadcastClaim) {
    if id !in l.jobs then (l, Unknown)
    else
      var j := l.jobs[id];
      if j.status.Terminal() then (l, Settled)
      else if j.broadcast.Some? then (l, InFlight)
      else
        var ticket := l.lastTicket + 1;
        (l.(jobs := l.jobs[id := j.(broadcast := Some(Broadcasting(ticket, now)))], lastTicket := ticket),
         Claimed(ticket))
  }

  ghost function Leaving(l: Ledger, id: Id, ticket: nat, leg: nat): (Ledger, bool) {
    if id !in l.jobs || !l.jobs[id].OwnedBy(ticket) || leg >= |l.jobs[id].legs| then (l, false)
    else (SyncNonce(MarkLeft(l, id, leg), id), true)
  }

  function MarkLeft(l: Ledger, id: Id, leg: nat): Ledger
    requires id in l.jobs && leg < |l.jobs[id].legs|
  {
    var j := l.jobs[id];
    l.(jobs := l.jobs[id := j.(legs := j.legs[leg := j.legs[leg].(left := true)])])
  }

  function Landed(l: Ledger, id: Id, ticket: nat, leg: nat, hash: string): (Ledger, bool) {
    if id !in l.jobs || !l.jobs[id].OwnedBy(ticket) || leg >= |l.jobs[id].legs| || !l.jobs[id].legs[leg].left
    then (l, false)
    else
      var j := l.jobs[id];
      (l.(jobs := l.jobs[id := j.(legs := j.legs[leg := j.legs[leg].(hash := Some(hash))])]), true)
  }

  /** What a settle did: nothing is known of the send, it was left alone, or the status was written. */
  datatype Outcome = NoSuchSend | Unmoved | Written(changed: bool)

  /** Which of the three a settle will be, read off the job before anything is written. */
  function SettleOutcome(l: Ledger, id: Id, status: Status, ticket: Option<nat>): Outcome {
    if id !in l.jobs then NoSuchSend
    else
      var j := l.jobs[id];
      var owner := if j.broadcast.Some? then Some(j.broadcast.value.ticket) else None;
      var correcting := status.Broadcast? && ticket.Some? && !j.status.Broadcast?;
      if owner.Some? && owner != ticket then Unmoved
      else if j.status.Terminal() && !correcting then Unmoved
      else Written(j.status != status)
  }

  function WriteStatus(l: Ledger, id: Id, status: Status): Ledger
    requires id in l.jobs
  {
    l.(jobs := l.jobs[id := l.jobs[id].(status := status)])
  }

  ghost function Settle(l: Ledger, id: Id, status: Status, ticket: Option<nat>): Ledger {
    if SettleOutcome(l, id, status, ticket).Written? then SyncNonce(WriteStatus(l, id, status), id) else l
  }

  datatype CancelError = NoSend | AlreadySettled | BeingBroadcast

  ghost function ClaimCancel(l: Ledger, id: Id): (Ledger, Result<Job, CancelError>) {
    if id !in l.jobs then (l, Err(NoSend))
    else if l.jobs[id].status.Terminal() then (l, Err(AlreadySettled))
    else if l.jobs[id].broadcast.Some? then (l, Err(BeingBroadcast))
    else (Settle(l, id, Cancelled, None), Ok(l.jobs[id].(status := Cancelled)))
  }

  function SeedSpent(l: Ledger, slots: set<Slot>): Ledger {
    l.(reserved := l.reserved + slots, spent := l.spent + slots)
  }

  // ---- Any door, with any arguments

  datatype Door =
    | DoOpen(account: Account, reading: nat, count: nat, pinned: Option<nat>)
    | DoCommit(claim: nat, id: Id, draft: Job)
    | DoAbandon(claim: nat)
    | DoClaimBroadcast(id: Id, now: nat)
    | DoLeaving(id: Id, ticket: nat, leg: nat)
    | DoLanded(id: Id, ticket: nat, leg: nat, hash: string)
    | DoSettle(id: Id, status: Status, owner: Option<nat>)
    | DoCancel(id: Id)
    | DoSeed(slots: set<Slot>)

  /**
    * One door taken with any arguments at all: any request id, also a repeated one, and any
    * ticket number. Only the guard types of the original are kept: a claim is committed or
    * abandoned while it is open, and what is committed is a fresh draft.
    */
  ghost predicate Step(l: Ledger, d: Door, l': Ledger) {
    match d
    case DoOpen(account, reading, count, pinned) =>
      exists answer :: Opens(l, account, reading, count, pinned, l', answer)
    case DoCommit(claim, id, draft) =>
      claim in l.claims && FreshDraft(draft, |l.claims[claim].nonces|) && l' == Commit(l, claim, id, draft)
    case DoAbandon(claim) => claim in l.claims && l' == Abandon(l, claim)
    case DoClaimBroadcast(id, now) => l' == ClaimBroadcast(l, id, now).0
    case DoLeaving(id, ticket, leg) => l' == Leaving(l, id, ticket, leg).0
    case DoLanded(id, ticket, leg, hash) => l' == Landed(l, id, ticket, leg, hash).0
    case DoSettle(id, status, owner) => l' == Settle(l, id, status, owner)
    case DoCancel(id) => l' == ClaimCancel(l, id).0
    case DoSeed(slots) => l' == SeedSpent(l, slots)
  }
}
