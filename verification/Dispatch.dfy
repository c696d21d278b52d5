/**
  * Sends, polls and cancels as they interleave on one ledger. Each event is one critical section
  * of the ledger or one answer from outside; a poll past its claim walks the broadcast loop:
  * record, burn, broadcast, take the hash, for one leg after the other.
  */
module Dispatch {
  import opened Basics
  import opened Reserver
  import opened Ledgers
  import opened LedgerInvariant

  /** Where a poll that owns the broadcast stands in its loop. */
  datatype Phase =
    | Recording(leg: nat)               // about to write the leg's intent to disk
    | Burning(leg: nat)                 // recorded; about to take the leg's number through `leaving`
    | OnWire(leg: nat)                  // the bytes may have left; no answer yet
    | Answered(leg: nat, hash: string)  // the node gave a hash; the leg does not carry it yet
    | Failing                           // about to settle the send as failed
    | Finishing(hash: string)           // every leg has its hash; about to settle it as broadcast

  datatype Poll =
    | Reading(id: Id, job: Job)
    | Sending(id: Id, job: Job, ticket: nat, phase: Phase)

  /** One transaction whose bytes may have left: where, whose, and how many had left when its claim opened. */
  datatype Departure = Departure(slot: Slot, id: Id, leg: nat, replacing: Option<Replacing>, born: nat)

  /** One process: its ledger and its polls; with, for the statements only, what left and in which order. */
  datatype World = World(ledger: Ledger, polls: map<nat, Poll>, log: seq<Departure>,
                         claimBorn: map<nat, nat>, jobBorn: map<Id, nat>, seeded: set<Slot>)

  const START := World(EMPTY, map[], [], map[], map[], {})

  datatype Event =
    | Open(account: Account, reading: nat, count: nat, pinned: Option<nat>)
    | Commit(claim: nat, id: Id, draft: Job)
    | Abandon(claim: nat)
    | Cancel(id: Id)
    | Seed(slots: set<Slot>)
    | PollReads(poll: nat, id: Id)
    | PollGivesUp(poll: nat)
    | PollSettles(poll: nat, status: Status)
    | PollClaims(poll: nat, now: nat)
    | Records(poll: nat, ok: bool)
    | Leaves(poll: nat)
    | NodeAnswers(poll: nat, hash: Option<string>)
    | Lands(poll: nat)
    | Fails(poll: nat, reason: string)
    | Finishes(poll: nat, route: string)

  // ---- One event

  predicate InPhase(w: World, poll: nat, isPhase: Phase -> bool) {
    poll in w.polls && w.polls[poll].Sending? && isPhase(w.polls[poll].phase)
  }

  function Advance(w: World, poll: nat, phase: Phase): World
    requires poll in w.polls && w.polls[poll].Sending?
  {
    w.(polls := w.polls[poll := w.polls[poll].(phase := phase)])
  }

  function Ends(w: World, poll: nat): World { w.(polls := w.polls - {poll}) }

  ghost predicate Opening(w: World, account: Account, reading: nat, count: nat, pinned: Option<nat>, w': World) {
    exists answer ::
      && Opens(w.ledger, account, reading, count, pinned, w'.ledger, answer)
      && w' == w.(ledger := w'.ledger,
                  claimBorn := if answer.Ok? then w.claimBorn[answer.value := |w.log|] else w.claimBorn)
  }

  /** The approval request succeeded: a job takes the claim's place, under an unused id. */
  predicate Committing(w: World, claim: nat, id: Id, draft: Job, w': World) {
    && claim in w.ledger.claims && claim in w.claimBorn
    && id !in w.ledger.jobs
    && FreshDraft(draft, |w.ledger.claims[claim].nonces|)
    && w' == w.(ledger := Ledgers.Commit(w.ledger, claim, id, draft),
                jobBorn := w.jobBorn[id := w.claimBorn[claim]])
  }

  ghost predicate Leaving(w: World, poll: nat, w': World) {
    InPhase(w, poll, (ph: Phase) => ph.Burning?) &&
    var p := w.polls[poll];
    var leg := p.phase.leg;
    var (ledger', mayLeave) := Ledgers.Leaving(w.ledger, p.id, p.ticket, leg);
    if mayLeave && leg < |p.job.legs| && p.id in w.jobBorn then
      // The bytes carry the number the human approved, read when this poll began.
      var gone := Departure(p.job.SlotOf(leg), p.id, leg, ledger'.jobs[p.id].replacing, w.jobBorn[p.id]);
      w' == Advance(w, poll, OnWire(leg)).(ledger := ledger', log := w.log + [gone])
    else
      w' == Advance(w, poll, Failing).(ledger := ledger')
  }

  ghost predicate Next(w: World, e: Event, w': World) {
    match e
    case Open(account, reading, count, pinned) => Opening(w, account, reading, count, pinned, w')
    case Commit(claim, id, draft) => Committing(w, claim, id, draft, w')
    case Abandon(claim) =>
      claim in w.ledger.claims && w' == w.(ledger := Ledgers.Abandon(w.ledger, claim))
    case Cancel(id) => w' == w.(ledger := ClaimCancel(w.ledger, id).0)
    case Seed(slots) => w' == w.(ledger := SeedSpent(w.ledger, slots), seeded := w.seeded + slots)
    case PollReads(poll, id) =>
      && poll !in w.polls && id in w.ledger.jobs
      && !w.ledger.jobs[id].status.Terminal() && w.ledger.jobs[id].broadcast.None?
      && w' == w.(polls := w.polls[poll := Reading(id, w.ledger.jobs[id])])
    case PollGivesUp(poll) =>
      poll in w.polls && w.polls[poll].Reading? && w' == Ends(w, poll)
    case PollSettles(poll, status) =>
      && poll in w.polls && w.polls[poll].Reading? && (status.Rejected? || status.Failed?)
      && w' == Ends(w, poll).(ledger := Settle(w.ledger, w.polls[poll].id, status, None))
    case PollClaims(poll, now) =>
      poll in w.polls && w.polls[poll].Reading? &&
      var p := w.polls[poll];
      var (ledger', answer) := ClaimBroadcast(w.ledger, p.id, now);
      w' == (if answer.Claimed? then w.(polls := w.polls[poll := Sending(p.id, p.job, answer.ticket, Begin(p.job))])
             else Ends(w, poll)).(ledger := ledger')
    case Records(poll, ok) =>
      InPhase(w, poll, (ph: Phase) => ph.Recording?) &&
      w' == Advance(w, poll, if ok then Burning(w.polls[poll].phase.leg) else Failing)
    case Leaves(poll) => Leaving(w, poll, w')
    case NodeAnswers(poll, hash) =>
      // A reply without a hash, or with an empty one, is none.
      InPhase(w, poll, (ph: Phase) => ph.OnWire?) && (hash.Some? ==> hash.value != "") &&
      w' == Advance(w, poll, if hash.Some? then Answered(w.polls[poll].phase.leg, hash.value) else Failing)
    case Lands(poll) =>
      InPhase(w, poll, (ph: Phase) => ph.Answered?) &&
      var p := w.polls[poll];
      var leg := p.phase.leg;
      w' == Advance(w, poll, if leg + 1 < |p.job.legs| then Recording(leg + 1) else Finishing(p.phase.hash))
            .(ledger := Ledgers.Landed(w.ledger, p.id, p.ticket, leg, p.phase.hash).0)
    case Fails(poll, reason) =>
      InPhase(w, poll, (ph: Phase) => ph.Failing?) &&
      w' == Ends(w, poll).(ledger := Settle(w.ledger, w.polls[poll].id, Failed(reason), Some(w.polls[poll].ticket)))
    case Finishes(poll, route) =>
      InPhase(w, poll, (ph: Phase) => ph.Finishing?) &&
      var p := w.polls[poll];
      w' == Ends(w, poll).(ledger := Settle(w.ledger, p.id, Broadcast(p.phase.hash, route), Some(p.ticket)))
  }

  /** The loop runs over the legs read at the start; a send of none has nothing to record. */
  function Begin(job: Job): Phase {
    if |job.legs| > 0 then Recording(0) else Finishing("")
  }

  // ---- What every interleaving keeps

  /** Departed legs are a prefix, every one but possibly the last carries its hash. */
  predicate WellSent(j: Job) {
    && (forall i, k | 0 <= i < k < |j.legs| && j.legs[k].left :: j.legs[i].left && j.legs[i].hash.Some?)
    && (forall i | 0 <= i < |j.legs| && j.legs[i].hash.Some? :: j.legs[i].left)
    && (j.status.Broadcast? ==> forall i | 0 <= i < |j.legs| :: j.legs[i].left && j.legs[i].hash.Some?)
    && (j.broadcast.None? ==> forall i | 0 <= i < |j.legs| :: !j.legs[i].left)
  }

  predicate SameBundle(j: Job, k: Job) {
    && k.account == j.account && k.replacing == j.replacing && |k.legs| == |j.legs|
    && forall i | 0 <= i < |j.legs| :: k.legs[i].nonce == j.legs[i].nonce
  }

  /** Exactly the first `gone` legs have left and exactly the first `known` carry a hash. */
  predicate SentUpTo(j: Job, gone: nat, known: nat) {
    && gone <= |j.legs|
    && (forall i | 0 <= i < |j.legs| :: j.legs[i].left <==> i < gone)
    && (forall i | 0 <= i < |j.legs| :: j.legs[i].hash.Some? <==> i < known)
  }

  predicate PhaseOk(j: Job, phase: Phase) {
    match phase
    case Recording(leg) => leg < |j.legs| && SentUpTo(j, leg, leg)
    case Burning(leg) => leg < |j.legs| && SentUpTo(j, leg, leg)
    case OnWire(leg) => leg < |j.legs| && SentUpTo(j, leg + 1, leg)
    case Answered(leg, _) => leg < |j.legs| && SentUpTo(j, leg + 1, leg)
    case Failing => true
    case Finishing(_) => SentUpTo(j, |j.legs|, |j.legs|)
  }

  predicate PollOk(l: Ledger, p: Poll) {
    && p.id in l.jobs && SameBundle(l.jobs[p.id], p.job)
    && (p.Sending? ==>
          && l.jobs[p.id].OwnedBy(p.ticket) && !l.jobs[p.id].status.Terminal()
          && PhaseOk(l.jobs[p.id], p.phase))
  }

  ghost predicate PollsOk(w: World) {
    && (forall p | p in w.polls :: PollOk(w.ledger, w.polls[p]))
    && (forall p, q | p in w.polls && q in w.polls && p != q && w.polls[p].Sending? && w.polls[q].Sending? ::
          w.polls[p].id != w.polls[q].id)
  }

  predicate JobsOk(l: Ledger) { forall id | id in l.jobs :: WellSent(l.jobs[id]) }

  predicate Logged(log: seq<Departure>, s: Slot) { exists k | 0 <= k < |log| :: log[k].slot == s }

  predicate LogHas(log: seq<Departure>, id: Id, leg: nat) {
    exists k | 0 <= k < |log| :: log[k].id == id && log[k].leg == leg
  }

  /** A departure is a departed leg of a send this ledger still knows. */
  predicate EntryOk(w: World, d: Departure) {
    && d.id in w.ledger.jobs && d.leg < |w.ledger.jobs[d.id].legs|
    && w.ledger.jobs[d.id].legs[d.leg].left
    && w.ledger.jobs[d.id].SlotOf(d.leg) == d.slot
    && w.ledger.jobs[d.id].replacing == d.replacing
  }

  ghost predicate LogOk(w: World) {
    && (forall k | 0 <= k < |w.log| :: EntryOk(w, w.log[k]) && w.log[k].born <= k)
    && (forall k, m | 0 <= k < m < |w.log| :: !(w.log[k].id == w.log[m].id && w.log[k].leg == w.log[m].leg))
    && (forall id, i: nat | id in w.ledger.jobs && i < |w.ledger.jobs[id].legs| && w.ledger.jobs[id].legs[i].left ::
          LogHas(w.log, id, i))
  }

  predicate BirthsOk(w: World) {
    && (forall c | c in w.ledger.claims :: c in w.claimBorn && w.claimBorn[c] <= |w.log|)
    && (forall id | id in w.ledger.jobs :: id in w.jobBorn && w.jobBorn[id] <= |w.log|)
  }

  /**
    * What a number's history must look like for a send that takes it: an unnamed send finds it
    * untouched; one that replaces names a send that had left there before its claim opened; one
    * that replaces a departed stranger finds it untouched here, and seeded.
    */
  predicate Lineage(log: seq<Departure>, seeded: set<Slot>, s: Slot, r: Option<Replacing>, born: nat) {
    match r
    case None => !Logged(log, s)
    case Some(Departed) => !Logged(log, s) && s in seeded
    case Some(Send(id)) => exists k | 0 <= k < |log| && k < born :: log[k].id == id && log[k].slot == s
  }

  /** Whoever could still leave would, if it left now, have a proper lineage. */
  ghost predicate HoldersOk(w: World) {
    && (forall c, s | c in w.ledger.claims && ClaimAt(w.ledger.claims[c], s) && c in w.claimBorn ::
          Lineage(w.log, w.seeded, s, w.ledger.claims[c].replacing, w.claimBorn[c]))
    && (forall id, s | id in w.ledger.jobs && JobUnleft(w.ledger.jobs[id], s) && id in w.jobBorn ::
          Lineage(w.log, w.seeded, s, w.ledger.jobs[id].replacing, w.jobBorn[id]))
  }

  /** Every departure had a proper lineage when it left. */
  ghost predicate LineagesOk(w: World) {
    forall k | 0 <= k < |w.log| ::
      Lineage(w.log[..k], w.seeded, w.log[k].slot, w.log[k].replacing, w.log[k].born)
  }

  ghost predicate SpentIsKnown(w: World) {
    && w.ledger.stranded == []
    && forall s | s in w.ledger.spent :: s in w.seeded || Logged(w.log, s)
  }

  ghost predicate WorldInv(w: World) {
    && Inv(w.ledger)
    && JobsOk(w.ledger)
    && PollsOk(w)
    && LogOk(w)
    && BirthsOk(w)
    && HoldersOk(w)
    && LineagesOk(w)
    && SpentIsKnown(w)
  }
}
