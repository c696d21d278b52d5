/**
  * How one poll sends a bundle, from taking its ticket to settling it. Its effects, in the order they
  * are written, are events of the interleaved system.
  */
module Advance {
  import opened Basics
  import opened Ledgers
  import opened SendLedgers
  import Rows
  import Disks
  import Store
  import Histories
  import opened Dispatch
  import Money
  import Recovery

  ghost predicate IsPath(ws: seq<World>, es: seq<Event>) {
    |ws| == |es| + 1 && forall i | 0 <= i < |es| :: Next(ws[i], es[i], ws[i + 1])
  }

  /** Some events lead from one world to the other. */
  ghost predicate Leads(w: World, w': World) {
    exists ws, es :: IsPath(ws, es) && ws[0] == w && ws[|es|] == w'
  }

  lemma LeadsNowhere(w: World)
    ensures Leads(w, w)
  {
    assert IsPath([w], []) && [w][0] == w;
  }

  lemma LeadsOn(w: World, m: World, e: Event, w': World)
    requires Leads(w, m) && Next(m, e, w')
    ensures Leads(w, w')
  {
    var ws, es :| IsPath(ws, es) && ws[0] == w && ws[|es|] == m;
    var ws', es' := ws + [w'], es + [e];
    forall i | 0 <= i < |es'| ensures Next(ws'[i], es'[i], ws'[i + 1]) {
      if i < |es| { assert Next(ws[i], es[i], ws[i + 1]); }
    }
    assert IsPath(ws', es') && ws'[0] == w && ws'[|es'|] == w';
  }

  lemma ReachableOn(w: World, e: Event, w': World)
    requires Money.Reachable(w) && Next(w, e, w')
    ensures Money.Reachable(w')
  {
    var ws, es :| Money.IsHistory(ws, es) && ws[|es|] == w;
    var ws', es' := ws + [w'], es + [e];
    forall i | 0 <= i < |es'| ensures Next(ws'[i], es'[i], ws'[i + 1]) {
      if i < |es| { assert Next(ws[i], es[i], ws[i + 1]); }
    }
    assert Money.IsHistory(ws', es') && ws'[|es'|] == w';
  }

  lemma {:induction false} ReachableAlong(ws: seq<World>, es: seq<Event>, k: nat)
    requires IsPath(ws, es) && k < |ws| && Money.Reachable(ws[0])
    ensures Money.Reachable(ws[k])
  {
    if k > 0 {
      ReachableAlong(ws, es, k - 1);
      assert Next(ws[k - 1], es[k - 1], ws[k - 1 + 1]);
      ReachableOn(ws[k - 1], es[k - 1], ws[k]);
    }
  }

  lemma LeadsToReachable(w: World, w': World)
    requires Leads(w, w') && Money.Reachable(w)
    ensures Money.Reachable(w')
  {
    var ws, es :| IsPath(ws, es) && ws[0] == w && ws[|es|] == w';
    ReachableAlong(ws, es, |es|);
  }

  /** In a process that began at the beginning, the ticket holder gets its number and its settle is written. */
  lemma TheOwnerIsServed(s: World, w: World, poll: nat, id: Id, job: Job, ticket: nat, phase: Phase, status: Status)
    requires Leads(s, w) && Money.Reachable(s) && At(w, poll, id, job, ticket, phase) && status.Terminal()
    requires status.Broadcast? ==> phase.Finishing?
    ensures SettleOutcome(w.ledger, id, status, Some(ticket)) == Written(true)
    ensures phase.Burning? ==> Ledgers.Leaving(w.ledger, id, ticket, phase.leg).1
  {
    LeadsToReachable(s, w);
    Money.TheOwnerIsNeverRefused(w, poll, status);
  }

  // ---- What each effect is to the interleaved system

  predicate At(w: World, poll: nat, id: Id, job: Job, ticket: nat, phase: Phase) {
    poll in w.polls && w.polls[poll] == Sending(id, job, ticket, phase) && id in w.jobBorn
  }

  function Beyond(job: Job, i: nat, hash: string): Phase {
    if i + 1 < |job.legs| then Recording(i + 1) else Finishing(hash)
  }

  /** Where the poll stands after one call: at the next, at the end, or gone. */
  predicate SentLeg(w: World, sent: Sent, poll: nat, id: Id, job: Job, ticket: nat, i: nat) {
    match sent
    case Answered(hash) => At(w, poll, id, job, ticket, Beyond(job, i, hash))
    case _ => poll !in w.polls
  }

  function Claiming(w: World, poll: nat, job: Job, id: Id, l: Ledger, answer: BroadcastClaim): World {
    (if answer.Claimed? then w.(polls := w.polls[poll := Sending(id, job, answer.ticket, Begin(job))]) else Ends(w, poll)).(ledger := l)
  }

  lemma ThenClaims(s: World, w: World, poll: nat, id: Id, job: Job, now: nat)
    requires Leads(s, w) && poll in w.polls && w.polls[poll] == Reading(id, job)
    ensures var (l, answer) := ClaimBroadcast(w.ledger, id, now);
            Leads(s, Claiming(w, poll, job, id, l, answer))
  {
    var (l, answer) := ClaimBroadcast(w.ledger, id, now);
    LeadsOn(s, w, PollClaims(poll, now), Claiming(w, poll, job, id, l, answer));
  }

  lemma ThenRecords(s: World, w: World, poll: nat, id: Id, job: Job, ticket: nat, i: nat, ok: bool)
    requires Leads(s, w) && At(w, poll, id, job, ticket, Recording(i))
    ensures Leads(s, Advance(w, poll, if ok then Burning(i) else Failing))
  {
    LeadsOn(s, w, Records(poll, ok), Advance(w, poll, if ok then Burning(i) else Failing));
  }

  function Gone(w: World, id: Id, job: Job, i: nat, l: Ledger): Departure
    requires i < |job.legs| && id in l.jobs && id in w.jobBorn
  {
    Departure(job.SlotOf(i), id, i, l.jobs[id].replacing, w.jobBorn[id])
  }

  function AfterLeaving(w: World, poll: nat, id: Id, job: Job, i: nat, l: Ledger, mayLeave: bool): World
    requires poll in w.polls && w.polls[poll].Sending?
    requires mayLeave ==> i < |job.legs| && id in l.jobs && id in w.jobBorn
  {
    if mayLeave then Advance(w, poll, OnWire(i)).(ledger := l, log := w.log + [Gone(w, id, job, i, l)])
    else Advance(w, poll, Failing).(ledger := l)
  }

  lemma ThenLeaves(s: World, w: World, poll: nat, id: Id, job: Job, ticket: nat, i: nat, l: Ledger, mayLeave: bool)
    requires Leads(s, w) && At(w, poll, id, job, ticket, Burning(i)) && i < |job.legs|
    requires (l, mayLeave) == Ledgers.Leaving(w.ledger, id, ticket, i)
    ensures mayLeave ==> id in l.jobs
    ensures Leads(s, AfterLeaving(w, poll, id, job, i, l, mayLeave))
  {
    LeadsOn(s, w, Leaves(poll), AfterLeaving(w, poll, id, job, i, l, mayLeave));
  }

  lemma ThenAnswers(s: World, w: World, poll: nat, id: Id, job: Job, ticket: nat, i: nat, hash: Option<string>)
    requires Leads(s, w) && At(w, poll, id, job, ticket, OnWire(i)) && (hash.Some? ==> hash.value != "")
    ensures Leads(s, Advance(w, poll, if hash.Some? then Phase.Answered(i, hash.value) else Failing))
  {
    LeadsOn(s, w, NodeAnswers(poll, hash), Advance(w, poll, if hash.Some? then Phase.Answered(i, hash.value) else Failing));
  }

  lemma ThenLands(s: World, w: World, poll: nat, id: Id, job: Job, ticket: nat, i: nat, hash: string)
    requires Leads(s, w) && At(w, poll, id, job, ticket, Phase.Answered(i, hash))
    ensures Leads(s, Advance(w, poll, Beyond(job, i, hash)).(ledger := Ledgers.Landed(w.ledger, id, ticket, i, hash).0))
  {
    LeadsOn(s, w, Lands(poll), Advance(w, poll, Beyond(job, i, hash)).(ledger := Ledgers.Landed(w.ledger, id, ticket, i, hash).0));
  }

  lemma ThenFails(s: World, w: World, poll: nat, id: Id, job: Job, ticket: nat, reason: string)
    requires Leads(s, w) && At(w, poll, id, job, ticket, Failing)
    ensures Leads(s, Ends(w, poll).(ledger := Ledgers.Settle(w.ledger, id, Status.Failed(reason), Some(ticket))))
  {
    LeadsOn(s, w, Fails(poll, reason), Ends(w, poll).(ledger := Ledgers.Settle(w.ledger, id, Status.Failed(reason), Some(ticket))));
  }

  lemma ThenFinishes(s: World, w: World, poll: nat, id: Id, job: Job, ticket: nat, hash: string, route: string)
    requires Leads(s, w) && At(w, poll, id, job, ticket, Finishing(hash))
    ensures Leads(s, Ends(w, poll).(ledger := Ledgers.Settle(w.ledger, id, Status.Broadcast(hash, route), Some(ticket))))
  {
    LeadsOn(s, w, Finishes(poll, route),
            Ends(w, poll).(ledger := Ledgers.Settle(w.ledger, id, Status.Broadcast(hash, route), Some(ticket))));
  }

  // ---- The record

  /** What left since `from` has its row among these files. */
  ghost predicate RecordedSince(log: seq<Departure>, from: nat, f: Disks.Files) {
    from <= |log| && forall k | from <= k < |log| :: Recovery.Recorded(f, log[k].slot, log[k].id, log[k].leg)
  }

  /** Exactly one call left: the `i`th of `job`, at its own number. */
  predicate OneMore(log: seq<Departure>, log': seq<Departure>, id: Id, job: Job, i: nat)
    requires i < |job.legs|
  {
    |log'| == |log| + 1 && log <= log' && log'[|log|].slot == job.SlotOf(i) && log'[|log|].id == id && log'[|log|].leg == i
  }

  /** The first `n` calls of `job` left, in their order and nothing else. */
  predicate AllLeft(log: seq<Departure>, log': seq<Departure>, id: Id, job: Job, n: nat)
    requires n <= |job.legs|
  {
    && |log'| == |log| + n && log <= log'
    && forall k | |log| <= k < |log'| :: log'[k].slot == job.SlotOf(k - |log|) && log'[k].id == id && log'[k].leg == k - |log|
  }

  lemma OneMoreLeft(log: seq<Departure>, before: seq<Departure>, after: seq<Departure>, id: Id, job: Job, n: nat)
    requires n < |job.legs| && AllLeft(log, before, id, job, n) && OneMore(before, after, id, job, n)
    ensures AllLeft(log, after, id, job, n + 1)
  {
    assert forall k | 0 <= k < |before| :: after[k] == before[k];
  }

  lemma StaysRecorded(log: seq<Departure>, from: nat, f: Disks.Files, f': Disks.Files)
    requires RecordedSince(log, from, f) && Store.Preserves(f, f')
    ensures RecordedSince(log, from, f')
  {
    forall k | from <= k < |log| ensures Recovery.Recorded(f', log[k].slot, log[k].id, log[k].leg) {
      Recovery.RowsOutliveWork(f, f', log[k].slot, log[k].id, log[k].leg);
    }
  }

  lemma IntentIsRecorded(f: Disks.Files, id: Id, job: Job, i: nat, row: Rows.Record)
    requires i < |job.legs| && Recovery.DraftAt(row, job.SlotOf(i))
    requires Store.Stored(f, Rows.Rec(Rows.Intent(id, i, row)))
    ensures Recovery.Recorded(f, job.SlotOf(i), id, i)
  {
    assert Recovery.IsRowOf(Rows.Rec(Rows.Intent(id, i, row)), job.SlotOf(i), id, i);
  }

  // ---- What a call leaves behind

  /** What the node says to a transaction: a hash, possibly none, or a failure. */
  type Reply = Result<string, string>

  predicate IsHash(reply: Reply) { reply.Ok? && reply.value != "" }

  const NO_HASH := "the node accepted the transaction but returned no hash"

  function Why(reply: Reply): string
    requires !IsHash(reply)
  {
    match reply
    case Ok(_) => NO_HASH
    case Err(reason) => reason
  }

  /** One call handed over: the hash the node answered, or why the send ends here. */
  datatype Sent = Answered(hash: string) | NotRecorded | NotReleased | NoHash(reason: string)
  {
    function Reason(): string {
      match this
      case Answered(_) => ""
      case NotRecorded => "not recorded"
      case NotReleased => "not released"
      case NoHash(reason) => reason
    }
  }

  /** What a reply makes of the call. */
  function Said(reply: Reply): Sent { if IsHash(reply) then Sent.Answered(reply.value) else NoHash(Why(reply)) }

  predicate LegCarries(l: Ledger, id: Id, leg: nat, hash: string) {
    id in l.jobs && leg < |l.jobs[id].legs| && l.jobs[id].legs[leg].hash == Some(hash)
  }

  /** No leg of the send but this one has another hash than before. */
  predicate KeepsHashes(l: Ledger, l': Ledger, id: Id, leg: nat) {
    id in l.jobs ==>
      && id in l'.jobs && |l'.jobs[id].legs| == |l.jobs[id].legs|
      && forall k | 0 <= k < |l.jobs[id].legs| && k != leg :: l'.jobs[id].legs[k].hash == l.jobs[id].legs[k].hash
  }

  /** The leg's bytes may have left, and the ticket holds the send. */
  predicate MayLand(l: Ledger, id: Id, ticket: nat, leg: nat) {
    id in l.jobs && l.jobs[id].OwnedBy(ticket) && leg < |l.jobs[id].legs| && l.jobs[id].legs[leg].left
  }

  /** The send failed, for the reason the call ended it. */
  predicate Ended(l: Ledger, id: Id, sent: Sent) {
    id in l.jobs && l.jobs[id].status == Status.Failed(sent.Reason())
  }

  /** The call's hash is in its leg and in no other; or the send ended, said so, and no leg has another hash than before. */
  ghost predicate Noted(s: World, w: World, w': World, sent: Sent, poll: nat, id: Id, job: Job, ticket: nat, i: nat) {
    && SentLeg(w', sent, poll, id, job, ticket, i)
    && KeepsHashes(w.ledger, w'.ledger, id, i)
    && (if sent.Answered? then LegCarries(w'.ledger, id, i, sent.hash) else Money.Reachable(s) ==> Ended(w'.ledger, id, sent))
  }

  /** One call was made of the leg, and the reply was taken; or none was, and the send ended. */
  ghost predicate Called(s: World, w: World, w': World, sent: Sent, reply: Reply, poll: nat, id: Id, job: Job, ticket: nat, i: nat)
    requires i < |job.legs|
  {
    && Noted(s, w, w', sent, poll, id, job, ticket, i)
    && (if sent.Answered? || sent.NoHash? then sent == Said(reply) && OneMore(w.log, w'.log, id, job, i) else w'.log == w.log)
    && (Money.Reachable(s) ==> !sent.NotReleased?)
  }

  lemma ReleasedThenNoted(s: World, w: World, m: World, w': World, sent: Sent, reply: Reply,
                          poll: nat, id: Id, job: Job, ticket: nat, i: nat)
    requires i < |job.legs| && OneMore(w.log, m.log, id, job, i) && KeepsHashes(w.ledger, m.ledger, id, i)
    requires Noted(s, m, w', sent, poll, id, job, ticket, i) && sent == Said(reply) && w'.log == m.log
    ensures Called(s, w, w', sent, reply, poll, id, job, ticket, i)
  {}

  lemma RefusedThenNoted(s: World, w: World, m: World, w': World, reply: Reply, poll: nat, id: Id, job: Job, ticket: nat, i: nat)
    requires i < |job.legs| && w'.log == m.log == w.log && KeepsHashes(w.ledger, m.ledger, id, i) && !Money.Reachable(s)
    requires Noted(s, m, w', NotReleased, poll, id, job, ticket, i)
    ensures Called(s, w, w', NotReleased, reply, poll, id, job, ticket, i)
  {}

  lemma DoorsKeepHashes(l: Ledger, id: Id, ticket: nat, leg: nat, hash: string, status: Status)
    ensures KeepsHashes(l, Ledgers.Leaving(l, id, ticket, leg).0, id, leg)
    ensures Ledgers.Leaving(l, id, ticket, leg).1 ==> MayLand(Ledgers.Leaving(l, id, ticket, leg).0, id, ticket, leg)
    ensures KeepsHashes(l, Ledgers.Landed(l, id, ticket, leg, hash).0, id, leg)
    ensures MayLand(l, id, ticket, leg) ==> LegCarries(Ledgers.Landed(l, id, ticket, leg, hash).0, id, leg, hash)
    ensures KeepsHashes(l, Ledgers.Settle(l, id, status, Some(ticket)), id, leg)
    ensures LegCarries(l, id, leg, hash) ==> LegCarries(Ledgers.Settle(l, id, status, Some(ticket)), id, leg, hash)
  {}

  /** The call's row waits for its outcome, in a file under key `g`. */
  ghost predicate Waits(f: Disks.Files, g: nat, s: Slot, id: Id, leg: nat) {
    exists r :: Store.Readable(f, g, {}, Rows.Rec(r)) && Rows.Owns(id, leg, r) && Recovery.IsRowOf(Rows.Rec(r), s, id, leg)
  }

  /** The call's row is pending under the hash since `clock`: a receipt of that hash will find it. */
  ghost predicate Follows(f: Disks.Files, g: nat, s: Slot, id: Id, leg: nat, hash: string, clock: nat) {
    exists r :: Store.Readable(f, g, {}, Rows.Rec(r)) && Recovery.IsRowOf(Rows.Rec(r), s, id, leg)
                && r.status.Pending? && r.hash == hash && r.timestamp == clock
  }

  /** The call's row stays open, without a hash, and says why. */
  ghost predicate StaysOpen(f: Disks.Files, g: nat, s: Slot, id: Id, leg: nat, reason: string) {
    exists r :: Store.Readable(f, g, {}, Rows.Rec(r)) && Recovery.IsRowOf(Rows.Rec(r), s, id, leg)
                && r.status.Unknown? && r.hash == "" && r.unknownReason == Some(reason)
  }

  /** A row of the call carries the hash. */
  ghost predicate Found(f: Disks.Files, s: Slot, id: Id, leg: nat, hash: string) {
    exists r :: Store.Stored(f, Rows.Rec(r)) && Recovery.IsRowOf(Rows.Rec(r), s, id, leg) && !r.status.Unknown? && r.hash == hash
  }

  /** The call's row says of the call what the node said of it. */
  ghost predicate Tells(f: Disks.Files, g: nat, s: Slot, id: Id, leg: nat, sent: Sent, clock: nat) {
    match sent
    case Answered(hash) => Follows(f, g, s, id, leg, hash, clock)
    case NoHash(reason) => StaysOpen(f, g, s, id, leg, reason)
    case _ => true
  }

  lemma FollowedIsFound(f: Disks.Files, g: nat, s: Slot, id: Id, leg: nat, hash: string, clock: nat)
    requires Follows(f, g, s, id, leg, hash, clock)
    ensures Found(f, s, id, leg, hash)
  {
    var r :| Store.Readable(f, g, {}, Rows.Rec(r)) && Recovery.IsRowOf(Rows.Rec(r), s, id, leg)
             && r.status.Pending? && r.hash == hash && r.timestamp == clock;
    Histories.ReadableIsStored(f, g, Rows.Rec(r));
  }

  lemma StaysFound(f: Disks.Files, f': Disks.Files, s: Slot, id: Id, leg: nat, hash: string)
    requires Found(f, s, id, leg, hash) && hash != "" && Store.Preserves(f, f')
    ensures Found(f', s, id, leg, hash)
  {
    var r :| Store.Stored(f, Rows.Rec(r)) && Recovery.IsRowOf(Rows.Rec(r), s, id, leg) && !r.status.Unknown? && r.hash == hash;
    var row :| Store.Stored(f', row) && Rows.Carries(Rows.Rec(r), row);
    assert row == Rows.Rec(row.rec);
  }

  /** The first `n` calls were answered with hashes, which their legs carry. */
  predicate AllCarry(l: Ledger, id: Id, replies: seq<Reply>, n: nat) {
    n <= |replies| && forall k | 0 <= k < n :: IsHash(replies[k]) && LegCarries(l, id, k, replies[k].value)
  }

  /** And so do their rows. */
  ghost predicate AllFound(f: Disks.Files, id: Id, job: Job, replies: seq<Reply>, n: nat) {
    n <= |replies| && n <= |job.legs|
    && forall k | 0 <= k < n :: IsHash(replies[k]) && Found(f, job.SlotOf(k), id, k, replies[k].value)
  }

  lemma OneMoreCarries(l: Ledger, l': Ledger, id: Id, replies: seq<Reply>, n: nat)
    requires AllCarry(l, id, replies, n) && KeepsHashes(l, l', id, n)
    ensures AllCarry(l', id, replies, n)
    ensures n < |replies| && IsHash(replies[n]) && LegCarries(l', id, n, replies[n].value) ==> AllCarry(l', id, replies, n + 1)
  {}

  lemma SettlingKeepsHashes(l: Ledger, id: Id, ticket: nat, status: Status, replies: seq<Reply>)
    requires AllCarry(l, id, replies, |replies|)
    ensures AllCarry(Ledgers.Settle(l, id, status, Some(ticket)), id, replies, |replies|)
  {
    OneMoreCarries(l, Ledgers.Settle(l, id, status, Some(ticket)), id, replies, |replies|);
  }

  lemma OneMoreFound(f: Disks.Files, f': Disks.Files, id: Id, job: Job, replies: seq<Reply>, n: nat)
    requires AllFound(f, id, job, replies, n) && Store.Preserves(f, f')
    ensures AllFound(f', id, job, replies, n)
    ensures n < |replies| && n < |job.legs| && IsHash(replies[n]) && Found(f', job.SlotOf(n), id, n, replies[n].value) ==>
              AllFound(f', id, job, replies, n + 1)
  {
    forall k | 0 <= k < n ensures Found(f', job.SlotOf(k), id, k, replies[k].value) {
      StaysFound(f, f', job.SlotOf(k), id, k, replies[k].value);
    }
  }

  /** How a whole bundle ended: how many calls were answered, and what became of the one after. */
  ghost predicate Bundled(s: World, w: World, w': World, last: Sent, answered: nat, replies: seq<Reply>,
                          poll: nat, id: Id, job: Job, ticket: nat)
    requires |replies| == |job.legs|
  {
    && answered <= |job.legs| && AllCarry(w'.ledger, id, replies, answered)
    && (last.Answered? <==> answered == |job.legs|)
    && AllLeft(w.log, w'.log, id, job, if last.NoHash? then answered + 1 else answered)
    && (if last.Answered? then
          At(w', poll, id, job, ticket, Finishing(last.hash)) && last.hash == if answered > 0 then replies[answered - 1].value else ""
        else poll !in w'.polls && (Money.Reachable(s) ==> Ended(w'.ledger, id, last)))
    && (last.NoHash? ==> last == Said(replies[answered]))
    && (Money.Reachable(s) ==> !last.NotReleased?)
  }

  /**
    * How the send ended: with every call answered as a broadcast under the last hash, and else as failed;
    * the stored status says so, and the legs of the calls that were answered carry the replies.
    */
  ghost predicate Advanced(s: World, log: seq<Departure>, w': World, status: Status, answered: nat, replies: seq<Reply>,
                           route: string, id: Id, job: Job)
    requires |replies| == |job.legs|
  {
    && answered <= |job.legs| && AllCarry(w'.ledger, id, replies, answered)
    && (Money.Reachable(s) ==> id in w'.ledger.jobs && w'.ledger.jobs[id].status == status)
    && match status
       case Broadcast(hash, r) =>
         && answered == |job.legs| && r == route && AllLeft(log, w'.log, id, job, |job.legs|)
         && hash == if answered > 0 then replies[answered - 1].value else ""
       case Failed(_) => answered < |job.legs|
       case _ => false
  }

  /** The calls left up to the one that got no hash, and the send failed for the reason of that reply. */
  ghost predicate Unanswered(log: seq<Departure>, w': World, reason: string, answered: nat, replies: seq<Reply>, id: Id, job: Job)
    requires |replies| == |job.legs|
  {
    && answered < |job.legs| && AllLeft(log, w'.log, id, job, answered + 1)
    && !IsHash(replies[answered]) && reason == (if replies[answered].Err? then replies[answered].error else NO_HASH)
  }

  lemma AFailureIsAdvanced(s: World, w: World, w': World, last: Sent, answered: nat, replies: seq<Reply>, route: string,
                           poll: nat, id: Id, job: Job, ticket: nat)
    requires |replies| == |job.legs| && !last.Answered? && Bundled(s, w, w', last, answered, replies, poll, id, job, ticket)
    ensures Advanced(s, w.log, w', Status.Failed(last.Reason()), answered, replies, route, id, job)
    ensures last.NoHash? ==> Unanswered(w.log, w', last.Reason(), answered, replies, id, job)
  {}

  lemma AFinishIsAdvanced(s: World, w: World, m: World, w': World, last: Sent, answered: nat, replies: seq<Reply>, route: string,
                          poll: nat, id: Id, job: Job, ticket: nat)
    requires |replies| == |job.legs| && last.Answered? && Bundled(s, w, m, last, answered, replies, poll, id, job, ticket)
    requires w'.log == m.log && AllCarry(w'.ledger, id, replies, |replies|)
    requires Money.Reachable(s) ==> id in w'.ledger.jobs && w'.ledger.jobs[id].status == Status.Broadcast(last.hash, route)
    ensures Advanced(s, w.log, w', Status.Broadcast(last.hash, route), answered, replies, route, id, job)
  {}

  /** The first `i` calls are answered; the poll is at the next, or past the last. */
  ghost predicate Underway(w: World, m: World, last: Sent, i: nat, replies: seq<Reply>, poll: nat, id: Id, job: Job, ticket: nat)
    requires |replies| == |job.legs|
  {
    && i <= |job.legs| && AllCarry(m.ledger, id, replies, i) && AllLeft(w.log, m.log, id, job, i)
    && last == Sent.Answered(if i > 0 then replies[i - 1].value else "")
    && At(m, poll, id, job, ticket, if i < |job.legs| then Recording(i) else Finishing(last.hash))
  }

  lemma OneMoreCall(s: World, w: World, m: World, w': World, was: Sent, last: Sent, i: nat, replies: seq<Reply>,
                    poll: nat, id: Id, job: Job, ticket: nat)
    requires |replies| == |job.legs| && i < |job.legs| && Underway(w, m, was, i, replies, poll, id, job, ticket)
    requires Called(s, m, w', last, replies[i], poll, id, job, ticket, i)
    ensures if last.Answered? then Underway(w, w', last, i + 1, replies, poll, id, job, ticket)
            else Bundled(s, w, w', last, i, replies, poll, id, job, ticket)
  {
    OneMoreCarries(m.ledger, w'.ledger, id, replies, i);
    if last.Answered? || last.NoHash? { OneMoreLeft(w.log, m.log, w'.log, id, job, i); }
  }

  lemma OneMoreTold(f: Disks.Files, f': Disks.Files, g: nat, sent: Sent, clock: nat, id: Id, job: Job, replies: seq<Reply>, i: nat)
    requires i < |job.legs| == |replies| && AllFound(f, id, job, replies, i) && Store.Preserves(f, f')
    requires Tells(f', g, job.SlotOf(i), id, i, sent, clock) && (sent.Answered? ==> sent == Said(replies[i]))
    ensures AllFound(f', id, job, replies, i) && (sent.Answered? ==> AllFound(f', id, job, replies, i + 1))
  {
    if sent.Answered? { FollowedIsFound(f', g, job.SlotOf(i), id, i, sent.hash, clock); }
    OneMoreFound(f, f', id, job, replies, i);
  }

  lemma AnIntentWaits(f: Disks.Files, g: nat, id: Id, job: Job, i: nat, row: Rows.Record)
    requires i < |job.legs| && Recovery.DraftAt(row, job.SlotOf(i))
    requires Store.Readable(f, g, {}, Rows.Rec(Rows.Intent(id, i, row)))
    ensures Waits(f, g, job.SlotOf(i), id, i)
  {
    assert Recovery.IsRowOf(Rows.Rec(Rows.Intent(id, i, row)), job.SlotOf(i), id, i);
  }

  /** What waits under a readable account file and readable sidecars is found when the outcome is written. */
  lemma WaitsToBeRead(f: Disks.Files, g: nat, refused: set<Disks.Name>, s: Slot, id: Id, leg: nat)
    requires Waits(f, g, s, id, leg) && Store.SidecarsRead(refused) && Store.MainName(g) !in refused
    ensures Histories.AnyOwned(f, g, refused, id, leg)
  {
    var r :| Store.Readable(f, g, {}, Rows.Rec(r)) && Rows.Owns(id, leg, r) && Recovery.IsRowOf(Rows.Rec(r), s, id, leg);
    AllReads(f, g, refused, Rows.Rec(r));
  }

  lemma AllReads(f: Disks.Files, g: nat, refused: set<Disks.Name>, row: Rows.Row)
    requires Store.Readable(f, g, {}, row) && Store.SidecarsRead(refused) && Store.MainName(g) !in refused
    ensures Store.Readable(f, g, refused, row)
  {
    if !Store.StoredAt(f, Store.MainName(g), row) {
      var n :| Store.StoredAt(f, Store.SidecarName(g, n), row);
      assert Store.SidecarName(g, n) !in refused;
    }
  }

  lemma ResolvedFollows(f: Disks.Files, f': Disks.Files, g: nat, refused: set<Disks.Name>, s: Slot,
                        id: Id, leg: nat, hash: string, now: nat)
    requires Waits(f, g, s, id, leg) && Store.SidecarsRead(refused) && Store.MainName(g) !in refused
    requires Histories.Resolved(f, f', g, refused, id, leg, hash, now)
    ensures Follows(f', g, s, id, leg, hash, now)
  {
    var r :| Store.Readable(f, g, {}, Rows.Rec(r)) && Rows.Owns(id, leg, r) && Recovery.IsRowOf(Rows.Rec(r), s, id, leg);
    AllReads(f, g, refused, Rows.Rec(r));
    var k := r.(hash := hash, status := Rows.Pending, timestamp := now);
    assert Store.Readable(f', g, {}, Rows.Rec(k)) && Recovery.IsRowOf(Rows.Rec(k), s, id, leg);
  }

  lemma LeftStaysOpen(f: Disks.Files, f': Disks.Files, g: nat, refused: set<Disks.Name>, s: Slot, id: Id, leg: nat, reason: string)
    requires Waits(f, g, s, id, leg) && Store.SidecarsRead(refused) && Store.MainName(g) !in refused
    requires Histories.LeftUnknown(f, f', g, refused, id, leg, reason)
    ensures StaysOpen(f', g, s, id, leg, reason)
  {
    var r :| Store.Readable(f, g, {}, Rows.Rec(r)) && Rows.Owns(id, leg, r) && Recovery.IsRowOf(Rows.Rec(r), s, id, leg);
    AllReads(f, g, refused, Rows.Rec(r));
    var k := r.(unknownReason := Some(reason));
    assert Store.Readable(f', g, {}, Rows.Rec(k)) && Recovery.IsRowOf(Rows.Rec(k), s, id, leg);
  }

  class Dispatcher {
    const ledger: SendLedger
    const history: Histories.History
    ghost const start: World
    ghost var now: World

    ghost predicate Valid()
      reads this, ledger, ledger.nonces, history, history.disk
    {
      ledger.Valid() && history.Valid() && now.ledger == ledger.Abs() && Leads(start, now)
    }

    /** The disk takes every write, the account is open, and its file reads while none of `refused` does. */
    ghost predicate Serves(accepts: bool, refused: set<Disks.Name>)
      reads history, history.disk
    {
      accepts && history.open.Some? && Histories.MainReads(history.disk.files, history.open.value, refused)
    }

    /** It does so at every call. */
    ghost predicate ServesAll(accepts: bool, refused: nat -> set<Disks.Name>)
      reads history, history.disk
    {
      Serves(accepts, {}) && forall i :: Store.MainName(history.open.value) !in refused(i)
    }

    /** And it shows the row of this call, still without an outcome. */
    ghost predicate Served(accepts: bool, refused: set<Disks.Name>, job: Job, id: Id, i: nat)
      requires i < |job.legs|
      reads history, history.disk
    {
      Serves(accepts, refused) && Waits(history.disk.files, history.open.value, job.SlotOf(i), id, i)
    }

    /** The account file reads, and the call's row says of it what the node said. */
    ghost predicate Told(sent: Sent, clock: nat, job: Job, id: Id, i: nat)
      requires i < |job.legs|
      reads history, history.disk
    {
      && history.open.Some? && Histories.MainReads(history.disk.files, history.open.value, {})
      && Tells(history.disk.files, history.open.value, job.SlotOf(i), id, i, sent, clock)
    }

    constructor (ledger: SendLedger, history: Histories.History, ghost w: World)
      requires ledger.Valid() && history.Valid() && w.ledger == ledger.Abs()
      ensures Valid() && this.ledger == ledger && this.history == history && start == w && now == w
    {
      this.ledger, this.history, start, now := ledger, history, w, w;
      new;
      LeadsNowhere(w);
    }

    /** Settle under the ticket: the send fails. */
    method Fail(id: Id, job: Job, ticket: nat, i: nat, sent: Sent, ghost poll: nat)
      requires Valid() && At(now, poll, id, job, ticket, Failing) && !sent.Answered?
      modifies `now, ledger, ledger.nonces
      ensures Valid() && now.log == old(now.log) && Noted(start, old(now), now, sent, poll, id, job, ticket, i)
    {
      DoorsKeepHashes(now.ledger, id, ticket, i, "", Status.Failed(sent.Reason()));
      if Money.Reachable(start) { TheOwnerIsServed(start, now, poll, id, job, ticket, Failing, Status.Failed(sent.Reason())); }
      var _ := ledger.Settle(id, Status.Failed(sent.Reason()), Some(ticket));
      ThenFails(start, now, poll, id, job, ticket, sent.Reason());
      now := Ends(now, poll).(ledger := ledger.Abs());
    }

    /**
      * What the node said, or did not. Given a hash, its row is pending under it and the call carries it;
      * without one the row stays open and says why, and the send fails.
      */
    method TakeAnswer(id: Id, job: Job, ticket: nat, i: nat, reply: Reply, clock: nat, accepts: bool, refused: set<Disks.Name>,
                      ghost poll: nat, ghost from: nat) returns (sent: Sent)
      requires Valid() && At(now, poll, id, job, ticket, OnWire(i)) && MayLand(now.ledger, id, ticket, i) && i < |job.legs|
      requires Store.SidecarsRead(refused) && RecordedSince(now.log, from, history.disk.files)
      modifies `now, ledger, ledger.nonces, history`next, history.disk
      ensures reply.Err? ==> sent == NoHash(reply.error)
      ensures reply.Ok? ==> sent == if reply.value == "" then NoHash("the node accepted the transaction but returned no hash")
                                    else Sent.Answered(reply.value)
      ensures Valid() && sent == Said(reply) && now.log == old(now.log) && Noted(start, old(now), now, sent, poll, id, job, ticket, i)
      ensures RecordedSince(now.log, from, history.disk.files) && Store.Preserves(old(history.disk.files), history.disk.files)
      ensures old(Served(accepts, refused, job, id, i)) ==> Told(sent, clock, job, id, i)
    {
      sent := Said(reply);
      ThenAnswers(start, now, poll, id, job, ticket, i, if IsHash(reply) then Some(reply.value) else None);
      WriteAnswer(id, i, job, sent, clock, accepts, refused);
      StaysRecorded(now.log, from, old(history.disk.files), history.disk.files);
      if sent.NoHash? {
        now := Advance(now, poll, Failing);
        Fail(id, job, ticket, i, sent, poll);
        return;
      }
      now := Advance(now, poll, Phase.Answered(i, sent.hash));
      ThenLands(start, now, poll, id, job, ticket, i, sent.hash);
      DoorsKeepHashes(now.ledger, id, ticket, i, sent.hash, Rejected);
      var _ := ledger.Landed(id, ticket, i, sent.hash);
      now := Advance(now, poll, Beyond(job, i, sent.hash)).(ledger := ledger.Abs());
    }

    /** The call's row takes what the node said. */
    method WriteAnswer(id: Id, i: nat, ghost job: Job, sent: Sent, clock: nat, accepts: bool, refused: set<Disks.Name>)
      requires history.Valid() && Store.SidecarsRead(refused) && (sent.Answered? || sent.NoHash?) && i < |job.legs|
      modifies history`next, history.disk
      ensures history.Valid() && Store.Preserves(old(history.disk.files), history.disk.files)
      ensures old(Served(accepts, refused, job, id, i)) ==> Told(sent, clock, job, id, i)
    {
      ghost var f, s := history.disk.files, job.SlotOf(i);
      ghost var served := Served(accepts, refused, job, id, i);
      if served { WaitsToBeRead(f, history.open.value, refused, s, id, i); }
      if sent.Answered? {
        var landed, _ := history.ResolveBroadcast(id, i, sent.hash, clock, accepts, refused);
        if served { ResolvedFollows(f, history.disk.files, history.open.value, refused, s, id, i, sent.hash, clock); }
      } else {
        var landed, _ := history.LeaveUnknown(id, i, sent.reason, accepts, refused);
        if served { LeftStaysOpen(f, history.disk.files, history.open.value, refused, s, id, i, sent.reason); }
      }
    }

    /** Let the call go: from here on its number counts as used. */
    method Burn(id: Id, job: Job, ticket: nat, i: nat, ghost poll: nat, ghost from: nat) returns (mayLeave: bool)
      requires Valid() && At(now, poll, id, job, ticket, Burning(i)) && i < |job.legs|
      requires RecordedSince(now.log, from, history.disk.files) && Recovery.Recorded(history.disk.files, job.SlotOf(i), id, i)
      modifies `now, ledger, ledger.nonces
      ensures Valid() && At(now, poll, id, job, ticket, if mayLeave then OnWire(i) else Failing)
      ensures if mayLeave then OneMore(old(now.log), now.log, id, job, i) else now.log == old(now.log)
      ensures RecordedSince(now.log, from, history.disk.files)
      ensures Money.Reachable(start) ==> mayLeave
      ensures mayLeave ==> MayLand(now.ledger, id, ticket, i)
      ensures KeepsHashes(old(now.ledger), now.ledger, id, i)
    {
      DoorsKeepHashes(now.ledger, id, ticket, i, "", Rejected);
      if Money.Reachable(start) { TheOwnerIsServed(start, now, poll, id, job, ticket, Burning(i), Rejected); }
      mayLeave := ledger.Leaving(id, ticket, i);
      ThenLeaves(start, now, poll, id, job, ticket, i, ledger.Abs(), mayLeave);
      now := AfterLeaving(now, poll, id, job, i, ledger.Abs(), mayLeave);
    }

    /** Write the call's intent; without a row nothing is sent. */
    method Record(id: Id, job: Job, ticket: nat, i: nat, row: Rows.Record, accepts: bool, refused: set<Disks.Name>,
                  ghost poll: nat, ghost from: nat) returns (recorded: bool)
      requires Valid() && At(now, poll, id, job, ticket, Recording(i))
      requires i < |job.legs| && Recovery.DraftAt(row, job.SlotOf(i))
      requires Store.SidecarsRead(refused) && RecordedSince(now.log, from, history.disk.files)
      modifies `now, history`next, history.disk
      ensures Valid() && At(now, poll, id, job, ticket, if recorded then Burning(i) else Failing)
      ensures accepts && history.open.Some? ==> recorded
      ensures old(Serves(accepts, {})) ==> Serves(accepts, {}) && Waits(history.disk.files, history.open.value, job.SlotOf(i), id, i)
      ensures recorded ==> Recovery.Recorded(history.disk.files, job.SlotOf(i), id, i)
      ensures now.log == old(now.log) && now.ledger == old(now.ledger) && RecordedSince(now.log, from, history.disk.files)
      ensures Store.Preserves(old(history.disk.files), history.disk.files)
    {
      ghost var f := history.disk.files;
      recorded := history.RecordIntent(id, i, row, accepts, refused);
      StaysRecorded(now.log, from, f, history.disk.files);
      ThenRecords(start, now, poll, id, job, ticket, i, recorded);
      now := Advance(now, poll, if recorded then Burning(i) else Failing);
      if recorded {
        AnIntentWaits(history.disk.files, history.open.value, id, job, i, row);
        IntentIsRecorded(history.disk.files, id, job, i, row);
      }
    }

    /**
      * One call: its row is on disk before its number is burnt, and its number is burnt before its
      * bytes go. The first call that is not recorded, not released or not answered ends the send.
      */
    method SendLeg(id: Id, job: Job, ticket: nat, i: nat, row: Rows.Record, reply: Reply, clock: nat, accepts: bool,
                   refused: set<Disks.Name>, later: set<Disks.Name>, ghost poll: nat, ghost from: nat) returns (sent: Sent)
      requires Valid() && At(now, poll, id, job, ticket, Recording(i))
      requires i < |job.legs| && Recovery.DraftAt(row, job.SlotOf(i))
      requires Store.SidecarsRead(refused) && Store.SidecarsRead(later) && RecordedSince(now.log, from, history.disk.files)
      modifies `now, ledger, ledger.nonces, history`next, history.disk
      ensures Valid() && Called(start, old(now), now, sent, reply, poll, id, job, ticket, i)
      ensures RecordedSince(now.log, from, history.disk.files) && Store.Preserves(old(history.disk.files), history.disk.files)
      ensures accepts && history.open.Some? ==> !sent.NotRecorded?
      ensures old(Serves(accepts, {})) && Store.MainName(history.open.value) !in later ==> Told(sent, clock, job, id, i)
    {
      var recorded := Record(id, job, ticket, i, row, accepts, refused, poll, from);
      if !recorded {
        sent := NotRecorded;
        Fail(id, job, ticket, i, sent, poll);
        return;
      }
      ghost var f := history.disk.files;
      sent := SendRecorded(id, job, ticket, i, reply, clock, accepts, later, poll, from);
      if history.disk.files != f { Store.PreservesTransitive(old(history.disk.files), f, history.disk.files); }
    }

    /** The ledger would not release the call: the send fails. */
    method Refuse(id: Id, job: Job, ticket: nat, i: nat, ghost reply: Reply, ghost poll: nat, ghost w: World)
      requires Valid() && At(now, poll, id, job, ticket, Failing) && i < |job.legs|
      requires now.log == w.log && KeepsHashes(w.ledger, now.ledger, id, i) && !Money.Reachable(start)
      modifies `now, ledger, ledger.nonces
      ensures Valid() && now.log == old(now.log) && Called(start, w, now, NotReleased, reply, poll, id, job, ticket, i)
    {
      ghost var m := now;
      Fail(id, job, ticket, i, NotReleased, poll);
      RefusedThenNoted(start, w, m, now, reply, poll, id, job, ticket, i);
    }

    /** A recorded call: its number is burnt, its bytes go, and the node answers or does not. */
    method SendRecorded(id: Id, job: Job, ticket: nat, i: nat, reply: Reply, clock: nat, accepts: bool, later: set<Disks.Name>,
                        ghost poll: nat, ghost from: nat) returns (sent: Sent)
      requires Valid() && At(now, poll, id, job, ticket, Burning(i)) && i < |job.legs|
      requires Recovery.Recorded(history.disk.files, job.SlotOf(i), id, i)
      requires Store.SidecarsRead(later) && RecordedSince(now.log, from, history.disk.files)
      modifies `now, ledger, ledger.nonces, history`next, history.disk
      ensures Valid() && !sent.NotRecorded? && Called(start, old(now), now, sent, reply, poll, id, job, ticket, i)
      ensures RecordedSince(now.log, from, history.disk.files)
      ensures history.disk.files == old(history.disk.files) || Store.Preserves(old(history.disk.files), history.disk.files)
      ensures old(Served(accepts, later, job, id, i)) ==> Told(sent, clock, job, id, i)
    {
      ghost var w, f, served := now, history.disk.files, Served(accepts, later, job, id, i);
      var mayLeave := Burn(id, job, ticket, i, poll, from);
      ghost var m := now;
      assert history.disk.files == f && (served ==> Served(accepts, later, job, id, i));
      if !mayLeave {
        sent := NotReleased;
        Refuse(id, job, ticket, i, reply, poll, w);
        return;
      }
      sent := TakeAnswer(id, job, ticket, i, reply, clock, accepts, later, poll, from);
      ReleasedThenNoted(start, w, m, now, sent, reply, poll, id, job, ticket, i);
    }

    /** Every call of the bundle, one after the other, until one of them ends the send. */
    method SendLegs(id: Id, job: Job, ticket: nat, rows: seq<Rows.Record>, replies: seq<Reply>, clock: nat, accepts: bool,
                    refused: nat -> set<Disks.Name>, ghost poll: nat, ghost from: nat) returns (last: Sent, ghost answered: nat)
      requires Valid() && At(now, poll, id, job, ticket, Begin(job)) && |replies| == |job.legs|
      requires |rows| == |job.legs| && forall i | 0 <= i < |rows| :: Recovery.DraftAt(rows[i], job.SlotOf(i))
      requires (forall i :: Store.SidecarsRead(refused(i))) && RecordedSince(now.log, from, history.disk.files)
      modifies `now, ledger, ledger.nonces, history`next, history.disk
      ensures Valid() && RecordedSince(now.log, from, history.disk.files)
      ensures Bundled(start, old(now), now, last, answered, replies, poll, id, job, ticket)
      ensures accepts && history.open.Some? ==> !last.NotRecorded?
      ensures old(ServesAll(accepts, refused)) ==>
                && AllFound(history.disk.files, id, job, replies, answered)
                && (last.NoHash? ==> Told(last, clock, job, id, answered))
    {
      ghost var w, serves := now, ServesAll(accepts, refused);
      var i := 0;
      last := Sent.Answered("");
      while i < |job.legs|
        invariant Valid() && Underway(w, now, last, i, replies, poll, id, job, ticket)
        invariant RecordedSince(now.log, from, history.disk.files)
        invariant serves ==> ServesAll(accepts, refused) && AllFound(history.disk.files, id, job, replies, i)
      {
        ghost var m, f, was := now, history.disk.files, last;
        last := SendLeg(id, job, ticket, i, rows[i], replies[i], clock, accepts, refused(2 * i), refused(2 * i + 1), poll, from);
        OneMoreCall(start, w, m, now, was, last, i, replies, poll, id, job, ticket);
        if serves { OneMoreTold(f, history.disk.files, history.open.value, last, clock, id, job, replies, i); }
        if !last.Answered? { return last, i; }
        i := i + 1;
      }
      answered := i;
    }

    /**
      * The whole broadcast, nobody else at work: from the claim to the settle. Calls go one by one, and
      * the first that the node gives no hash for ends the send; those before it carry their hashes.
      */
    method AdvanceSend(id: Id, job: Job, rows: seq<Rows.Record>, replies: seq<Reply>, route: string, clock: nat, accepts: bool,
                       refused: nat -> set<Disks.Name>, ghost poll: nat) returns (status: Option<Status>, ghost answered: nat)
      requires Valid() && poll in now.polls && now.polls[poll] == Reading(id, job) && id in now.jobBorn && |replies| == |job.legs|
      requires |rows| == |job.legs| && forall i | 0 <= i < |rows| :: Recovery.DraftAt(rows[i], job.SlotOf(i))
      requires forall i :: Store.SidecarsRead(refused(i))
      modifies `now, ledger, ledger.nonces, history`next, history.disk
      ensures Valid() && poll !in now.polls
      ensures status.None? <==> !ClaimBroadcast(old(now.ledger), id, clock).1.Claimed?
      ensures status.Some? ==> Advanced(start, old(now.log), now, status.value, answered, replies, route, id, job)
      ensures status.Some? && status.value.Failed? && Money.Reachable(start) && accepts && history.open.Some? ==>
                Unanswered(old(now.log), now, status.value.reason, answered, replies, id, job)
      ensures status.Some? && old(ServesAll(accepts, refused)) ==>
                && AllFound(history.disk.files, id, job, replies, answered)
                && (status.value.Failed? && Money.Reachable(start) ==>
                      StaysOpen(history.disk.files, history.open.value, job.SlotOf(answered), id, answered, status.value.reason))
      ensures RecordedSince(now.log, |old(now.log)|, history.disk.files)
    {
      ghost var from := |now.log|;
      answered := 0;
      var claim := ledger.ClaimBroadcast(id, clock);
      ThenClaims(start, now, poll, id, job, clock);
      now := Claiming(now, poll, job, id, ledger.Abs(), claim);
      if !claim.Claimed? { return None, 0; }
      ghost var w := now;
      var last;
      last, answered := SendLegs(id, job, claim.ticket, rows, replies, clock, accepts, refused, poll, from);
      ghost var m := now;
      if !last.Answered? {
        AFailureIsAdvanced(start, w, m, last, answered, replies, route, poll, id, job, claim.ticket);
        return Some(Status.Failed(last.Reason())), answered;
      }
      status := Some(Status.Broadcast(last.hash, route));
      Finish(id, job, claim.ticket, last.hash, route, replies, poll);
      AFinishIsAdvanced(start, w, m, now, last, answered, replies, route, poll, id, job, claim.ticket);
    }

    /** Settle under the ticket: every call went. */
    method Finish(id: Id, job: Job, ticket: nat, hash: string, route: string, ghost replies: seq<Reply>, ghost poll: nat)
      requires Valid() && At(now, poll, id, job, ticket, Finishing(hash)) && AllCarry(now.ledger, id, replies, |replies|)
      modifies `now, ledger, ledger.nonces
      ensures Valid() && now.log == old(now.log) && poll !in now.polls && AllCarry(now.ledger, id, replies, |replies|)
      ensures Money.Reachable(start) ==> id in now.ledger.jobs && now.ledger.jobs[id].status == Status.Broadcast(hash, route)
    {
      var status := Status.Broadcast(hash, route);
      SettlingKeepsHashes(now.ledger, id, ticket, status, replies);
      if Money.Reachable(start) { TheOwnerIsServed(start, now, poll, id, job, ticket, Finishing(hash), status); }
      ThenFinishes(start, now, poll, id, job, ticket, hash, route);
      var _ := ledger.Settle(id, status, Some(ticket));
      now := Ends(now, poll).(ledger := ledger.Abs());
    }
  }
}
