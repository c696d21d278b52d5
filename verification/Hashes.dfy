/**
  * Where the hashes of a send come from, over every interleaving: each is what the node answered for
  * that very leg, once; it is kept; and a send settled as broadcast names its last leg's.
  */
module Hashes {
  import opened Basics
  import opened Ledgers
  import opened LedgerInvariant
  import opened Dispatch
  import opened DispatchProofs
  import opened Money

  predicate HasHash(l: Ledger, id: Id, leg: nat, hash: string) {
    id in l.jobs && leg < |l.jobs[id].legs| && l.jobs[id].legs[leg].hash == Some(hash)
  }

  /** The node answers a poll that let this leg of this send go. */
  predicate AnswersLeg(w: World, e: Event, id: Id, leg: nat) {
    && e.NodeAnswers? && e.poll in w.polls && w.polls[e.poll].Sending?
    && w.polls[e.poll].id == id && w.polls[e.poll].phase == OnWire(leg)
  }

  predicate HoldsAnswer(w: World, poll: nat, id: Id, leg: nat, hash: string) {
    poll in w.polls && w.polls[poll].Sending? && w.polls[poll].id == id && w.polls[poll].phase == Phase.Answered(leg, hash)
  }

  // ---- Whence

  lemma AHashIsKeptOrLanded(w: World, e: Event, w': World, id: Id, leg: nat, hash: string)
    requires Next(w, e, w') && HasHash(w'.ledger, id, leg, hash)
    ensures HasHash(w.ledger, id, leg, hash) || (e.Lands? && HoldsAnswer(w, e.poll, id, leg, hash))
  {}

  lemma AnAnswerIsKeptOrGiven(w: World, e: Event, w': World, poll: nat, id: Id, leg: nat, hash: string)
    requires Next(w, e, w') && HoldsAnswer(w', poll, id, leg, hash)
    ensures HoldsAnswer(w, poll, id, leg, hash) || (AnswersLeg(w, e, id, leg) && e.hash == Some(hash) && hash != "")
  {}

  lemma {:induction false} AnAnswerWasGiven(ws: seq<World>, es: seq<Event>, k: nat, poll: nat, id: Id, leg: nat, hash: string)
    returns (i: nat)
    requires IsHistory(ws, es) && k < |ws| && HoldsAnswer(ws[k], poll, id, leg, hash)
    ensures i < k && AnswersLeg(ws[i], es[i], id, leg) && es[i].hash == Some(hash) && hash != ""
  {
    assert Next(ws[k - 1], es[k - 1], ws[k - 1 + 1]);
    AnAnswerIsKeptOrGiven(ws[k - 1], es[k - 1], ws[k], poll, id, leg, hash);
    if HoldsAnswer(ws[k - 1], poll, id, leg, hash) {
      i := AnAnswerWasGiven(ws, es, k - 1, poll, id, leg, hash);
    } else {
      i := k - 1;
    }
  }

  /** The hash a leg carries is one the node answered, after that leg had left and before now. */
  lemma {:induction false} AHashIsTheNodesAnswer(ws: seq<World>, es: seq<Event>, k: nat, id: Id, leg: nat, hash: string)
    returns (i: nat)
    requires IsHistory(ws, es) && k < |ws| && HasHash(ws[k].ledger, id, leg, hash)
    ensures i < k && AnswersLeg(ws[i], es[i], id, leg) && es[i].hash == Some(hash) && hash != ""
  {
    assert Next(ws[k - 1], es[k - 1], ws[k - 1 + 1]);
    AHashIsKeptOrLanded(ws[k - 1], es[k - 1], ws[k], id, leg, hash);
    if HasHash(ws[k - 1].ledger, id, leg, hash) {
      i := AHashIsTheNodesAnswer(ws, es, k - 1, id, leg, hash);
    } else {
      i := AnAnswerWasGiven(ws, es, k - 1, es[k - 1].poll, id, leg, hash);
    }
  }

  // ---- Once

  predicate Beyond(phase: Phase, leg: nat) {
    match phase
    case Recording(l) => l > leg
    case Burning(l) => l > leg
    case OnWire(l) => l > leg
    case Answered(l, _) => l >= leg
    case _ => true
  }

  /** The send's broadcast is claimed, and nobody who owns it will hand this leg over any more. */
  predicate Past(w: World, id: Id, leg: nat) {
    && id in w.ledger.jobs && w.ledger.jobs[id].broadcast.Some?
    && forall p | p in w.polls && w.polls[p].Sending? && w.polls[p].id == id :: Beyond(w.polls[p].phase, leg)
  }

  /** Every send keeps its ticket, and every leg its hash. */
  predicate KeepsThem(l: Ledger, l': Ledger) {
    forall id | id in l.jobs ::
      && id in l'.jobs && |l'.jobs[id].legs| == |l.jobs[id].legs|
      && (l.jobs[id].broadcast.Some? ==> l'.jobs[id].broadcast == l.jobs[id].broadcast)
      && (forall i | 0 <= i < |l.jobs[id].legs| :: l'.jobs[id].legs[i].hash == l.jobs[id].legs[i].hash)
  }

  lemma ASettleKeepsThem(l: Ledger, id: Id, status: Status, ticket: Option<nat>)
    ensures KeepsThem(l, Settle(l, id, status, ticket))
  {}

  lemma LeavingKeepsThem(l: Ledger, id: Id, ticket: nat, leg: nat)
    ensures KeepsThem(l, Ledgers.Leaving(l, id, ticket, leg).0)
  {}

  lemma AClaimKeepsThem(l: Ledger, id: Id, now: nat)
    ensures KeepsThem(l, ClaimBroadcast(l, id, now).0)
  {}

  lemma SettlesKeepThem(w: World, e: Event, w': World)
    requires Next(w, e, w') && (e.Cancel? || e.PollSettles? || e.Fails? || e.Finishes?)
    ensures KeepsThem(w.ledger, w'.ledger)
  {
    match e
    case Cancel(id) => ASettleKeepsThem(w.ledger, id, Cancelled, None);
    case PollSettles(poll, status) => ASettleKeepsThem(w.ledger, w.polls[poll].id, status, None);
    case Fails(poll, reason) => ASettleKeepsThem(w.ledger, w.polls[poll].id, Status.Failed(reason), Some(w.polls[poll].ticket));
    case Finishes(poll, route) =>
      ASettleKeepsThem(w.ledger, w.polls[poll].id, Status.Broadcast(w.polls[poll].phase.hash, route), Some(w.polls[poll].ticket));
  }

  lemma OnlyALandingTouches(w: World, e: Event, w': World)
    requires Next(w, e, w') && !e.Lands?
    ensures KeepsThem(w.ledger, w'.ledger)
  {
    if e.Cancel? || e.PollSettles? || e.Fails? || e.Finishes? {
      SettlesKeepThem(w, e, w');
    } else if e.Leaves? {
      LeavingKeepsThem(w.ledger, w.polls[e.poll].id, w.polls[e.poll].ticket, w.polls[e.poll].phase.leg);
    } else if e.PollClaims? {
      AClaimKeepsThem(w.ledger, w.polls[e.poll].id, e.now);
    }
  }

  lemma AClaimStays(w: World, e: Event, w': World, id: Id)
    requires Next(w, e, w') && id in w.ledger.jobs && w.ledger.jobs[id].broadcast.Some?
    ensures id in w'.ledger.jobs && w'.ledger.jobs[id].broadcast == w.ledger.jobs[id].broadcast
  {
    if !e.Lands? { OnlyALandingTouches(w, e, w'); }
  }

  lemma OnlyAClaimBegins(w: World, e: Event, w': World, p: nat)
    requires Next(w, e, w') && p in w'.polls && w'.polls[p].Sending?
    ensures p in w.polls && w.polls[p].id == w'.polls[p].id
    ensures w.polls[p].Reading? ==> w.polls[p].id in w.ledger.jobs && w.ledger.jobs[w.polls[p].id].broadcast.None?
  {}

  lemma PollsOnlyGoOn(w: World, e: Event, w': World, p: nat, leg: nat)
    requires Next(w, e, w') && p in w'.polls && w'.polls[p].Sending? && p in w.polls && w.polls[p].Sending?
    requires Beyond(w.polls[p].phase, leg)
    ensures Beyond(w'.polls[p].phase, leg)
  {}

  lemma PastStays(w: World, e: Event, w': World, id: Id, leg: nat)
    requires Next(w, e, w') && Past(w, id, leg)
    ensures Past(w', id, leg)
  {
    AClaimStays(w, e, w', id);
    forall p | p in w'.polls && w'.polls[p].Sending? && w'.polls[p].id == id ensures Beyond(w'.polls[p].phase, leg) {
      OnlyAClaimBegins(w, e, w', p);
      PollsOnlyGoOn(w, e, w', p, leg);
    }
  }

  lemma PastStaysAlong(ws: seq<World>, es: seq<Event>, i: nat, k: nat, id: Id, leg: nat)
    requires IsHistory(ws, es) && i <= k < |ws| && Past(ws[i], id, leg)
    ensures Past(ws[k], id, leg)
  {
    forall m: nat | m < |es| && Past(ws[m], id, leg) ensures Past(ws[m + 1], id, leg) {
      PastStays(ws[m], es[m], ws[m + 1], id, leg);
    }
    OncePastAlways(ws, i, k, id, leg);
  }

  lemma {:induction false} OncePastAlways(ws: seq<World>, i: nat, k: nat, id: Id, leg: nat)
    requires i <= k < |ws| && Past(ws[i], id, leg)
    requires forall m: nat | m < |ws| - 1 && Past(ws[m], id, leg) :: Past(ws[m + 1], id, leg)
    ensures Past(ws[k], id, leg)
    decreases k
  {
    if i < k {
      OncePastAlways(ws, i, k - 1, id, leg);
      assert Past(ws[k - 1 + 1], id, leg);
    }
  }

  lemma AnsweredIsPast(w: World, e: Event, w': World, id: Id, leg: nat)
    requires PollsOk(w) && Next(w, e, w') && AnswersLeg(w, e, id, leg)
    ensures Past(w', id, leg)
  {
    assert PollOk(w.ledger, w.polls[e.poll]);
  }

  /** The node is never asked, and so never answers, about one leg twice. */
  lemma OneAnswerPerLeg(ws: seq<World>, es: seq<Event>, i: nat, k: nat, id: Id, leg: nat)
    requires IsHistory(ws, es) && i < |es| && k < |es|
    requires AnswersLeg(ws[i], es[i], id, leg) && AnswersLeg(ws[k], es[k], id, leg)
    ensures i == k
  {
    var a, b := if i < k then i else k, if i < k then k else i;
    PollsAreOk(ws, es, a);
    if a < b {
      assert Next(ws[a], es[a], ws[a + 1]);
      AnsweredIsPast(ws[a], es[a], ws[a + 1], id, leg);
      PastStaysAlong(ws, es, a + 1, b, id, leg);
    }
  }

  // ---- For good

  lemma AHashStays(w: World, e: Event, w': World, id: Id, leg: nat, hash: string)
    requires PollsOk(w) && Next(w, e, w') && HasHash(w.ledger, id, leg, hash)
    ensures HasHash(w'.ledger, id, leg, hash)
  {
    if e.Lands? { ALandingTakesNoOthers(w, e.poll, w', id, leg, hash); } else { OnlyALandingTouches(w, e, w'); }
  }

  lemma ALandingTakesNoOthers(w: World, poll: nat, w': World, id: Id, leg: nat, hash: string)
    requires PollsOk(w) && Next(w, Lands(poll), w') && HasHash(w.ledger, id, leg, hash)
    ensures HasHash(w'.ledger, id, leg, hash)
  {
    assert PollOk(w.ledger, w.polls[poll]);
  }

  lemma ALandingTakesIt(w: World, poll: nat, w': World, id: Id, leg: nat, hash: string)
    requires PollsOk(w) && Next(w, Lands(poll), w') && HoldsAnswer(w, poll, id, leg, hash)
    ensures HasHash(w'.ledger, id, leg, hash)
  {
    assert PollOk(w.ledger, w.polls[poll]);
  }

  lemma AHashIsNextToo(ws: seq<World>, es: seq<Event>, k: nat, id: Id, leg: nat, hash: string)
    requires IsHistory(ws, es) && k < |es| && HasHash(ws[k].ledger, id, leg, hash)
    ensures HasHash(ws[k + 1].ledger, id, leg, hash)
  {
    PollsAreOk(ws, es, k);
    AHashStays(ws[k], es[k], ws[k + 1], id, leg, hash);
  }

  lemma AHashIsKept(ws: seq<World>, es: seq<Event>, i: nat, k: nat, id: Id, leg: nat, hash: string)
    requires IsHistory(ws, es) && i <= k < |ws| && HasHash(ws[i].ledger, id, leg, hash)
    ensures HasHash(ws[k].ledger, id, leg, hash)
  {
    forall m: nat | m < |es| && HasHash(ws[m].ledger, id, leg, hash) ensures HasHash(ws[m + 1].ledger, id, leg, hash) {
      AHashIsNextToo(ws, es, m, id, leg, hash);
    }
    HadIsHeld(ws, i, k, id, leg, hash);
  }

  lemma {:induction false} HadIsHeld(ws: seq<World>, i: nat, k: nat, id: Id, leg: nat, hash: string)
    requires i <= k < |ws| && HasHash(ws[i].ledger, id, leg, hash)
    requires forall m: nat | m < |ws| - 1 && HasHash(ws[m].ledger, id, leg, hash) :: HasHash(ws[m + 1].ledger, id, leg, hash)
    ensures HasHash(ws[k].ledger, id, leg, hash)
    decreases k
  {
    if i < k {
      HadIsHeld(ws, i, k - 1, id, leg, hash);
      assert HasHash(ws[k - 1 + 1].ledger, id, leg, hash);
    }
  }

  /** What the node answered is what the leg carries once it landed, and ever after. */
  lemma TheAnswerIsKept(ws: seq<World>, es: seq<Event>, i: nat, k: nat, id: Id, leg: nat, hash: string)
    requires IsHistory(ws, es) && i < k < |ws| && es[i].Lands? && HoldsAnswer(ws[i], es[i].poll, id, leg, hash)
    ensures HasHash(ws[k].ledger, id, leg, hash)
  {
    PollsAreOk(ws, es, i);
    ALandingTakesIt(ws[i], es[i].poll, ws[i + 1], id, leg, hash);
    AHashIsKept(ws, es, i + 1, k, id, leg, hash);
  }

  // ---- The hash of the whole send

  predicate LastHashIs(j: Job, hash: string) {
    |j.legs| > 0 && j.legs[|j.legs| - 1].hash == Some(hash)
  }

  predicate NamesTheLast(w: World) {
    && (forall id | id in w.ledger.jobs && w.ledger.jobs[id].status.Broadcast? ::
          LastHashIs(w.ledger.jobs[id], w.ledger.jobs[id].status.hash))
    && (forall p | p in w.polls && w.polls[p].Sending? && w.polls[p].phase.Finishing? && w.polls[p].id in w.ledger.jobs ::
          LastHashIs(w.ledger.jobs[w.polls[p].id], w.polls[p].phase.hash))
  }

  lemma ALandingNamesTheLast(w: World, poll: nat, w': World)
    requires PollsOk(w) && NamesTheLast(w) && Next(w, Lands(poll), w')
    ensures NamesTheLast(w')
  {
    assert PollOk(w.ledger, w.polls[poll]);
    forall p | p in w'.polls && p in w.polls ensures PollOk(w.ledger, w.polls[p]) {}
  }

  lemma AClaimNamesNone(w: World, poll: nat, now: nat, w': World)
    requires NamesTheLast(w) && Next(w, PollClaims(poll, now), w') && Begin(w.polls[poll].job).Recording?
    ensures NamesTheLast(w')
  {}

  lemma ABundleHasLegs(w: World, poll: nat)
    requires PollsOk(w) && Numbered(w.ledger) && poll in w.polls
    ensures Begin(w.polls[poll].job).Recording?
  {
    assert PollOk(w.ledger, w.polls[poll]);
  }

  lemma ADepartureNamesNone(w: World, poll: nat, w': World)
    requires PollsOk(w) && NamesTheLast(w) && Next(w, Leaves(poll), w')
    ensures NamesTheLast(w')
  {
    assert PollOk(w.ledger, w.polls[poll]);
  }

  lemma AFinishNamesTheLast(w: World, poll: nat, route: string, w': World)
    requires PollsOk(w) && NamesTheLast(w) && Next(w, Finishes(poll, route), w')
    ensures NamesTheLast(w')
  {
    assert PollOk(w.ledger, w.polls[poll]);
  }

  lemma ASettleNamesNone(w: World, w': World, id: Id, status: Status, ticket: Option<nat>)
    requires NamesTheLast(w) && !status.Broadcast?
    requires w' == w.(ledger := Settle(w.ledger, id, status, ticket), polls := w'.polls)
    requires forall p | p in w'.polls :: p in w.polls && w'.polls[p] == w.polls[p]
    ensures NamesTheLast(w')
  {}

  lemma OtherSettlesNameNone(w: World, e: Event, w': World)
    requires NamesTheLast(w) && Next(w, e, w') && (e.Fails? || e.PollSettles? || e.Cancel?)
    ensures NamesTheLast(w')
  {
    match e
    case Fails(poll, reason) => ASettleNamesNone(w, w', w.polls[poll].id, Status.Failed(reason), Some(w.polls[poll].ticket));
    case PollSettles(poll, status) => ASettleNamesNone(w, w', w.polls[poll].id, status, None);
    case Cancel(id) => ASettleNamesNone(w, w.(ledger := Settle(w.ledger, id, Cancelled, None)), id, Cancelled, None);
  }

  lemma TheRestNamesTheLast(w: World, e: Event, w': World)
    requires PollsOk(w) && NamesTheLast(w) && Next(w, e, w')
    requires !(e.Lands? || e.PollClaims? || e.Leaves? || e.Finishes? || e.Fails? || e.PollSettles? || e.Cancel?)
    ensures NamesTheLast(w')
  {
    forall p | p in w'.polls && p in w.polls ensures PollOk(w.ledger, w.polls[p]) {}
  }

  lemma {:induction false} TheLastIsNamedAlong(ws: seq<World>, es: seq<Event>, k: nat)
    requires IsHistory(ws, es) && k < |ws|
    ensures NamesTheLast(ws[k])
  {
    if k > 0 {
      TheLastIsNamedAlong(ws, es, k - 1);
      PollsAreOk(ws, es, k - 1);
      var e := es[k - 1];
      assert Next(ws[k - 1], e, ws[k - 1 + 1]);
      if e.Lands? {
        ALandingNamesTheLast(ws[k - 1], e.poll, ws[k]);
      } else if e.PollClaims? {
        ABundleHasLegs(ws[k - 1], e.poll);
        AClaimNamesNone(ws[k - 1], e.poll, e.now, ws[k]);
      } else if e.Leaves? {
        ADepartureNamesNone(ws[k - 1], e.poll, ws[k]);
      } else if e.Finishes? {
        AFinishNamesTheLast(ws[k - 1], e.poll, e.route, ws[k]);
      } else if e.Fails? || e.PollSettles? || e.Cancel? {
        OtherSettlesNameNone(ws[k - 1], e, ws[k]);
      } else {
        TheRestNamesTheLast(ws[k - 1], e, ws[k]);
      }
    }
  }

  /** A send settled as broadcast names the hash of its last leg, which the node answered for it. */
  lemma ABroadcastNamesItsLastHash(ws: seq<World>, es: seq<Event>, k: nat, id: Id) returns (i: nat)
    requires IsHistory(ws, es) && k < |ws| && id in ws[k].ledger.jobs && ws[k].ledger.jobs[id].status.Broadcast?
    ensures var j := ws[k].ledger.jobs[id];
            && LastHashIs(j, j.status.hash)
            && i < k && AnswersLeg(ws[i], es[i], id, |j.legs| - 1) && es[i].hash == Some(j.status.hash)
  {
    TheLastIsNamedAlong(ws, es, k);
    var j := ws[k].ledger.jobs[id];
    i := AHashIsTheNodesAnswer(ws, es, k, id, |j.legs| - 1, j.status.hash);
  }
}
