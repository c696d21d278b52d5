/**
  * The one fact remembered about another module's gate: chains whose verification is known to be
  * off, while a subscription promises to report any change.
  */
module Gates {
  import opened Basics

  const MODE_OFF := "off"

  datatype Gate = Open | Ask

  datatype Cache = Cache(generation: nat, live: bool, cold: bool, off: set<nat>)

  const DARK := Cache(0, false, false, {})

  // ---- What each edge does to the cache

  function WhenLive(c: Cache): Cache { Cache(c.generation + 1, !c.cold, c.cold, {}) }

  function WhenCold(c: Cache): Cache { Cache(c.generation + 1, false, true, {}) }

  function WhenDead(c: Cache): Cache { Cache(c.generation + 1, false, c.cold, {}) }

  function Apply(off: set<nat>, chain: nat, mode: Option<string>): set<nat> {
    if mode == Some(MODE_OFF) then off + {chain} else off - {chain}
  }

  function WhenLearned(c: Cache, chain: nat, mode: Option<string>, ticket: nat): Cache {
    if !c.live || c.generation != ticket then c else c.(off := Apply(c.off, chain, mode))
  }

  function WhenTold(c: Cache, chain: nat, mode: string): Cache {
    c.(generation := c.generation + 1, off := Apply(c.off, chain, Some(mode)))
  }

  function WhenInvalidated(c: Cache, chain: nat): Cache {
    c.(generation := c.generation + 1, off := c.off - {chain})
  }

  function GateOf(c: Cache, chain: nat): Gate {
    if c.live && chain in c.off then Open else Ask
  }

  class ModeCache {
    var generation: nat
    var live: bool
    var cold: bool
    var off: set<nat>

    function Abs(): Cache
      reads this
    {
      Cache(generation, live, cold, off)
    }

    constructor ()
      ensures Abs() == DARK
    {
      generation, live, cold, off := 0, false, false, {};
    }

    /** The subscription armed: nothing learned in the dark counts. */
    method FeedLive()
      modifies this
      ensures Abs() == WhenLive(old(Abs()))
      ensures live == !old(cold) && generation > old(generation) && forall c :: GateAt(c) == Ask
    {
      generation := generation + 1;
      live := !cold;
      off := {};
    }

    /** Arming cannot be observed on this runtime: the cache stays shut for good. */
    method NoStatusChannel()
      modifies this
      ensures Abs() == WhenCold(old(Abs()))
      ensures cold && !live && Ticket() > old(Ticket()) && forall c :: GateAt(c) == Ask
    {
      generation := generation + 1;
      cold, live, off := true, false, {};
    }

    method FeedDead()
      modifies this
      ensures Abs() == WhenDead(old(Abs()))
      ensures !live && Ticket() > old(Ticket()) && forall c :: GateAt(c) == Ask
    {
      generation := generation + 1;
      live, off := false, {};
    }

    /** Cut before a read goes out, and handed back with what it learned. */
    function Ticket(): nat
      reads this
    {
      generation
    }

    /** The answer to a read counts only under the ticket of the present generation. */
    method Learned(chain: nat, mode: Option<string>, ticket: nat)
      modifies this
      ensures Abs() == WhenLearned(old(Abs()), chain, mode, ticket)
      ensures ticket != old(Ticket()) || !live ==> Abs() == old(Abs())
      ensures ticket == old(Ticket()) && live ==> (GateAt(chain) == Open <==> mode == Some(MODE_OFF))
      ensures forall c | c != chain :: GateAt(c) == old(GateAt(c))
    {
      if !live || generation != ticket { return; }
      Remember(chain, mode);
    }

    /** The remote announced a mode; reads that were out are stale from here on. */
    method Told(chain: nat, mode: string)
      modifies this
      ensures Abs() == WhenTold(old(Abs()), chain, mode)
      ensures GateAt(chain) == Open <==> live && mode == MODE_OFF
      ensures forall c | c != chain :: GateAt(c) == old(GateAt(c))
      ensures Ticket() > old(Ticket())
    {
      generation := generation + 1;
      Remember(chain, Some(mode));
    }

    method Invalidate(chain: nat)
      modifies this
      ensures Abs() == WhenInvalidated(old(Abs()), chain)
      ensures GateAt(chain) == Ask && forall c | c != chain :: GateAt(c) == old(GateAt(c))
      ensures Ticket() > old(Ticket())
    {
      generation := generation + 1;
      off := off - {chain};
    }

    method Remember(chain: nat, mode: Option<string>)
      modifies this`off
      ensures off == Apply(old(off), chain, mode)
    {
      if mode == Some(MODE_OFF) { off := off + {chain}; } else { off := off - {chain}; }
    }

    function GateAt(chain: nat): (gate: Gate)
      reads this
      ensures gate == GateOf(Abs(), chain)
    {
      if live && chain in off then Open else Ask
    }
  }

  // ---- The cache, the remote it caches, and what is between them

  datatype Event = ModeChanged(chain: nat, mode: string)

  /** A read in flight: its ticket, and what it saw once it has reached the remote. */
  datatype Read =
    | Asked(chain: nat, ticket: nat)
    | Answered(chain: nat, ticket: nat, mode: Option<string>)

  datatype Wire = Wire(cache: Cache, truth: map<nat, string>, queue: seq<Event>, inFlight: map<nat, Read>)

  function Truth(w: Wire, chain: nat): string {
    if chain in w.truth then w.truth[chain] else "unknown"
  }

  datatype Step =
    | RemoteChanges(chain: nat, mode: string, heard: bool)
    | Arms
    | Subscribes           // a new subscription: what the old one still held is gone with it
    | Dies
    | LatchesCold
    | Delivers
    | ConfigChanges(chain: nat)
    | Asks(read: nat, chain: nat)
    | Answers(read: nat, readable: bool)
    | Lands(read: nat)

  ghost predicate Next(w: Wire, step: Step, w': Wire) {
    match step
    case RemoteChanges(chain, mode, heard) =>
      // While the feed is live every change is announced; in the dark it may or may not be.
      && (w.cache.live ==> heard)
      && w' == w.(truth := w.truth[chain := mode], queue := if heard then w.queue + [ModeChanged(chain, mode)] else w.queue)
    case Arms => w' == w.(cache := WhenLive(w.cache))
    case Subscribes => w' == w.(cache := WhenDead(w.cache), queue := [])
    case Dies => w' == w.(cache := WhenDead(w.cache))
    case LatchesCold => w' == w.(cache := WhenCold(w.cache))
    case Delivers =>
      w.queue != [] && w' == w.(cache := WhenTold(w.cache, w.queue[0].chain, w.queue[0].mode), queue := w.queue[1..])
    case ConfigChanges(chain) => w' == w.(cache := WhenInvalidated(w.cache, chain))
    case Asks(read, chain) =>
      read !in w.inFlight && w' == w.(inFlight := w.inFlight[read := Asked(chain, w.cache.generation)])
    case Answers(read, readable) =>
      read in w.inFlight && w.inFlight[read].Asked? &&
      var r := w.inFlight[read];
      w' == w.(inFlight := w.inFlight[read := Answered(r.chain, r.ticket, if readable then Some(Truth(w, r.chain)) else None)])
    case Lands(read) =>
      read in w.inFlight && w.inFlight[read].Answered? &&
      var r := w.inFlight[read];
      w' == w.(cache := WhenLearned(w.cache, r.chain, r.mode, r.ticket), inFlight := w.inFlight - {read})
  }

  /** The mode the last undelivered event for `chain` carries. */
  function Last(queue: seq<Event>, chain: nat): Option<string> {
    if queue == [] then None
    else if queue[|queue| - 1].chain == chain then Some(queue[|queue| - 1].mode)
    else Last(queue[..|queue| - 1], chain)
  }

  /** Where a chain's latest undelivered event says `off`, so does the remote. */
  ghost predicate Current(w: Wire) {
    forall chain :: Last(w.queue, chain) == Some(MODE_OFF) ==> Truth(w, chain) == MODE_OFF
  }

  /** An open gate is right, or an event that corrects it is on its way. */
  ghost predicate Safe(w: Wire) {
    forall chain :: GateOf(w.cache, chain) == Open && Truth(w, chain) != MODE_OFF ==> Last(w.queue, chain).Some?
  }

  predicate InFlightOk(w: Wire, r: Read) {
    && r.ticket <= w.cache.generation
    && (w.cache.live && r.Answered? && r.ticket == w.cache.generation && r.mode == Some(MODE_OFF) && Truth(w, r.chain) != MODE_OFF ==>
          Last(w.queue, r.chain).Some?)
  }

  ghost predicate Inv(w: Wire) {
    && (w.cache.cold ==> !w.cache.live)
    && (w.cache.live ==> Current(w))
    && Safe(w)
    && forall read | read in w.inFlight :: InFlightOk(w, w.inFlight[read])
  }

  // ---- Every step keeps it

  lemma {:induction false} LastOfRest(queue: seq<Event>, chain: nat)
    requires queue != []
    ensures Last(queue[1..], chain).Some? ==> Last(queue, chain) == Last(queue[1..], chain)
    ensures Last(queue[1..], chain).None? ==>
              Last(queue, chain) == if queue[0].chain == chain then Some(queue[0].mode) else None
  {
    if |queue| > 1 {
      var init := queue[..|queue| - 1];
      assert queue[1..][..|queue| - 2] == init[1..];
      LastOfRest(init, chain);
    } else {
      assert queue[..0] == [];
    }
  }

  lemma LastOfMore(queue: seq<Event>, e: Event, chain: nat)
    ensures Last(queue + [e], chain) == if e.chain == chain then Some(e.mode) else Last(queue, chain)
  {
    assert (queue + [e])[..|queue|] == queue;
  }

  lemma RemoteChangesKeeps(w: Wire, chain: nat, mode: string, heard: bool, w': Wire)
    requires Inv(w) && Next(w, RemoteChanges(chain, mode, heard), w')
    ensures Inv(w')
  {
    forall c ensures heard ==> Last(w'.queue, c) == if c == chain then Some(mode) else Last(w.queue, c) {
      LastOfMore(w.queue, ModeChanged(chain, mode), c);
    }
    forall read | read in w'.inFlight ensures InFlightOk(w', w'.inFlight[read]) {
      assert InFlightOk(w, w.inFlight[read]);
    }
  }

  lemma DeliversKeeps(w: Wire, w': Wire)
    requires Inv(w) && Next(w, Delivers, w')
    ensures Inv(w')
  {
    forall c { LastOfRest(w.queue, c); }
    forall read | read in w'.inFlight ensures InFlightOk(w', w'.inFlight[read]) {
      assert InFlightOk(w, w.inFlight[read]);
    }
  }

  /** Every step keeps the invariant; an arm does when what is still queued is current. */
  lemma EveryStepKeeps(w: Wire, step: Step, w': Wire)
    requires Inv(w) && Next(w, step, w')
    requires step.Arms? && !w.cache.cold ==> Current(w)
    ensures Inv(w')
  {
    if step.RemoteChanges? {
      RemoteChangesKeeps(w, step.chain, step.mode, step.heard, w');
    } else if step.Delivers? {
      DeliversKeeps(w, w');
    } else {
      assert forall c :: Last(w'.queue, c).Some? ==> w'.queue == w.queue;
      forall read | read in w'.inFlight ensures InFlightOk(w', w'.inFlight[read]) {
        assert read in w.inFlight ==> InFlightOk(w, w.inFlight[read]);
      }
      if step.Lands? { assert InFlightOk(w, w.inFlight[step.read]); }
    }
  }

  // ---- Runs

  ghost predicate IsRun(ws: seq<Wire>, steps: seq<Step>) {
    && |ws| == |steps| + 1
    && forall i | 0 <= i < |steps| :: Next(ws[i], steps[i], ws[i + 1])
  }

  predicate Fresh(w: Wire) { w.cache == DARK && w.inFlight == map[] }

  /** Every arm that opens a dark cache finds nothing stale still queued. */
  ghost predicate ArmsCurrent(ws: seq<Wire>, steps: seq<Step>)
    requires IsRun(ws, steps)
  {
    forall i | 0 <= i < |steps| && steps[i].Arms? && !ws[i].cache.cold && !ws[i].cache.live :: Current(ws[i])
  }

  lemma {:induction false} EveryRunKeeps(ws: seq<Wire>, steps: seq<Step>, k: nat)
    requires IsRun(ws, steps) && Inv(ws[0]) && ArmsCurrent(ws, steps) && k < |ws|
    ensures Inv(ws[k])
  {
    if k > 0 {
      EveryRunKeeps(ws, steps, k - 1);
      EveryStepKeeps(ws[k - 1], steps[k - 1], ws[k]);
    }
  }

  /** No chain's last undelivered event says `off`: what whoever arms the cache can see for itself. */
  ghost predicate NoOffQueued(queue: seq<Event>) {
    forall chain :: Last(queue, chain) != Some(MODE_OFF)
  }

  /** Every arm that opens a dark cache finds no `off` still queued; an empty queue will do. */
  ghost predicate ArmsClean(ws: seq<Wire>, steps: seq<Step>)
    requires IsRun(ws, steps)
  {
    forall i | 0 <= i < |steps| && steps[i].Arms? && !ws[i].cache.cold && !ws[i].cache.live :: NoOffQueued(ws[i].queue)
  }

  /** If the gate is open and the chain's mode is not off, the event that says so is on its way. */
  lemma AnOpenGateIsRightOrAboutToClose(ws: seq<Wire>, steps: seq<Step>, k: nat, chain: nat)
    requires IsRun(ws, steps) && Fresh(ws[0]) && ArmsClean(ws, steps) && k < |ws|
    requires GateOf(ws[k].cache, chain) == Open
    ensures Truth(ws[k], chain) == MODE_OFF || Last(ws[k].queue, chain).Some?
  {
    EveryRunKeeps(ws, steps, k);
  }

  /** An arm that drops what was queued, or waits for it to be delivered, is clean. */
  lemma DrainedArmsAreClean(ws: seq<Wire>, steps: seq<Step>)
    requires IsRun(ws, steps)
    requires forall i | 0 <= i < |steps| && steps[i].Arms? :: ws[i].queue == []
    ensures ArmsClean(ws, steps)
  {}

  /** Once cold, always cold: no run opens any gate again. */
  lemma {:induction false} ColdIsForGood(ws: seq<Wire>, steps: seq<Step>, i: nat, k: nat, chain: nat)
    requires IsRun(ws, steps) && i < k < |ws| && steps[i].LatchesCold?
    ensures ws[k].cache.cold && !ws[k].cache.live && GateOf(ws[k].cache, chain) == Ask
    decreases k
  {
    assert Next(ws[k - 1], steps[k - 1], ws[k]);
    if k > i + 1 { ColdIsForGood(ws, steps, i, k - 1, chain); }
  }

  // ---- Reads that were overtaken

  /** Something the cache was told, or that began or ended its feed. */
  predicate Moves(step: Step) {
    step.Arms? || step.Subscribes? || step.Dies? || step.LatchesCold? || step.Delivers? || step.ConfigChanges?
  }

  predicate InFlightSince(w: Wire, read: nat, ticket: nat) {
    read in w.inFlight && w.inFlight[read].ticket == ticket
  }

  lemma AReadKeepsItsTicket(w: Wire, step: Step, w': Wire, read: nat, ticket: nat)
    requires Next(w, step, w') && InFlightSince(w, read, ticket) && step != Lands(read)
    ensures InFlightSince(w', read, ticket)
    ensures w'.cache.generation >= w.cache.generation + if Moves(step) then 1 else 0
  {}

  lemma {:induction false} OvertakenIsStale(ws: seq<Wire>, steps: seq<Step>, i: nat, k: nat, read: nat, ticket: nat)
    requires IsRun(ws, steps) && i <= k < |ws| && InFlightSince(ws[i], read, ticket) && ticket <= ws[i].cache.generation
    requires forall m | i <= m < k :: steps[m] != Lands(read)
    ensures InFlightSince(ws[k], read, ticket) && ticket <= ws[k].cache.generation
    ensures (exists j :: i <= j < k && Moves(steps[j])) ==> ticket < ws[k].cache.generation
    decreases k
  {
    if i < k {
      OvertakenIsStale(ws, steps, i, k - 1, read, ticket);
      AReadKeepsItsTicket(ws[k - 1], steps[k - 1], ws[k - 1 + 1], read, ticket);
    }
  }

  /** An answer is dropped whole when anything moved after its read was sent. */
  lemma AnOvertakenReadIsDropped(ws: seq<Wire>, steps: seq<Step>, i: nat, k: nat, read: nat, chain: nat)
    requires IsRun(ws, steps) && i < k < |steps| && steps[i] == Asks(read, chain) && steps[k] == Lands(read)
    requires forall m | i < m < k :: steps[m] != Lands(read)
    ensures (exists j :: i < j < k && Moves(steps[j])) ==> ws[k + 1].cache == ws[k].cache
  {
    assert Next(ws[i], steps[i], ws[i + 1]) && Next(ws[k], steps[k], ws[k + 1]);
    OvertakenIsStale(ws, steps, i + 1, k, read, ws[i].cache.generation);
  }

  // ---- The condition on an arm is exact

  /** Delivering everything queued to a live cache remembers `off` for the chains whose last event says so. */
  lemma {:induction false} DeliveringAll(w: Wire, chain: nat) returns (ws: seq<Wire>, steps: seq<Step>)
    requires w.cache.live
    ensures IsRun(ws, steps) && ws[0] == w && forall i | 0 <= i < |steps| :: steps[i].Delivers?
    ensures var end := ws[|steps|];
            && end.cache.live && end.truth == w.truth && end.queue == []
            && (Last(w.queue, chain).Some? ==> (chain in end.cache.off <==> Last(w.queue, chain) == Some(MODE_OFF)))
            && (Last(w.queue, chain).None? ==> (chain in end.cache.off <==> chain in w.cache.off))
    decreases |w.queue|
  {
    if w.queue == [] {
      ws, steps := [w], [];
    } else {
      var next := w.(cache := WhenTold(w.cache, w.queue[0].chain, w.queue[0].mode), queue := w.queue[1..]);
      LastOfRest(w.queue, chain);
      var ws', steps' := DeliveringAll(next, chain);
      ws, steps := [w] + ws', [Delivers] + steps';
      forall i | 0 <= i < |steps| ensures Next(ws[i], steps[i], ws[i + 1]) && steps[i].Delivers? {
        if i > 0 { assert Next(ws'[i - 1], steps'[i - 1], ws'[i]); }
      }
    }
  }

  /** From `w` on, until the next arm, whatever happens stays safe. */
  ghost predicate SafeEverAfter(w: Wire) {
    forall ws: seq<Wire>, steps: seq<Step> | IsRun(ws, steps) && ws[0] == w && forall i | 0 <= i < |steps| :: !steps[i].Arms? ::
      Safe(ws[|steps|])
  }

  /**
    * An arm is safe if and only if no stale `off` is still undelivered then: a subscription that
    * is lost and armed again can hold one, a new subscription cannot.
    */
  lemma AnArmIsSafeIffTheQueueIsCurrent(w: Wire)
    requires Inv(w) && !w.cache.cold
    ensures SafeEverAfter(w.(cache := WhenLive(w.cache))) <==> Current(w)
  {
    var armed := w.(cache := WhenLive(w.cache));
    if Current(w) {
      EveryStepKeeps(w, Arms, armed);
      forall ws: seq<Wire>, steps: seq<Step> | IsRun(ws, steps) && ws[0] == armed && forall i | 0 <= i < |steps| :: !steps[i].Arms?
        ensures Safe(ws[|steps|])
      {
        EveryRunKeeps(ws, steps, |steps|);
      }
    } else {
      var chain :| Last(w.queue, chain) == Some(MODE_OFF) && Truth(w, chain) != MODE_OFF;
      var ws, steps := DeliveringAll(armed, chain);
      assert GateOf(ws[|steps|].cache, chain) == Open && Truth(ws[|steps|], chain) != MODE_OFF;
      assert !Safe(ws[|steps|]);
    }
  }

  /**
    * Whoever arms cannot see the remote's modes. Whatever they are, an arm is safe if and only if no
    * chain's last undelivered event says `off`.
    */
  lemma AnArmIsSafeWhateverTheTruthIffNoOffIsQueued(w: Wire)
    requires Inv(w) && !w.cache.cold && !w.cache.live
    ensures (forall truth :: SafeEverAfter(w.(cache := WhenLive(w.cache), truth := truth))) <==> NoOffQueued(w.queue)
  {
    forall truth ensures SafeEverAfter(w.(cache := WhenLive(w.cache), truth := truth)) <==> Current(w.(truth := truth)) {
      var v := w.(truth := truth);
      assert forall read | read in w.inFlight :: InFlightOk(w, w.inFlight[read]);
      AnArmIsSafeIffTheQueueIsCurrent(v);
      assert v.(cache := WhenLive(v.cache)) == w.(cache := WhenLive(w.cache), truth := truth);
    }
    if !NoOffQueued(w.queue) {
      var chain :| Last(w.queue, chain) == Some(MODE_OFF);
      var v := w.(truth := map[]);
      assert Truth(v, chain) == "unknown";
      assert !Current(v);
      assert !SafeEverAfter(w.(cache := WhenLive(w.cache), truth := map[]));
    }
  }

  /** A run that ends wrong: a lost subscription, armed again, still delivers an `off` from before. */
  lemma AStaleEventOpensTheGate()
    ensures exists ws: seq<Wire>, steps: seq<Step> :: IsRun(ws, steps) && Fresh(ws[0]) && ws[0].queue == [] && !Safe(ws[|steps|])
  {
    var w0 := Wire(DARK, map[], [], map[]);
    var w1 := w0.(cache := Cache(1, true, false, {}));
    var w2 := w1.(truth := map[1 := MODE_OFF], queue := [ModeChanged(1, MODE_OFF)]);
    var w3 := w2.(cache := Cache(2, false, false, {}));
    var w4 := w3.(truth := map[1 := "required"]);
    var w5 := w4.(cache := Cache(3, true, false, {}));
    var w6 := w5.(cache := Cache(4, true, false, {1}), queue := []);
    var ws := [w0, w1, w2, w3, w4, w5, w6];
    var steps := [Arms, RemoteChanges(1, MODE_OFF, true), Dies, RemoteChanges(1, "required", false), Arms, Delivers];
    assert w2.truth[1 := "required"] == w4.truth && w5.queue[1..] == [];
    assert Next(w1, steps[1], w2) && Next(w3, steps[3], w4) && Next(w5, steps[5], w6);
    assert IsRun(ws, steps);
    assert !Safe(w6) by { assert GateOf(w6.cache, 1) == Open && Last(w6.queue, 1) == None; }
  }
}
