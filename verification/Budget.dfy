/** Time, in milliseconds, handed out call by call from a single allowance. */
module Budget {
  import opened Basics

  const CALLEE_MARGIN := 300
  const MIN_SLICE := 50
  const FEE_BUDGET := 20000
  const INIT_BUDGET := 5000

  function Min(a: nat, b: nat): nat { if a < b then a else b }

  function Max(a: nat, b: nat): nat { if a < b then b else a }

  function SaturatingSub(a: nat, b: nat): nat { if a < b then 0 else a - b }

  /** A call's grant: as much of its cap as remains, and none when that is a sliver. */
  function Slice(total: nat, elapsed: nat, perCall: nat): Option<nat> {
    if elapsed > total then None
    else
      var grant := Min(total - elapsed, perCall);
      if grant >= MIN_SLICE then Some(grant) else None
  }

  /** A grant that is refused, with the remainder as reason, unless `least` remains. */
  function Whole(total: nat, elapsed: nat, least: nat, cap: nat): Result<nat, nat> {
    var left := SaturatingSub(total, elapsed);
    if left < Max(least, MIN_SLICE) then Err(left) else Ok(Min(left, cap))
  }

  /** A chain read takes a round trip and a margin for the refusal to come back. */
  function RpcSlice(rt: nat): nat { rt + CALLEE_MARGIN }

  /** Work still ahead: reads over the network and local work. */
  datatype After = After(roundTrips: nat, local: nat) {
    function On(rt: nat): nat { RpcSlice(rt) * roundTrips + local }

    function Plus(o: After): After { After(roundTrips + o.roundTrips, local + o.local) }
  }

  /** Two reads: of the account's balance, and of its next number. */
  const AFTER_PRICING := After(2, 0)
  /** Registering the bundle for approval, which is local. */
  const AFTER_QUOTE := After(0, INIT_BUDGET)

  function FeeRounds(legs: nat): nat { 2 * legs + 1 }

  /** Pricing is begun with no less: the history and every call's estimate, whole. */
  function FeeFloor(rt: nat, legs: nat): nat { RpcSlice(rt) * (legs + 1) + CALLEE_MARGIN }

  /** Pricing gives way to the work ahead, down to its floor, and never takes more than it can use. */
  function FeeCap(left: nat, legs: nat, after: nat, rt: nat): nat {
    var most := Max(FEE_BUDGET, RpcSlice(rt) * FeeRounds(legs)) + CALLEE_MARGIN;
    Min(Max(SaturatingSub(left, after), FeeFloor(rt, legs)), most)
  }

  // ---- A whole allowance

  /** A call taken when `elapsed` has gone by, and how long it took to come back. */
  datatype Take = Take(elapsed: nat, perCall: nat, cost: nat)

  function Granted(total: nat, t: Take): nat {
    match Slice(total, t.elapsed, t.perCall)
    case Some(grant) => grant
    case None => 0
  }

  function Costs(takes: seq<Take>): nat {
    if takes == [] then 0 else takes[0].cost + Costs(takes[1..])
  }

  function Grants(total: nat, takes: seq<Take>): nat {
    if takes == [] then 0 else Granted(total, takes[0]) + Grants(total, takes[1..])
  }

  /** Each call keeps to its grant, and the next is taken once it is back, or later. */
  predicate InTurn(total: nat, takes: seq<Take>) {
    && (forall i | 0 <= i < |takes| :: takes[i].cost <= Granted(total, takes[i]))
    && (forall i | 0 < i < |takes| :: takes[i].elapsed >= takes[i - 1].elapsed + takes[i - 1].cost)
  }

  /** However many calls there are, the time spent in them is at most what was left at the first. */
  lemma {:induction false} CallsFitTheTotal(total: nat, takes: seq<Take>)
    requires InTurn(total, takes)
    ensures Costs(takes) <= total
    ensures takes != [] ==> Costs(takes) <= SaturatingSub(total, takes[0].elapsed)
  {
    if |takes| > 1 {
      var rest := takes[1..];
      assert forall i | 0 <= i < |rest| :: rest[i] == takes[i + 1];
      CallsFitTheTotal(total, rest);
      assert takes[1].elapsed >= takes[1 - 1].elapsed + takes[1 - 1].cost;
    } else if |takes| == 1 {
      assert Costs(takes[1..]) == 0;
    }
  }

  /** Grants that are spent in full sum to at most the total. */
  lemma {:induction false} GrantsSpentInFullFit(total: nat, takes: seq<Take>)
    requires InTurn(total, takes) && forall i | 0 <= i < |takes| :: takes[i].cost == Granted(total, takes[i])
    ensures Grants(total, takes) <= total
  {
    CallsFitTheTotal(total, takes);
    GrantsAreCosts(total, takes);
  }

  lemma {:induction false} GrantsAreCosts(total: nat, takes: seq<Take>)
    requires forall i | 0 <= i < |takes| :: takes[i].cost == Granted(total, takes[i])
    ensures Grants(total, takes) == Costs(takes)
  {
    if takes != [] { GrantsAreCosts(total, takes[1..]); }
  }

  /** The calls have these caps, in this order. */
  predicate Capped(takes: seq<Take>, caps: seq<nat>) {
    |takes| == |caps| && forall i | 0 <= i < |caps| :: takes[i].perCall == caps[i]
  }

  /** Every call comes back at once. */
  function AtOnce(caps: seq<nat>): seq<Take> {
    seq(|caps|, i requires 0 <= i < |caps| => Take(0, caps[i], 0))
  }

  /** What the calls would be granted if each were the first. */
  function Upfront(total: nat, caps: seq<nat>): nat {
    if caps == [] then 0 else Granted(total, Take(0, caps[0], 0)) + Upfront(total, caps[1..])
  }

  lemma {:induction false} GrantsAtOnce(total: nat, caps: seq<nat>)
    ensures Grants(total, AtOnce(caps)) == Upfront(total, caps)
  {
    if caps != [] {
      assert AtOnce(caps)[1..] == AtOnce(caps[1..]);
      GrantsAtOnce(total, caps[1..]);
    }
  }

  /** A later call is granted no more. */
  lemma {:induction false} GrantsAreWithinUpfront(total: nat, takes: seq<Take>, caps: seq<nat>)
    requires Capped(takes, caps)
    ensures Grants(total, takes) <= Upfront(total, caps)
  {
    if caps != [] { GrantsAreWithinUpfront(total, takes[1..], caps[1..]); }
  }

  /**
    * The grants of calls with given caps sum to at most the total however long each call takes, if
    * and only if they would when each came back at once.
    */
  lemma GrantsFitIffTheyFitAtOnce(total: nat, caps: seq<nat>)
    ensures (forall takes | InTurn(total, takes) && Capped(takes, caps) :: Grants(total, takes) <= total)
            <==> Upfront(total, caps) <= total
  {
    forall takes | InTurn(total, takes) && Capped(takes, caps) ensures Grants(total, takes) <= Upfront(total, caps) {
      GrantsAreWithinUpfront(total, takes, caps);
    }
    GrantsAtOnce(total, caps);
    assert InTurn(total, AtOnce(caps)) && Capped(AtOnce(caps), caps);
  }

  /** A call that comes back early leaves its grant to be granted again: two of them can be granted twice the total. */
  lemma EarlyReturnsAreGrantedAgain(total: nat)
    requires total >= MIN_SLICE
    ensures InTurn(total, AtOnce([total, total])) && Grants(total, AtOnce([total, total])) == 2 * total
  {
    GrantsAtOnce(total, [total, total]);
    assert [total, total][1..] == [total];
    assert Upfront(total, [total]) == total + Upfront(total, [total][1..]);
  }

  // ---- A send

  /** The fee pass spends its whole grant, and so do the balance, the nonce and the approval: each gets all it may use. */
  predicate LaterStepsAreWhole(total: nat, elapsed: nat, rt: nat, legs: nat) {
    var fee := FeeGrant(total, elapsed, rt, legs);
    fee.Ok? && RestIsWhole(total, elapsed + fee.value, rt)
  }

  /** With this much gone, the balance, the nonce and the approval each get all they may use. */
  predicate RestIsWhole(total: nat, spent: nat, rt: nat) {
    var slice := RpcSlice(rt);
    && Whole(total, spent, rt, slice) == Ok(slice)
    && Whole(total, spent + slice, rt, slice) == Ok(slice)
    && Slice(total, spent + slice + slice, INIT_BUDGET) == Some(INIT_BUDGET)
  }

  function AfterFees(rt: nat): nat { AFTER_PRICING.Plus(AFTER_QUOTE).On(rt) }

  function FeeGrant(total: nat, elapsed: nat, rt: nat, legs: nat): Result<nat, nat> {
    Whole(total, elapsed, RpcSlice(rt), FeeCap(SaturatingSub(total, elapsed), legs, AfterFees(rt), rt))
  }

  /**
    * For every round trip and every number of legs: with no reprice, spending
    * every grant in full leaves each later step its whole allowance if and only if the fee pass
    * started with its floor and all of the later steps left.
    */
  lemma LaterStepsAreWholeIffTheFloorFits(total: nat, elapsed: nat, rt: nat, legs: nat)
    ensures LaterStepsAreWhole(total, elapsed, rt, legs) <==> SaturatingSub(total, elapsed) >= FeeFloor(rt, legs) + AfterFees(rt)
  {
    var left, slice := SaturatingSub(total, elapsed), RpcSlice(rt);
    FloorIsWithinMost(rt, legs);
    assert AfterFees(rt) == slice + slice + INIT_BUDGET;
    var fee := FeeGrant(total, elapsed, rt, legs);
    assert FeeFloor(rt, legs) >= slice;
    if fee.Ok? {
      assert fee.value <= left - AfterFees(rt) <==> left >= FeeFloor(rt, legs) + AfterFees(rt);
    }
  }

  lemma FloorIsWithinMost(rt: nat, legs: nat)
    ensures RpcSlice(rt) <= RpcSlice(rt) * (legs + 1) <= RpcSlice(rt) * FeeRounds(legs)
  {
    var slice := RpcSlice(rt);
    assert slice * (legs + 1) == slice * legs + slice;
    assert slice * FeeRounds(legs) == slice * legs + slice * legs + slice;
  }

  // ---- What a grant is worth

  /** A call is granted nothing less than 50 ms, nothing it may not use and nothing that is gone; and no less than it may. */
  lemma ASliceIsTheMostThereIs(total: nat, elapsed: nat, perCall: nat)
    ensures var s := Slice(total, elapsed, perCall);
            && (s.None? <==> elapsed + 50 > total || perCall < 50)
            && (s.Some? ==> s.value <= perCall && elapsed + s.value <= total && (s.value == perCall || elapsed + s.value == total))
  {}

  /**
    * It is refused, and told what was left, exactly when less than it needs was left, or less than 50 ms;
    * else it gets the most there is.
    */
  lemma AWholeGrantIsTheMostThereIs(total: nat, elapsed: nat, least: nat, cap: nat)
    ensures var left, w := if elapsed < total then total - elapsed else 0, Whole(total, elapsed, least, cap);
            && (w.Err? <==> left < least || left < 50) && (w.Err? ==> w.error == left)
            && (w.Ok? ==> w.value <= cap && w.value <= left && (w.value == cap || w.value == left))
  {}

  /** The most a fee pass can use: its own default, or its round trips where those take longer, and a margin. */
  predicate Useful(g: nat, rt: nat, legs: nat) {
    g <= 20000 + 300 || g <= (rt + 300) * (2 * legs + 1) + 300
  }

  /** What the fee pass may be granted: there is that much, it can use it, and it leaves the later steps whole. */
  predicate Sparing(g: nat, total: nat, elapsed: nat, rt: nat, legs: nat) {
    elapsed + g <= total && Useful(g, rt, legs) && RestIsWhole(total, elapsed + g, rt)
  }

  /**
    * Where its floor fits beside the later steps, the fee pass gets the most that can be granted and
    * spares them; where it does not, it gets its floor or whatever is left, and is not begun on less than
    * one read.
    */
  lemma TheFeeGrantIsTheGreatest(total: nat, elapsed: nat, rt: nat, legs: nat)
    ensures var left, fee := if elapsed < total then total - elapsed else 0, FeeGrant(total, elapsed, rt, legs);
            var floor := (rt + 300) * (legs + 1) + 300;
            if left >= floor + 2 * (rt + 300) + 5000 then
              && fee.Ok? && Sparing(fee.value, total, elapsed, rt, legs)
              && forall g: nat | Sparing(g, total, elapsed, rt, legs) :: g <= fee.value
            else fee == if left < rt + 300 then Err(left) else Ok(if left < floor then left else floor)
  {
    var left := SaturatingSub(total, elapsed);
    FloorIsWithinMost(rt, legs);
    FeeGrantIs(left, total, elapsed, rt, legs);
    if left >= FeeFloor(rt, legs) + AfterFees(rt) {
      LaterStepsAreWholeIffTheFloorFits(total, elapsed, rt, legs);
      forall g: nat | Sparing(g, total, elapsed, rt, legs) ensures g <= FeeGrant(total, elapsed, rt, legs).value {
        WhatSparesLeavesTheRest(g, total, elapsed, rt, legs);
      }
    }
  }

  lemma FeeGrantIs(left: nat, total: nat, elapsed: nat, rt: nat, legs: nat)
    requires left == SaturatingSub(total, elapsed)
    ensures AfterFees(rt) == 2 * (rt + 300) + 5000 && FeeFloor(rt, legs) == (rt + 300) * (legs + 1) + 300
    ensures FeeGrant(total, elapsed, rt, legs) ==
              if left < rt + 300 then Err(left) else Ok(Min(left, FeeCap(left, legs, AfterFees(rt), rt)))
  {}

  lemma WhatSparesLeavesTheRest(g: nat, total: nat, elapsed: nat, rt: nat, legs: nat)
    requires Sparing(g, total, elapsed, rt, legs)
    ensures g + AfterFees(rt) <= SaturatingSub(total, elapsed)
  {
    var slice := RpcSlice(rt);
    assert AfterFees(rt) == slice + slice + INIT_BUDGET;
  }
}
