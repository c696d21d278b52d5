/** What a send pinned to a number must pay to replace the transactions still open there. */
module Replace {
  import opened Basics
  import opened Rows

  /** The largest 256-bit number, where fees saturate. */
  const MAX: nat := 0xFFFFFFFFFFFFFFFF_FFFFFFFFFFFFFFFF_FFFFFFFFFFFFFFFF_FFFFFFFFFFFFFFFF

  datatype Floor = Floor(maxFee: nat, maxPriority: nat)

  datatype Fees = Fees(maxFee: nat, maxPriority: nat)

  datatype Refusal = SetFeesTooLow | TipOverSetFee

  function Max(a: nat, b: nat): nat { if a < b then b else a }

  function SaturatingAdd(a: nat, b: nat): nat { if a + b > MAX then MAX else a + b }

  function Wei(fee: Option<nat>): nat { if fee.Some? then fee.value else 0 }

  /** Nobody knows yet how this transaction of the number ended. */
  predicate OpenAt(r: Record, chain: nat, nonce: nat) {
    r.chain == chain && r.nonce == Some(nonce) && (r.status.Pending? || r.status.Unknown?)
  }

  /** Field by field, the most that the open transactions of one number bid. */
  function FloorOf(rows: seq<Record>, chain: nat, nonce: nat): Option<Floor> {
    if rows == [] then None
    else
      var r, rest := rows[|rows| - 1], FloorOf(rows[..|rows| - 1], chain, nonce);
      if r.chain != chain || r.nonce != Some(nonce) || !r.Unsettled() then rest
      else if rest.None? then Some(Floor(Wei(r.maxFee), Wei(r.maxPriority)))
      else Some(Floor(Max(rest.value.maxFee, Wei(r.maxFee)), Max(rest.value.maxPriority, Wei(r.maxPriority))))
  }

  /** One past eleven tenths of `x`, saturating. */
  function Bump(x: nat): nat { SaturatingAdd(SaturatingAdd(x, x / 10), 1) }

  /** Fields that were only suggested may go up; fields that were set may not, and fail instead. */
  function Raise(suggested: Fees, setFee: bool, setTip: bool, floor: Floor): Result<Fees, Refusal> {
    var needFee, needTip := Bump(floor.maxFee), Bump(floor.maxPriority);
    if (setFee && suggested.maxFee < needFee) || (setTip && suggested.maxPriority < needTip) then Err(SetFeesTooLow)
    else
      var tip := if setTip then suggested.maxPriority else Max(suggested.maxPriority, needTip);
      var fee := if setFee then suggested.maxFee else Max(Max(suggested.maxFee, needFee), tip);
      if tip > fee then Err(TipOverSetFee) else Ok(Fees(fee, tip))
  }

  // ---- What they mean

  /** The floor is the pointwise maximum over every transaction still open at the number. */
  ghost predicate IsFloor(f: Option<Floor>, rows: seq<Record>, chain: nat, nonce: nat) {
    && (f.None? <==> forall i | 0 <= i < |rows| :: !OpenAt(rows[i], chain, nonce))
    && (f.Some? ==>
          && (forall i | 0 <= i < |rows| && OpenAt(rows[i], chain, nonce) ::
                Wei(rows[i].maxFee) <= f.value.maxFee && Wei(rows[i].maxPriority) <= f.value.maxPriority)
          && (exists i :: 0 <= i < |rows| && OpenAt(rows[i], chain, nonce) && Wei(rows[i].maxFee) == f.value.maxFee)
          && (exists i :: 0 <= i < |rows| && OpenAt(rows[i], chain, nonce) && Wei(rows[i].maxPriority) == f.value.maxPriority))
  }

  lemma {:induction false} TheFloorIsTheMaximum(rows: seq<Record>, chain: nat, nonce: nat)
    ensures IsFloor(FloorOf(rows, chain, nonce), rows, chain, nonce)
  {
    if rows != [] {
      var init, r, n := rows[..|rows| - 1], rows[|rows| - 1], |rows| - 1;
      TheFloorIsTheMaximum(init, chain, nonce);
      var rest, f := FloorOf(init, chain, nonce), FloorOf(rows, chain, nonce);
      assert forall i | 0 <= i < n :: rows[i] == init[i];
      if rest.Some? {
        var a :| 0 <= a < n && OpenAt(init[a], chain, nonce) && Wei(init[a].maxFee) == rest.value.maxFee;
        var b :| 0 <= b < n && OpenAt(init[b], chain, nonce) && Wei(init[b].maxPriority) == rest.value.maxPriority;
        assert rows[a] == init[a] && rows[b] == init[b];
        var c := if OpenAt(r, chain, nonce) && Wei(r.maxFee) > rest.value.maxFee then n else a;
        var d := if OpenAt(r, chain, nonce) && Wei(r.maxPriority) > rest.value.maxPriority then n else b;
        assert OpenAt(rows[c], chain, nonce) && Wei(rows[c].maxFee) == f.value.maxFee;
        assert OpenAt(rows[d], chain, nonce) && Wei(rows[d].maxPriority) == f.value.maxPriority;
      } else if f.Some? {
        assert OpenAt(rows[n], chain, nonce);
      }
    }
  }

  /**
    * A bump is exactly the least fee more than a tenth above `x`; only the largest fee there is
    * may pass it without being that much more, once the bump saturates.
    */
  lemma ABumpIsTheLeastTenthMore(x: nat, y: nat)
    requires x <= MAX && y <= MAX
    ensures Bump(x) <= y <==> 10 * y > 11 * x || y == MAX
    ensures Bump(x) < MAX ==> (Bump(x) <= y <==> 10 * y > 11 * x)
  {}

  /** Fees a node would take: past the bumped floor, the tip within the fee, and what was set left as set. */
  predicate Admissible(fees: Fees, suggested: Fees, setFee: bool, setTip: bool, floor: Floor) {
    && fees.maxFee >= Bump(floor.maxFee) && fees.maxPriority >= Bump(floor.maxPriority)
    && fees.maxPriority <= fees.maxFee
    && (setFee ==> fees.maxFee == suggested.maxFee) && (setTip ==> fees.maxPriority == suggested.maxPriority)
  }

  /**
    * Raising fails exactly when nothing admissible exists, and otherwise answers the least
    * admissible fees at or above the suggestion, in both fields at once.
    */
  lemma RaiseIsOptimal(suggested: Fees, setFee: bool, setTip: bool, floor: Floor)
    requires suggested.maxPriority <= suggested.maxFee
    ensures var r := Raise(suggested, setFee, setTip, floor);
            && (r.Err? <==> forall fees :: !Admissible(fees, suggested, setFee, setTip, floor))
            && (r == Err(SetFeesTooLow) <==>
                  (setFee && suggested.maxFee < Bump(floor.maxFee)) || (setTip && suggested.maxPriority < Bump(floor.maxPriority)))
            && (r.Ok? ==>
                  && Admissible(r.value, suggested, setFee, setTip, floor)
                  && r.value.maxFee >= suggested.maxFee && r.value.maxPriority >= suggested.maxPriority
                  && forall fees | Admissible(fees, suggested, setFee, setTip, floor)
                                   && fees.maxFee >= suggested.maxFee && fees.maxPriority >= suggested.maxPriority ::
                       r.value.maxFee <= fees.maxFee && r.value.maxPriority <= fees.maxPriority)
  {
    var r := Raise(suggested, setFee, setTip, floor);
    if r.Ok? { assert Admissible(r.value, suggested, setFee, setTip, floor); }
  }

  /** A raised send outbids every transaction still open at its number, by more than a tenth, in both fields. */
  lemma ARaisedSendOutbidsThemAll(rows: seq<Record>, chain: nat, nonce: nat, suggested: Fees, setFee: bool, setTip: bool, i: nat)
    requires i < |rows| && OpenAt(rows[i], chain, nonce)
    requires FloorOf(rows, chain, nonce).Some?
    requires var f := FloorOf(rows, chain, nonce).value;
             && f.maxFee <= MAX && f.maxPriority <= MAX && Bump(f.maxFee) < MAX && Bump(f.maxPriority) < MAX
             && Raise(suggested, setFee, setTip, f).Ok?
             && Raise(suggested, setFee, setTip, f).value.maxFee <= MAX
    ensures var fees := Raise(suggested, setFee, setTip, FloorOf(rows, chain, nonce).value).value;
            && fees.maxFee > Wei(rows[i].maxFee) && 10 * fees.maxFee > 11 * Wei(rows[i].maxFee)
            && fees.maxPriority > Wei(rows[i].maxPriority) && 10 * fees.maxPriority > 11 * Wei(rows[i].maxPriority)
            && fees.maxPriority <= fees.maxFee
  {
    var f := FloorOf(rows, chain, nonce).value;
    var fees := Raise(suggested, setFee, setTip, f).value;
    TheFloorIsTheMaximum(rows, chain, nonce);
    ABumpIsTheLeastTenthMore(f.maxFee, fees.maxFee);
    ABumpIsTheLeastTenthMore(f.maxPriority, fees.maxPriority);
  }
}
