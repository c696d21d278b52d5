/** The rows of the local history, and the only ways a stored row is ever changed. */
module Rows {
  import opened Basics

  datatype RowStatus = Unknown | Pending | Confirmed | Failed | Replaced | Other(word: string)

  /**
    * One recorded transaction. A hash is compared without regard to letter case, so it is held
    * here in one case; the empty hash is an intent whose broadcast has not answered.
    */
  datatype Record = Record(hash: string, chain: nat, from: string, status: RowStatus,
                           timestamp: nat, lastPolledAt: nat, requestId: Option<Id>, leg: nat,
                           nonce: Option<nat>, unknownReason: Option<string>, replacedBy: Option<string>,
                           maxFee: Option<nat>, maxPriority: Option<nat>)
  {
    /** Nothing is known yet of how it ended. */
    predicate Unsettled() { status.Unknown? || status.Pending? }

    predicate Mined() { status.Confirmed? || status.Failed? }

    /** What a row written ahead of its broadcast, and changed only as below, satisfies. */
    predicate WellFormed() {
      && (status.Unknown? ==> hash == "")
      && (Unsettled() ==> replacedBy.None?)
    }
  }

  /** What a file lists: rows, and entries that do not parse, which are kept as they are. */
  datatype Row = Rec(rec: Record) | Opaque(bytes: string)

  /** A change to stored rows answers the row and whether it changed it. */
  type Change = Record -> (Record, bool)

  /** What a row written ahead of its broadcast says: no hash, and no outcome. */
  function Intent(id: Id, leg: nat, draft: Record): Record {
    draft.(requestId := Some(id), leg := leg, status := Unknown, hash := "")
  }

  // ---- The changes

  predicate Owns(id: Id, leg: nat, r: Record) {
    r.status.Unknown? && r.requestId == Some(id) && r.leg == leg
  }

  /** The node's hash goes into the row of that leg. */
  function ResolveBroadcast(id: Id, leg: nat, hash: string, now: nat): Change {
    (r: Record) =>
      if !Owns(id, leg, r) then (r, false)
      else (r.(hash := hash, status := Pending, timestamp := now), true)
  }

  /** It did not: the row stays unknown and says why. */
  function LeaveUnknown(id: Id, leg: nat, reason: string): Change {
    (r: Record) => if !Owns(id, leg, r) then (r, false) else (r.(unknownReason := Some(reason)), true)
  }

  /** What a receipt says: nothing yet, or that the transaction was mined. */
  datatype Receipt = NotMined | MinedAs(ok: bool)

  /** The receipt a node's answer is, by its status word; an answer without one is not mined yet. */
  function Classified(word: Option<string>): Receipt {
    match word
    case None => NotMined
    case Some(w) => MinedAs(w == "0x1")
  }

  /** The status a row has once the answer was applied to it. */
  function Verdict(word: Option<string>, before: RowStatus): RowStatus {
    if word.None? then before else if word == Some("0x1") then Confirmed else Failed
  }

  function ApplyReceipt(hash: string, receipt: Receipt, now: nat): Change {
    (r: Record) =>
      if hash == "" || r.hash != hash then (r, false)
      else
        match receipt
        case NotMined => (r.(lastPolledAt := now), true)
        case MinedAs(ok) => (r.(lastPolledAt := now, status := if ok then Confirmed else Failed), true)
  }

  function SettleReplaced(hash: string, now: nat): Change {
    (r: Record) =>
      if r.hash != hash || !r.status.Pending? then (r, false)
      else (r.(lastPolledAt := now, status := Replaced), true)
  }

  type Winners = map<(nat, nat), string>

  predicate HasWinner(won: Winners, r: Record) {
    r.nonce.Some? && (r.chain, r.nonce.value) in won
  }

  function Winner(won: Winners, r: Record): string
    requires HasWinner(won, r)
  {
    won[(r.chain, r.nonce.value)]
  }

  /** A pending row whose number another mined row holds is settled; one already replaced is named. */
  function Supersede(won: Winners): Change {
    (r: Record) =>
      if !HasWinner(won, r) then (r, false)
      else if Moves(won, r) || (r.status.Replaced? && r.replacedBy.None?)
      then (r.(status := Replaced, replacedBy := Some(Winner(won, r))), true)
      else (r, false)
  }

  predicate Moves(won: Winners, r: Record) {
    HasWinner(won, r) && r.status.Pending? && r.hash != Winner(won, r)
  }

  // ---- The life of a row

  /**
    * What may become of a row, however long it lives: it keeps its identity, a settled row stays
    * settled and a mined one mined, and a hash that was answered for never changes.
    */
  predicate Evolves(r: Record, k: Record) {
    && k.requestId == r.requestId && k.leg == r.leg
    && k.chain == r.chain && k.from == r.from && k.nonce == r.nonce
    && (!r.Unsettled() ==> !k.Unsettled())
    && (r.Mined() ==> k.Mined())
    && (r.status.Pending? ==> !k.status.Unknown?)
    && (!r.status.Unknown? && r.hash != "" ==> k.hash == r.hash)
    && (r.WellFormed() ==> k.WellFormed())
  }

  predicate Carries(r: Row, k: Row) {
    match r
    case Opaque(_) => k == r
    case Rec(rec) => k.Rec? && Evolves(rec, k.rec)
  }

  /** Two entries for one row of one send, or the same bytes. */
  predicate SameRow(r: Row, k: Row) {
    match r
    case Opaque(_) => k == r
    case Rec(rec) =>
      k.Rec? && k.rec.requestId == rec.requestId && k.rec.leg == rec.leg
      && k.rec.chain == rec.chain && k.rec.from == rec.from && k.rec.nonce == rec.nonce
  }

  lemma CarriesTransitive(a: Row, b: Row, c: Row)
    requires Carries(a, b) && Carries(b, c)
    ensures Carries(a, c)
  {}

  /** A change that leaves alone what it says it left alone, and otherwise only moves a row along its life. */
  ghost predicate Lawful(f: Change) {
    && (forall r :: Evolves(r, f(r).0))
    && (forall r :: !f(r).1 ==> f(r).0 == r)
  }

  lemma ResolvingIsLawful(id: Id, leg: nat, hash: string, now: nat)
    ensures Lawful(ResolveBroadcast(id, leg, hash, now))
  {}

  lemma LeavingUnknownIsLawful(id: Id, leg: nat, reason: string)
    ensures Lawful(LeaveUnknown(id, leg, reason))
  {}

  lemma ReceivingIsLawful(hash: string, receipt: Receipt, now: nat)
    ensures Lawful(ApplyReceipt(hash, receipt, now))
  {}

  lemma ReplacingIsLawful(hash: string, now: nat)
    ensures Lawful(SettleReplaced(hash, now))
  {}

  lemma SupersedingIsLawful(won: Winners)
    ensures Lawful(Supersede(won))
  {}

  /** Every change the module makes to a stored row is lawful. */
  lemma EveryChangeIsLawful(id: Id, leg: nat, hash: string, now: nat, reason: string, receipt: Receipt, won: Winners)
    ensures Lawful(ResolveBroadcast(id, leg, hash, now))
    ensures Lawful(LeaveUnknown(id, leg, reason))
    ensures Lawful(ApplyReceipt(hash, receipt, now))
    ensures Lawful(SettleReplaced(hash, now))
    ensures Lawful(Supersede(won))
  {
    ResolvingIsLawful(id, leg, hash, now);
    LeavingUnknownIsLawful(id, leg, reason);
    ReceivingIsLawful(hash, receipt, now);
    ReplacingIsLawful(hash, now);
    SupersedingIsLawful(won);
  }

  /** An unknown row becomes pending through its own proof and no other change. */
  lemma UnknownBecomesPendingOnlyThroughItsProof(r: Record, id: Id, leg: nat, hash: string, now: nat,
                                                 reason: string, receipt: Receipt, won: Winners)
    requires r.WellFormed() && r.status.Unknown?
    ensures ResolveBroadcast(id, leg, hash, now)(r).0.status.Pending? <==> r.requestId == Some(id) && r.leg == leg
    ensures LeaveUnknown(id, leg, reason)(r).0.status.Unknown?
    ensures ApplyReceipt(hash, receipt, now)(r).0 == r
    ensures SettleReplaced(hash, now)(r).0 == r
    ensures Supersede(won)(r).0 == r
  {}

  // ---- One pass over a list of rows

  /** Every row a change touches, in place; opaque entries pass through. */
  function Touch(rows: seq<Row>, f: Change): (touched: seq<Row>)
    ensures |touched| == |rows|
  {
    seq(|rows|, i requires 0 <= i < |rows| => if rows[i].Rec? then Rec(f(rows[i].rec).0) else rows[i])
  }

  /** What the change makes of one entry. */
  function Changed(row: Row, f: Change): Row { if row.Rec? then Rec(f(row.rec).0) else row }

  lemma TouchedIsChanged(rows: seq<Row>, f: Change, row: Row)
    ensures row in Touch(rows, f) <==> exists r :: r in rows && row == Changed(r, f)
  {
    if row in Touch(rows, f) {
      var i :| 0 <= i < |rows| && Touch(rows, f)[i] == row;
      assert rows[i] in rows && row == Changed(rows[i], f);
    }
    if r :| r in rows && row == Changed(r, f) {
      var i :| 0 <= i < |rows| && rows[i] == r;
      assert Touch(rows, f)[i] == row;
    }
  }

  predicate Touches(rows: seq<Row>, f: Change) {
    exists i | 0 <= i < |rows| :: rows[i].Rec? && f(rows[i].rec).1
  }

  lemma TouchCarries(rows: seq<Row>, f: Change, i: nat)
    requires Lawful(f) && i < |rows|
    ensures Carries(rows[i], Touch(rows, f)[i])
  {}

  // ---- Settling what a mined row superseded

  /** The mined rows by number; where two share one, the one listed last is the winner. */
  function WinnersOf(rows: seq<Row>): Winners {
    if rows == [] then map[]
    else
      var won := WinnersOf(rows[..|rows| - 1]);
      var last := rows[|rows| - 1];
      if last.Rec? && last.rec.Mined() && last.rec.nonce.Some?
      then won[(last.rec.chain, last.rec.nonce.value) := last.rec.hash]
      else won
  }

  predicate IsMinedAt(row: Row, number: (nat, nat)) {
    && row.Rec? && (row.rec.status.Confirmed? || row.rec.status.Failed?)
    && row.rec.nonce.Some? && (row.rec.chain, row.rec.nonce.value) == number
  }

  /** `won` names, for exactly the numbers a mined row holds, the hash of a mined row there. */
  ghost predicate AreWinners(won: Winners, rows: seq<Row>) {
    && (forall i, number | 0 <= i < |rows| && IsMinedAt(rows[i], number) :: number in won)
    && (forall number | number in won ::
          exists i :: 0 <= i < |rows| && IsMinedAt(rows[i], number) && rows[i].rec.hash == won[number])
  }

  lemma {:induction false} WinnersAreMined(rows: seq<Row>)
    ensures AreWinners(WinnersOf(rows), rows)
  {
    if rows != [] {
      var init, last := rows[..|rows| - 1], rows[|rows| - 1];
      WinnersAreMined(init);
      forall i, number | 0 <= i < |rows| && IsMinedAt(rows[i], number) ensures number in WinnersOf(rows) {
        if i < |init| { assert IsMinedAt(init[i], number); }
      }
      forall number | number in WinnersOf(rows)
        ensures exists i :: 0 <= i < |rows| && IsMinedAt(rows[i], number) && rows[i].rec.hash == WinnersOf(rows)[number]
      {
        if IsMinedAt(last, number) {
          assert IsMinedAt(rows[|init|], number) && rows[|init|].rec.hash == WinnersOf(rows)[number];
        } else {
          var i :| 0 <= i < |init| && IsMinedAt(init[i], number) && init[i].rec.hash == WinnersOf(init)[number];
          assert rows[i] == init[i];
        }
      }
    }
  }

  /** Of several mined rows at one number the one listed last is the winner. */
  lemma {:induction false} TheLastListedWins(rows: seq<Row>, number: (nat, nat)) returns (i: nat)
    requires number in WinnersOf(rows)
    ensures i < |rows| && IsMinedAt(rows[i], number) && rows[i].rec.hash == WinnersOf(rows)[number]
    ensures forall k | i < k < |rows| :: !IsMinedAt(rows[k], number)
  {
    var init := rows[..|rows| - 1];
    if IsMinedAt(rows[|rows| - 1], number) {
      i := |rows| - 1;
    } else {
      i := TheLastListedWins(init, number);
      assert forall k | 0 <= k < |init| :: rows[k] == init[k];
    }
  }

  /** A mined row at the number carries the hash. */
  predicate HasMined(rows: seq<Row>, number: (nat, nat), hash: string) {
    exists k | 0 <= k < |rows| :: IsMinedAt(rows[k], number) && rows[k].rec.hash == hash
  }

  /** The row is replaced and names the hash that replaced it, at this number. */
  predicate NamesAt(row: Row, number: (nat, nat), hash: string) {
    && row.Rec? && row.rec.status.Replaced? && row.rec.replacedBy == Some(hash)
    && row.rec.nonce.Some? && (row.rec.chain, row.rec.nonce.value) == number
  }

  /** Every winner a replaced row names is a mined row at that number. */
  ghost predicate NamesAreMined(rows: seq<Row>) {
    forall i, number, hash | 0 <= i < |rows| && NamesAt(rows[i], number, hash) :: HasMined(rows, number, hash)
  }

  /** No pending row carries the hash of a mined one. */
  predicate HashesDistinct(rows: seq<Row>) {
    forall a, b | 0 <= a < |rows| && 0 <= b < |rows| && rows[a].Rec? && rows[b].Rec?
                  && rows[a].rec.status.Pending? && rows[b].rec.Mined() ::
      rows[a].rec.hash != rows[b].rec.hash
  }

  /**
    * After one landed pass a row is still pending at a winner's number exactly when it carries
    * the winner's own hash.
    */
  lemma WhatStaysPending(rows: seq<Row>, won: Winners, i: nat)
    requires i < |rows| && rows[i].Rec?
    ensures var before, after := rows[i].rec, Touch(rows, Supersede(won))[i].rec;
            after.status.Pending? && HasWinner(won, after) <==>
              before.status.Pending? && HasWinner(won, before) && before.hash == Winner(won, before)
  {}

  /** A pass changes no mined row and mines none. */
  lemma APassLeavesTheMined(rows: seq<Row>, won: Winners)
    ensures var after := Touch(rows, Supersede(won));
            && (forall i | 0 <= i < |rows| && rows[i].Rec? && rows[i].rec.Mined() :: after[i] == rows[i])
            && (forall i | 0 <= i < |rows| && after[i].Rec? && after[i].rec.Mined() :: after[i] == rows[i])
  {}

  /** With distinct hashes, no pending row shares its number with a mined row once a pass has landed. */
  lemma NoPendingRowAtAMinedNumber(rows: seq<Row>, won: Winners, i: nat, k: nat)
    requires i < |rows| && k < |rows| && AreWinners(won, rows) && HashesDistinct(rows)
    ensures var after := Touch(rows, Supersede(won));
            after[i].Rec? && after[i].rec.status.Pending? && after[i].rec.nonce.Some? ==>
              !IsMinedAt(after[k], (after[i].rec.chain, after[i].rec.nonce.value))
  {
    var after := Touch(rows, Supersede(won));
    APassLeavesTheMined(rows, won);
    if after[i].Rec? && after[i].rec.status.Pending? && after[i].rec.nonce.Some? {
      var number := (after[i].rec.chain, after[i].rec.nonce.value);
      if IsMinedAt(after[k], number) {
        assert IsMinedAt(rows[k], number) && number in won;
        WhatStaysPending(rows, won, i);
      }
    }
  }

  /** Every name a pass writes is a mined row's, and so are those already there. */
  lemma SupersededNamesAreMined(rows: seq<Row>, won: Winners)
    requires NamesAreMined(rows) && AreWinners(won, rows)
    ensures NamesAreMined(Touch(rows, Supersede(won)))
  {
    var after := Touch(rows, Supersede(won));
    APassLeavesTheMined(rows, won);
    forall i, number, hash | 0 <= i < |after| && NamesAt(after[i], number, hash) ensures HasMined(after, number, hash) {
      var k: int;
      if after[i] == rows[i] {
        assert HasMined(rows, number, hash);
        k :| 0 <= k < |rows| && IsMinedAt(rows[k], number) && rows[k].rec.hash == hash;
      } else {
        k :| 0 <= k < |rows| && IsMinedAt(rows[k], number) && rows[k].rec.hash == won[number];
      }
      assert after[k] == rows[k];
    }
  }

  /** A second pass finds nothing to do, whichever of several mined rows it takes for a winner. */
  lemma ASecondPassMovesNothing(rows: seq<Row>, won: Winners, again: Winners)
    requires AreWinners(won, rows) && HashesDistinct(rows)
    requires AreWinners(again, Touch(rows, Supersede(won)))
    ensures !Touches(Touch(rows, Supersede(won)), Supersede(again))
  {
    var after := Touch(rows, Supersede(won));
    forall i: nat | i < |after| && after[i].Rec? ensures !Supersede(again)(after[i].rec).1 {
      AfterAPassARowIsLeftAlone(rows, won, again, i);
    }
  }

  lemma NothingPendingIsWonAgain(rows: seq<Row>, won: Winners, again: Winners, i: nat)
    requires AreWinners(won, rows) && HashesDistinct(rows) && i < |rows| && rows[i].Rec?
    requires AreWinners(again, Touch(rows, Supersede(won)))
    ensures var r := Touch(rows, Supersede(won))[i].rec; HasWinner(again, r) ==> HasWinner(won, r) && !r.status.Pending?
  {
    var r := Touch(rows, Supersede(won))[i].rec;
    if HasWinner(again, r) {
      var k := WonAgainWasWon(rows, won, again, (r.chain, r.nonce.value));
      NoPendingRowAtAMinedNumber(rows, won, i, k);
    }
  }

  lemma AfterAPassARowIsLeftAlone(rows: seq<Row>, won: Winners, again: Winners, i: nat)
    requires AreWinners(won, rows) && HashesDistinct(rows) && i < |rows| && rows[i].Rec?
    requires AreWinners(again, Touch(rows, Supersede(won)))
    ensures !Supersede(again)(Touch(rows, Supersede(won))[i].rec).1
  {
    NothingPendingIsWonAgain(rows, won, again, i);
    APassNamesTheReplaced(rows, won, i);
  }

  lemma WonAgainWasWon(rows: seq<Row>, won: Winners, again: Winners, number: (nat, nat)) returns (k: nat)
    requires AreWinners(won, rows) && AreWinners(again, Touch(rows, Supersede(won))) && number in again
    ensures number in won && k < |rows| && IsMinedAt(Touch(rows, Supersede(won))[k], number)
  {
    var after := Touch(rows, Supersede(won));
    k :| 0 <= k < |after| && IsMinedAt(after[k], number);
    APassLeavesTheMined(rows, won);
    assert IsMinedAt(rows[k], number);
  }

  lemma APassNamesTheReplaced(rows: seq<Row>, won: Winners, i: nat)
    requires i < |rows| && rows[i].Rec?
    ensures var r := Touch(rows, Supersede(won))[i].rec;
            HasWinner(won, r) && r.status.Replaced? ==> r.replacedBy.Some?
  {}

  /** The other changes keep every name a mined row's too. */
  lemma ReceiptsKeepNames(rows: seq<Row>, hash: string, receipt: Receipt, now: nat)
    requires NamesAreMined(rows)
    ensures NamesAreMined(Touch(rows, ApplyReceipt(hash, receipt, now)))
  {
    var after := Touch(rows, ApplyReceipt(hash, receipt, now));
    forall i, number, name | 0 <= i < |after| && NamesAt(after[i], number, name) ensures HasMined(after, number, name) {
      assert NamesAt(rows[i], number, name) && HasMined(rows, number, name);
      var k :| 0 <= k < |rows| && IsMinedAt(rows[k], number) && rows[k].rec.hash == name;
      assert IsMinedAt(after[k], number) && after[k].rec.hash == rows[k].rec.hash;
    }
  }

  lemma ChainReadsKeepNames(rows: seq<Row>, hash: string, now: nat)
    requires NamesAreMined(rows)
    requires forall i | 0 <= i < |rows| && rows[i].Rec? :: rows[i].rec.WellFormed()
    ensures NamesAreMined(Touch(rows, SettleReplaced(hash, now)))
  {
    var after := Touch(rows, SettleReplaced(hash, now));
    forall i, number, name | 0 <= i < |after| && NamesAt(after[i], number, name) ensures HasMined(after, number, name) {
      assert NamesAt(rows[i], number, name) && HasMined(rows, number, name);
      var k :| 0 <= k < |rows| && IsMinedAt(rows[k], number) && rows[k].rec.hash == name;
      assert after[k] == rows[k];
    }
  }
}
