/**
  * The rows of one account over its whole life: written ahead, changed in place, merged out of
  * several files, and doubled by a crash between a landed list and the removal of what it absorbed.
  */
module RowRuns {
  import opened Basics
  import opened Rows
  import opened Disks
  import opened Store

  datatype RowStep =
    | Records(id: Id, leg: nat, draft: Record)
    | Resolves(id: Id, leg: nat, hash: string, now: nat)
    | KeepsUnknown(id: Id, leg: nat, reason: string)
    | Receives(hash: string, receipt: Receipt, now: nat)
    | ChainReplaces(hash: string, now: nat)
    | Supersedes(won: Winners, seen: nat)   // the winners were listed `seen` steps into the life
    | Rests                                 // nothing but merges and crashes

  /** A step, and for each entry afterwards which entry it comes from and whether it took the change. */
  datatype Move = Move(step: RowStep, from: seq<nat>, moved: seq<bool>)

  function ChangeOf(step: RowStep): Change {
    match step
    case Resolves(id, leg, hash, now) => ResolveBroadcast(id, leg, hash, now)
    case KeepsUnknown(id, leg, reason) => LeaveUnknown(id, leg, reason)
    case Receives(hash, receipt, now) => ApplyReceipt(hash, receipt, now)
    case ChainReplaces(hash, now) => SettleReplaced(hash, now)
    case Supersedes(won, _) => Supersede(won)
    case _ => (r: Record) => (r, false)
  }

  /** Every entry took the change; beside the changed ones old copies may have stayed behind. */
  ghost predicate Copies(rows: seq<Row>, change: Change, rows': seq<Row>, from: seq<nat>, moved: seq<bool>) {
    && |from| == |moved| == |rows'|
    && (forall j | 0 <= j < |rows'| ::
          from[j] < |rows| && rows'[j] == if moved[j] then Touch(rows, change)[from[j]] else rows[from[j]])
    && (forall row | row in Touch(rows, change) :: row in rows')
  }

  ghost predicate Happens(ls: seq<seq<Row>>, i: nat, m: Move, rows: seq<Row>)
    requires i < |ls|
  {
    match m.step
    case Records(id, leg, draft) => draft.replacedBy.None? && rows == [Rec(Intent(id, leg, draft))] + ls[i]
    case Supersedes(won, seen) =>
      && seen <= i && (forall number | number in won :: HasMined(ls[seen], number, won[number]))
      && Copies(ls[i], Supersede(won), rows, m.from, m.moved)
    case step => Copies(ls[i], ChangeOf(step), rows, m.from, m.moved)
  }

  ghost predicate IsLife(ls: seq<seq<Row>>, ms: seq<Move>) {
    && |ls| == |ms| + 1 && ls[0] == []
    && forall i: nat | i < |ms| :: Happens(ls, i, ms[i], ls[i + 1])
  }

  // ---- Where an entry comes from

  function Source(m: Move, p: nat): Option<nat> {
    if m.step.Records? then (if p == 0 then None else Some(p - 1))
    else if p < |m.from| then Some(m.from[p])
    else None
  }

  /** The entry at `p` after `k` steps is what became of the entry at `q` after `i`. */
  predicate Descends(ms: seq<Move>, i: nat, q: nat, k: nat, p: nat)
    requires i <= k <= |ms|
    decreases k
  {
    if k == i then p == q
    else
      match Source(ms[k - 1], p)
      case None => false
      case Some(before) => Descends(ms, i, q, k - 1, before)
  }

  predicate AllWellFormed(rows: seq<Row>) {
    forall row | row in rows && row.Rec? :: row.rec.WellFormed()
  }

  lemma EveryStepIsLawful(step: RowStep)
    ensures Lawful(ChangeOf(step))
  {
    match step
    case Resolves(id, leg, hash, now) => ResolvingIsLawful(id, leg, hash, now);
    case KeepsUnknown(id, leg, reason) => LeavingUnknownIsLawful(id, leg, reason);
    case Receives(hash, receipt, now) => ReceivingIsLawful(hash, receipt, now);
    case ChainReplaces(hash, now) => ReplacingIsLawful(hash, now);
    case Supersedes(won, _) => SupersedingIsLawful(won);
    case _ =>
  }

  /** One step carries every entry along, wherever it puts it. */
  lemma AMoveCarries(ls: seq<seq<Row>>, i: nat, m: Move, rows: seq<Row>, p: nat)
    requires i < |ls| && Happens(ls, i, m, rows) && p < |rows| && Source(m, p).Some?
    ensures Source(m, p).value < |ls[i]| && Carries(ls[i][Source(m, p).value], rows[p])
    ensures rows[p] == ls[i][Source(m, p).value]
            || (ls[i][Source(m, p).value].Rec? && rows[p] == Rec(ChangeOf(m.step)(ls[i][Source(m, p).value].rec).0))
  {
    EveryStepIsLawful(m.step);
  }

  lemma {:induction false} EveryRowIsWellFormed(ls: seq<seq<Row>>, ms: seq<Move>, k: nat)
    requires IsLife(ls, ms) && k < |ls|
    ensures AllWellFormed(ls[k])
  {
    if k > 0 {
      EveryRowIsWellFormed(ls, ms, k - 1);
      forall row | row in ls[k] && row.Rec? ensures row.rec.WellFormed() {
        var p: nat :| p < |ls[k]| && ls[k][p] == row;
        assert Happens(ls, k - 1, ms[k - 1], ls[k - 1 + 1]);
        if Source(ms[k - 1], p).Some? { AMoveCarries(ls, k - 1, ms[k - 1], ls[k], p); }
      }
    }
  }

  /** Whatever became of an entry, it is still that row, further along its life. */
  lemma {:induction false} DescendantsAreCarried(ls: seq<seq<Row>>, ms: seq<Move>, i: nat, q: nat, k: nat, p: nat)
    requires IsLife(ls, ms) && i <= k < |ls| && q < |ls[i]| && p < |ls[k]| && Descends(ms, i, q, k, p)
    ensures Carries(ls[i][q], ls[k][p])
    decreases k
  {
    if i < k {
      var before := Source(ms[k - 1], p).value;
      assert Happens(ls, k - 1, ms[k - 1], ls[k - 1 + 1]);
      AMoveCarries(ls, k - 1, ms[k - 1], ls[k], p);
      DescendantsAreCarried(ls, ms, i, q, k - 1, before);
      CarriesTransitive(ls[i][q], ls[k - 1][before], ls[k][p]);
    }
  }

  /** Every entry was recorded as an intent at some step. */
  lemma {:induction false} EveryRowWasAnIntent(ls: seq<seq<Row>>, ms: seq<Move>, k: nat, p: nat) returns (i: nat)
    requires IsLife(ls, ms) && k < |ls| && p < |ls[k]|
    ensures 0 < i <= k && ms[i - 1].step.Records? && |ls[i]| > 0 && Descends(ms, i, 0, k, p)
    decreases k
  {
    assert Happens(ls, k - 1, ms[k - 1], ls[k - 1 + 1]);
    match Source(ms[k - 1], p) {
      case None => i := k;
      case Some(before) =>
        AMoveCarries(ls, k - 1, ms[k - 1], ls[k], p);
        i := EveryRowWasAnIntent(ls, ms, k - 1, before);
    }
  }

  // ---- Out of `unknown`

  /** The step is the outcome of this very leg of this very request. */
  predicate ItsProof(m: Move, row: Row) {
    m.step.Resolves? && row.Rec? && row.rec.requestId == Some(m.step.id) && row.rec.leg == m.step.leg
  }

  /** A row that was unknown and no longer is was resolved in between under its own request id and leg. */
  lemma {:induction false} UnknownEndsOnlyThroughItsProof(ls: seq<seq<Row>>, ms: seq<Move>, i: nat, q: nat, k: nat, p: nat)
    returns (j: nat)
    requires IsLife(ls, ms) && i <= k < |ls| && q < |ls[i]| && p < |ls[k]| && Descends(ms, i, q, k, p)
    requires ls[i][q].Rec? && ls[i][q].rec.status.Unknown?
    requires ls[k][p].Rec? ==> !ls[k][p].rec.status.Unknown?
    ensures i <= j < k && ItsProof(ms[j], ls[i][q])
    decreases k
  {
    DescendantsAreCarried(ls, ms, i, q, k, p);
    var before := Source(ms[k - 1], p).value;
    assert Happens(ls, k - 1, ms[k - 1], ls[k - 1 + 1]);
    AMoveCarries(ls, k - 1, ms[k - 1], ls[k], p);
    DescendantsAreCarried(ls, ms, i, q, k - 1, before);
    var r := ls[k - 1][before].rec;
    if r.status.Unknown? {
      EveryRowIsWellFormed(ls, ms, k - 1);
      assert ls[k - 1][before] in ls[k - 1];
      OnlyItsProofMoves(ms[k - 1].step, r);
      j := k - 1;
    } else {
      j := UnknownEndsOnlyThroughItsProof(ls, ms, i, q, k - 1, before);
    }
  }

  lemma OnlyItsProofMoves(step: RowStep, r: Record)
    requires r.WellFormed() && r.status.Unknown? && !ChangeOf(step)(r).0.status.Unknown?
    ensures step.Resolves? && r.requestId == Some(step.id) && r.leg == step.leg
  {}

  // ---- What gives a row its status

  /**
    * The step is one that gives a row the status it has: success and failure come from a receipt of
    * the row's own hash that says so, `pending` from the leg's own outcome, which brings the hash, and
    * `replaced` from a read of the chain or from a winner under another hash. Nothing gives any other.
    */
  predicate Gives(step: RowStep, r: Record) {
    match r.status
    case Confirmed => step.Receives? && step.hash == r.hash != "" && step.receipt == MinedAs(true)
    case Failed => step.Receives? && step.hash == r.hash != "" && step.receipt == MinedAs(false)
    case Pending => step.Resolves? && step.hash == r.hash && r.requestId == Some(step.id) && r.leg == step.leg
    case Replaced =>
      || (step.ChainReplaces? && step.hash == r.hash)
      || (step.Supersedes? && HasWinner(step.won, r) && Winner(step.won, r) != r.hash && r.replacedBy == Some(Winner(step.won, r)))
    case _ => false
  }

  lemma AChangeOfStatusIsGiven(step: RowStep, r: Record)
    requires r.WellFormed() && ChangeOf(step)(r).0.status != r.status
    ensures Gives(step, ChangeOf(step)(r).0)
  {}

  /** A step that leaves the status alone leaves alone what gave it. */
  lemma WhatWasGivenStays(given: RowStep, step: RowStep, r: Record)
    requires r.WellFormed() && Gives(given, r) && ChangeOf(step)(r).0.status == r.status
    ensures Gives(given, ChangeOf(step)(r).0)
  {}

  /** Whatever status a row took on in a stretch of its life, a step in that stretch gave it. */
  lemma {:induction false} EveryStatusWasGiven(ls: seq<seq<Row>>, ms: seq<Move>, i: nat, q: nat, k: nat, p: nat) returns (j: nat)
    requires IsLife(ls, ms) && i <= k < |ls| && q < |ls[i]| && p < |ls[k]| && Descends(ms, i, q, k, p)
    requires ls[i][q].Rec? && ls[k][p].Rec? && ls[k][p].rec.status != ls[i][q].rec.status
    ensures i <= j < k && Gives(ms[j].step, ls[k][p].rec)
    decreases k
  {
    var before := Source(ms[k - 1], p).value;
    assert Happens(ls, k - 1, ms[k - 1], ls[k - 1 + 1]);
    AMoveCarries(ls, k - 1, ms[k - 1], ls[k], p);
    DescendantsAreCarried(ls, ms, i, q, k - 1, before);
    EveryRowIsWellFormed(ls, ms, k - 1);
    assert ls[k - 1][before] in ls[k - 1];
    var r := ls[k - 1][before].rec;
    if ls[k][p].rec.status == r.status {
      j := EveryStatusWasGiven(ls, ms, i, q, k - 1, before);
      if ls[k][p] != ls[k - 1][before] { WhatWasGivenStays(ms[j].step, ms[k - 1].step, r); }
    } else {
      j := k - 1;
      AChangeOfStatusIsGiven(ms[k - 1].step, r);
    }
  }

  /** And whatever a row says but that nothing is known of it, some step since it was recorded gave it. */
  lemma EveryOutcomeWasGiven(ls: seq<seq<Row>>, ms: seq<Move>, k: nat, p: nat) returns (i: nat, j: nat)
    requires IsLife(ls, ms) && k < |ls| && p < |ls[k]| && ls[k][p].Rec? && !ls[k][p].rec.status.Unknown?
    ensures 0 < i <= j < k && ms[i - 1].step.Records? && |ls[i]| > 0 && Descends(ms, i, 0, k, p)
    ensures Gives(ms[j].step, ls[k][p].rec)
  {
    i := EveryRowWasAnIntent(ls, ms, k, p);
    assert Happens(ls, i - 1, ms[i - 1], ls[i - 1 + 1]);
    assert ls[i][0].Rec? && ls[i][0].rec.status.Unknown?;
    j := EveryStatusWasGiven(ls, ms, i, 0, k, p);
  }

  // ---- Names

  lemma MinedStaysMined(step: RowStep, row: Row, number: (nat, nat))
    requires IsMinedAt(row, number)
    ensures var k := ChangeOf(step)(row.rec).0; IsMinedAt(Rec(k), number) && k.hash == row.rec.hash
  {}

  /** What a mined row says of its number no step takes back. */
  lemma MinedSurvivesAMove(ls: seq<seq<Row>>, i: nat, m: Move, rows: seq<Row>, number: (nat, nat), hash: string)
    requires i < |ls| && Happens(ls, i, m, rows) && HasMined(ls[i], number, hash)
    ensures HasMined(rows, number, hash)
  {
    var k :| 0 <= k < |ls[i]| && IsMinedAt(ls[i][k], number) && ls[i][k].rec.hash == hash;
    if m.step.Records? {
      assert rows[k + 1] == ls[i][k];
    } else {
      MinedStaysMined(m.step, ls[i][k], number);
      var touched := Touch(ls[i], ChangeOf(m.step));
      assert touched[k] in touched;
      var j :| 0 <= j < |rows| && rows[j] == touched[k];
    }
  }

  lemma {:induction false} MinedSurvives(ls: seq<seq<Row>>, ms: seq<Move>, i: nat, k: nat, number: (nat, nat), hash: string)
    requires IsLife(ls, ms) && i <= k < |ls| && HasMined(ls[i], number, hash)
    ensures HasMined(ls[k], number, hash)
    decreases k
  {
    if i < k {
      MinedSurvives(ls, ms, i, k - 1, number, hash);
      assert Happens(ls, k - 1, ms[k - 1], ls[k - 1 + 1]);
      MinedSurvivesAMove(ls, k - 1, ms[k - 1], ls[k], number, hash);
    }
  }

  /** A step gives a row no name but its number's winner. */
  lemma WhereANameComesFrom(step: RowStep, r: Record, number: (nat, nat), hash: string)
    requires r.WellFormed() && NamesAt(Rec(ChangeOf(step)(r).0), number, hash)
    ensures NamesAt(Rec(r), number, hash) || (step.Supersedes? && number in step.won && step.won[number] == hash)
  {}

  /** In every life of an account's rows, every name a replaced row carries is that of a mined row at its number. */
  lemma {:induction false} EveryNameIsMined(ls: seq<seq<Row>>, ms: seq<Move>, k: nat)
    requires IsLife(ls, ms) && k < |ls|
    ensures NamesAreMined(ls[k])
  {
    if k > 0 {
      EveryNameIsMined(ls, ms, k - 1);
      forall p, number, hash | 0 <= p < |ls[k]| && NamesAt(ls[k][p], number, hash) ensures HasMined(ls[k], number, hash) {
        ANameIsMined(ls, ms, k, p, number, hash);
      }
    }
  }

  lemma ANameIsMined(ls: seq<seq<Row>>, ms: seq<Move>, k: nat, p: nat, number: (nat, nat), hash: string)
    requires IsLife(ls, ms) && 0 < k < |ls| && NamesAreMined(ls[k - 1])
    requires p < |ls[k]| && NamesAt(ls[k][p], number, hash)
    ensures HasMined(ls[k], number, hash)
  {
    var m := ms[k - 1];
    assert Happens(ls, k - 1, m, ls[k - 1 + 1]);
    EveryRowIsWellFormed(ls, ms, k - 1);
    assert Source(m, p).Some?;
    AMoveCarries(ls, k - 1, m, ls[k], p);
    var before := ls[k - 1][Source(m, p).value];
    assert before in ls[k - 1];
    if NamesAt(before, number, hash) {
      MinedSurvives(ls, ms, k - 1, k, number, hash);
    } else {
      WhereANameComesFrom(m.step, before.rec, number, hash);
      MinedSurvives(ls, ms, m.step.seen, k, number, hash);
    }
  }

  // ---- The doors of the history are such steps

  ghost predicate Lists(f: Files, g: nat, rows: seq<Row>) {
    forall row :: row in rows <==> Readable(f, g, {}, row)
  }

  function Index(rows: seq<Row>, row: Row): (i: nat)
    requires row in rows
    ensures i < |rows| && rows[i] == row
  {
    if rows[0] == row then 0 else 1 + Index(rows[1..], row)
  }

  /** An edit that landed moves the rows of the account by its change, whichever sidecars are still there. */
  lemma AnEditIsAMove(f: Files, f': Files, g: nat, rows: seq<Row>, rows': seq<Row>, change: Change)
    returns (from: seq<nat>, moved: seq<bool>)
    requires Lists(f, g, rows) && Lists(f', g, rows') && Merged(f, f', g, Touch(rows, change))
    ensures Copies(rows, change, rows', from, moved)
  {
    var touched := Touch(rows, change);
    forall row | row in rows' ensures row in touched || row in rows {
      AMergeReads(f, f', g, touched, row);
    }
    forall row | row in touched ensures row in rows' { AMergeReads(f, f', g, touched, row); }
    moved := seq(|rows'|, j requires 0 <= j < |rows'| => rows'[j] in touched);
    from := seq(|rows'|, j requires 0 <= j < |rows'| =>
      if rows'[j] in touched then Index(touched, rows'[j]) else if rows'[j] in rows then Index(rows, rows'[j]) else 0);
  }

  /** So does a row that was added, in front of the others or beside them. */
  lemma AnAddIsAMove(f: Files, f': Files, g: nat, rows: seq<Row>, rows': seq<Row>, record: Record)
    returns (from: seq<nat>, moved: seq<bool>)
    requires Lists(f, g, rows) && Lists(f', g, rows') && Merged(f, f', g, [Rec(record)] + rows)
    ensures Copies([Rec(record)] + rows, ChangeOf(Rests), rows', from, moved)
  {
    var all := [Rec(record)] + rows;
    forall row | row in rows' ensures row in all { AMergeReads(f, f', g, all, row); }
    forall row | row in all ensures row in rows' { AMergeReads(f, f', g, all, row); }
    from, moved := Rearranged(all, rows');
  }

  /** And a row that was put in a new sidecar. */
  lemma AddingBesideIsAMove(f: Files, f': Files, g: nat, n: nat, rows: seq<Row>, rows': seq<Row>, record: Record)
    returns (from: seq<nat>, moved: seq<bool>)
    requires Lists(f, g, rows) && Lists(f', g, rows') && SidecarName(g, n) !in f
    requires Land(f') == Land(f)[SidecarName(g, n) := Sealed(g, Sidecar(n), [Rec(record)])]
    ensures Copies([Rec(record)] + rows, ChangeOf(Rests), rows', from, moved)
  {
    var all := [Rec(record)] + rows;
    forall name: Name, row | name != SidecarName(g, n) ensures StoredAt(f', name, row) <==> StoredAt(f, name, row) {
      if name.suffix.At? {
        assert name in f' <==> name in Land(f');
        assert name in f ==> Land(f)[name] == f[name] && Land(f')[name] == f'[name];
      }
    }
    assert SidecarName(g, n) in Land(f') && Land(f')[SidecarName(g, n)] == f'[SidecarName(g, n)];
    assert forall row :: StoredAt(f', SidecarName(g, n), row) <==> row == Rec(record);
    forall row ensures row in rows' <==> row in all {
      if Readable(f, g, {}, row) && !StoredAt(f, MainName(g), row) {
        var k :| StoredAt(f, SidecarName(g, k), row);
        assert StoredAt(f', SidecarName(g, k), row);
      }
    }
    from, moved := Rearranged(all, rows');
  }

  lemma Rearranged(rows: seq<Row>, rows': seq<Row>) returns (from: seq<nat>, moved: seq<bool>)
    requires forall row :: row in rows <==> row in rows'
    ensures Copies(rows, ChangeOf(Rests), rows', from, moved)
  {
    assert Touch(rows, ChangeOf(Rests)) == rows;
    moved := seq(|rows'|, _ => true);
    from := seq(|rows'|, j requires 0 <= j < |rows'| => if rows'[j] in rows then Index(rows, rows'[j]) else 0);
  }

  /** What is readable after a merge: its list, and what the sidecars that are still there held. */
  lemma AMergeReads(f: Files, f': Files, g: nat, landed: seq<Row>, row: Row)
    requires Merged(f, f', g, landed)
    ensures row in landed ==> Readable(f', g, {}, row)
    ensures Readable(f', g, {}, row) ==> row in landed || Readable(f, g, {}, row)
  {
    assert Land(f')[MainName(g)] == f'[MainName(g)];
    if row in landed { assert StoredAt(f', MainName(g), row); }
    if n :| StoredAt(f', SidecarName(g, n), row) {
      AMergeInventsNothing(f, f', g, landed, SidecarName(g, n), row);
    }
  }
}
