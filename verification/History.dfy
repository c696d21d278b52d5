/**
  * One account's rows on disk, out of which a new process learns which numbers are in use. Every
  * method says what the directory holds afterwards and in every state it passed through, so what
  * is said survives a crash between any two steps.
  */
module Histories {
  import opened Basics
  import opened Rows
  import opened Disks
  import opened Store
  import opened Migration
  import opened Listing

  /** What one update of stored rows did. */
  datatype Wrote = Landed | Untouched | Failed

  /** Numbers in file names are never used twice: every one in the directory lies below `next`. */
  predicate NumbersBelow(f: Files, next: nat) {
    forall name | name in f :: NumberBelow(name, next)
  }

  predicate NumberBelow(name: Name, next: nat) {
    match name.suffix
    case At(Sidecar(n)) => n < next
    case Staged(_, n) => n < next
    case _ => true
  }

  /** Everything an account's files yield now: the account file's rows, then the sidecars'. */
  function AllRows(f: Files, g: nat, refused: set<Name>, next: nat): seq<Row> {
    (if MainName(g) in refused then [] else MainRows(f, g)) + SidecarRows(f, g, refused, next)
  }

  /** The account file is there and cannot be read now, or belongs to another key. */
  predicate MainUnreadable(f: Files, g: nat, refused: set<Name>) {
    MainName(g) in refused || (MainName(g) in f && f[MainName(g)].Sealed? && f[MainName(g)].generation != g)
  }

  /** The account file can be read now: it is missing, or opens with the key that named it. */
  predicate MainReads(f: Files, g: nat, refused: set<Name>) {
    MainName(g) !in refused && (MainName(g) in f ==> Opens(f, MainName(g)))
  }

  /** Bytes that were the account file and hold no history are still there, under an aside name. */
  ghost predicate KeptAside(f: Files, f': Files, g: nat) {
    MainName(g) in f && BytesUnder(f', g, f[MainName(g)])
  }

  /** What was readable is readable still, changed. */
  ghost predicate Shows(f: Files, f': Files, g: nat, refused: set<Name>, change: Change) {
    forall row | Readable(f, g, refused, row) :: Readable(f', g, {}, Changed(row, change))
  }

  /** And nothing else is. */
  ghost predicate ShowsNoMore(f: Files, f': Files, g: nat, refused: set<Name>, change: Change) {
    forall row' | Readable(f', g, {}, row') :: exists row :: Readable(f, g, refused, row) && row' == Changed(row, change)
  }

  /** A row can be read that still waits for the outcome of this leg. */
  ghost predicate AnyOwned(f: Files, g: nat, refused: set<Name>, id: Id, leg: nat) {
    exists r :: Readable(f, g, refused, Rec(r)) && Owns(id, leg, r)
  }

  /** The leg's rows are pending under the hash, as of `now`; the others are as they were. */
  ghost predicate Resolved(f: Files, f': Files, g: nat, refused: set<Name>, id: Id, leg: nat, hash: string, now: nat) {
    forall r | Readable(f, g, refused, Rec(r)) ::
      Readable(f', g, {}, Rec(if Owns(id, leg, r) then r.(hash := hash, status := Pending, timestamp := now) else r))
  }

  /** The leg's rows are unknown still and say why; the others are as they were. */
  ghost predicate LeftUnknown(f: Files, f': Files, g: nat, refused: set<Name>, id: Id, leg: nat, reason: string) {
    forall r | Readable(f, g, refused, Rec(r)) ::
      Readable(f', g, {}, Rec(if Owns(id, leg, r) then r.(unknownReason := Some(reason)) else r))
  }

  ghost predicate AllGiveReason(f: Files, g: nat, id: Id, leg: nat, reason: string) {
    forall r | Readable(f, g, {}, Rec(r)) && Owns(id, leg, r) :: r.unknownReason == Some(reason)
  }

  /** The rows of the hash say what the receipt says, polled at `now`; the others are as they were. */
  ghost predicate Received(f: Files, f': Files, g: nat, refused: set<Name>, hash: string, word: Option<string>, now: nat) {
    forall r | Readable(f, g, refused, Rec(r)) ::
      Readable(f', g, {}, Rec(if r.hash == hash then r.(lastPolledAt := now, status := Verdict(word, r.status)) else r))
  }

  ghost predicate AllReceived(f: Files, g: nat, refused: set<Name>, hash: string, word: Option<string>, now: nat) {
    forall r | Readable(f, g, refused, Rec(r)) && r.hash == hash ::
      r.lastPolledAt == now && r.status == Verdict(word, r.status)
  }

  /** The receipt changes the status of some row of the hash. */
  ghost predicate AnyMoves(f: Files, g: nat, refused: set<Name>, hash: string, word: Option<string>) {
    exists r :: Readable(f, g, refused, Rec(r)) && r.hash == hash && r.status != Verdict(word, r.status)
  }

  /** These bytes are among those set aside under the key of generation `g`. */
  ghost predicate BytesUnder(f: Files, g: nat, bytes: Box) {
    exists number :: Name(g, Aside(number)) in f && f[Name(g, Aside(number))] == bytes
  }

  /** The pending rows of the hash are replaced, polled at `now`; the others are as they were. */
  ghost predicate ChainSettled(f: Files, f': Files, g: nat, refused: set<Name>, hash: string, now: nat) {
    forall r | Readable(f, g, refused, Rec(r)) ::
      Readable(f', g, {}, Rec(if PendingAs(r, hash) then r.(lastPolledAt := now, status := Replaced) else r))
  }

  predicate PendingAs(r: Record, hash: string) { r.status.Pending? && r.hash == hash }

  ghost predicate AnyPendingAs(f: Files, g: nat, refused: set<Name>, hash: string) {
    exists r :: Readable(f, g, refused, Rec(r)) && PendingAs(r, hash)
  }

  /** The rows pending at a winner's number under another hash are replaced by it; so are those whose winner was not known. */
  ghost predicate SupersededBy(f: Files, f': Files, g: nat, refused: set<Name>, won: Winners) {
    forall r | Readable(f, g, refused, Rec(r)) ::
      Readable(f', g, {}, Rec(if HasWinner(won, r) && (if r.status.Pending? then r.hash != Winner(won, r)
                                                   else r.status.Replaced? && r.replacedBy.None?)
                              then r.(status := Replaced, replacedBy := Some(Winner(won, r))) else r))
  }

  /** A new sidecar holds the row, and nothing else of the history changed. */
  predicate AddedBeside(f: Files, f': Files, g: nat, number: nat, record: Record) {
    SidecarName(g, number) !in f && Land(f') == Land(f)[SidecarName(g, number) := Sealed(g, Sidecar(number), [Rec(record)])]
  }

  /** The account file's rows, as far as it opens. */
  function MainRows(f: Files, g: nat): seq<Row> {
    if Opens(f, MainName(g)) then RowsAt(f, MainName(g)) else []
  }

  class History {
    const disk: Disk
    /** The key in use, by its generation; none while the account is closed. */
    var open: Option<nat>
    var next: nat

    ghost predicate Valid()
      reads this, disk
    {
      disk.Valid() && NumbersBelow(disk.files, next)
    }

    constructor (disk: Disk, next: nat)
      requires disk.Valid() && NumbersBelow(disk.files, next)
      ensures Valid() && this.disk == disk && open == None
    {
      this.disk, this.open, this.next := disk, None, next;
    }

    // ---- Files

    /** Write to a staged name, then move it onto the target: either all of it is there or none. */
    method WriteThenRename(target: Name, rows: seq<Row>, accepts: bool) returns (ok: bool, ghost staged: Name)
      requires Valid() && LandingOf(target.suffix).Some? && NumberBelow(target, next)
      modifies this`next, disk
      ensures Valid() && old(next) <= next && old(disk.past) <= disk.past && (accepts ==> ok)
      ensures staged == Name(target.generation, Staged(LandingOf(target.suffix).value, old(next)))
      ensures var written := old(disk.files)[target := Sealed(target.generation, LandingOf(target.suffix).value, rows)];
              && SameBut(if ok then written else old(disk.files), disk.files, {staged})
              && forall f | f in disk.past[|old(disk.past)|..] :: SameBut(old(disk.files), f, {staged}) || SameBut(written, f, {staged})
    {
      ghost var start, before := disk.files, |disk.past|;
      var landing := LandingOf(target.suffix).value;
      var temporary := Name(target.generation, Staged(landing, next));
      staged := temporary;
      next := next + 1;
      ok := disk.WritePrivate(temporary, Sealed(target.generation, landing, rows), accepts);
      StagingKeepsNumbers(start, disk.files, staged, next);
      assert forall f | f in disk.past[before..] :: SameBut(start, f, {staged});
      ghost var ready := disk.files;
      if ok {
        ok := disk.Rename(temporary, target, accepts);
        if ok { RenamingLands(start, ready, disk.files, staged, target); }
      }
      if !ok {
        ghost var failed := disk.files;
        var removed := disk.Remove(temporary, accepts);
        assert removed ==> disk.files - {staged} == failed - {staged};
      }
    }

    /** What the account file yields: a missing one has no rows, a failed read says so. */
    function Read(g: nat, refused: set<Name>): (answer: Result<seq<Row>, ReadFailure>)
      reads this, disk
      ensures answer.Ok? ==> MainName(g) !in refused && answer.value == MainRows(disk.files, g)
      ensures answer.Ok? <==> MainReads(disk.files, g, refused)
      ensures answer.Err? && answer.error.Unreadable? <==> MainUnreadable(disk.files, g, refused)
      ensures answer.Err? && answer.error.NotHistory? ==> MainName(g) in disk.files && !Opens(disk.files, MainName(g))
    {
      match disk.ReadToString(MainName(g), refused)
      case Err(_) => Err(Unreadable)
      case Ok(None) => Ok([])
      case Ok(Some(box)) => Unseal(g, Main, box)
    }

    /** Which sidecars there are, by number. */
    function Sidecars(g: nat): (numbers: set<nat>)
      reads this, disk
      ensures forall n :: n in numbers <==> SidecarName(g, n) in disk.files
    {
      var sidecars := set name | name in disk.files && name.generation == g && name.suffix.At? && name.suffix.landing.Sidecar?;
      assert forall n :: SidecarName(g, n) in disk.files <==> SidecarName(g, n) in sidecars;
      set name | name in sidecars :: name.suffix.landing.number
    }

    /**
      * The sidecars' rows, to be merged, and the sidecars, to be removed after that. A sidecar whose
      * read fails is removed too, though it yields no rows.
      */
    method AdoptSidecars(g: nat, refused: set<Name>) returns (rows: seq<Row>, adopted: set<nat>)
      requires Valid()
      ensures adopted == Sidecars(g) && rows == SidecarRows(disk.files, g, refused, next)
      ensures forall row :: row in rows <==> exists n :: FromSidecar(disk.files, g, n, refused, row)
    {
      rows, adopted := [], Sidecars(g);
      for n := 0 to next
        invariant rows == SidecarRows(disk.files, g, refused, n)
      {
        if n in adopted {
          var txt := disk.ReadToString(SidecarName(g, n), refused);
          if txt.Ok? {
            var found := Unseal(g, Sidecar(n), txt.value.value);
            if found.Ok? { rows := rows + found.value; }
          }
        }
      }
      EverySidecarIsAmongThem(disk.files, g, refused, next);
    }

    /** Sidecars are removed after the list that holds their rows is in place, never before. */
    method LandRows(g: nat, rows: seq<Row>, adopted: set<nat>, accepts: bool) returns (ok: bool)
      requires Valid()
      modifies this`next, disk
      ensures Valid() && old(next) <= next && old(disk.past) <= disk.past
      ensures if ok then Merged(old(disk.files), disk.files, g, rows) else Land(disk.files) == Land(old(disk.files))
      ensures accepts ==> ok && forall n | n in adopted :: SidecarName(g, n) !in disk.files
      ensures Asides(disk.files) == Asides(old(disk.files))
      ensures forall f | f in disk.past[|old(disk.past)|..] ::
                (Land(f) == Land(old(disk.files)) || Merged(old(disk.files), f, g, rows)) && NewUnder(old(disk.files), f, g)
    {
      ghost var start, before := disk.files, |disk.past|;
      ghost var staged;
      ok, staged := WriteThenRename(MainName(g), rows, accepts);
      forall f: Files { StagedOrLanded(start, f, g, rows, staged); }
      if !ok { return; }
      ghost var landed := disk.past;
      RemoveSidecars(g, adopted, accepts, start, rows);
      assert disk.past[before..] == landed[before..] + disk.past[|landed|..];
    }

    /** Remove what a merged list absorbed. A removal may be refused, and then an old copy stays behind. */
    method RemoveSidecars(g: nat, adopted: set<nat>, accepts: bool, ghost start: Files, ghost rows: seq<Row>)
      requires Valid() && Merged(start, disk.files, g, rows) && NewUnder(start, disk.files, g)
      modifies disk
      ensures Valid() && old(disk.past) <= disk.past && Asides(disk.files) == Asides(old(disk.files))
      ensures Merged(start, disk.files, g, rows)
      ensures forall f | f in disk.past[|old(disk.past)|..] :: Merged(start, f, g, rows) && NewUnder(start, f, g)
      ensures accepts ==> forall n | n in adopted :: SidecarName(g, n) !in disk.files
    {
      ghost var before := |disk.past|;
      var left := adopted;
      while left != {}
        invariant Valid() && old(disk.past) <= disk.past && Asides(disk.files) == Asides(old(disk.files))
        invariant Merged(start, disk.files, g, rows) && NewUnder(start, disk.files, g)
        invariant forall f | f in disk.past[before..] :: Merged(start, f, g, rows) && NewUnder(start, f, g)
        invariant accepts ==> forall n | n in adopted && n !in left :: SidecarName(g, n) !in disk.files
        decreases left
      {
        var n :| n in left;
        ghost var f := disk.files;
        var removed := disk.Remove(SidecarName(g, n), accepts);
        if removed {
          DroppingASidecar(start, f, disk.files, g, rows, n);
          ChangedElsewhere(f, disk.files, {SidecarName(g, n)});
        }
        left := left - {n};
      }
    }

    // ---- The doors

    /** Keep the row in a sidecar of its own: the main file can be neither read nor replaced. */
    method WriteSidecar(g: nat, record: Record, accepts: bool) returns (ok: bool)
      requires Valid()
      modifies this`next, disk
      ensures Valid() && old(next) <= next && old(disk.past) <= disk.past
      ensures accepts ==> ok
      ensures ok ==> StoredAt(disk.files, SidecarName(g, old(next)), Rec(record))
      ensures ok ==> AddedBeside(old(disk.files), disk.files, g, old(next), record)
      ensures !ok ==> Land(disk.files) == Land(old(disk.files))
      ensures forall f | f in disk.past[|old(disk.past)|..] :: Preserves(old(disk.files), f) && NewUnder(old(disk.files), f, g)
    {
      ghost var start, before := disk.files, |disk.past|;
      var number := next;
      next := next + 1;
      var target := SidecarName(g, number);
      ghost var box := Sealed(g, Sidecar(number), [Rec(record)]);
      ghost var staged;
      ok, staged := WriteThenRename(target, [Rec(record)], accepts);
      forall f | f in disk.past[before..] ensures Preserves(start, f) && NewUnder(start, f, g) {
        if SameBut(start, f, {staged}) {
          OffTheRecord(start, f, staged);
          OnlyStaged(start, f, staged);
        } else {
          OffTheRecord(start[target := box], f, staged);
          OnlyStaged(start[target := box], f, staged);
        }
        ANewFilePreserves(start, f, target, box);
      }
      if ok {
        OffTheRecord(start[target := box], disk.files, staged);
        assert target in Land(disk.files) && Land(disk.files)[target] == disk.files[target];
      } else {
        OffTheRecord(start, disk.files, staged);
      }
    }

    /** Write the row in front of the account file's rows, and of those of the sidecars beside it. */
    method Prepend(g: nat, main: seq<Row>, record: Record, accepts: bool, refused: set<Name>) returns (ok: bool, ghost rows: seq<Row>)
      requires Valid() && main == MainRows(disk.files, g) && MainName(g) !in refused
      modifies this`next, disk
      ensures Valid() && old(next) <= next && old(disk.past) <= disk.past
      ensures accepts ==> ok
      ensures forall row :: row in rows <==> Readable(old(disk.files), g, refused, row)
      ensures ok ==> Stored(disk.files, Rec(record)) && Merged(old(disk.files), disk.files, g, [Rec(record)] + rows)
      ensures SidecarsRead(refused) ==> Preserves(old(disk.files), disk.files)
      ensures SidecarsRead(refused) ==> forall f | f in disk.past[|old(disk.past)|..] :: Preserves(old(disk.files), f)
      ensures forall f | f in disk.past[|old(disk.past)|..] :: NewUnder(old(disk.files), f, g)
      ensures Asides(disk.files) == Asides(old(disk.files))
    {
      ghost var start, before := disk.files, |disk.past|;
      var more, adopted := AdoptSidecars(g, refused);
      rows := main + more;
      WhatWasReadIsReadable(start, g, refused, main, more);
      var merged := [Rec(record)] + (main + more);
      ok := LandRows(g, merged, adopted, accepts);
      if SidecarsRead(refused) {
        AllRowsAreCovered(start, g, merged, refused);
        AMergeKeeps(start, disk.past[before..], g, merged);
        LastIsNow(disk.past, before, start, disk.files);
      }
      if ok { MergedStores(start, disk.files, g, merged, Rec(record)); }
    }

    /**
      * Record a row. `true` means it can be read out of the account file or a sidecar, from now
      * on; no state on the way loses another row, provided every sidecar absorbed was read.
      */
    method Add(record: Record, accepts: bool, refused: set<Name>) returns (ok: bool, ghost rows: seq<Row>)
      requires Valid()
      modifies this`next, disk
      ensures Valid() && old(next) <= next && old(disk.past) <= disk.past
      ensures accepts && open.Some? ==> ok
      ensures ok ==> open.Some? && Readable(disk.files, open.value, {}, Rec(record))
      ensures ok && MainReads(old(disk.files), open.value, {}) ==> MainReads(disk.files, open.value, {})
      ensures ok ==> MainReads(old(disk.files), open.value, refused) || MainUnreadable(old(disk.files), open.value, refused)
                     || KeptAside(old(disk.files), disk.files, open.value)
      ensures ok ==> if MainUnreadable(old(disk.files), open.value, refused)
                     then AddedBeside(old(disk.files), disk.files, open.value, old(next), record)
                     else Merged(old(disk.files), disk.files, open.value, [Rec(record)] + rows)
                          && forall row :: row in rows <==> Readable(old(disk.files), open.value, refused, row)
      ensures SidecarsRead(refused) ==> Preserves(old(disk.files), disk.files)
      ensures SidecarsRead(refused) ==> forall f | f in disk.past[|old(disk.past)|..] :: Preserves(old(disk.files), f)
      ensures forall f | f in disk.past[|old(disk.past)|..] :: open.Some? && NewUnder(old(disk.files), f, open.value)
    {
      ghost var start, before := disk.files, |disk.past|;
      SameLandPreserves(start, start);
      rows := [];
      if open.None? { return false, []; }
      var g := open.value;
      var found := Read(g, refused);
      if found.Ok? {
        ok, rows := Prepend(g, found.value, record, accepts, refused);
        if ok { InTheMain(start, disk.files, g, record, rows); }
        return;
      }
      if found.error.Unreadable? {
        ok := WriteSidecar(g, record, accepts);
        if ok { BesideTheMain(start, disk.files, g, old(next), record); }
        LastIsNow(disk.past, before, start, disk.files);
        return;
      }
      ok, rows := AddAfresh(g, record, accepts, refused);
      if ok { InTheMain(start, disk.files, g, record, rows); }
    }

    /** A main file that holds no history is renamed out of the way before the first row is written. */
    method AddAfresh(g: nat, record: Record, accepts: bool, refused: set<Name>) returns (ok: bool, ghost rows: seq<Row>)
      requires Valid() && MainName(g) in disk.files && !Opens(disk.files, MainName(g)) && MainName(g) !in refused
      modifies this`next, disk
      ensures Valid() && old(next) <= next && old(disk.past) <= disk.past
      ensures accepts ==> ok
      ensures ok ==> forall row :: row in rows <==> Readable(old(disk.files), g, refused, row)
      ensures ok ==> Stored(disk.files, Rec(record)) && Merged(old(disk.files), disk.files, g, [Rec(record)] + rows)
      ensures ok ==> KeptAside(old(disk.files), disk.files, g)
      ensures SidecarsRead(refused) ==> Preserves(old(disk.files), disk.files)
      ensures SidecarsRead(refused) ==> forall f | f in disk.past[|old(disk.past)|..] :: Preserves(old(disk.files), f)
      ensures forall f | f in disk.past[|old(disk.past)|..] :: NewUnder(old(disk.files), f, g)
    {
      ghost var start, before := disk.files, |disk.past|;
      SameLandPreserves(start, start);
      var number: nat := *;
      ok := disk.Rename(MainName(g), Name(g, Aside(number)), accepts);
      rows := [];
      if !ok { return; }
      SettingAside(start, disk.files, g, number, next);
      ghost var cleared, sofar := disk.files, disk.past;
      ok, rows := Prepend(g, [], record, accepts, refused);
      if ok {
        MergedFromAside(start, cleared, disk.files, g, refused, [Rec(record)] + rows);
        assert Name(g, Aside(number)) in Asides(cleared) && Asides(disk.files)[Name(g, Aside(number))] == start[MainName(g)];
      }
      NewUnderOn(start, cleared, sofar, disk.past, g);
      if SidecarsRead(refused) {
        PreservedOn(start, cleared, sofar, disk.past);
        LastIsNow(disk.past, before, start, disk.files);
      }
    }

    /**
      * Read, change, write: `rows` is what the change ran over, exactly the rows that could be
      * read. `Landed` means the change is in the account file; a change that touched nothing, or
      * that the disk refused, left every file of the history as it was.
      */
    method Edit(f: Change, accepts: bool, refused: set<Name>) returns (wrote: Wrote, rows: seq<Row>)
      requires Valid() && Lawful(f)
      modifies this`next, disk
      ensures Valid() && old(next) <= next && old(disk.past) <= disk.past
      ensures wrote.Landed? ==> Touches(rows, f) && open.Some? && Merged(old(disk.files), disk.files, open.value, Touch(rows, f))
      ensures !wrote.Landed? ==> Land(disk.files) == Land(old(disk.files))
      ensures wrote.Untouched? ==> !Touches(rows, f)
      ensures !wrote.Failed? ==> open.Some? && MainReads(old(disk.files), open.value, refused)
      ensures accepts && open.Some? && MainReads(old(disk.files), open.value, refused) ==> !wrote.Failed?
      ensures wrote.Landed? ==> MainReads(disk.files, open.value, {}) && Shows(old(disk.files), disk.files, open.value, refused, f)
      ensures wrote.Landed? && accepts ==> ShowsNoMore(old(disk.files), disk.files, open.value, refused, f)
      ensures !wrote.Failed? ==> open.Some? && rows == AllRows(old(disk.files), open.value, refused, old(next))
      ensures !wrote.Failed? ==> open.Some? && MainName(open.value) !in refused
                                 && forall row :: row in rows <==> Readable(old(disk.files), open.value, refused, row)
      ensures SidecarsRead(refused) ==> Preserves(old(disk.files), disk.files)
      ensures SidecarsRead(refused) ==> forall f | f in disk.past[|old(disk.past)|..] :: Preserves(old(disk.files), f)
      ensures forall f | f in disk.past[|old(disk.past)|..] :: open.Some? && NewUnder(old(disk.files), f, open.value)
    {
      ghost var start, before := disk.files, |disk.past|;
      SameLandPreserves(start, start);
      if open.None? { return Wrote.Failed, []; }
      var g := open.value;
      var found := Read(g, refused);
      if found.Err? { return Wrote.Failed, []; }
      var more, adopted := AdoptSidecars(g, refused);
      rows := found.value + more;
      WhatWasReadIsReadable(start, g, refused, found.value, more);
      if !Touches(rows, f) { return Untouched, rows; }
      var ok := LandRows(g, Touch(rows, f), adopted, accepts);
      wrote := if ok then Landed else Wrote.Failed;
      if ok {
        AnEditShows(start, disk.files, g, refused, rows, f);
        if accepts { AnEditShowsNoMore(start, disk.files, g, refused, rows, f); }
      }
      if SidecarsRead(refused) {
        AnEditKeeps(start, disk.past[before..], g, refused, rows, f);
        LastIsNow(disk.past, before, start, disk.files);
      }
    }

    /** Write one leg's intent, before its signed bytes leave. `true` means a restart finds its number in use. */
    method RecordIntent(id: Id, leg: nat, draft: Record, accepts: bool, refused: set<Name>) returns (ok: bool)
      requires Valid()
      modifies this`next, disk
      ensures Valid() && old(next) <= next && old(disk.past) <= disk.past
      ensures accepts && open.Some? ==> ok
      ensures ok ==> open.Some? && Stored(disk.files, Rec(Intent(id, leg, draft)))
      ensures ok ==> Readable(disk.files, open.value, {}, Rec(Intent(id, leg, draft))) && Owns(id, leg, Intent(id, leg, draft))
      ensures draft.nonce.Some? ==>
                HoldsNumber(Rec(Intent(id, leg, draft)), Slot(Account(draft.chain, draft.from), draft.nonce.value))
      ensures ok && MainReads(old(disk.files), open.value, {}) ==> MainReads(disk.files, open.value, {})
      ensures SidecarsRead(refused) ==> Preserves(old(disk.files), disk.files)
      ensures SidecarsRead(refused) ==> forall f | f in disk.past[|old(disk.past)|..] :: Preserves(old(disk.files), f)
      ensures forall f | f in disk.past[|old(disk.past)|..] :: open.Some? && NewUnder(old(disk.files), f, open.value)
    {
      if open.None? {
        SameLandPreserves(disk.files, disk.files);
        return false;
      }
      var added, _ := Add(Intent(id, leg, draft), accepts, refused);
      ok := added;
      if ok { ReadableIsStored(disk.files, open.value, Rec(Intent(id, leg, draft))); }
    }

    /**
      * The node gave a hash: store it in the leg's row, which is pending from now on. On a disk that
      * takes the write it lands whenever the account file reads and shows the row.
      */
    method ResolveBroadcast(id: Id, leg: nat, hash: string, now: nat, accepts: bool, refused: set<Name>)
      returns (landed: bool, ghost rows: seq<Row>)
      requires Valid()
      modifies this`next, disk
      ensures Valid() && old(next) <= next && old(disk.past) <= disk.past
      ensures landed ==> open.Some? && MainReads(disk.files, open.value, {}) && Touches(rows, Rows.ResolveBroadcast(id, leg, hash, now))
                         && Merged(old(disk.files), disk.files, open.value, Touch(rows, Rows.ResolveBroadcast(id, leg, hash, now)))
      ensures landed ==> AnyOwned(old(disk.files), open.value, refused, id, leg)
      ensures accepts && open.Some? && MainReads(old(disk.files), open.value, refused) ==>
                landed == AnyOwned(old(disk.files), open.value, refused, id, leg)
      ensures landed ==> Resolved(old(disk.files), disk.files, open.value, refused, id, leg, hash, now)
      ensures landed && accepts ==> !AnyOwned(disk.files, open.value, {}, id, leg)
      ensures !landed ==> Land(disk.files) == Land(old(disk.files))
      ensures SidecarsRead(refused) ==> Preserves(old(disk.files), disk.files)
      ensures SidecarsRead(refused) ==> forall f | f in disk.past[|old(disk.past)|..] :: Preserves(old(disk.files), f)
    {
      ghost var start := disk.files;
      ResolvingIsLawful(id, leg, hash, now);
      var wrote, seen := Edit(Rows.ResolveBroadcast(id, leg, hash, now), accepts, refused);
      landed, rows := wrote.Landed?, seen;
      if !wrote.Failed? { TouchesTheOwned(start, open.value, refused, rows, id, leg, hash, now, ""); }
      if landed { ResolvingShows(start, disk.files, open.value, refused, id, leg, hash, now); }
    }

    /** It did not: the row stays unknown and records why. */
    method LeaveUnknown(id: Id, leg: nat, reason: string, accepts: bool, refused: set<Name>) returns (landed: bool, ghost rows: seq<Row>)
      requires Valid()
      modifies this`next, disk
      ensures Valid() && old(next) <= next && old(disk.past) <= disk.past
      ensures landed ==> open.Some? && MainReads(disk.files, open.value, {}) && Touches(rows, Rows.LeaveUnknown(id, leg, reason))
                         && Merged(old(disk.files), disk.files, open.value, Touch(rows, Rows.LeaveUnknown(id, leg, reason)))
      ensures landed ==> AnyOwned(old(disk.files), open.value, refused, id, leg)
      ensures accepts && open.Some? && MainReads(old(disk.files), open.value, refused) ==>
                landed == AnyOwned(old(disk.files), open.value, refused, id, leg)
      ensures landed ==> LeftUnknown(old(disk.files), disk.files, open.value, refused, id, leg, reason)
      ensures landed && accepts ==> AllGiveReason(disk.files, open.value, id, leg, reason)
      ensures !landed ==> Land(disk.files) == Land(old(disk.files))
      ensures SidecarsRead(refused) ==> Preserves(old(disk.files), disk.files)
      ensures SidecarsRead(refused) ==> forall f | f in disk.past[|old(disk.past)|..] :: Preserves(old(disk.files), f)
    {
      ghost var start := disk.files;
      LeavingUnknownIsLawful(id, leg, reason);
      var wrote, seen := Edit(Rows.LeaveUnknown(id, leg, reason), accepts, refused);
      landed, rows := wrote.Landed?, seen;
      if !wrote.Failed? { TouchesTheOwned(start, open.value, refused, rows, id, leg, "", 0, reason); }
      if landed { LeavingUnknownShows(start, disk.files, open.value, refused, id, leg, reason); }
    }

    /**
      * What a receipt says of a hash goes into every row that carries it. `Ok(true)` means that the
      * status of one of them moved, on disk; without a hash nothing is touched.
      */
    method ApplyReceipt(hash: string, word: Option<string>, now: nat, accepts: bool, refused: set<Name>) returns (moved: Result<bool, ()>)
      requires Valid()
      modifies this`next, disk
      ensures Valid() && old(next) <= next && old(disk.past) <= disk.past
      ensures hash == "" ==> moved == Ok(false)
      ensures hash == "" || moved.Err? ==> Land(disk.files) == Land(old(disk.files))
      ensures accepts && open.Some? && MainReads(old(disk.files), open.value, refused) ==> moved.Ok?
      ensures moved.Ok? && hash != "" ==>
                open.Some? && Received(old(disk.files), disk.files, open.value, refused, hash, word, now)
      ensures moved.Ok? && hash != "" ==> moved.value == AnyMoves(old(disk.files), open.value, refused, hash, word)
      ensures moved.Ok? && hash != "" && accepts ==> AllReceived(disk.files, open.value, refused, hash, word, now)
      ensures SidecarsRead(refused) ==> Preserves(old(disk.files), disk.files)
    {
      ghost var start := disk.files;
      SameLandPreserves(start, start);
      if hash == "" { return Ok(false); }
      ReceivingIsLawful(hash, Classified(word), now);
      var wrote, rows := Edit(Rows.ApplyReceipt(hash, Classified(word), now), accepts, refused);
      if wrote.Failed? { return Err(()); }
      var changed := MovesAny(rows, hash, word);
      moved := Ok(changed);
      assert changed == AnyMoves(start, open.value, refused, hash, word);
      if wrote.Landed? {
        ReceivingShows(start, disk.files, open.value, refused, hash, word, now);
        if accepts { ReceivingShowsNoMore(start, disk.files, open.value, refused, hash, word, now); }
      } else {
        NothingToReceive(start, disk.files, open.value, refused, rows, hash, word, now);
      }
    }

    /** The chain passed the row's number by: what is pending under the hash is replaced, by nobody known here. */
    method SettleReplaced(hash: string, now: nat, accepts: bool, refused: set<Name>) returns (moved: Result<bool, ()>)
      requires Valid()
      modifies this`next, disk
      ensures Valid() && old(next) <= next && old(disk.past) <= disk.past
      ensures moved.Err? ==> Land(disk.files) == Land(old(disk.files))
      ensures accepts && open.Some? && MainReads(old(disk.files), open.value, refused) ==> moved.Ok?
      ensures moved.Ok? ==> open.Some? && ChainSettled(old(disk.files), disk.files, open.value, refused, hash, now)
      ensures moved.Ok? ==> moved.value == AnyPendingAs(old(disk.files), open.value, refused, hash)
      ensures moved.Ok? && accepts ==> !AnyPendingAs(disk.files, open.value, refused, hash)
      ensures SidecarsRead(refused) ==> Preserves(old(disk.files), disk.files)
    {
      ghost var start := disk.files;
      ReplacingIsLawful(hash, now);
      var wrote, rows := Edit(Rows.SettleReplaced(hash, now), accepts, refused);
      if wrote.Failed? { return Err(()); }
      moved := Ok(wrote.Landed?);
      TouchesThePending(start, open.value, refused, rows, hash, now);
      if wrote.Landed? {
        ReplacingShows(start, disk.files, open.value, refused, hash, now);
        if accepts { ReplacingShowsNoMore(start, disk.files, open.value, refused, hash, now); }
      } else {
        LessIsRead(start, disk.files, open.value, refused);
      }
    }

    /** Every row of the account that can be read now. Nothing while it is closed. */
    method List(refused: set<Name>) returns (records: seq<Record>)
      requires Valid()
      ensures open.None? ==> records == []
      ensures open.Some? ==> multiset(records) == multiset(RecordsOf(AllRows(disk.files, open.value, refused, next)))
      ensures NewestFirst(records)
      ensures forall r :: r in records <==> open.Some? && Readable(disk.files, open.value, refused, Rec(r))
    {
      if open.None? { return []; }
      var found := Read(open.value, refused);
      var more, _ := AdoptSidecars(open.value, refused);
      var rows := (if found.Ok? then found.value else []) + more;
      WhatWasReadIsReadable(disk.files, open.value, refused, if found.Ok? then found.value else [], more);
      SortedIsTheListInOrder(RecordsOf(rows));
      records := Sorted(RecordsOf(rows));
      forall r ensures r in records <==> Rec(r) in rows {
        TheyAreTheRecords(rows, r);
        assert r in records <==> r in multiset(records);
        assert r in RecordsOf(rows) <==> r in multiset(RecordsOf(rows));
      }
    }

    /** The numbers one file's unsettled rows were signed at, when one of `keys` names the file and it reads. */
    function NumbersIn(name: Name, keys: set<nat>, refused: set<Name>): (held: set<Slot>)
      requires name in disk.files
      reads this, disk
      ensures forall s :: s in held <==> exists row :: SeenHeld(disk.files, keys, refused, name, row, s)
    {
      if name.generation !in keys || name.suffix.Aside? then {}
      else
        match disk.ReadToString(name, refused)
        case Err(_) => {}
        case Ok(found) =>
          match Unseal(name.generation, LandingOf(name.suffix).value, found.value)
          case Err(_) => {}
          case Ok(rows) =>
            assert Opens(disk.files, name);
            assert forall row, s :: SeenHeld(disk.files, keys, refused, name, row, s) <==> row in rows && HoldsNumber(row, s);
            NumbersHeld(rows)
    }

    /** The numbers the unsettled rows were signed at, in every file named under one of `keys` that reads. */
    method UnsettledNonces(keys: set<nat>, refused: set<Name>) returns (numbers: set<Slot>)
      ensures forall s :: s in numbers <==> exists name, row :: SeenHeld(disk.files, keys, refused, name, row, s)
    {
      numbers := {};
      var left := disk.files.Keys;
      while left != {}
        invariant left <= disk.files.Keys
        invariant forall s :: s in numbers <==> exists name, row :: name !in left && SeenHeld(disk.files, keys, refused, name, row, s)
        decreases left
      {
        var name :| name in left;
        ghost var already := numbers;
        numbers := numbers + NumbersIn(name, keys, refused);
        assert forall s :: s in numbers <==> s in already || exists row :: SeenHeld(disk.files, keys, refused, name, row, s);
        left := left - {name};
      }
    }

    // ---- Opening under a new key

    /** Move bytes that do not open to a name that says so. */
    method SetAside(source: Name, aside: Name, accepts: bool) returns (ok: bool)
      requires Valid() && Twins(disk.files) && source in disk.files && !Opens(disk.files, source)
      requires aside.suffix.Aside? && aside != source
      modifies disk
      ensures Valid() && old(disk.past) <= disk.past
      ensures forall f | f in disk.past[|old(disk.past)|..] :: Moving(old(disk.files), f)
      ensures Moving(old(disk.files), disk.files)
      ensures forall name | name != aside && name != source :: name in disk.files <==> name in old(disk.files)
      ensures ok ==> source !in disk.files && aside in disk.files && disk.files[aside] == old(disk.files)[source]
      ensures accepts ==> ok
    {
      ghost var start := disk.files;
      MovingReflexive(start);
      SettingBytesAside(start, (start - {source})[aside := start[source]], source, aside);
      ok := disk.Rename(source, aside, accepts);
    }

    /** A copy of `source` under a name of the current key, and then `source` goes. */
    method Reseal(source: Name, dest: Name, rows: seq<Row>, accepts: bool) returns (ok: bool)
      requires Valid() && Twins(disk.files) && Opens(disk.files, source) && rows == RowsAt(disk.files, source)
      requires dest !in disk.files && dest.suffix == source.suffix
      modifies this`next, disk
      ensures Valid() && old(next) <= next && old(disk.past) <= disk.past
      ensures forall f | f in disk.past[|old(disk.past)|..] :: Moving(old(disk.files), f)
      ensures Moving(old(disk.files), disk.files)
      ensures forall name: Name | name.generation != dest.generation && name != source ::
                name in disk.files <==> name in old(disk.files)
      ensures ok ==> source !in disk.files
      ensures accepts ==> ok
    {
      ghost var start, before := disk.files, |disk.past|;
      ghost var staged;
      ok, staged := WriteThenRename(dest, rows, accepts);
      ResealingMoves(start, disk.past[before..], source, dest, staged);
      ResealingMoves(start, [disk.files], source, dest, staged);
      assert disk.files in [disk.files];
      if !ok { return; }
      ghost var copied := disk.files;
      TheCopyLanded(start, copied, source, dest, staged);
      DroppingACopy(copied, source, dest);
      MovingTransitive(start, copied, copied - {source});
      ok := disk.Remove(source, accepts);
    }

    /**
      * Bring one file over to the key of generation `to`. Where the new name is taken, an interrupted
      * move got that far, and removing the old file finishes it.
      */
    method Migrate(source: Name, to: nat, accepts: bool, refused: set<Name>) returns (ok: bool)
      requires Valid() && Twins(disk.files) && source in disk.files && source.generation != to
      modifies this`next, disk
      ensures Valid() && old(next) <= next && old(disk.past) <= disk.past
      ensures forall f | f in disk.past[|old(disk.past)|..] :: Moving(old(disk.files), f)
      ensures Moving(old(disk.files), disk.files)
      ensures forall name: Name | name.generation != to && name != source :: name in disk.files <==> name in old(disk.files)
      ensures ok ==> source !in disk.files
      ensures ok && !Opens(old(disk.files), source) && Name(to, source.suffix) !in old(disk.files) ==>
                BytesUnder(disk.files, to, old(disk.files)[source])
      ensures accepts && source !in refused ==> ok
    {
      MovingReflexive(disk.files);
      var dest := Name(to, source.suffix);
      if dest in disk.files {
        DroppingACopy(disk.files, source, dest);
        ok := disk.Remove(source, accepts);
        return;
      }
      if source.suffix.Aside? {
        ok := SetAside(source, dest, accepts);
        return;
      }
      var txt := disk.ReadToString(source, refused);
      if txt.Err? { return false; }
      var plain := Unseal(source.generation, LandingOf(source.suffix).value, txt.value.value);
      if plain.Err? {
        // A file its own key cannot open is kept, under an aside name.
        var number: nat := *;
        ok := SetAside(source, Name(to, Aside(number)), accepts);
        return;
      }
      ok := Reseal(source, dest, plain.value, accepts);
    }

    /** Bring over all files named under the key of generation `from`. */
    method MigrateAll(from: nat, to: nat, accepts: bool, refused: set<Name>) returns (ok: bool)
      requires Valid() && Twins(disk.files) && from != to
      modifies this`next, disk
      ensures Valid() && old(next) <= next && old(disk.past) <= disk.past
      ensures forall f | f in disk.past[|old(disk.past)|..] :: Moving(old(disk.files), f)
      ensures Moving(old(disk.files), disk.files)
      ensures forall name: Name | name.generation != to && name.generation != from :: name in disk.files <==> name in old(disk.files)
      ensures ok ==> forall name | name in disk.files :: name.generation != from
      ensures accepts && refused == {} ==> ok
    {
      ghost var start, before := disk.files, |disk.past|;
      MovingReflexive(start);
      var files := set name | name in disk.files && name.generation == from;
      while files != {}
        invariant Valid() && old(next) <= next && old(disk.past) <= disk.past
        invariant forall name: Name | name.generation == from :: name in files <==> name in disk.files
        invariant forall name | name in files :: name.generation == from
        invariant Moving(start, disk.files) && forall f | f in disk.past[before..] :: Moving(start, f)
        invariant forall name: Name | name.generation != to && name.generation != from :: name in disk.files <==> name in start
        decreases files
      {
        var source :| source in files;
        ghost var f, since := disk.files, |disk.past|;
        ok := Migrate(source, to, accepts, refused);
        MovingOn(start, f, disk.files, disk.past[since..]);
        if !ok { return; }
        files := files - {source};
      }
      ok := true;
    }

    /**
      * Bring all files over to the current key and open the account under it. A file that cannot be
      * brought over leaves the account closed.
      */
    method Open(current: nat, older: set<nat>, accepts: bool, refused: set<Name>) returns (ok: bool)
      requires Valid() && Twins(disk.files)
      modifies this, disk
      ensures Valid() && old(next) <= next && old(disk.past) <= disk.past
      ensures forall f | f in disk.past[|old(disk.past)|..] :: Moving(old(disk.files), f)
      ensures Moving(old(disk.files), disk.files)
      ensures open == if ok then Some(current) else None
      ensures accepts && refused == {} ==> ok
      ensures ok && old(open).Some? && old(open).value != current ==>
                forall name | name in disk.files :: name.generation != old(open).value
      ensures ok ==> forall name | name in disk.files ::
                name.generation == current || (name.generation !in older && name in old(disk.files))
      ensures ok && (forall name | name in old(disk.files) :: name.generation == current || name.generation in older) ==>
                AllUnder(disk.files, current)
    {
      ghost var start, before := disk.files, |disk.past|;
      MovingReflexive(start);
      var keys := (older + if open.Some? then {open.value} else {}) - {current};
      var left := keys;
      while left != {}
        invariant Valid() && old(next) <= next && old(disk.past) <= disk.past && left <= keys && current !in keys
        invariant Moving(start, disk.files) && forall f | f in disk.past[before..] :: Moving(start, f)
        invariant forall name | name in disk.files && name.generation != current :: name in start && name.generation !in keys - left
        decreases left
      {
        var key := Newest(left);
        ghost var f, since := disk.files, |disk.past|;
        ok := MigrateAll(key, current, accepts, refused);
        MovingOn(start, f, disk.files, disk.past[since..]);
        if !ok {
          // Part of the history may be under the new names by now.
          open := None;
          return;
        }
        left := left - {key};
      }
      open := Some(current);
      ok := true;
    }

    /** Forget the account's key. */
    method Close()
      modifies this`open
      ensures open == None
    {
      open := None;
    }

    /** The mined rows of this account by number, among those that can be read now. */
    method MinedNumbers(refused: set<Name>) returns (won: Winners, ghost rows: seq<Row>)
      requires Valid()
      ensures AreWinners(won, rows)
      ensures forall row | row in rows :: row.Rec?
      ensures forall row: Row | row.Rec? :: row in rows <==> open.Some? && Readable(disk.files, open.value, refused, row)
    {
      var listed := List(refused);
      var entries := seq(|listed|, i requires 0 <= i < |listed| => Rec(listed[i]));
      WinnersAreMined(entries);
      won, rows := WinnersOf(entries), entries;
      forall row: Row | row.Rec? ensures row in rows <==> row.rec in listed {
        if row.rec in listed {
          var i :| 0 <= i < |listed| && listed[i] == row.rec;
          assert entries[i] == row;
        }
      }
    }

    /**
      * Find the numbers that mined rows took and mark what is still pending there as replaced. `Ok`
      * answers the hashes of the rows that were marked, and the account then holds `rows` after one pass of `won`. `won` names
      * stored mined rows, and all of those among `rows` when both readings read the same files.
      */
    method SettleSuperseded(accepts: bool, refused: set<Name>, later: set<Name>)
      returns (moved: Result<seq<string>, ()>, ghost rows: seq<Row>, ghost won: Winners)
      requires Valid()
      modifies this`next, disk
      ensures Valid()
      ensures forall number | number in won ::
                exists row :: Stored(old(disk.files), row) && IsMinedAt(row, number) && row.rec.hash == won[number]
      ensures moved.Err? ==> Land(disk.files) == Land(old(disk.files))
      ensures moved.Ok? && won != map[] ==>
                open.Some? && forall row :: row in rows <==> Readable(old(disk.files), open.value, later, row)
      ensures moved.Ok? && won != map[] && refused == later ==> AreWinners(won, rows)
      ensures moved.Ok? && won != map[] ==> SupersededBy(old(disk.files), disk.files, open.value, later, won)
      ensures accepts && open.Some? && MainReads(old(disk.files), open.value, later) ==> moved.Ok?
      ensures moved.Ok? && Touches(rows, Supersede(won)) ==>
                open.Some? && Merged(old(disk.files), disk.files, open.value, Touch(rows, Supersede(won)))
      ensures !Touches(rows, Supersede(won)) ==> Land(disk.files) == Land(old(disk.files))
      ensures moved.Ok? ==> forall hash :: hash in moved.value <==>
                exists i :: 0 <= i < |rows| && rows[i].Rec? && Moves(won, rows[i].rec) && rows[i].rec.hash == hash
    {
      ghost var start, listed := disk.files, [];
      var winners;
      winners, listed := MinedNumbers(refused);
      won, rows := winners, [];
      WinnersAreStored(disk.files, open, refused, listed, winners);
      if winners == map[] { return Ok([]), [], won; }
      SupersedingIsLawful(winners);
      var wrote, seen := Edit(Supersede(winners), accepts, later);
      rows := seen;
      var hashes := MovedHashes(seen, winners);
      if refused == later && !wrote.Failed? { SameRowsSameWinners(listed, seen, winners); }
      if !wrote.Failed? { SupersedingSettles(start, disk.files, open.value, later, seen, winners, wrote); }
      moved := if wrote.Failed? then Err(()) else Ok(hashes);
    }
  }

  /** Whether the answer changes the status of a row of the hash. */
  method MovesAny(rows: seq<Row>, hash: string, word: Option<string>) returns (moves: bool)
    ensures moves <==> exists r :: Rec(r) in rows && r.hash == hash && r.status != Verdict(word, r.status)
  {
    moves := false;
    for n := 0 to |rows|
      invariant moves <==> exists i :: 0 <= i < n && rows[i].Rec? && rows[i].rec.hash == hash
                                       && rows[i].rec.status != Verdict(word, rows[i].rec.status)
    {
      if rows[n].Rec? && rows[n].rec.hash == hash {
        match Classified(word) {
          case NotMined =>
          case MinedAs(ok) => moves := moves || rows[n].rec.status != if ok then Confirmed else RowStatus.Failed;
        }
      }
    }
    if i :| 0 <= i < |rows| && rows[i].Rec? && rows[i].rec.hash == hash && rows[i].rec.status != Verdict(word, rows[i].rec.status) {
      assert Rec(rows[i].rec) in rows;
    }
  }

  /** The hashes a pass settles, in the order of the rows. */
  method MovedHashes(rows: seq<Row>, won: Winners) returns (moved: seq<string>)
    ensures forall hash :: hash in moved <==>
              exists i :: 0 <= i < |rows| && rows[i].Rec? && Moves(won, rows[i].rec) && rows[i].rec.hash == hash
  {
    moved := [];
    for n := 0 to |rows|
      invariant forall hash :: hash in moved <==>
                  exists i :: 0 <= i < n && rows[i].Rec? && Moves(won, rows[i].rec) && rows[i].rec.hash == hash
    {
      if rows[n].Rec? && Moves(won, rows[n].rec) { moved := moved + [rows[n].rec.hash]; }
    }
  }

  /** The row can be read out of sidecar `n` now. */
  ghost predicate FromSidecar(f: Files, g: nat, n: nat, refused: set<Name>, row: Row) {
    SidecarName(g, n) !in refused && StoredAt(f, SidecarName(g, n), row)
  }

  /** The row's outcome is open, so its number is in use. */
  predicate HoldsNumber(row: Row, s: Slot) {
    && row.Rec? && (row.rec.status.Unknown? || row.rec.status.Pending?)
    && row.rec.nonce.Some? && s == Slot(Account(row.rec.chain, row.rec.from), row.rec.nonce.value)
  }

  /** An unsettled row holds the number, in a file of any kind one of `keys` names and opens now. */
  ghost predicate SeenHeld(f: Files, keys: set<nat>, refused: set<Name>, name: Name, row: Row, s: Slot) {
    && name.generation in keys && name !in refused
    && Opens(f, name) && row in RowsAt(f, name) && HoldsNumber(row, s)
  }

  function NumbersHeld(rows: seq<Row>): (numbers: set<Slot>)
    ensures forall s :: s in numbers <==> exists row :: row in rows && HoldsNumber(row, s)
  {
    var holding := set row | row in rows && row.Rec? && row.rec.Unsettled() && row.rec.nonce.Some?;
    set row | row in holding :: Slot(Account(row.rec.chain, row.rec.from), row.rec.nonce.value)
  }

  // ---- Why the doors keep their word

  lemma StagingKeepsNumbers(f: Files, f': Files, staged: Name, next: nat)
    requires SameBut(f, f', {staged}) && staged.suffix.Staged? && staged.suffix.number < next
    requires NumbersBelow(f, next - 1)
    ensures NumbersBelow(f', next)
  {
    forall name | name in f' && name != staged ensures name in f {
      assert name in f' - {staged};
    }
  }

  lemma RenamingLands(start: Files, ready: Files, f: Files, from: Name, to: Name)
    requires from in ready && from != to && SameBut(start, ready, {from})
    requires f == (ready - {from})[to := ready[from]]
    ensures SameBut(start[to := ready[from]], f, {from})
  {
    assert f - {from} == (ready - {from})[to := ready[from]];
    assert start[to := ready[from]] - {from} == (start - {from})[to := ready[from]];
  }

  lemma ResealingMoves(start: Files, since: seq<Files>, source: Name, dest: Name, staged: Name)
    requires Twins(start) && Opens(start, source) && dest !in start && dest.suffix == source.suffix
    requires staged.suffix.Staged? && forall name | name in start :: name.suffix != staged.suffix
    requires var written := start[dest := Sealed(dest.generation, LandingOf(dest.suffix).value, RowsAt(start, source))];
             forall f | f in since :: SameBut(start, f, {staged}) || SameBut(written, f, {staged})
    ensures forall f | f in since :: Moving(start, f)
    ensures forall f, name | f in since && name != dest && name != staged :: name in f <==> name in start
  {
    var written := start[dest := Sealed(dest.generation, LandingOf(dest.suffix).value, RowsAt(start, source))];
    LandingACopy(start, source, dest);
    forall f, name | f in since && name != dest && name != staged ensures name in f <==> name in start {
      assert name in f <==> name in f - {staged};
    }
    forall f | f in since ensures Moving(start, f) {
      if SameBut(start, f, {staged}) {
        StagingAlone(start, f, staged);
      } else {
        StagingAlone(written, f, staged);
        MovingTransitive(start, written, f);
      }
    }
  }

  lemma TheCopyLanded(start: Files, f: Files, source: Name, dest: Name, staged: Name)
    requires Opens(start, source) && dest.suffix == source.suffix && staged !in {source, dest}
    requires SameBut(start[dest := Sealed(dest.generation, LandingOf(dest.suffix).value, RowsAt(start, source))], f, {staged})
    ensures source in f && dest in f
  {
    var written := start[dest := Sealed(dest.generation, LandingOf(dest.suffix).value, RowsAt(start, source))];
    assert source in written - {staged} && dest in written - {staged};
    assert source in f - {staged} && dest in f - {staged};
  }

  lemma MovingOn(start: Files, f: Files, now: Files, since: seq<Files>)
    requires Moving(start, f) && Moving(f, now) && forall h | h in since :: Moving(f, h)
    ensures Moving(start, now) && forall h | h in since :: Moving(start, h)
  {
    MovingTransitive(start, f, now);
    forall h | h in since ensures Moving(start, h) { MovingTransitive(start, f, h); }
  }

  method Newest(keys: set<nat>) returns (key: nat)
    requires keys != {}
    ensures key in keys && forall k | k in keys :: k <= key
  {
    key :| key in keys;
    var left := keys - {key};
    while left != {}
      invariant left <= keys && key in keys && forall k | k in keys && k !in left :: k <= key
      decreases left
    {
      var k :| k in left;
      if key < k { key := k; }
      left := left - {k};
    }
  }

  lemma OnlyStaged(f: Files, f': Files, staged: Name)
    requires SameBut(f, f', {staged})
    ensures forall name | name in f' :: name in f || name == staged
  {
    forall name | name in f' && name != staged ensures name in f { assert name in f' - {staged}; }
  }

  lemma ARewriteIsAMerge(start: Files, f: Files, g: nat, rows: seq<Row>, staged: Name)
    requires SameBut(start[MainName(g) := Sealed(g, Main, rows)], f, {staged}) && staged.suffix.Staged?
    ensures Merged(start, f, g, rows)
  {
    OffTheRecord(start[MainName(g) := Sealed(g, Main, rows)], f, staged);
  }

  /** Beside its staged file, a landing leaves the history as it was, or merged. */
  lemma StagedOrLanded(start: Files, f: Files, g: nat, rows: seq<Row>, staged: Name)
    requires staged.suffix.Staged? && staged.generation == g
    ensures SameBut(start, f, {staged}) ==>
              Land(f) == Land(start) && NewUnder(start, f, g) && Asides(f) == Asides(start)
    ensures SameBut(start[MainName(g) := Sealed(g, Main, rows)], f, {staged}) ==>
              Merged(start, f, g, rows) && NewUnder(start, f, g) && Asides(f) == Asides(start)
  {
    var rewritten := start[MainName(g) := Sealed(g, Main, rows)];
    if SameBut(start, f, {staged}) {
      OffTheRecord(start, f, staged);
      OnlyStaged(start, f, staged);
      ChangedElsewhere(start, f, {staged});
    }
    if SameBut(rewritten, f, {staged}) {
      ARewriteIsAMerge(start, f, g, rows, staged);
      OnlyStaged(rewritten, f, staged);
      assert rewritten - {MainName(g)} == start - {MainName(g)};
      ChangedElsewhere(start, rewritten, {MainName(g)});
      ChangedElsewhere(rewritten, f, {staged});
    }
  }

  lemma DroppingASidecar(start: Files, f: Files, f': Files, g: nat, rows: seq<Row>, n: nat)
    requires Merged(start, f, g, rows) && f' == f - {SidecarName(g, n)}
    ensures Merged(start, f', g, rows)
  {
    assert Land(f') == Land(f) - {SidecarName(g, n)};
  }

  lemma ANewFilePreserves(f: Files, f': Files, name: Name, box: Box)
    requires name !in f && name.suffix.At?
    requires Land(f') == Land(f) || Land(f') == Land(f)[name := box]
    ensures Preserves(f, f')
  {
    if Land(f') == Land(f) {
      SameLandPreserves(f, f');
    } else {
      forall row | Stored(f, row) ensures exists row' :: Stored(f', row') && Carries(row, row') {
        var at :| StoredAt(f, at, row);
        assert at in Land(f) && at in Land(f') && Land(f')[at] == f'[at] && Land(f)[at] == f[at];
        assert StoredAt(f', at, row) && Carries(row, row);
      }
    }
  }

  /** An account file that is no history holds no row, so moving it aside loses none. */
  lemma SettingAside(f: Files, f': Files, g: nat, number: nat, next: nat)
    requires MainName(g) in f && !Opens(f, MainName(g)) && NumbersBelow(f, next)
    requires f' == (f - {MainName(g)})[Name(g, Aside(number)) := f[MainName(g)]]
    ensures Preserves(f, f') && NumbersBelow(f', next) && MainName(g) !in f'
    ensures NewUnder(f, f', g) && Land(f') == Land(f) - {MainName(g)}
  {
    forall row | Stored(f, row) ensures exists row' :: Stored(f', row') && Carries(row, row') {
      var at :| StoredAt(f, at, row);
      assert StoredAt(f', at, row) && Carries(row, row);
    }
  }

  lemma EverySidecarIsAmongThem(f: Files, g: nat, refused: set<Name>, next: nat)
    requires NumbersBelow(f, next)
    ensures forall row :: row in SidecarRows(f, g, refused, next) <==> exists n :: FromSidecar(f, g, n, refused, row)
  {
    forall row ensures row in SidecarRows(f, g, refused, next) <==> exists n :: FromSidecar(f, g, n, refused, row) {
      TheyAreTheSidecarsRows(f, g, refused, next, row);
      forall n: nat | FromSidecar(f, g, n, refused, row) ensures n < next {
        assert NumberBelow(SidecarName(g, n), next);
      }
      assert forall n: nat :: FromSidecar(f, g, n, refused, row) <==>
                              n < next && SidecarName(g, n) !in refused && StoredAt(f, SidecarName(g, n), row);
    }
  }

  /** What is merged once the account file is out of the way is merged with what was there before. */
  lemma MergedFromAside(f: Files, cleared: Files, f': Files, g: nat, refused: set<Name>, rows: seq<Row>)
    requires MainName(g) in f && !Opens(f, MainName(g)) && MainName(g) !in cleared
    requires Land(cleared) == Land(f) - {MainName(g)} && Merged(cleared, f', g, rows)
    ensures Merged(f, f', g, rows)
    ensures forall row :: Readable(cleared, g, refused, row) <==> Readable(f, g, refused, row)
  {
    forall name, row | name != MainName(g) ensures StoredAt(cleared, name, row) <==> StoredAt(f, name, row) {
      if name.suffix.At? { assert name in Land(cleared) <==> name in Land(f); }
      assert name in Land(f) ==> Land(cleared)[name] == Land(f)[name];
    }
    assert forall row :: !StoredAt(cleared, MainName(g), row) && !StoredAt(f, MainName(g), row);
  }

  lemma ReadableIsStored(f: Files, g: nat, row: Row)
    requires Readable(f, g, {}, row)
    ensures Stored(f, row)
  {
    if !StoredAt(f, MainName(g), row) {
      var n :| StoredAt(f, SidecarName(g, n), row);
    }
  }

  /** What reads when some reads fail also reads when none does. */
  lemma LessIsRead(f: Files, f': Files, g: nat, refused: set<Name>)
    requires Land(f') == Land(f)
    ensures forall row :: Readable(f, g, refused, row) ==> Readable(f', g, {}, row)
    ensures forall row :: Readable(f', g, refused, row) ==> Readable(f, g, refused, row)
  {
    forall name, row ensures StoredAt(f, name, row) <==> StoredAt(f', name, row) {
      if name.suffix.At? {
        assert name in Land(f) <==> name in Land(f');
        assert name in f ==> Land(f)[name] == f[name] && Land(f')[name] == f'[name];
      }
    }
  }

  lemma WhatAnEditTouched(f: Files, g: nat, refused: set<Name>, rows: seq<Row>, change: Change)
    requires forall row :: row in rows <==> Readable(f, g, refused, row)
    ensures Touches(rows, change) <==> exists r :: Readable(f, g, refused, Rec(r)) && change(r).1
  {
    if Touches(rows, change) {
      var i :| 0 <= i < |rows| && rows[i].Rec? && change(rows[i].rec).1;
      assert rows[i] in rows && rows[i] == Rec(rows[i].rec);
    }
    if r :| Readable(f, g, refused, Rec(r)) && change(r).1 {
      var i :| 0 <= i < |rows| && rows[i] == Rec(r);
    }
  }

  lemma TouchesTheOwned(f: Files, g: nat, refused: set<Name>, rows: seq<Row>, id: Id, leg: nat, hash: string, now: nat, reason: string)
    requires forall row :: row in rows <==> Readable(f, g, refused, row)
    ensures Touches(rows, Rows.ResolveBroadcast(id, leg, hash, now)) <==> AnyOwned(f, g, refused, id, leg)
    ensures Touches(rows, Rows.LeaveUnknown(id, leg, reason)) <==> AnyOwned(f, g, refused, id, leg)
  {
    WhatAnEditTouched(f, g, refused, rows, Rows.ResolveBroadcast(id, leg, hash, now));
    WhatAnEditTouched(f, g, refused, rows, Rows.LeaveUnknown(id, leg, reason));
    assert forall r :: Rows.ResolveBroadcast(id, leg, hash, now)(r).1 == Rows.LeaveUnknown(id, leg, reason)(r).1 == Owns(id, leg, r);
  }

  lemma ShownAs(f: Files, f': Files, g: nat, refused: set<Name>, change: Change, r: Record)
    requires Shows(f, f', g, refused, change) && Readable(f, g, refused, Rec(r))
    ensures Readable(f', g, {}, Rec(change(r).0))
  {
    assert Changed(Rec(r), change) == Rec(change(r).0);
  }

  lemma ResolvingShows(f: Files, f': Files, g: nat, refused: set<Name>, id: Id, leg: nat, hash: string, now: nat)
    requires Shows(f, f', g, refused, Rows.ResolveBroadcast(id, leg, hash, now))
    ensures Resolved(f, f', g, refused, id, leg, hash, now)
    ensures ShowsNoMore(f, f', g, refused, Rows.ResolveBroadcast(id, leg, hash, now)) ==> !AnyOwned(f', g, {}, id, leg)
  {
    forall r | Readable(f, g, refused, Rec(r))
      ensures Readable(f', g, {}, Rec(if Owns(id, leg, r) then r.(hash := hash, status := Pending, timestamp := now) else r))
    {
      ShownAs(f, f', g, refused, Rows.ResolveBroadcast(id, leg, hash, now), r);
    }
  }

  lemma LeavingUnknownShows(f: Files, f': Files, g: nat, refused: set<Name>, id: Id, leg: nat, reason: string)
    requires Shows(f, f', g, refused, Rows.LeaveUnknown(id, leg, reason))
    ensures LeftUnknown(f, f', g, refused, id, leg, reason)
    ensures ShowsNoMore(f, f', g, refused, Rows.LeaveUnknown(id, leg, reason)) ==> AllGiveReason(f', g, id, leg, reason)
  {
    forall r | Readable(f, g, refused, Rec(r))
      ensures Readable(f', g, {}, Rec(if Owns(id, leg, r) then r.(unknownReason := Some(reason)) else r))
    {
      ShownAs(f, f', g, refused, Rows.LeaveUnknown(id, leg, reason), r);
    }
  }

  lemma ReceivingShows(f: Files, f': Files, g: nat, refused: set<Name>, hash: string, word: Option<string>, now: nat)
    requires hash != "" && Shows(f, f', g, refused, Rows.ApplyReceipt(hash, Classified(word), now))
    ensures Received(f, f', g, refused, hash, word, now)
  {
    forall r | Readable(f, g, refused, Rec(r))
      ensures Readable(f', g, {}, Rec(if r.hash == hash then r.(lastPolledAt := now, status := Verdict(word, r.status)) else r))
    {
      ShownAs(f, f', g, refused, Rows.ApplyReceipt(hash, Classified(word), now), r);
    }
  }

  lemma AReceiptIsKept(r: Record, hash: string, word: Option<string>, now: nat)
    requires hash != ""
    ensures var k := Rows.ApplyReceipt(hash, Classified(word), now)(r).0;
            k.hash == r.hash && (k.hash == hash ==> k.lastPolledAt == now && k.status == Verdict(word, k.status))
  {}

  lemma ReadWhenNoneFails(f: Files, g: nat, refused: set<Name>, row: Row)
    requires Readable(f, g, refused, row)
    ensures Readable(f, g, {}, row)
  {}

  lemma ReceivingShowsNoMore(f: Files, f': Files, g: nat, refused: set<Name>, hash: string, word: Option<string>, now: nat)
    requires hash != "" && ShowsNoMore(f, f', g, refused, Rows.ApplyReceipt(hash, Classified(word), now))
    ensures AllReceived(f', g, refused, hash, word, now)
  {
    forall k | Readable(f', g, refused, Rec(k)) && k.hash == hash
      ensures k.lastPolledAt == now && k.status == Verdict(word, k.status)
    {
      ReadWhenNoneFails(f', g, refused, Rec(k));
      var row :| Readable(f, g, refused, row) && Rec(k) == Changed(row, Rows.ApplyReceipt(hash, Classified(word), now));
      AReceiptIsKept(row.rec, hash, word, now);
    }
  }

  lemma NothingToReceive(f: Files, f': Files, g: nat, refused: set<Name>, rows: seq<Row>, hash: string, word: Option<string>, now: nat)
    requires hash != "" && Land(f') == Land(f) && !Touches(rows, Rows.ApplyReceipt(hash, Classified(word), now))
    requires forall row :: row in rows <==> Readable(f, g, refused, row)
    ensures Received(f, f', g, refused, hash, word, now) && AllReceived(f', g, refused, hash, word, now)
  {
    WhatAnEditTouched(f, g, refused, rows, Rows.ApplyReceipt(hash, Classified(word), now));
    LessIsRead(f, f', g, refused);
    forall r | Readable(f, g, refused, Rec(r)) ensures r.hash != hash {
      assert !Rows.ApplyReceipt(hash, Classified(word), now)(r).1;
    }
  }

  lemma TouchesThePending(f: Files, g: nat, refused: set<Name>, rows: seq<Row>, hash: string, now: nat)
    requires forall row :: row in rows <==> Readable(f, g, refused, row)
    ensures Touches(rows, Rows.SettleReplaced(hash, now)) <==> AnyPendingAs(f, g, refused, hash)
  {
    WhatAnEditTouched(f, g, refused, rows, Rows.SettleReplaced(hash, now));
    assert forall r :: Rows.SettleReplaced(hash, now)(r).1 == PendingAs(r, hash);
  }

  lemma ReplacingShows(f: Files, f': Files, g: nat, refused: set<Name>, hash: string, now: nat)
    requires Shows(f, f', g, refused, Rows.SettleReplaced(hash, now))
    ensures ChainSettled(f, f', g, refused, hash, now)
  {
    forall r | Readable(f, g, refused, Rec(r))
      ensures Readable(f', g, {}, Rec(if PendingAs(r, hash) then r.(lastPolledAt := now, status := Replaced) else r))
    {
      ShownAs(f, f', g, refused, Rows.SettleReplaced(hash, now), r);
    }
  }

  lemma ReplacingShowsNoMore(f: Files, f': Files, g: nat, refused: set<Name>, hash: string, now: nat)
    requires ShowsNoMore(f, f', g, refused, Rows.SettleReplaced(hash, now))
    ensures !AnyPendingAs(f', g, refused, hash)
  {
    forall k | Readable(f', g, refused, Rec(k)) ensures !PendingAs(k, hash) {
      ReadWhenNoneFails(f', g, refused, Rec(k));
      var row :| Readable(f, g, refused, row) && Rec(k) == Changed(row, Rows.SettleReplaced(hash, now));
    }
  }

  lemma SupersedingSettles(f: Files, f': Files, g: nat, refused: set<Name>, rows: seq<Row>, won: Winners, wrote: Wrote)
    requires forall row :: row in rows <==> Readable(f, g, refused, row)
    requires if wrote.Landed? then Shows(f, f', g, refused, Supersede(won)) else Land(f') == Land(f) && !Touches(rows, Supersede(won))
    ensures SupersededBy(f, f', g, refused, won)
  {
    WhatAnEditTouched(f, g, refused, rows, Supersede(won));
    LessIsRead(f, if wrote.Landed? then f else f', g, refused);
    forall r | Readable(f, g, refused, Rec(r)) ensures Readable(f', g, {}, Rec(Supersede(won)(r).0)) {
      if wrote.Landed? {
        ShownAs(f, f', g, refused, Supersede(won), r);
      } else {
        assert !Supersede(won)(r).1;
      }
    }
  }

  lemma InTheMain(f: Files, f': Files, g: nat, record: Record, rows: seq<Row>)
    requires Merged(f, f', g, [Rec(record)] + rows)
    ensures Readable(f', g, {}, Rec(record)) && MainReads(f', g, {})
  {
    MergedStores(f, f', g, [Rec(record)] + rows, Rec(record));
  }

  lemma BesideTheMain(f: Files, f': Files, g: nat, number: nat, record: Record)
    requires AddedBeside(f, f', g, number, record)
    ensures Readable(f', g, {}, Rec(record)) && (MainReads(f, g, {}) ==> MainReads(f', g, {}))
  {
    assert SidecarName(g, number) in Land(f') && Land(f')[SidecarName(g, number)] == f'[SidecarName(g, number)];
    assert StoredAt(f', SidecarName(g, number), Rec(record));
    if MainName(g) in f' { assert MainName(g) in Land(f') && Land(f')[MainName(g)] == f'[MainName(g)] == Land(f)[MainName(g)]; }
  }

  lemma WhatWasReadIsReadable(f: Files, g: nat, refused: set<Name>, main: seq<Row>, more: seq<Row>)
    requires if MainName(g) in refused then main == [] else main == MainRows(f, g)
    requires forall row :: row in more <==> exists n :: FromSidecar(f, g, n, refused, row)
    ensures forall row :: row in main + more <==> Readable(f, g, refused, row)
  {
    forall row ensures row in main <==> MainName(g) !in refused && StoredAt(f, MainName(g), row) {}
    forall row ensures row in more <==> exists n :: SidecarName(g, n) !in refused && StoredAt(f, SidecarName(g, n), row) {
      assert forall n :: FromSidecar(f, g, n, refused, row) <==> SidecarName(g, n) !in refused && StoredAt(f, SidecarName(g, n), row);
    }
  }

  lemma AllRowsAreCovered(f: Files, g: nat, rows: seq<Row>, refused: set<Name>)
    requires forall row | row in MainRows(f, g) :: row in rows
    requires forall n, row | FromSidecar(f, g, n, refused, row) :: row in rows
    requires SidecarsRead(refused)
    ensures Covers(f, g, rows)
  {
    forall row | Readable(f, g, {}, row) ensures exists k :: k in rows && Carries(row, k) {
      if !StoredAt(f, MainName(g), row) {
        var n :| StoredAt(f, SidecarName(g, n), row);
        assert FromSidecar(f, g, n, refused, row);
      }
      assert row in rows && Carries(row, row);
    }
  }

  lemma WinnersAreStored(f: Files, open: Option<nat>, refused: set<Name>, rows: seq<Row>, won: Winners)
    requires AreWinners(won, rows)
    requires forall row | row in rows :: open.Some? && Readable(f, open.value, refused, row)
    ensures forall number | number in won ::
              exists row :: Stored(f, row) && IsMinedAt(row, number) && row.rec.hash == won[number]
  {
    forall number | number in won
      ensures exists row :: Stored(f, row) && IsMinedAt(row, number) && row.rec.hash == won[number]
    {
      var i :| 0 <= i < |rows| && IsMinedAt(rows[i], number) && rows[i].rec.hash == won[number];
      assert rows[i] in rows;
    }
  }

  lemma SameRowsSameWinners(rows: seq<Row>, again: seq<Row>, won: Winners)
    requires AreWinners(won, rows) && forall row: Row | row.Rec? :: row in rows <==> row in again
    ensures AreWinners(won, again)
  {
    forall i, number | 0 <= i < |again| && IsMinedAt(again[i], number) ensures number in won {
      assert again[i] in rows;
      var k :| 0 <= k < |rows| && rows[k] == again[i];
    }
    forall number | number in won
      ensures exists i :: 0 <= i < |again| && IsMinedAt(again[i], number) && again[i].rec.hash == won[number]
    {
      var k :| 0 <= k < |rows| && IsMinedAt(rows[k], number) && rows[k].rec.hash == won[number];
      assert rows[k] in again;
    }
  }

  /** A lawful change of a list that covers the files still covers them. */
  lemma TouchingCovers(f: Files, g: nat, rows: seq<Row>, change: Change)
    requires Covers(f, g, rows) && Lawful(change)
    ensures Covers(f, g, Touch(rows, change))
  {
    var touched := Touch(rows, change);
    forall row | Readable(f, g, {}, row) ensures exists t :: t in touched && Carries(row, t) {
      var k :| k in rows && Carries(row, k);
      var i :| 0 <= i < |rows| && rows[i] == k;
      TouchCarries(rows, change, i);
      CarriesTransitive(row, k, touched[i]);
      assert touched[i] in touched;
    }
  }

  lemma LastIsNow(past: seq<Files>, before: nat, start: Files, now: Files)
    requires 0 < before <= |past| && past[before - 1] == start && past[|past| - 1] == now
    requires forall f | f in past[before..] :: Preserves(start, f)
    ensures Preserves(start, now)
  {
    if before == |past| {
      SameLandPreserves(start, start);
    } else {
      assert past[|past| - 1] == past[before..][|past| - 1 - before];
    }
  }

  lemma AMergeKeeps(start: Files, since: seq<Files>, g: nat, rows: seq<Row>)
    requires Covers(start, g, rows)
    requires forall f | f in since :: Land(f) == Land(start) || Merged(start, f, g, rows)
    ensures forall f | f in since :: Preserves(start, f)
  {
    forall f | f in since ensures Preserves(start, f) {
      if Merged(start, f, g, rows) { MergePreserves(start, f, g, rows); } else { SameLandPreserves(start, f); }
    }
  }

  lemma NewUnderOn(start: Files, cleared: Files, sofar: seq<Files>, past: seq<Files>, g: nat)
    requires 0 < |sofar| && sofar[|sofar| - 1] == cleared && sofar <= past && NewUnder(start, cleared, g)
    requires forall f | f in past[|sofar|..] :: NewUnder(cleared, f, g)
    ensures forall f | f in past[|sofar| - 1..] :: NewUnder(start, f, g)
  {
    assert past[|sofar| - 1..] == [cleared] + past[|sofar|..];
  }

  lemma PreservedOn(start: Files, cleared: Files, sofar: seq<Files>, past: seq<Files>)
    requires 0 < |sofar| && sofar[|sofar| - 1] == cleared && sofar <= past && Preserves(start, cleared)
    requires forall f | f in past[|sofar|..] :: Preserves(cleared, f)
    ensures forall f | f in past[|sofar| - 1..] :: Preserves(start, f)
  {
    assert past[|sofar| - 1..] == [cleared] + past[|sofar|..];
    forall f | f in past[|sofar| - 1..] ensures Preserves(start, f) {
      if f in past[|sofar|..] { PreservesTransitive(start, cleared, f); }
    }
  }

  lemma AnEditKeeps(start: Files, since: seq<Files>, g: nat, refused: set<Name>, rows: seq<Row>, change: Change)
    requires Lawful(change) && SidecarsRead(refused) && MainName(g) !in refused
    requires forall row :: row in rows <==> Readable(start, g, refused, row)
    requires forall f | f in since :: Land(f) == Land(start) || Merged(start, f, g, Touch(rows, change))
    ensures forall f | f in since :: Preserves(start, f)
  {
    forall row | Readable(start, g, {}, row) ensures exists k :: k in rows && Carries(row, k) {
      assert Readable(start, g, refused, row);
      assert Carries(row, row);
    }
    TouchingCovers(start, g, rows, change);
    AMergeKeeps(start, since, g, Touch(rows, change));
  }

  lemma MergedStores(f: Files, f': Files, g: nat, rows: seq<Row>, row: Row)
    requires Merged(f, f', g, rows) && row in rows
    ensures StoredAt(f', MainName(g), row)
  {
    assert Land(f')[MainName(g)] == f'[MainName(g)];
  }
}
