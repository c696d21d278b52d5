/**
  * The history directory of one account, as a process sees it and as a crash leaves it. Every
  * state the directory passes through is kept in `past`: a crash at any moment leaves one of them.
  */
module Disks {
  import opened Basics
  import opened Rows

  /** Where rows end up: an account's main file, or a sidecar. */
  datatype Landing = Main | Sidecar(number: nat)

  /** What follows an account's name in a file name; `Aside` stands for bytes set aside as unreadable. */
  datatype Suffix = At(landing: Landing) | Staged(of: Landing, number: nat) | Aside(number: nat)

  /** A file name: an account's name under the key of one generation, and a suffix. */
  datatype Name = Name(generation: nat, suffix: Suffix)

  /** A box sealed under one generation's key for one landing name, or other bytes. */
  datatype Box = Sealed(generation: nat, landing: Landing, rows: seq<Row>) | Junk

  type Files = map<Name, Box>

  /** The landing a file's box must be sealed for. */
  function LandingOf(s: Suffix): Option<Landing> {
    match s
    case At(landing) => Some(landing)
    case Staged(of, _) => Some(of)
    case Aside(_) => None
  }

  datatype ReadFailure = Unreadable | NotHistory

  /** The rows a key of generation `g` opens; a box of some other generation only counts as unreadable. */
  function Unseal(g: nat, landing: Landing, box: Box): Result<seq<Row>, ReadFailure> {
    match box
    case Junk => Err(NotHistory)
    case Sealed(generation, l, rows) =>
      if generation != g then Err(Unreadable)
      else if l != landing then Err(NotHistory)
      else Ok(rows)
  }

  /** The file under `name` opens with the key that named it. */
  predicate Opens(files: Files, name: Name) {
    && name in files && LandingOf(name.suffix).Some?
    && Unseal(name.generation, LandingOf(name.suffix).value, files[name]).Ok?
  }

  function RowsAt(files: Files, name: Name): seq<Row>
    requires Opens(files, name)
  {
    files[name].rows
  }

  /** The two directories agree on everything but the names given. */
  predicate SameBut(f: Files, f': Files, names: set<Name>) {
    f' - names == f - names
  }

  /**
    * The files of one address, with every state they pass through. A write may be refused at any time,
    * for reasons of the disk's own; it is not where a call is told that the disk `accepts`.
    */
  class Disk {
    var files: Files
    ghost var past: seq<Files>

    ghost predicate Valid()
      reads this
    {
      |past| > 0 && past[|past| - 1] == files
    }

    constructor (found: Files)
      ensures Valid() && files == found && past == [found]
    {
      files := found;
      past := [found];
    }

    method Put(next: Files)
      modifies this
      ensures Valid() && files == next && past == old(past) + [next]
    {
      files := next;
      past := past + [next];
    }

    /** Create or truncate, then write: it may be refused at once, or leave part of the bytes. */
    method WritePrivate(name: Name, box: Box, accepts: bool) returns (ok: bool)
      requires Valid()
      modifies this
      ensures Valid() && (accepts ==> ok)
      ensures SameBut(old(files), files, {name}) && (ok ==> name in files && files[name] == box)
      ensures old(past) <= past
      ensures forall i | |old(past)| <= i < |past| :: SameBut(old(files), past[i], {name})
    {
      ok := *;
      ok := ok || accepts;
      if !ok {
        var created: bool := *;
        if created { Put(files[name := Junk]); }
        return;
      }
      Put(files[name := Junk]);
      Put(files[name := box]);
    }

    /** Move one file over another, all or nothing. */
    method Rename(from: Name, to: Name, accepts: bool) returns (ok: bool)
      requires Valid() && from != to
      modifies this
      ensures Valid() && (accepts && from in old(files) ==> ok)
      ensures ok ==> from in old(files) && files == (old(files) - {from})[to := old(files)[from]]
      ensures !ok ==> files == old(files)
      ensures past == if ok then old(past) + [files] else old(past)
    {
      ok := *;
      ok := from in files && (ok || accepts);
      if ok { Put((files - {from})[to := files[from]]); }
    }

    method Remove(name: Name, accepts: bool) returns (ok: bool)
      requires Valid()
      modifies this
      ensures Valid() && (accepts && name in old(files) ==> ok)
      ensures files == if ok then old(files) - {name} else old(files)
      ensures past == if ok then old(past) + [files] else old(past)
    {
      ok := *;
      ok := name in files && (ok || accepts);
      if ok { Put(files - {name}); }
    }

    /** The bytes of a file; the reads of the files in `refused` fail for reasons of their own. */
    function ReadToString(name: Name, refused: set<Name>): Result<Option<Box>, ()>
      reads this
    {
      if name in refused then Err(()) else Ok(if name in files then Some(files[name]) else None)
    }
  }
}
