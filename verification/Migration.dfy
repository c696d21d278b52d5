/**
  * What moving an account's files from older keys to the current one keeps, one file-system step
  * at a time: a copy of everything that opens, and no two copies that disagree.
  */
module Migration {
  import opened Basics
  import opened Rows
  import opened Disks
  import opened Store

  /** Two files of one suffix under different generations are copies: both open, with the same rows. */
  ghost predicate Twins(f: Files) {
    forall a, b | a in f && b in f && a != b && a.suffix == b.suffix && !a.suffix.Aside? ::
      Opens(f, a) && Opens(f, b) && RowsAt(f, a) == RowsAt(f, b)
  }

  /** Under some generation the suffix opens with these rows. */
  ghost predicate Copy(f: Files, suffix: Suffix, rows: seq<Row>) {
    exists g :: Opens(f, Name(g, suffix)) && RowsAt(f, Name(g, suffix)) == rows
  }

  /** Every file that opens keeps a copy, and no account file or sidecar holds rows none held. */
  ghost predicate KeepsCopies(f: Files, f': Files) {
    && (forall name | Opens(f, name) :: Copy(f', name.suffix, RowsAt(f, name)))
    && (forall name: Name | name.suffix.At? && Opens(f', name) :: Copy(f, name.suffix, RowsAt(f', name)))
  }

  /** What holds in every state a move passes through. */
  ghost predicate Moving(f: Files, f': Files) {
    Twins(f') && KeepsCopies(f, f')
  }

  lemma OpensIsACopy(f: Files, name: Name)
    requires Opens(f, name)
    ensures Copy(f, name.suffix, RowsAt(f, name))
  {
    assert Name(name.generation, name.suffix) == name;
  }

  lemma MovingReflexive(f: Files)
    requires Twins(f)
    ensures Moving(f, f)
  {
    forall name | Opens(f, name) ensures Copy(f, name.suffix, RowsAt(f, name)) { OpensIsACopy(f, name); }
  }

  lemma MovingTransitive(f: Files, g: Files, h: Files)
    requires Moving(f, g) && Moving(g, h)
    ensures Moving(f, h)
  {
    forall name | Opens(f, name) ensures Copy(h, name.suffix, RowsAt(f, name)) {
      var k :| Opens(g, Name(k, name.suffix)) && RowsAt(g, Name(k, name.suffix)) == RowsAt(f, name);
      assert Copy(h, Name(k, name.suffix).suffix, RowsAt(g, Name(k, name.suffix)));
    }
    forall name: Name | name.suffix.At? && Opens(h, name) ensures Copy(f, name.suffix, RowsAt(h, name)) {
      var k :| Opens(g, Name(k, name.suffix)) && RowsAt(g, Name(k, name.suffix)) == RowsAt(h, name);
      assert Copy(f, Name(k, name.suffix).suffix, RowsAt(g, Name(k, name.suffix)));
    }
  }

  /** A move loses no row and invents none. */
  lemma MovingPreserves(f: Files, f': Files)
    requires Moving(f, f')
    ensures Preserves(f, f')
    ensures forall row :: Stored(f', row) ==> Stored(f, row)
  {
    forall row | Stored(f, row) ensures exists row' :: Stored(f', row') && Carries(row, row') {
      var name :| StoredAt(f, name, row);
      var g :| Opens(f', Name(g, name.suffix)) && RowsAt(f', Name(g, name.suffix)) == RowsAt(f, name);
      assert StoredAt(f', Name(g, name.suffix), row) && Carries(row, row);
    }
    forall row | Stored(f', row) ensures Stored(f, row) {
      var name :| StoredAt(f', name, row);
      var g :| Opens(f, Name(g, name.suffix)) && RowsAt(f, Name(g, name.suffix)) == RowsAt(f', name);
      assert StoredAt(f, Name(g, name.suffix), row);
    }
  }

  // ---- The steps of a move

  /** Removing a file that has a copy, or one set aside. */
  lemma DroppingACopy(f: Files, source: Name, dest: Name)
    requires Twins(f) && source in f && dest in f && dest != source && dest.suffix == source.suffix
    ensures Moving(f, f - {source})
  {
    var f' := f - {source};
    forall name | Opens(f, name) ensures Copy(f', name.suffix, RowsAt(f, name)) {
      OpensIsACopy(f, name);
      if name == source {
        assert Opens(f', Name(dest.generation, source.suffix)) && f'[dest] == f[dest];
      } else {
        assert Opens(f', name) && f'[name] == f[name];
        OpensIsACopy(f', name);
      }
    }
    forall name | Opens(f', name) ensures Copy(f, name.suffix, RowsAt(f', name)) {
      assert Opens(f, name) && f'[name] == f[name];
      OpensIsACopy(f, name);
    }
  }

  /** Renaming bytes that do not open, to be set aside. */
  lemma SettingBytesAside(f: Files, f': Files, source: Name, aside: Name)
    requires Twins(f) && source in f && !Opens(f, source) && aside.suffix.Aside?
    requires f' == (f - {source})[aside := f[source]]
    ensures Moving(f, f')
  {
    forall name | name != aside ensures Opens(f', name) <==> Opens(f, name) {}
    forall name | Opens(f, name) ensures Copy(f', name.suffix, RowsAt(f, name)) {
      assert Opens(f', name) && f'[name] == f[name];
      OpensIsACopy(f', name);
    }
    forall name | Opens(f', name) ensures Copy(f, name.suffix, RowsAt(f', name)) {
      assert Opens(f, name) && f'[name] == f[name];
      OpensIsACopy(f, name);
    }
  }

  /** Whatever is under a staged name nobody else bears. */
  lemma StagingAlone(f: Files, f': Files, staged: Name)
    requires Twins(f) && SameBut(f, f', {staged}) && staged.suffix.Staged?
    requires forall name | name in f :: name.suffix != staged.suffix
    ensures Moving(f, f')
  {
    forall name | name != staged ensures name in f <==> name in f' {
      assert name in f - {staged} <==> name in f' - {staged};
    }
    forall name | name != staged && name in f ensures f'[name] == f[name] {
      assert (f - {staged})[name] == (f' - {staged})[name];
    }
    forall name | Opens(f, name) ensures Copy(f', name.suffix, RowsAt(f, name)) {
      assert Opens(f', name);
      OpensIsACopy(f', name);
    }
    forall name: Name | name.suffix.At? && Opens(f', name) ensures Copy(f, name.suffix, RowsAt(f', name)) {
      assert Opens(f, name);
      OpensIsACopy(f, name);
    }
  }

  /** The source's rows sealed again under a name of the same suffix that was free. */
  lemma LandingACopy(f: Files, source: Name, dest: Name)
    requires Twins(f) && Opens(f, source) && dest !in f && dest.suffix == source.suffix
    ensures Moving(f, f[dest := Sealed(dest.generation, LandingOf(dest.suffix).value, RowsAt(f, source))])
  {
    var f' := f[dest := Sealed(dest.generation, LandingOf(dest.suffix).value, RowsAt(f, source))];
    assert Opens(f', dest) && RowsAt(f', dest) == RowsAt(f, source);
    forall name | name != dest ensures (Opens(f', name) <==> Opens(f, name)) && (name in f ==> f'[name] == f[name]) {}
    forall a | a in f && a.suffix == dest.suffix ensures Opens(f, a) && RowsAt(f, a) == RowsAt(f, source) {}
    forall name | Opens(f, name) ensures Copy(f', name.suffix, RowsAt(f, name)) {
      assert Opens(f', name);
      OpensIsACopy(f', name);
    }
    OpensIsACopy(f, source);
    forall name | Opens(f', name) ensures Copy(f, name.suffix, RowsAt(f', name)) {
      if name != dest { OpensIsACopy(f, name); }
    }
  }

  // ---- Any number of partial moves

  /** Consecutive states of a closed account: opens that finished, failed or crashed, under any keys. */
  ghost predicate IsMoveRun(fs: seq<Files>) {
    |fs| > 0 && Twins(fs[0]) && forall i | 0 <= i < |fs| - 1 :: Moving(fs[i], fs[i + 1])
  }

  lemma {:induction false} AnyNumberOfPartialMoves(fs: seq<Files>, k: nat)
    requires IsMoveRun(fs) && k < |fs|
    ensures Moving(fs[0], fs[k])
  {
    if k == 0 {
      MovingReflexive(fs[0]);
    } else {
      AnyNumberOfPartialMoves(fs, k - 1);
      assert Moving(fs[k - 1], fs[k - 1 + 1]);
      MovingTransitive(fs[0], fs[k - 1], fs[k]);
    }
  }

  /** All files are named under the key of generation `g`. */
  predicate AllUnder(f: Files, g: nat) {
    forall name | name in f :: name.generation == g
  }

  /** Files that were not there before are named under the key of generation `g`. */
  predicate NewUnder(f: Files, f': Files, g: nat) {
    forall name | name in f' :: name in f || name.generation == g
  }

  /** So the work of an open account leaves its files ready for the next move. */
  lemma OneKeyHasNoTwins(f: Files, f': Files, g: nat)
    requires AllUnder(f, g) && NewUnder(f, f', g)
    ensures AllUnder(f', g) && Twins(f')
  {
    forall a, b | a in f' && b in f' && a.suffix == b.suffix ensures a == b {
      assert a.generation == g && b.generation == g;
    }
  }

  /**
    * However many moves through however many keys broke off, one that completes leaves exactly
    * one copy of every suffix that ever opened, under the current name, with its rows unchanged.
    */
  lemma ACompletedMoveIsWhole(fs: seq<Files>, k: nat, g: nat, current: nat, suffix: Suffix)
    requires IsMoveRun(fs) && k < |fs| && AllUnder(fs[k], current)
    requires Opens(fs[0], Name(g, suffix))
    ensures Opens(fs[k], Name(current, suffix)) && RowsAt(fs[k], Name(current, suffix)) == RowsAt(fs[0], Name(g, suffix))
    ensures forall name | name in fs[k] && name.suffix == suffix :: name == Name(current, suffix)
  {
    AnyNumberOfPartialMoves(fs, k);
    assert Copy(fs[k], Name(g, suffix).suffix, RowsAt(fs[0], Name(g, suffix)));
    var h :| Opens(fs[k], Name(h, suffix)) && RowsAt(fs[k], Name(h, suffix)) == RowsAt(fs[0], Name(g, suffix));
  }

  // ---- A whole life

  /** Work of an account open under one key, or part of a move. */
  ghost predicate Turns(f: Files, f': Files) {
    (exists g :: AllUnder(f, g) && NewUnder(f, f', g)) || Moving(f, f')
  }

  /** However work, moves and crashes follow one another, the next move finds no two copies that disagree. */
  lemma {:induction false} TheNextMoveIsReady(fs: seq<Files>, k: nat)
    requires k < |fs| && Twins(fs[0]) && forall i: nat | i < |fs| - 1 :: Turns(fs[i], fs[i + 1])
    ensures Twins(fs[k])
  {
    if k > 0 {
      assert Turns(fs[k - 1], fs[k - 1 + 1]);
      if !Moving(fs[k - 1], fs[k]) {
        var g :| AllUnder(fs[k - 1], g) && NewUnder(fs[k - 1], fs[k], g);
        OneKeyHasNoTwins(fs[k - 1], fs[k], g);
      }
    }
  }
}
