/** What the files of one account hold, and what a change of them must not lose. */
module Store {
  import opened Basics
  import opened Rows
  import opened Disks

  /** The files that count as history: account files and sidecars, under every generation. */
  function Land(f: Files): Files {
    map n | n in f && n.suffix.At? :: f[n]
  }

  /** The bytes set aside as unreadable. */
  function Asides(f: Files): Files {
    map n | n in f && n.suffix.Aside? :: f[n]
  }

  function MainName(g: nat): Name { Name(g, At(Main)) }

  function SidecarName(g: nat, number: nat): Name { Name(g, At(Sidecar(number))) }

  /** The row can be read out of this account file or sidecar. */
  predicate StoredAt(f: Files, name: Name, row: Row) {
    name.suffix.At? && Opens(f, name) && row in RowsAt(f, name)
  }

  /** The row can be read out of some account file or sidecar. */
  ghost predicate Stored(f: Files, row: Row) {
    exists name :: StoredAt(f, name, row)
  }

  /** Every row that could be read can still be read, possibly further along its life. */
  ghost predicate Preserves(f: Files, f': Files) {
    forall row :: Stored(f, row) ==> exists row' :: Stored(f', row') && Carries(row, row')
  }

  lemma StoredOnlyDependsOnLand(f: Files, f': Files, row: Row)
    requires Land(f) == Land(f')
    ensures Stored(f, row) ==> Stored(f', row)
  {
    if Stored(f, row) {
      var name :| StoredAt(f, name, row);
      assert name in Land(f) && Land(f)[name] == f[name];
      assert name in Land(f') && Land(f')[name] == f'[name];
      assert StoredAt(f', name, row);
    }
  }

  lemma SameLandPreserves(f: Files, f': Files)
    requires Land(f) == Land(f')
    ensures Preserves(f, f')
  {
    forall row | Stored(f, row) ensures exists row' :: Stored(f', row') && Carries(row, row') {
      StoredOnlyDependsOnLand(f, f', row);
      assert Carries(row, row);
    }
  }

  lemma PreservesTransitive(f: Files, g: Files, h: Files)
    requires Preserves(f, g) && Preserves(g, h)
    ensures Preserves(f, h)
  {
    forall row | Stored(f, row) ensures exists row' :: Stored(h, row') && Carries(row, row') {
      var mid :| Stored(g, mid) && Carries(row, mid);
      var row' :| Stored(h, row') && Carries(mid, row');
      CarriesTransitive(row, mid, row');
    }
  }

  /** A change of names that are no history changes no history. */
  lemma OffTheRecord(f: Files, f': Files, name: Name)
    requires SameBut(f, f', {name}) && !name.suffix.At?
    ensures Land(f') == Land(f)
  {
    forall n ensures n in Land(f) <==> n in Land(f') {
      if n.suffix.At? { assert n in f - {name} <==> n in f' - {name}; }
    }
    forall n | n in Land(f) ensures Land(f')[n] == Land(f)[n] {
      assert (f - {name})[n] == (f' - {name})[n];
    }
  }

  lemma ChangedElsewhere(f: Files, f': Files, names: set<Name>)
    requires SameBut(f, f', names) && forall name | name in names :: !name.suffix.Aside?
    ensures Asides(f') == Asides(f)
  {
    forall n: Name | n.suffix.Aside? ensures (n in f <==> n in f') && (n in f ==> f'[n] == f[n]) {
      assert n in f - names <==> n in f' - names;
      assert n in f - names ==> (f - names)[n] == (f' - names)[n];
    }
  }

  // ---- A merged account file

  /** One account file or sidecar of generation `g` that holds the row and can be read now. */
  ghost predicate Readable(f: Files, g: nat, refused: set<Name>, row: Row) {
    || (MainName(g) !in refused && StoredAt(f, MainName(g), row))
    || exists n :: SidecarName(g, n) !in refused && StoredAt(f, SidecarName(g, n), row)
  }

  /** The rows of the sidecars numbered below `count` that can be read now, one sidecar after the other. */
  function SidecarRows(f: Files, g: nat, refused: set<Name>, count: nat): seq<Row> {
    if count == 0 then []
    else
      var name := SidecarName(g, count - 1);
      SidecarRows(f, g, refused, count - 1) + if name !in refused && Opens(f, name) then RowsAt(f, name) else []
  }

  lemma {:induction false} TheyAreTheSidecarsRows(f: Files, g: nat, refused: set<Name>, count: nat, row: Row)
    ensures row in SidecarRows(f, g, refused, count) <==>
            exists n: nat :: n < count && SidecarName(g, n) !in refused && StoredAt(f, SidecarName(g, n), row)
  {
    if count > 0 { TheyAreTheSidecarsRows(f, g, refused, count - 1, row); }
  }

  /** None of the files whose reads fail is a sidecar. */
  predicate SidecarsRead(refused: set<Name>) {
    forall name | name in refused :: !(name.suffix.At? && name.suffix.landing.Sidecar?)
  }

  /** Every row under the open names of generation `g` is carried into `rows`. */
  ghost predicate Covers(f: Files, g: nat, rows: seq<Row>) {
    forall row | Readable(f, g, {}, row) :: exists k :: k in rows && Carries(row, k)
  }

  /** The account file is now `rows`; nothing else changed, except that some sidecars are gone. */
  ghost predicate Merged(f: Files, f': Files, g: nat, rows: seq<Row>) {
    && MainName(g) in Land(f') && Land(f')[MainName(g)] == Sealed(g, Main, rows)
    && (forall n | n in Land(f') && n != MainName(g) :: n in Land(f) && Land(f')[n] == Land(f)[n])
    && (forall n | n in Land(f) && n !in Land(f') :: n.generation == g && n.suffix.landing.Sidecar?)
  }

  /** A merge loses nothing when every sidecar it absorbed was read. */
  lemma MergePreserves(f: Files, f': Files, g: nat, rows: seq<Row>)
    requires Merged(f, f', g, rows) && Covers(f, g, rows)
    ensures Preserves(f, f')
  {
    forall row | Stored(f, row) ensures exists row' :: Stored(f', row') && Carries(row, row') {
      var name :| StoredAt(f, name, row);
      assert name in Land(f);
      if name in Land(f') && name != MainName(g) {
        assert StoredAt(f', name, row) && Carries(row, row);
      } else {
        assert name == MainName(g) || name == SidecarName(g, name.suffix.landing.number);
        assert Readable(f, g, {}, row);
        var k :| k in rows && Carries(row, k);
        assert StoredAt(f', MainName(g), k);
      }
    }
  }

  /** An edit that landed leaves every row it read readable, changed. */
  lemma AnEditShows(f: Files, f': Files, g: nat, refused: set<Name>, rows: seq<Row>, change: Change)
    requires forall row :: row in rows <==> Readable(f, g, refused, row)
    requires Merged(f, f', g, Touch(rows, change))
    ensures forall row | Readable(f, g, refused, row) :: Readable(f', g, {}, Changed(row, change))
  {
    assert Land(f')[MainName(g)] == f'[MainName(g)];
    forall row | Readable(f, g, refused, row) ensures Readable(f', g, {}, Changed(row, change)) {
      TouchedIsChanged(rows, change, Changed(row, change));
      assert StoredAt(f', MainName(g), Changed(row, change));
    }
  }

  /** And nothing else, once no sidecar is left. */
  lemma AnEditShowsNoMore(f: Files, f': Files, g: nat, refused: set<Name>, rows: seq<Row>, change: Change)
    requires forall row :: row in rows <==> Readable(f, g, refused, row)
    requires Merged(f, f', g, Touch(rows, change)) && forall n :: SidecarName(g, n) !in f'
    ensures forall row' | Readable(f', g, {}, row') :: exists row :: Readable(f, g, refused, row) && row' == Changed(row, change)
  {
    assert Land(f')[MainName(g)] == f'[MainName(g)];
    forall row' | Readable(f', g, {}, row') ensures exists row :: Readable(f, g, refused, row) && row' == Changed(row, change) {
      assert row' in Touch(rows, change);
      TouchedIsChanged(rows, change, row');
    }
  }

  /** The row is in this one file and in no other. */
  ghost predicate OnlyIn(f: Files, name: Name, row: Row) {
    StoredAt(f, name, row) && forall other, r | StoredAt(f, other, r) && SameRow(row, r) :: other == name
  }

  ghost predicate Survives(f: Files, row: Row) {
    exists row' :: Stored(f, row') && Carries(row, row')
  }

  /**
    * A merge that makes its list of the rows it could read, and removes a sidecar, keeps a row only
    * that sidecar held if and only if it could read the sidecar.
    */
  lemma SurvivesTheMergeIffRead(f: Files, f': Files, g: nat, n: nat, refused: set<Name>, rows: seq<Row>, landed: seq<Row>, row: Row)
    requires OnlyIn(f, SidecarName(g, n), row) && SidecarName(g, n) !in f'
    requires forall r :: r in rows <==> Readable(f, g, refused, r)
    requires Merged(f, f', g, landed)
    requires forall r | r in rows :: exists k :: k in landed && Carries(r, k)
    requires forall k | k in landed && SameRow(row, k) :: exists r :: r in rows && SameRow(row, r)
    ensures Survives(f', row) <==> SidecarName(g, n) !in refused
  {
    if SidecarName(g, n) !in refused {
      assert Readable(f, g, refused, row);
      var k :| k in landed && Carries(row, k);
      assert Land(f')[MainName(g)] == f'[MainName(g)];
      assert StoredAt(f', MainName(g), k);
    } else {
      forall row' | Carries(row, row') ensures !Stored(f', row') {
        forall name { AMergeInventsNothing(f, f', g, landed, name, row'); }
        assert forall r | r in rows :: !SameRow(row, r);
      }
    }
  }

  /** So it is when an edit landed. */
  lemma ASidecarSurvivesAnEditIffItWasRead(f: Files, f': Files, g: nat, n: nat, refused: set<Name>,
                                           rows: seq<Row>, change: Change, row: Row)
    requires Lawful(change) && OnlyIn(f, SidecarName(g, n), row) && SidecarName(g, n) !in f'
    requires forall r :: r in rows <==> Readable(f, g, refused, r)
    requires Merged(f, f', g, Touch(rows, change))
    ensures Survives(f', row) <==> SidecarName(g, n) !in refused
  {
    var landed := Touch(rows, change);
    forall r | r in rows ensures exists k :: k in landed && Carries(r, k) {
      var i :| 0 <= i < |rows| && rows[i] == r;
      TouchCarries(rows, change, i);
      assert landed[i] in landed;
    }
    forall k | k in landed && SameRow(row, k) ensures exists r :: r in rows && SameRow(row, r) {
      var i :| 0 <= i < |landed| && landed[i] == k;
      TouchCarries(rows, change, i);
      assert rows[i] in rows && SameRow(row, rows[i]);
    }
    SurvivesTheMergeIffRead(f, f', g, n, refused, rows, landed, row);
  }

  /** And so when another row was added. */
  lemma ASidecarSurvivesAnAddIffItWasRead(f: Files, f': Files, g: nat, n: nat, refused: set<Name>, rows: seq<Row>, record: Record, row: Row)
    requires OnlyIn(f, SidecarName(g, n), row) && SidecarName(g, n) !in f' && !SameRow(row, Rec(record))
    requires forall r :: r in rows <==> Readable(f, g, refused, r)
    requires Merged(f, f', g, [Rec(record)] + rows)
    ensures Survives(f', row) <==> SidecarName(g, n) !in refused
  {
    var landed := [Rec(record)] + rows;
    forall r | r in rows ensures exists k :: k in landed && Carries(r, k) { assert r in landed && Carries(r, r); }
    SurvivesTheMergeIffRead(f, f', g, n, refused, rows, landed, row);
  }

  /** A row that is lost: it was in sidecar 0, whose read failed, when another row was added. */
  lemma AnUnreadSidecarIsLost(row: Record, record: Record)
    requires row.requestId != record.requestId
    ensures var f := map[MainName(0) := Sealed(0, Main, []), SidecarName(0, 0) := Sealed(0, Sidecar(0), [Rec(row)])];
            var f' := map[MainName(0) := Sealed(0, Main, [Rec(record)])];
            && Stored(f, Rec(row)) && Merged(f, f', 0, [Rec(record)] + [])
            && (forall r :: r in [] <==> Readable(f, 0, {SidecarName(0, 0)}, r))
            && !Survives(f', Rec(row))
  {
    var f := map[MainName(0) := Sealed(0, Main, []), SidecarName(0, 0) := Sealed(0, Sidecar(0), [Rec(row)])];
    var f' := map[MainName(0) := Sealed(0, Main, [Rec(record)])];
    assert StoredAt(f, SidecarName(0, 0), Rec(row));
    assert [Rec(record)] + [] == [Rec(record)];
    ASidecarSurvivesAnAddIffItWasRead(f, f', 0, 0, {SidecarName(0, 0)}, [], record, Rec(row));
  }

  lemma AMergeInventsNothing(f: Files, f': Files, g: nat, rows: seq<Row>, name: Name, row: Row)
    requires Merged(f, f', g, rows)
    ensures StoredAt(f', name, row) ==> (name == MainName(g) && row in rows) || StoredAt(f, name, row)
  {
    if StoredAt(f', name, row) {
      assert name in Land(f') && Land(f')[name] == f'[name];
      assert name != MainName(g) ==> name in Land(f) && Land(f)[name] == f[name];
    }
  }

  // ---- Whole lives

  /** What a history of the directory may show from one state to the next: work, crashes, restarts. */
  ghost predicate Keeps(fs: seq<Files>) {
    forall i | 0 <= i < |fs| - 1 :: Preserves(fs[i], fs[i + 1])
  }

  /** A row that was ever stored is stored ever after, further along its life at most. */
  lemma {:induction false} NoRowIsEverLost(fs: seq<Files>, i: nat, k: nat, row: Row)
    requires Keeps(fs) && i <= k < |fs| && Stored(fs[i], row)
    ensures exists row' :: Stored(fs[k], row') && Carries(row, row')
    decreases k - i
  {
    if i == k {
      assert Carries(row, row);
    } else {
      NoRowIsEverLost(fs, i, k - 1, row);
      var mid :| Stored(fs[k - 1], mid) && Carries(row, mid);
      assert Preserves(fs[k - 1], fs[k - 1 + 1]);
      var row' :| Stored(fs[k], row') && Carries(mid, row');
      CarriesTransitive(row, mid, row');
    }
  }
}
