/** The rows of an account as they are shown: what does not parse is skipped, the newest come first. */
module Listing {
  import opened Rows

  function RecordsOf(rows: seq<Row>): seq<Record> {
    if rows == [] then []
    else (if rows[0].Rec? then [rows[0].rec] else []) + RecordsOf(rows[1..])
  }

  predicate NotOlder(a: Record, b: Record) {
    a.timestamp > b.timestamp || (a.timestamp == b.timestamp && a.leg >= b.leg)
  }

  predicate NewestFirst(records: seq<Record>) {
    forall i, k | 0 <= i < k < |records| ::
      && records[i].timestamp >= records[k].timestamp
      && (records[i].timestamp == records[k].timestamp ==> records[i].leg >= records[k].leg)
  }

  function Insert(records: seq<Record>, r: Record): seq<Record> {
    if records == [] || NotOlder(r, records[0]) then [r] + records else [records[0]] + Insert(records[1..], r)
  }

  function Sorted(records: seq<Record>): seq<Record> {
    if records == [] then [] else Insert(Sorted(records[1..]), records[0])
  }

  lemma {:induction false} InsertKeepsThemAll(records: seq<Record>, r: Record)
    ensures multiset(Insert(records, r)) == multiset(records) + multiset{r}
  {
    if records != [] && !NotOlder(r, records[0]) {
      InsertKeepsThemAll(records[1..], r);
      assert records == [records[0]] + records[1..];
    }
  }

  lemma {:induction false} InsertKeepsTheOrder(records: seq<Record>, r: Record)
    requires NewestFirst(records)
    ensures NewestFirst(Insert(records, r))
  {
    if records != [] && !NotOlder(r, records[0]) {
      InsertKeepsTheOrder(records[1..], r);
      InsertKeepsThemAll(records[1..], r);
      var rest := Insert(records[1..], r);
      forall k | 0 <= k < |rest| ensures NotOlder(records[0], rest[k]) {
        assert rest[k] in multiset(rest);
        if rest[k] != r {
          assert rest[k] in records[1..];
          var m :| 0 <= m < |records[1..]| && records[1..][m] == rest[k];
          assert records[m + 1] == rest[k];
        }
      }
    }
  }

  /** Sorting loses nothing, doubles nothing, and puts the newest first. */
  lemma {:induction false} SortedIsTheListInOrder(records: seq<Record>)
    ensures multiset(Sorted(records)) == multiset(records) && NewestFirst(Sorted(records))
  {
    if records != [] {
      SortedIsTheListInOrder(records[1..]);
      InsertKeepsThemAll(Sorted(records[1..]), records[0]);
      InsertKeepsTheOrder(Sorted(records[1..]), records[0]);
      assert records == [records[0]] + records[1..];
    }
  }

  lemma {:induction false} TheyAreTheRecords(rows: seq<Row>, r: Record)
    ensures r in RecordsOf(rows) <==> Rec(r) in rows
  {
    if rows != [] {
      TheyAreTheRecords(rows[1..], r);
      assert rows == [rows[0]] + rows[1..];
    }
  }
}
