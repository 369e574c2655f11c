/** `parse_csv_bytes`, from the records `csv.reader` yields onwards: header
    detection, skipping of blank records, trimming and the defaults for
    missing cells. */
module Parser {
  import opened Wrappers
  import opened Text
  import opened Schemas
  import opened Seqs

  /** One record as split by the CSV reader: its cells, in order. */
  type Record = seq<string>

  /** The first record is a header when its first cell, stripped and
      lower-cased, is `name`. Only the first record is ever inspected. */
  predicate IsHeader(records: seq<Record>) {
    |records| > 0 && |records[0]| > 0 && Lower(Strip(records[0][0])) == "name"
  }

  /** A record with no cells, or whose every cell is whitespace only. */
  predicate IsBlank(rec: Record) {
    |rec| == 0 || forall i :: 0 <= i < |rec| ==> Strip(rec[i]) == ""
  }

  /** The row built from one kept record: the first three cells stripped, a
      missing address read as `""` and a missing phone as `None`. */
  function Normalise(rec: Record): (r: Row)
    ensures Trimmed(r.name) && Trimmed(r.address)
    ensures r.phone.None? <==> |rec| < 3
    ensures r.phone.Some? ==> Trimmed(r.phone.value)
    ensures |rec| < 2 ==> r.address == ""
  {
    Row(
      if |rec| > 0 then Strip(rec[0]) else "",
      if |rec| > 1 then Strip(rec[1]) else "",
      if |rec| > 2 then Some(Strip(rec[2])) else None)
  }

  /** What one record contributes: nothing when blank, else its row. */
  function RowsOf(rec: Record): (rows: seq<Row>)
    ensures |rows| <= 1
    ensures rows == [] <==> IsBlank(rec)
  {
    if IsBlank(rec) then [] else [Normalise(rec)]
  }

  /** The index of the first data record: 1 after a header, else 0. */
  function DataStart(records: seq<Record>): (start: nat)
    ensures start <= |records|
    ensures start == 1 <==> IsHeader(records)
    ensures start <= 1
  {
    if IsHeader(records) then 1 else 0
  }

  /** What each record from position `start` on contributes, in order. */
  function Contributions(records: seq<Record>, start: nat): (parts: seq<seq<Row>>)
    requires start <= |records|
    ensures |parts| == |records| - start
    ensures forall i :: 0 <= i < |parts| ==> parts[i] == RowsOf(records[start + i])
  {
    seq(|records| - start, i requires 0 <= i < |records| - start => RowsOf(records[start + i]))
  }

  /** `parse_csv_bytes` on already split records: the header (if any) is
      dropped, blank records are skipped and every other record becomes one
      row, in input order. */
  function Parse(records: seq<Record>): (rows: seq<Row>)
    ensures |rows| <= |records| - DataStart(records)
  {
    var parts := Contributions(records, DataStart(records));
    FlattenShort(parts);
    Flatten(parts)
  }

  /** The reference reading of a run of data records, head first: skip a
      blank record, turn any other into its normalised row, keep the order. */
  function Kept(recs: seq<Record>): seq<Row>
  {
    if |recs| == 0 then []
    else if IsBlank(recs[0]) then Kept(recs[1..])
    else [Normalise(recs[0])] + Kept(recs[1..])
  }

  /** The contributions from `start` on flatten to the reference reading of
      the records from `start` on. */
  lemma {:induction false} ContributionsKept(records: seq<Record>, start: nat)
    requires start <= |records|
    ensures Flatten(Contributions(records, start)) == Kept(records[start..])
    decreases |records| - start
  {
    var parts := Contributions(records, start);
    if start < |records| {
      var next := Contributions(records, start + 1);
      assert parts[1..] == next by {
        assert forall i :: 0 <= i < |next| ==> parts[1..][i] == next[i];
      }
      FlattenFirst(parts);
      ContributionsKept(records, start + 1);
      assert records[start..][1..] == records[start + 1..];
      assert records[start..][0] == records[start];
    } else {
      assert parts == [];
      assert records[start..] == [];
    }
  }

  /** The rows are exactly the non-blank data records, normalised, in input
      order and with their multiplicity: blank records are dropped wherever
      they occur and nothing else is. */
  lemma ParseInOrder(records: seq<Record>)
    ensures Parse(records) == Kept(records[DataStart(records)..])
  {
    ContributionsKept(records, DataStart(records));
  }

  /** Where a row of the reference reading comes from: the index of a
      non-blank record it normalises. */
  lemma {:induction false} KeptSource(recs: seq<Record>, row: Row) returns (i: nat)
    requires row in Kept(recs)
    ensures i < |recs| && !IsBlank(recs[i]) && row == Normalise(recs[i])
  {
    if !IsBlank(recs[0]) && row == Normalise(recs[0]) {
      i := 0;
    } else {
      assert row in Kept(recs[1..]);
      var k := KeptSource(recs[1..], row);
      assert recs[1..][k] == recs[k + 1];
      i := k + 1;
    }
  }

  /** The reference reading keeps every non-blank record. */
  lemma {:induction false} KeptHas(recs: seq<Record>, i: nat)
    requires i < |recs| && !IsBlank(recs[i])
    ensures Normalise(recs[i]) in Kept(recs)
  {
    if i > 0 {
      assert recs[1..][i - 1] == recs[i];
      KeptHas(recs[1..], i - 1);
    }
  }

  /** Every row is the normalisation of a non-blank data record. */
  lemma ParseSound(records: seq<Record>, row: Row)
    requires row in Parse(records)
    ensures exists i :: DataStart(records) <= i < |records|
                        && !IsBlank(records[i]) && row == Normalise(records[i])
  {
    var data := records[DataStart(records)..];
    ParseInOrder(records);
    var k := KeptSource(data, row);
    assert data[k] == records[DataStart(records) + k];
  }

  /** Every non-blank data record yields its normalisation as a row; a
      record after the first is never dropped as a header. */
  lemma ParseComplete(records: seq<Record>, i: nat)
    requires DataStart(records) <= i < |records| && !IsBlank(records[i])
    ensures Normalise(records[i]) in Parse(records)
  {
    var data := records[DataStart(records)..];
    var k := i - DataStart(records);
    assert data[k] == records[i];
    KeptHas(data, k);
    ParseInOrder(records);
  }

  /** With no blank data record, every record contributes exactly its row. */
  lemma ContributionsNoBlank(records: seq<Record>, start: nat)
    requires start <= |records|
    requires forall i :: start <= i < |records| ==> !IsBlank(records[i])
    ensures forall i :: 0 <= i < |records| - start ==>
              Contributions(records, start)[i] == [Normalise(records[start + i])]
  {
    var parts := Contributions(records, start);
    forall i | 0 <= i < |parts|
      ensures parts[i] == [Normalise(records[start + i])]
    {
      assert !IsBlank(records[start + i]);
    }
  }

  /** When no data record is blank, rows and data records line up one to
      one, in order. */
  lemma ParseNoBlank(records: seq<Record>)
    requires forall i :: DataStart(records) <= i < |records| ==> !IsBlank(records[i])
    ensures |Parse(records)| == |records| - DataStart(records)
    ensures forall i :: 0 <= i < |Parse(records)| ==>
              Parse(records)[i] == Normalise(records[DataStart(records) + i])
  {
    var start := DataStart(records);
    var parts := Contributions(records, start);
    ContributionsNoBlank(records, start);
    FlattenSingletons(parts);
    var rows := Parse(records);
    assert rows == Flatten(parts);
    forall i | 0 <= i < |rows|
      ensures rows[i] == Normalise(records[start + i])
    {
      assert rows[i] == parts[i][0];
      assert parts[i] == [Normalise(records[start + i])];
    }
  }

  /** A blank first record is not a header, so a header-looking second record
      is read as data: its cells become the first row. */
  lemma LaterHeaderIsData(records: seq<Record>)
    requires |records| >= 2 && IsBlank(records[0]) && !IsBlank(records[1])
    ensures DataStart(records) == 0
    ensures |Parse(records)| >= 1 && Parse(records)[0] == Normalise(records[1])
  {
    if |records[0]| > 0 {
      assert Strip(records[0][0]) == "";
      assert Lower("") == "";
    }
    var parts := Contributions(records, 0);
    assert parts[0] == [];
    assert parts[1] == [Normalise(records[1])];
    FlattenFirst(parts);
    FlattenFirst(parts[1..]);
    assert parts[1..][0] == parts[1];
  }
}
