/** What the generated layout is: its size, its identifiers and its initial statuses. */
module LayoutFacts {
  import opened Options
  import opened Seats
  import opened Layout

  lemma {:induction false} RowsCountUniform(labels: seq<string>, count: nat)
    ensures RowsCount(Rows(labels, count)) == |labels| * count
  {
    if labels != [] {
      var n := |labels|;
      assert Rows(labels, count)[..n - 1] == Rows(labels[..n - 1], count);
      RowsCountUniform(labels[..n - 1], count);
    }
  }

  lemma RowsCountSnoc(rows: seq<RowSpec>, r: RowSpec)
    ensures RowsCount(rows + [r]) == RowsCount(rows) + r.seats
  {
    assert (rows + [r])[..|rows|] == rows;
  }

  lemma SeatCountPrefix(secs: seq<SeatSection>, k: nat)
    requires 0 < k <= |secs|
    ensures SeatCount(secs[..k]) == SeatCount(secs[..k - 1]) + RowsCount(secs[k - 1].rows)
  {
    assert secs[..k][..k - 1] == secs[..k - 1];
  }

  /** The row totals of the five sections: 18, 96, 192, 168 and 60 seats. */
  lemma TemplateShape()
    ensures |SeatSections| == 5
    ensures RowsCount(SeatSections[0].rows) == 18
    ensures RowsCount(SeatSections[1].rows) == 96
    ensures RowsCount(SeatSections[2].rows) == 192
    ensures RowsCount(SeatSections[3].rows) == 168
    ensures RowsCount(SeatSections[4].rows) == 60
  {
    RowsCountUniform(["A", "B", "C"], 6);
    RowsCountUniform(["A", "B", "C"], 26);
    RowsCountSnoc(Rows(["A", "B", "C"], 26), RowSpec("D", 18, None));
    RowsCountUniform(["A", "B", "C", "D", "E", "F", "G", "H"], 24);
    RowsCountUniform(["A", "B", "C", "D", "E", "F", "G"], 24);
    RowsCountUniform(["A", "B"], 30);
  }

  lemma SeatCountOfThree(secs: seq<SeatSection>)
    requires |secs| == 5
    ensures SeatCount(secs[..3]) == RowsCount(secs[0].rows) + RowsCount(secs[1].rows) + RowsCount(secs[2].rows)
  {
    SeatCountPrefix(secs, 1);
    SeatCountPrefix(secs, 2);
    SeatCountPrefix(secs, 3);
    assert secs[..0] == [];
  }

  /** The seat count of five sections is the sum of their row totals. */
  lemma SeatCountOfFive(secs: seq<SeatSection>)
    requires |secs| == 5
    ensures SeatCount(secs) == RowsCount(secs[0].rows) + RowsCount(secs[1].rows) + RowsCount(secs[2].rows)
                             + RowsCount(secs[3].rows) + RowsCount(secs[4].rows)
  {
    SeatCountOfThree(secs);
    SeatCountPrefix(secs, 4);
    SeatCountPrefix(secs, 5);
    assert secs[..5] == secs;
  }

  /** The generator produces 534 seats: 18 + 96 + 192 + 168 + 60. */
  lemma InitialSeatCount()
    ensures |InitialSeats()| == 534
  {
    TemplateShape();
    SeatCountOfFive(SeatSections);
  }
}

module LayoutIds {
  import opened Options
  import opened Seats
  import opened Layout

  /** No two seats of s share an identifier. */
  predicate DistinctIds(s: seq<Seat>) {
    forall i, j :: 0 <= i < j < |s| ==> s[i].id != s[j].id
  }

  /** Row labels of a section: free of digits and pairwise different. */
  predicate PlainRows(rows: seq<RowSpec>) {
    && (forall j :: 0 <= j < |rows| ==> PlainRow(rows[j].row))
    && (forall j, m :: 0 <= j < m < |rows| ==> rows[j].row != rows[m].row)
  }

  /** Section names free of '-' and pairwise different, row labels as PlainRows. */
  predicate WellFormedTemplate(secs: seq<SeatSection>) {
    && (forall k :: 0 <= k < |secs| ==> PlainName(secs[k].name) && PlainRows(secs[k].rows))
    && (forall k, l :: 0 <= k < l < |secs| ==> secs[k].name != secs[l].name)
  }

  lemma DistinctIdsAppend(a: seq<Seat>, b: seq<Seat>)
    requires DistinctIds(a) && DistinctIds(b)
    requires forall i, j :: 0 <= i < |a| && 0 <= j < |b| ==> a[i].id != b[j].id
    ensures DistinctIds(a + b)
  {
  }

  /** Every seat of RowsSeats is some seat n of some listed row. */
  lemma {:induction false} RowsSeatsFrom(sec: SeatSection, rows: seq<RowSpec>, i: nat)
    requires i < |RowsSeats(sec, rows)|
    ensures exists j, n :: 0 <= j < |rows| && 1 <= n <= rows[j].seats
                        && RowsSeats(sec, rows)[i] == MakeSeat(sec, rows[j].row, n)
  {
    var init, last := rows[..|rows| - 1], rows[|rows| - 1];
    var a := RowsSeats(sec, init);
    if i < |a| {
      RowsSeatsFrom(sec, init, i);
      var j, n :| 0 <= j < |init| && 1 <= n <= init[j].seats && a[i] == MakeSeat(sec, init[j].row, n);
      assert rows[j] == init[j];
    } else {
      var n := i - |a| + 1;
      assert RowsSeats(sec, rows)[i] == MakeSeat(sec, last.row, n);
    }
  }

  /** Every seat of the layout is some seat n of some row of some section of the template. */
  lemma {:induction false} SectionsSeatsFrom(secs: seq<SeatSection>, i: nat)
    requires i < |SectionsSeats(secs)|
    ensures exists k, j, n :: 0 <= k < |secs| && 0 <= j < |secs[k].rows| && 1 <= n <= secs[k].rows[j].seats
                           && SectionsSeats(secs)[i] == MakeSeat(secs[k], secs[k].rows[j].row, n)
  {
    var init, last := secs[..|secs| - 1], secs[|secs| - 1];
    var a := SectionsSeats(init);
    if i < |a| {
      SectionsSeatsFrom(init, i);
      var k, j, n :| 0 <= k < |init| && 0 <= j < |init[k].rows| && 1 <= n <= init[k].rows[j].seats
                  && a[i] == MakeSeat(init[k], init[k].rows[j].row, n);
      assert secs[k] == init[k];
    } else {
      RowsSeatsFrom(last, last.rows, i - |a|);
      var j, n :| 0 <= j < |last.rows| && 1 <= n <= last.rows[j].seats
               && RowsSeats(last, last.rows)[i - |a|] == MakeSeat(last, last.rows[j].row, n);
      assert SectionsSeats(secs)[i] == MakeSeat(secs[|secs| - 1], secs[|secs| - 1].rows[j].row, n);
    }
  }

  /** Every seat n of every row of every section of the template is in the layout. */
  lemma {:induction false} SectionsSeatsContains(secs: seq<SeatSection>, k: nat, j: nat, n: nat)
    requires k < |secs| && j < |secs[k].rows| && 1 <= n <= secs[k].rows[j].seats
    ensures MakeSeat(secs[k], secs[k].rows[j].row, n) in SectionsSeats(secs)
  {
    var init, last := secs[..|secs| - 1], secs[|secs| - 1];
    if k < |init| {
      assert secs[k] == init[k];
      SectionsSeatsContains(init, k, j, n);
    } else {
      RowsSeatsContains(last, last.rows, j, n);
    }
  }

  lemma {:induction false} RowsSeatsContains(sec: SeatSection, rows: seq<RowSpec>, j: nat, n: nat)
    requires j < |rows| && 1 <= n <= rows[j].seats
    ensures MakeSeat(sec, rows[j].row, n) in RowsSeats(sec, rows)
  {
    var init, last := rows[..|rows| - 1], rows[|rows| - 1];
    if j < |init| {
      assert rows[j] == init[j];
      RowsSeatsContains(sec, init, j, n);
    } else {
      assert RowSeats(sec, last.row, last.seats)[n - 1] == MakeSeat(sec, rows[j].row, n);
    }
  }

  /** Seat numbers 1 to count of one row get different identifiers. */
  lemma RowSeatsDistinct(sec: SeatSection, row: string, count: nat)
    requires PlainName(sec.name) && PlainRow(row)
    ensures DistinctIds(RowSeats(sec, row, count))
  {
    var r := RowSeats(sec, row, count);
    forall i, j | 0 <= i < j < |r| ensures r[i].id != r[j].id {
      SeatIdInjective(sec.name, row, i + 1, sec.name, row, j + 1);
    }
  }

  lemma {:induction false} RowsSeatsDistinct(sec: SeatSection, rows: seq<RowSpec>)
    requires PlainName(sec.name) && PlainRows(rows)
    ensures DistinctIds(RowsSeats(sec, rows))
  {
    if rows != [] {
      var init, last := rows[..|rows| - 1], rows[|rows| - 1];
      var a, b := RowsSeats(sec, init), RowSeats(sec, last.row, last.seats);
      RowsSeatsDistinct(sec, init);
      RowSeatsDistinct(sec, last.row, last.seats);
      forall i, m | 0 <= i < |a| && 0 <= m < |b| ensures a[i].id != b[m].id {
        RowsSeatsFrom(sec, init, i);
        var j, n :| 0 <= j < |init| && 1 <= n <= init[j].seats && a[i] == MakeSeat(sec, init[j].row, n);
        assert init[j] == rows[j];
        SeatIdInjective(sec.name, init[j].row, n, sec.name, last.row, m + 1);
      }
      DistinctIdsAppend(a, b);
    }
  }

  /** Over a well-formed template, the generator never gives two seats one identifier. */
  lemma {:induction false} SectionsSeatsDistinct(secs: seq<SeatSection>)
    requires WellFormedTemplate(secs)
    ensures DistinctIds(SectionsSeats(secs))
  {
    if secs != [] {
      var init, last := secs[..|secs| - 1], secs[|secs| - 1];
      var a, b := SectionsSeats(init), RowsSeats(last, last.rows);
      SectionsSeatsDistinct(init);
      RowsSeatsDistinct(last, last.rows);
      forall i, m | 0 <= i < |a| && 0 <= m < |b| ensures a[i].id != b[m].id {
        SectionsSeatsFrom(init, i);
        var k, j, n :| 0 <= k < |init| && 0 <= j < |init[k].rows| && 1 <= n <= init[k].rows[j].seats
                    && a[i] == MakeSeat(init[k], init[k].rows[j].row, n);
        assert init[k] == secs[k];
        RowsSeatsFrom(last, last.rows, m);
        var j', n' :| 0 <= j' < |last.rows| && 1 <= n' <= last.rows[j'].seats
                    && b[m] == MakeSeat(last, last.rows[j'].row, n');
        SeatIdInjective(init[k].name, init[k].rows[j].row, n, last.name, last.rows[j'].row, n');
      }
      DistinctIdsAppend(a, b);
    }
  }

  lemma RowsPlain(labels: seq<string>, count: nat)
    requires forall j :: 0 <= j < |labels| ==> |labels[j]| == 1 && labels[j][0] !in Digits
    requires forall j, m :: 0 <= j < m < |labels| ==> labels[j] != labels[m]
    ensures PlainRows(Rows(labels, count))
  {
  }

  lemma TemplateRowsPlain()
    ensures forall k :: 0 <= k < |SeatSections| ==> PlainRows(SeatSections[k].rows)
  {
    RowsPlain(["A", "B", "C"], 6);
    RowsPlain(["A", "B", "C"], 26);
    assert PlainRows(Rows(["A", "B", "C"], 26) + [RowSpec("D", 18, None)]);
    RowsPlain(["A", "B", "C", "D", "E", "F", "G", "H"], 24);
    RowsPlain(["A", "B", "C", "D", "E", "F", "G"], 24);
    RowsPlain(["A", "B"], 30);
  }

  lemma TemplateNamesPlain()
    ensures forall k :: 0 <= k < |SeatSections| ==> PlainName(SeatSections[k].name)
  {
    assert PlainName("BOX");
    assert PlainName("Rs. 150 STAR CLASS");
    assert PlainName(BalconyName);
    assert PlainName("FIRST CLASS");
    assert PlainName("SECOND CLASS");
  }

  lemma TemplateNamesDistinct()
    ensures forall k, l :: 0 <= k < l < |SeatSections| ==> SeatSections[k].name != SeatSections[l].name
  {
    var names := ["BOX", "Rs. 150 STAR CLASS", BalconyName, "FIRST CLASS", "SECOND CLASS"];
    assert forall k :: 0 <= k < 5 ==> SeatSections[k].name == names[k];
    assert names[0][0] == 'B' && names[1][0] == 'R' && names[2][0] == 'R' && names[3][0] == 'F' && names[4][0] == 'S';
    assert names[1][4] == '1' && names[2][4] == '1' && names[1][5] == '5' && names[2][5] == '2';
  }

  /** The theatre template is well formed. */
  lemma TemplateWellFormed()
    ensures WellFormedTemplate(SeatSections)
  {
    TemplateRowsPlain();
    TemplateNamesPlain();
    TemplateNamesDistinct();
  }

  /** Every seat identifier of the initial layout is unique. */
  lemma InitialIdsDistinct()
    ensures DistinctIds(InitialSeats())
  {
    TemplateWellFormed();
    SectionsSeatsDistinct(SeatSections);
  }
}
