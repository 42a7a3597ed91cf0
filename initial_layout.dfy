/** The statuses and the statistics of the layout the store starts from. */
module InitialLayout {
  import opened Options
  import opened Decimal
  import opened Seats
  import opened Layout
  import opened LayoutFacts
  import opened LayoutIds
  import opened Booking

  /** The template's own defaults: the star class and the balcony open, the rest disabled. */
  function DefaultStatusOf(sectionName: string): SeatStatus {
    if sectionName == "Rs. 150 STAR CLASS" || sectionName == BalconyName then Available else Disabled
  }

  lemma TemplateDefaults()
    ensures forall k :: 0 <= k < |SeatSections| ==>
              SeatSections[k].defaultStatus == DefaultStatusOf(SeatSections[k].name)
  {
    TemplateNamesDistinct();
  }

  /**
   * Each initial seat carries its own section, row and number in its id, is
   * numbered from 1, and is disabled or available: on rows A and B of the
   * balcony seats 1 to 12 are disabled and 13 on available, elsewhere the
   * seat takes its section's default.
   */
  lemma InitialSeatAt(i: nat)
    requires i < |InitialSeats()|
    ensures var x := InitialSeats()[i];
            && x.number >= 1
            && x.id == SeatId(x.section, x.row, x.number)
            && PlainName(x.section) && PlainRow(x.row)
            && x.status == (if IsSplitRow(x.section, x.row) then (if x.number <= 12 then Disabled else Available)
                            else DefaultStatusOf(x.section))
  {
    SectionsSeatsFrom(SeatSections, i);
    TemplateDefaults();
    TemplateWellFormed();
  }

  /** A seat whose identifier is "BOX-A1", over plain names, is seat 1 of row A of BOX. */
  lemma BoxA1Parts(x: Seat)
    requires x.number >= 1 && x.id == SeatId(x.section, x.row, x.number)
    requires PlainName(x.section) && PlainRow(x.row)
    requires x.id == "BOX-A1"
    ensures x.section == "BOX" && x.row == "A" && x.number == 1
  {
    assert NatToString(1) == "1";
    assert SeatId("BOX", "A", 1) == "BOX-A1";
    assert PlainName("BOX") && PlainRow("A");
    SeatIdInjective(x.section, x.row, x.number, "BOX", "A", 1);
  }

  /** Any seat named "BOX-A1" is seat 1 of row A of BOX, whose seats start disabled. */
  lemma BoxA1OnlyDisabled(i: nat)
    requires i < |InitialSeats()| && InitialSeats()[i].id == "BOX-A1"
    ensures InitialSeats()[i].status == Disabled
  {
    InitialSeatAt(i);
    BoxA1Parts(InitialSeats()[i]);
  }

  lemma BoxSectionRowA()
    ensures 0 < |SeatSections|
    ensures SeatSections[0].name == "BOX" && SeatSections[0].defaultStatus == Disabled
    ensures 0 < |SeatSections[0].rows| && SeatSections[0].rows[0] == RowSpec("A", 6, None)
  {
  }

  lemma BoxA1Seat(sec: SeatSection)
    requires sec.name == "BOX" && sec.defaultStatus == Disabled
    ensures MakeSeat(sec, "A", 1).id == "BOX-A1" && MakeSeat(sec, "A", 1).status == Disabled
  {
    assert NatToString(1) == "1";
  }

  /** The initial layout holds a seat named "BOX-A1", and it is disabled. */
  lemma BoxA1IsDisabled() returns (k: nat)
    ensures k < |InitialSeats()| && InitialSeats()[k].id == "BOX-A1" && InitialSeats()[k].status == Disabled
  {
    BoxSectionRowA();
    var sec := SeatSections[0];
    BoxA1Seat(sec);
    SectionsSeatsContains(SeatSections, 0, 0, 1);
    k :| 0 <= k < |InitialSeats()| && InitialSeats()[k] == MakeSeat(sec, "A", 1);
  }

  /** A click on "BOX-A1", a disabled seat, leaves the initial layout as it is. */
  lemma ToggleBoxA1()
    ensures ToggleSeat(InitialSeats(), "BOX-A1") == InitialSeats()
  {
    var s := InitialSeats();
    forall i | 0 <= i < |s| && s[i].id == "BOX-A1" ensures s[i].status == Disabled {
      BoxA1OnlyDisabled(i);
    }
    ToggleDisabled(s, "BOX-A1");
  }

  lemma {:induction false} OfStatusAppend(a: seq<Seat>, b: seq<Seat>, st: SeatStatus)
    ensures OfStatus(a + b, st) == OfStatus(a, st) + OfStatus(b, st)
  {
    if a != [] {
      assert (a + b)[1..] == a[1..] + b;
      OfStatusAppend(a[1..], b, st);
    } else {
      assert a + b == b;
    }
  }

  /** Over seats that are only available or disabled, the total is the number available. */
  lemma {:induction false} StatsOfOpenOrDisabled(s: seq<Seat>)
    requires forall i :: 0 <= i < |s| ==> s[i].status == Available || s[i].status == Disabled
    ensures Stats(s) == BookingStats(|OfStatus(s, Available)|, |OfStatus(s, Available)|, 0, 0, 0)
  {
    if s != [] {
      StatsOfOpenOrDisabled(s[1..]);
    }
  }

  /** How many seats of a row of count seats start available. */
  function RowAvailable(sec: SeatSection, row: string, count: nat): nat {
    if IsSplitRow(sec.name, row) then (if count > 12 then count - 12 else 0)
    else if sec.defaultStatus == Available then count
    else 0
  }

  lemma {:induction false} RowSeatsAvailable(sec: SeatSection, row: string, count: nat)
    ensures |OfStatus(RowSeats(sec, row, count), Available)| == RowAvailable(sec, row, count)
  {
    if count > 0 {
      RowSeatsAvailable(sec, row, count - 1);
      OfStatusAppend(RowSeats(sec, row, count - 1), [MakeSeat(sec, row, count)], Available);
    }
  }

  function RowsAvailable(sec: SeatSection, rows: seq<RowSpec>): nat {
    if rows == [] then 0
    else RowsAvailable(sec, rows[..|rows| - 1]) + RowAvailable(sec, rows[|rows| - 1].row, rows[|rows| - 1].seats)
  }

  lemma {:induction false} RowsSeatsAvailable(sec: SeatSection, rows: seq<RowSpec>)
    ensures |OfStatus(RowsSeats(sec, rows), Available)| == RowsAvailable(sec, rows)
  {
    if rows != [] {
      var init, last := rows[..|rows| - 1], rows[|rows| - 1];
      RowsSeatsAvailable(sec, init);
      RowSeatsAvailable(sec, last.row, last.seats);
      OfStatusAppend(RowsSeats(sec, init), RowSeats(sec, last.row, last.seats), Available);
    }
  }

  function SectionsAvailable(secs: seq<SeatSection>): nat {
    if secs == [] then 0
    else SectionsAvailable(secs[..|secs| - 1]) + RowsAvailable(secs[|secs| - 1], secs[|secs| - 1].rows)
  }

  lemma {:induction false} SectionsSeatsAvailable(secs: seq<SeatSection>)
    ensures |OfStatus(SectionsSeats(secs), Available)| == SectionsAvailable(secs)
  {
    if secs != [] {
      var init, last := secs[..|secs| - 1], secs[|secs| - 1];
      SectionsSeatsAvailable(init);
      RowsSeatsAvailable(last, last.rows);
      OfStatusAppend(SectionsSeats(init), RowsSeats(last, last.rows), Available);
    }
  }

  /** A section outside the balcony opens all its seats or none. */
  lemma {:induction false} RowsAvailableUniform(sec: SeatSection, rows: seq<RowSpec>)
    requires sec.name != BalconyName
    ensures RowsAvailable(sec, rows) == if sec.defaultStatus == Available then RowsCount(rows) else 0
  {
    if rows != [] {
      RowsAvailableUniform(sec, rows[..|rows| - 1]);
    }
  }

  lemma RowsAvailablePrefix(sec: SeatSection, rows: seq<RowSpec>, j: nat)
    requires 0 < j <= |rows|
    ensures RowsAvailable(sec, rows[..j]) == RowsAvailable(sec, rows[..j - 1]) + RowAvailable(sec, rows[j - 1].row, rows[j - 1].seats)
  {
    assert rows[..j][..j - 1] == rows[..j - 1];
  }

  /** Rows A and B of the balcony open 12 seats each, the next two all their 24. */
  lemma BalconyFirstRowsAvailable(sec: SeatSection)
    requires sec.name == BalconyName && |sec.rows| == 8
    requires forall j :: 0 <= j < 8 ==> sec.rows[j].seats == 24
    requires sec.rows[0].row == "A" && sec.rows[1].row == "B"
    requires forall j :: 2 <= j < 8 ==> sec.rows[j].row != "A" && sec.rows[j].row != "B"
    requires sec.defaultStatus == Available
    ensures RowsAvailable(sec, sec.rows[..4]) == 72
  {
    var rows := sec.rows;
    RowsAvailablePrefix(sec, rows, 1);
    RowsAvailablePrefix(sec, rows, 2);
    RowsAvailablePrefix(sec, rows, 3);
    RowsAvailablePrefix(sec, rows, 4);
    assert rows[..0] == [];
  }

  /** Eight rows of 24 in the balcony, A and B first, open 12 + 12 + 6 * 24 seats. */
  lemma BalconyRowsAvailable(sec: SeatSection)
    requires sec.name == BalconyName && |sec.rows| == 8
    requires forall j :: 0 <= j < 8 ==> sec.rows[j].seats == 24
    requires sec.rows[0].row == "A" && sec.rows[1].row == "B"
    requires forall j :: 2 <= j < 8 ==> sec.rows[j].row != "A" && sec.rows[j].row != "B"
    requires sec.defaultStatus == Available
    ensures RowsAvailable(sec, sec.rows) == 168
  {
    var rows := sec.rows;
    BalconyFirstRowsAvailable(sec);
    RowsAvailablePrefix(sec, rows, 5);
    RowsAvailablePrefix(sec, rows, 6);
    RowsAvailablePrefix(sec, rows, 7);
    RowsAvailablePrefix(sec, rows, 8);
    assert rows[..8] == rows;
  }

  /** The balcony opens 12 seats in each of rows A and B and 24 in each of rows C to H. */
  lemma BalconyAvailable()
    ensures RowsAvailable(SeatSections[2], SeatSections[2].rows) == 168
  {
    BalconyRowsAvailable(SeatSections[2]);
  }

  lemma SectionsAvailablePrefix(secs: seq<SeatSection>, k: nat)
    requires 0 < k <= |secs|
    ensures SectionsAvailable(secs[..k]) == SectionsAvailable(secs[..k - 1]) + RowsAvailable(secs[k - 1], secs[k - 1].rows)
  {
    assert secs[..k][..k - 1] == secs[..k - 1];
  }

  lemma SectionsAvailableOfFive(secs: seq<SeatSection>)
    requires |secs| == 5
    ensures SectionsAvailable(secs) == RowsAvailable(secs[0], secs[0].rows) + RowsAvailable(secs[1], secs[1].rows)
                                     + RowsAvailable(secs[2], secs[2].rows) + RowsAvailable(secs[3], secs[3].rows)
                                     + RowsAvailable(secs[4], secs[4].rows)
  {
    SectionsAvailablePrefix(secs, 1);
    SectionsAvailablePrefix(secs, 2);
    SectionsAvailablePrefix(secs, 3);
    SectionsAvailablePrefix(secs, 4);
    SectionsAvailablePrefix(secs, 5);
    assert secs[..0] == [] && secs[..5] == secs;
  }

  /** 96 star-class seats and 168 balcony seats start available: 264 in all. */
  lemma InitialAvailableCount()
    ensures |OfStatus(InitialSeats(), Available)| == 264
  {
    var s := SeatSections;
    TemplateShape();
    TemplateNamesDistinct();
    RowsAvailableUniform(s[0], s[0].rows);
    RowsAvailableUniform(s[1], s[1].rows);
    BalconyAvailable();
    RowsAvailableUniform(s[3], s[3].rows);
    RowsAvailableUniform(s[4], s[4].rows);
    SectionsAvailableOfFive(s);
    SectionsSeatsAvailable(s);
  }

  /** On the initial layout the store reports 264 seats, all available. */
  lemma InitialStats()
    ensures Stats(InitialSeats()) == BookingStats(264, 264, 0, 0, 0)
  {
    var s := InitialSeats();
    forall i | 0 <= i < |s| ensures s[i].status == Available || s[i].status == Disabled {
      InitialSeatAt(i);
    }
    StatsOfOpenOrDisabled(s);
    InitialAvailableCount();
  }
}
