/**
 * The fixed theatre template and the generator that expands it into the
 * flat, ordered list of seats the store starts from.
 */
module Layout {
  import opened Options
  import opened Seats

  /** One row of a section: its label and how many seats it has. */
  datatype RowSpec = RowSpec(row: string, seats: nat, startNumber: Option<int>)

  /** A priced part of the theatre; the price and startNumber are labels the generator ignores. */
  datatype SeatSection = SeatSection(name: string, price: Option<string>, rows: seq<RowSpec>, defaultStatus: SeatStatus)

  const BalconyName: string := "Rs. 120 CLASSIC BALCONY"

  function Rows(labels: seq<string>, count: nat): (r: seq<RowSpec>)
    ensures |r| == |labels|
  {
    seq(|labels|, j requires 0 <= j < |labels| => RowSpec(labels[j], count, None))
  }

  /** The theatre: five sections, top to bottom. */
  const SeatSections: seq<SeatSection> := [
    SeatSection("BOX", None, Rows(["A", "B", "C"], 6), Disabled),
    SeatSection("Rs. 150 STAR CLASS", Some("Rs. 150"),
                Rows(["A", "B", "C"], 26) + [RowSpec("D", 18, None)], Available),
    SeatSection(BalconyName, Some("Rs. 120"), Rows(["A", "B", "C", "D", "E", "F", "G", "H"], 24), Available),
    SeatSection("FIRST CLASS", None, Rows(["A", "B", "C", "D", "E", "F", "G"], 24), Disabled),
    SeatSection("SECOND CLASS", None, Rows(["A", "B"], 30), Disabled)
  ]

  /** The balcony's rows A and B are split: seats 1 to 12 disabled, the rest available. */
  predicate IsSplitRow(sectionName: string, row: string) {
    sectionName == BalconyName && (row == "A" || row == "B")
  }

  function InitialStatus(sec: SeatSection, row: string, n: nat): SeatStatus {
    if IsSplitRow(sec.name, row) then (if n <= 12 then Disabled else Available)
    else sec.defaultStatus
  }

  /** Seat number n of the given row of sec, as the generator creates it. */
  function MakeSeat(sec: SeatSection, row: string, n: nat): Seat {
    Seat(SeatId(sec.name, row, n), row, n, InitialStatus(sec, row, n), sec.name)
  }

  /** Seats 1 to count of one row, in increasing number. */
  function RowSeats(sec: SeatSection, row: string, count: nat): (r: seq<Seat>)
    ensures |r| == count
    ensures forall k :: 0 <= k < count ==> r[k] == MakeSeat(sec, row, k + 1)
  {
    if count == 0 then [] else RowSeats(sec, row, count - 1) + [MakeSeat(sec, row, count)]
  }

  function RowsCount(rows: seq<RowSpec>): nat {
    if rows == [] then 0 else RowsCount(rows[..|rows| - 1]) + rows[|rows| - 1].seats
  }

  /** The seats of the given rows of sec, row after row. */
  function RowsSeats(sec: SeatSection, rows: seq<RowSpec>): (r: seq<Seat>)
    ensures |r| == RowsCount(rows)
  {
    if rows == [] then []
    else
      var last := rows[|rows| - 1];
      RowsSeats(sec, rows[..|rows| - 1]) + RowSeats(sec, last.row, last.seats)
  }

  function SeatCount(secs: seq<SeatSection>): nat {
    if secs == [] then 0 else SeatCount(secs[..|secs| - 1]) + RowsCount(secs[|secs| - 1].rows)
  }

  /** The seats of the given sections, section after section. */
  function SectionsSeats(secs: seq<SeatSection>): (r: seq<Seat>)
    ensures |r| == SeatCount(secs)
  {
    if secs == [] then []
    else
      var last := secs[|secs| - 1];
      SectionsSeats(secs[..|secs| - 1]) + RowsSeats(last, last.rows)
  }

  /** The layout the store starts from and resets to. */
  function InitialSeats(): seq<Seat> {
    SectionsSeats(SeatSections)
  }

  /** Builds the initial layout from the theatre template. */
  method CreateInitialSeats() returns (seats: seq<Seat>)
    ensures seats == InitialSeats()
  {
    seats := ExpandSections(SeatSections);
  }

  /** Expands sections by appending seat after seat, row after row, section after section. */
  method ExpandSections(secs: seq<SeatSection>) returns (seats: seq<Seat>)
    ensures seats == SectionsSeats(secs)
  {
    seats := [];
    var i := 0;
    while i < |secs|
      invariant 0 <= i <= |secs|
      invariant seats == SectionsSeats(secs[..i])
    {
      seats := PushSection(seats, secs[i]);
      assert secs[..i + 1][..i] == secs[..i];
      i := i + 1;
    }
    assert secs[..i] == secs;
  }

  /** Appends the seats of every row of section to seats. */
  method PushSection(seats: seq<Seat>, section: SeatSection) returns (result: seq<Seat>)
    ensures result == seats + RowsSeats(section, section.rows)
  {
    result := seats;
    var j := 0;
    while j < |section.rows|
      invariant 0 <= j <= |section.rows|
      invariant result == seats + RowsSeats(section, section.rows[..j])
    {
      result := PushRow(result, section, section.rows[j].row, section.rows[j].seats);
      assert section.rows[..j + 1][..j] == section.rows[..j];
      j := j + 1;
    }
    assert section.rows[..j] == section.rows;
  }

  /** Appends seats 1 to seatCount of one row of section to seats, with their initial statuses. */
  method PushRow(seats: seq<Seat>, section: SeatSection, row: string, seatCount: nat) returns (result: seq<Seat>)
    ensures result == seats + RowSeats(section, row, seatCount)
  {
    result := seats;
    for i := 1 to seatCount + 1
      invariant result == seats + RowSeats(section, row, i - 1)
    {
      var status := section.defaultStatus;
      if section.name == BalconyName && (row == "A" || row == "B") {
        status := if i <= 12 then Disabled else Available;
      }
      result := result + [Seat(SeatId(section.name, row, i), row, i, status, section.name)];
    }
  }
}
