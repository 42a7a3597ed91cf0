/**
 * The pure parts of the booking store: toggling a seat, counting seats for
 * the statistics, and finding a saved booking by date and show.
 */
module Booking {
  import opened Options
  import opened Seats
  import opened LayoutIds

  datatype ShowTime = Morning | Matinee | Evening | Night

  /** A saved booking: a copy of the seats for one date and show. */
  datatype BookingSnapshot = BookingSnapshot(date: string, show: ShowTime, seats: seq<Seat>, timestamp: string)

  datatype BookingStats = BookingStats(total: nat, available: nat, booked: nat, blocked: nat, bmsBooked: nat)

  /** Identity, row, number and section: everything about a seat but its status. */
  predicate SamePlace(x: Seat, y: Seat) {
    x.id == y.id && x.row == y.row && x.number == y.number && x.section == y.section
  }

  /** One click on seatId: every seat with that id advances one status, all others stay. */
  function ToggleSeat(seats: seq<Seat>, seatId: string): (r: seq<Seat>)
    ensures |r| == |seats|
    ensures forall i :: 0 <= i < |seats| ==> SamePlace(r[i], seats[i])
    ensures forall i :: 0 <= i < |seats| && seats[i].id != seatId ==> r[i] == seats[i]
    ensures forall i :: 0 <= i < |seats| && seats[i].id == seatId ==> r[i].status == NextStatus(seats[i].status)
  {
    if seats == [] then []
    else
      var s := seats[0];
      [if s.id == seatId then s.(status := NextStatus(s.status)) else s] + ToggleSeat(seats[1..], seatId)
  }

  /** A click on an id no seat has changes nothing. */
  lemma ToggleUnknownId(seats: seq<Seat>, seatId: string)
    requires forall i :: 0 <= i < |seats| ==> seats[i].id != seatId
    ensures ToggleSeat(seats, seatId) == seats
  {
  }

  /** A click on a disabled seat changes nothing. */
  lemma ToggleDisabled(seats: seq<Seat>, seatId: string)
    requires forall i :: 0 <= i < |seats| && seats[i].id == seatId ==> seats[i].status == Disabled
    ensures ToggleSeat(seats, seatId) == seats
  {
    var r := ToggleSeat(seats, seatId);
    forall i | 0 <= i < |seats| ensures r[i] == seats[i] {
    }
  }

  /** Where ids are unique, a click on the id of seat k changes seat k alone. */
  lemma ToggleOneSeat(seats: seq<Seat>, k: nat)
    requires DistinctIds(seats) && k < |seats|
    ensures ToggleSeat(seats, seats[k].id) == seats[k := seats[k].(status := NextStatus(seats[k].status))]
  {
    var r, expected := ToggleSeat(seats, seats[k].id), seats[k := seats[k].(status := NextStatus(seats[k].status))];
    forall i | 0 <= i < |seats| ensures r[i] == expected[i] {
      if i != k {
        assert seats[i].id != seats[k].id by {
          if i < k {
            assert seats[i].id != seats[k].id;
          } else {
            assert seats[k].id != seats[i].id;
          }
        }
      }
    }
  }

  /** Four clicks on the same id restore every seat. */
  lemma ToggleFourTimes(seats: seq<Seat>, seatId: string)
    ensures ToggleSeat(ToggleSeat(ToggleSeat(ToggleSeat(seats, seatId), seatId), seatId), seatId) == seats
  {
    var r := ToggleSeat(ToggleSeat(ToggleSeat(ToggleSeat(seats, seatId), seatId), seatId), seatId);
    forall i | 0 <= i < |seats| ensures r[i] == seats[i] {
      var s := seats[i].status;
      FourClicksIdentity(s);
      assert Advance(s, 4) == NextStatus(NextStatus(NextStatus(NextStatus(s))));
    }
  }

  /** The seats that are not disabled, in order. */
  function Bookable(seats: seq<Seat>): (r: seq<Seat>)
    ensures |r| <= |seats|
    ensures forall x :: x in r <==> x in seats && x.status != Disabled
  {
    if seats == [] then []
    else if seats[0].status != Disabled then [seats[0]] + Bookable(seats[1..])
    else Bookable(seats[1..])
  }

  /** Bookable keeps every seat that is not disabled as many times as it occurs, and drops the rest. */
  lemma {:induction false} BookableMultiplicity(seats: seq<Seat>)
    ensures forall x :: multiset(Bookable(seats))[x] == if x.status != Disabled then multiset(seats)[x] else 0
  {
    if seats != [] {
      assert seats == [seats[0]] + seats[1..];
      BookableMultiplicity(seats[1..]);
    }
  }

  /** The seats with status st, in order. */
  function OfStatus(seats: seq<Seat>, st: SeatStatus): (r: seq<Seat>)
    ensures |r| <= |seats|
    ensures forall x :: x in r <==> x in seats && x.status == st
  {
    if seats == [] then []
    else if seats[0].status == st then [seats[0]] + OfStatus(seats[1..], st)
    else OfStatus(seats[1..], st)
  }

  /** OfStatus keeps every seat with status st as many times as it occurs, and drops the rest. */
  lemma {:induction false} OfStatusMultiplicity(seats: seq<Seat>, st: SeatStatus)
    ensures forall x :: multiset(OfStatus(seats, st))[x] == if x.status == st then multiset(seats)[x] else 0
  {
    if seats != [] {
      assert seats == [seats[0]] + seats[1..];
      OfStatusMultiplicity(seats[1..], st);
    }
  }

  /** The counts the store reports, all taken over the seats that are not disabled. */
  function Stats(seats: seq<Seat>): BookingStats {
    var b := Bookable(seats);
    BookingStats(|b|, |OfStatus(b, Available)|, |OfStatus(b, Booked)|, |OfStatus(b, Blocked)|, |OfStatus(b, BmsBooked)|)
  }

  /** The four status counts add up to the total, and total plus disabled seats is every seat. */
  lemma {:induction false} StatsAddUp(seats: seq<Seat>)
    ensures var st := Stats(seats);
            st.available + st.booked + st.blocked + st.bmsBooked == st.total
    ensures Stats(seats).total + |OfStatus(seats, Disabled)| == |seats|
  {
    if seats != [] {
      StatsAddUp(seats[1..]);
    }
  }

  /** Whether s has the same seats as ref, in the same places, with the same seats disabled. */
  predicate Conforms(s: seq<Seat>, ref: seq<Seat>) {
    && |s| == |ref|
    && forall i :: 0 <= i < |s| ==> SamePlace(s[i], ref[i]) && (s[i].status == Disabled <==> ref[i].status == Disabled)
  }

  lemma ConformsToItself(s: seq<Seat>)
    ensures Conforms(s, s)
  {
  }

  /** A click keeps every seat in place and never enables or disables a seat. */
  lemma ToggleConforms(s: seq<Seat>, ref: seq<Seat>, seatId: string)
    requires Conforms(s, ref)
    ensures Conforms(ToggleSeat(s, seatId), ref)
  {
  }

  /** The total depends only on which seats are disabled. */
  lemma {:induction false} TotalOfConforming(s: seq<Seat>, ref: seq<Seat>)
    requires Conforms(s, ref)
    ensures Stats(s).total == Stats(ref).total
  {
    if s != [] {
      assert Conforms(s[1..], ref[1..]) by {
        forall i | 0 <= i < |s[1..]|
          ensures SamePlace(s[1..][i], ref[1..][i])
               && (s[1..][i].status == Disabled <==> ref[1..][i].status == Disabled)
        {
          assert s[1..][i] == s[i + 1] && ref[1..][i] == ref[i + 1];
        }
      }
      TotalOfConforming(s[1..], ref[1..]);
    }
  }

  /** A click never changes the total. */
  lemma ToggleKeepsTotal(s: seq<Seat>, seatId: string)
    ensures Stats(ToggleSeat(s, seatId)).total == Stats(s).total
  {
    assert Conforms(ToggleSeat(s, seatId), s);
    TotalOfConforming(ToggleSeat(s, seatId), s);
  }

  predicate Matches(b: BookingSnapshot, date: string, show: ShowTime) {
    b.date == date && b.show == show
  }

  /** The index of the first saved booking for date and show, if any. */
  function FindBooking(history: seq<BookingSnapshot>, date: string, show: ShowTime): (r: Option<nat>)
    ensures r.None? <==> forall i :: 0 <= i < |history| ==> !Matches(history[i], date, show)
    ensures r.Some? ==> r.value < |history| && Matches(history[r.value], date, show)
    ensures r.Some? ==> forall j :: 0 <= j < r.value ==> !Matches(history[j], date, show)
  {
    if history == [] then None
    else if Matches(history[0], date, show) then Some(0)
    else
      match FindBooking(history[1..], date, show)
      case None => None
      case Some(k) => Some(k + 1)
  }

  /** Bookings saved after the first one for a key never change what is found for it. */
  lemma FindIgnoresLaterSaves(history: seq<BookingSnapshot>, later: seq<BookingSnapshot>, date: string, show: ShowTime)
    requires FindBooking(history, date, show).Some?
    ensures FindBooking(history + later, date, show) == FindBooking(history, date, show)
  {
    var k := FindBooking(history, date, show).value;
    var h := history + later;
    assert h[k] == history[k] && forall j :: 0 <= j < k ==> h[j] == history[j];
    FirstMatchIsFound(h, date, show, k);
  }

  /** An index that matches and has no match before it is the one found. */
  lemma FirstMatchIsFound(history: seq<BookingSnapshot>, date: string, show: ShowTime, k: nat)
    requires k < |history| && Matches(history[k], date, show)
    requires forall j :: 0 <= j < k ==> !Matches(history[j], date, show)
    ensures FindBooking(history, date, show) == Some(k)
  {
    var r := FindBooking(history, date, show);
    assert r.Some?;
    assert !(r.value < k);
    assert !(k < r.value);
  }

  /** The first booking saved for a key is found whatever is saved after it. */
  lemma {:induction false} FindFirstSave(history: seq<BookingSnapshot>, snap: BookingSnapshot, later: seq<BookingSnapshot>)
    requires FindBooking(history, snap.date, snap.show).None?
    ensures FindBooking(history + [snap] + later, snap.date, snap.show) == Some(|history|)
  {
    var h := history + [snap] + later;
    assert h[|history|] == snap;
    assert forall j :: 0 <= j < |history| ==> h[j] == history[j];
    FirstMatchIsFound(h, snap.date, snap.show, |history|);
  }
}
