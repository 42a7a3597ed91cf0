/**
 * The booking store: the selected date and show, the live seats and the
 * history of saved bookings, changed only through the store's actions.
 */
module Store {
  import opened Options
  import opened Decimal
  import opened Seats
  import opened Layout
  import opened LayoutIds
  import opened Booking
  import opened InitialLayout

  /** What a load puts in place: the seats of the first booking saved for the key, else a fresh layout. */
  function SeatsToLoad(history: seq<BookingSnapshot>, date: string, show: ShowTime): seq<Seat> {
    match FindBooking(history, date, show)
    case Some(k) => history[k].seats
    case None => InitialSeats()
  }

  /** Saving is undone by loading: the first save for a key is what any later load of that key restores. */
  lemma SaveThenLoadRestores(history: seq<BookingSnapshot>, snap: BookingSnapshot, later: seq<BookingSnapshot>)
    requires FindBooking(history, snap.date, snap.show).None?
    ensures SeatsToLoad(history + [snap] + later, snap.date, snap.show) == snap.seats
  {
    FindFirstSave(history, snap, later);
  }

  /** A second save for a key already saved is shadowed: loading still restores the first. */
  lemma LaterSaveShadowed(history: seq<BookingSnapshot>, snap: BookingSnapshot)
    requires FindBooking(history, snap.date, snap.show).Some?
    ensures SeatsToLoad(history + [snap], snap.date, snap.show) == SeatsToLoad(history, snap.date, snap.show)
  {
    FindIgnoresLaterSaves(history, [snap], snap.date, snap.show);
  }

  /** Loading a date and show never saved gives the fresh layout. */
  lemma LoadUnsaved(history: seq<BookingSnapshot>, date: string, show: ShowTime)
    requires forall i :: 0 <= i < |history| ==> !(history[i].date == date && history[i].show == show)
    ensures SeatsToLoad(history, date, show) == InitialSeats()
  {
  }

  /** In every state the store reaches, its seats and all saved seats keep the initial places and disabled seats. */
  ghost predicate ValidSeats(seats: seq<Seat>, history: seq<BookingSnapshot>) {
    && Conforms(seats, InitialSeats())
    && forall i :: 0 <= i < |history| ==> Conforms(history[i].seats, InitialSeats())
  }

  lemma SaveKeepsValid(seats: seq<Seat>, history: seq<BookingSnapshot>, snap: BookingSnapshot)
    requires ValidSeats(seats, history) && snap.seats == seats
    ensures ValidSeats(seats, history + [snap])
  {
    var h := history + [snap];
    forall i | 0 <= i < |h| ensures Conforms(h[i].seats, InitialSeats()) {
      if i < |history| {
        assert h[i] == history[i];
      }
    }
  }

  lemma LoadConforms(history: seq<BookingSnapshot>, date: string, show: ShowTime)
    requires forall i :: 0 <= i < |history| ==> Conforms(history[i].seats, InitialSeats())
    ensures Conforms(SeatsToLoad(history, date, show), InitialSeats())
  {
    match FindBooking(history, date, show)
    case Some(k) =>
      assert Conforms(history[k].seats, InitialSeats());
    case None =>
      ConformsToItself(InitialSeats());
  }

  class BookingStore {
    var selectedDate: string
    var selectedShow: ShowTime
    var seats: seq<Seat>
    var bookingHistory: seq<BookingSnapshot>

    ghost predicate Valid()
      reads this
    {
      ValidSeats(seats, bookingHistory)
    }

    /** The store as the program starts it; today is the date the clock gives. */
    constructor (today: string)
      ensures Valid()
      ensures selectedDate == today && selectedShow == Evening
      ensures seats == InitialSeats() && bookingHistory == []
    {
      var layout := CreateInitialSeats();
      ConformsToItself(layout);
      selectedDate := today;
      selectedShow := Evening;
      seats := layout;
      bookingHistory := [];
    }

    method SetSelectedDate(date: string)
      requires Valid()
      modifies this
      ensures Valid()
      ensures selectedDate == date
      ensures selectedShow == old(selectedShow) && seats == old(seats) && bookingHistory == old(bookingHistory)
    {
      selectedDate := date;
    }

    method SetSelectedShow(show: ShowTime)
      requires Valid()
      modifies this
      ensures Valid()
      ensures selectedShow == show
      ensures selectedDate == old(selectedDate) && seats == old(seats) && bookingHistory == old(bookingHistory)
    {
      selectedShow := show;
    }

    /** A click on seatId. */
    method ToggleSeatStatus(seatId: string)
      requires Valid()
      modifies this
      ensures Valid()
      ensures seats == ToggleSeat(old(seats), seatId)
      ensures selectedDate == old(selectedDate) && selectedShow == old(selectedShow)
      ensures bookingHistory == old(bookingHistory)
    {
      ToggleConforms(seats, InitialSeats(), seatId);
      seats := ToggleSeat(seats, seatId);
    }

    /** Appends a copy of the current seats for the selected date and show; timestamp is the clock's reading. */
    method SaveBooking(timestamp: string)
      requires Valid()
      modifies this
      ensures Valid()
      ensures bookingHistory == old(bookingHistory) + [BookingSnapshot(selectedDate, selectedShow, seats, timestamp)]
      ensures selectedDate == old(selectedDate) && selectedShow == old(selectedShow) && seats == old(seats)
    {
      SaveKeepsValid(seats, bookingHistory, BookingSnapshot(selectedDate, selectedShow, seats, timestamp));
      bookingHistory := bookingHistory + [BookingSnapshot(selectedDate, selectedShow, seats, timestamp)];
    }

    /** Selects date and show and puts in place the first booking saved for them, or a fresh layout. */
    method LoadBookingForDate(date: string, show: ShowTime)
      requires Valid()
      modifies this
      ensures Valid()
      ensures selectedDate == date && selectedShow == show
      ensures seats == SeatsToLoad(old(bookingHistory), date, show)
      ensures bookingHistory == old(bookingHistory)
    {
      ghost var target := SeatsToLoad(bookingHistory, date, show);
      LoadConforms(bookingHistory, date, show);
      var booking := FindBooking(bookingHistory, date, show);
      if booking.Some? {
        selectedDate, selectedShow, seats := date, show, bookingHistory[booking.value].seats;
      } else {
        var layout := CreateInitialSeats();
        selectedDate, selectedShow, seats := date, show, layout;
      }
      assert seats == target;
    }

    /** Puts a fresh layout in place; the history, date and show stay. */
    method InitializeSeats()
      requires Valid()
      modifies this
      ensures Valid()
      ensures seats == InitialSeats()
      ensures selectedDate == old(selectedDate) && selectedShow == old(selectedShow)
      ensures bookingHistory == old(bookingHistory)
    {
      seats := CreateInitialSeats();
      ConformsToItself(seats);
    }

    /** The counts over the seats that are not disabled: always 264 seats in all. */
    method GetBookingStats() returns (stats: BookingStats)
      requires Valid()
      ensures stats == Stats(seats)
      ensures stats.total == 264
      ensures stats.available + stats.booked + stats.blocked + stats.bmsBooked == stats.total
    {
      stats := Stats(seats);
      TotalOfConforming(seats, InitialSeats());
      InitialStats();
      StatsAddUp(seats);
    }
  }

  /**
   * A save for a key not saved before, followed by any click and a reset,
   * is restored by loading that key.
   */
  method SaveEditLoad(store: BookingStore, seatId: string, timestamp: string)
    requires store.Valid()
    requires FindBooking(store.bookingHistory, store.selectedDate, store.selectedShow).None?
    modifies store
    ensures store.Valid()
    ensures store.seats == old(store.seats)
    ensures store.selectedDate == old(store.selectedDate) && store.selectedShow == old(store.selectedShow)
    ensures store.bookingHistory == old(store.bookingHistory)
                                    + [BookingSnapshot(old(store.selectedDate), old(store.selectedShow), old(store.seats), timestamp)]
  {
    var date, show := store.selectedDate, store.selectedShow;
    ghost var history, saved := store.bookingHistory, store.seats;
    store.SaveBooking(timestamp);
    store.ToggleSeatStatus(seatId);
    store.InitializeSeats();
    store.LoadBookingForDate(date, show);
    SaveThenLoadRestores(history, BookingSnapshot(date, show, saved, timestamp), []);
    assert history + [BookingSnapshot(date, show, saved, timestamp)] + [] == store.bookingHistory;
  }

  const StarA1: string := "Rs. 150 STAR CLASS-A1"

  lemma StarSectionRowA()
    ensures 1 < |SeatSections|
    ensures SeatSections[1].name == "Rs. 150 STAR CLASS" && SeatSections[1].defaultStatus == Available
    ensures 0 < |SeatSections[1].rows| && SeatSections[1].rows[0] == RowSpec("A", 26, None)
  {
  }

  lemma StarA1Id()
    ensures SeatId("Rs. 150 STAR CLASS", "A", 1) == StarA1
  {
    assert NatToString(1) == "1";
  }

  lemma StarA1Seat(sec: SeatSection)
    requires sec.name == "Rs. 150 STAR CLASS" && sec.defaultStatus == Available
    ensures MakeSeat(sec, "A", 1).id == StarA1 && MakeSeat(sec, "A", 1).status == Available
  {
    StarA1Id();
  }

  /** Seat 1 of row A of the star class starts available. */
  lemma StarA1Available() returns (k: nat)
    ensures k < |InitialSeats()| && InitialSeats()[k].id == StarA1 && InitialSeats()[k].status == Available
  {
    StarSectionRowA();
    var sec := SeatSections[1];
    StarA1Seat(sec);
    LayoutIds.SectionsSeatsContains(SeatSections, 1, 0, 1);
    k :| 0 <= k < |InitialSeats()| && InitialSeats()[k] == MakeSeat(sec, "A", 1);
  }

  /** One click on "Rs. 150 STAR CLASS-A1" books that seat. */
  lemma StarA1BookedAfterClick()
    ensures exists k :: 0 <= k < |ToggleSeat(InitialSeats(), StarA1)|
                     && ToggleSeat(InitialSeats(), StarA1)[k].id == StarA1
                     && ToggleSeat(InitialSeats(), StarA1)[k].status == Booked
  {
    var k := StarA1Available();
    var r := ToggleSeat(InitialSeats(), StarA1);
    assert r[k].id == StarA1 && r[k].status == Booked;
  }

  /**
   * Click "Rs. 150 STAR CLASS-A1", select 2024-01-01 Evening and save,
   * click the seat once more, reset the seats and load that date and show:
   * the seat is booked again, and the one saved booking holds these seats.
   */
  method StarClassRoundTrip(today: string, timestamp: string) returns (store: BookingStore)
    ensures store.Valid()
    ensures store.selectedDate == "2024-01-01" && store.selectedShow == Evening
    ensures |store.bookingHistory| == 1 && store.bookingHistory[0].seats == store.seats
    ensures exists k :: 0 <= k < |store.seats| && store.seats[k].id == StarA1 && store.seats[k].status == Booked
  {
    store := new BookingStore(today);
    store.ToggleSeatStatus(StarA1);
    store.SetSelectedDate("2024-01-01");
    store.SetSelectedShow(Evening);
    SaveEditLoad(store, StarA1, timestamp);
    StarA1BookedAfterClick();
  }
}
