# Cinema seat-booking store

A Dafny model of the in-memory booking state of a single-screen cinema's
seat-booking tool (`src/store/bookingStore.ts`). That file does two things:

- **The layout generator.** It holds a fixed theatre template of five
  sections: BOX, Rs. 150 STAR CLASS, Rs. 120 CLASSIC BALCONY, FIRST CLASS and
  SECOND CLASS. It expands the template into a flat, ordered list of seats.
  - Every seat gets the id `section-rowN`.
  - Seats are numbered from 1 within each row.
  - Every seat takes its section's default status.
  - One override applies: in the balcony, rows A and B disable seats 1 to 12.
- **The store.** It holds the selected date and show, the live seats and a
  history of saved bookings. Its actions change these fields:
  - selecting a date or a show;
  - clicking a seat, which advances its status along
    available → booked → blocked → bms-booked → available, while a disabled
    seat never changes;
  - saving a copy of the seats for the selected date and show;
  - loading a date and show;
  - resetting the seats;
  - reporting counts over the seats that are not disabled.

The model is laid out in modules:

| module | file | contents |
|---|---|---|
| `Options` | `options.dfy` | `Option` |
| `Decimal` | `decimal.dfy` | decimal rendering of seat numbers, its value and injectivity |
| `Seats` | `seats.dfy` | `SeatStatus` and its click cycle, `Seat`, seat ids and their injectivity |
| `Layout` | `layout.dfy` | `SeatSection`, the template `SeatSections`, the specification `InitialSeats()` and the imperative generator `CreateInitialSeats` (nested loops that push seat after seat) |
| `LayoutFacts` | `layout_facts.dfy` | the size of the template and of the layout |
| `LayoutIds` | `layout_facts.dfy` | which seats the layout holds, and that their ids are distinct |
| `InitialLayout` | `initial_layout.dfy` | the status of every initial seat, and the initial counts |
| `Booking` | `booking.dfy` | snapshots, the click on a seat, the counts, and the lookup of a saved booking |
| `Store` | `store.dfy` | the class `BookingStore`, its actions, the save/load round trip and a worked scenario |

The pure parts of the source (`getNextStatus`, the `map` inside
`toggleSeatStatus`, the `filter`s inside `getBookingStats`, and `Array.find`)
are Dafny functions. The parts that change state are
imperative Dafny:

- `createInitialSeats` is three nested loops that append to a sequence, each
  proved equal to a left-recursive specification function.
- The store is a class whose methods modify its four fields.

Every store method keeps the class invariant `Valid()`. It says that the live
seats and every saved copy conform to the initial layout: the same seats in
the same places, with the same seats disabled. Clicks never enable or disable
a seat, so from this invariant `GetBookingStats` proves that `total` is 264
in every state the store can reach.

Policies of the code that the model keeps as they are:

- Loading takes the first saved booking for a date and show, because
  `Array.find` returns the first match (`bookingStore.ts:183-185`), so a
  later save for the same key is never loaded; `Store.LaterSaveShadowed`
  states this.
- The click is cyclic only; there is no explicit target status.
- There are no aisle placeholders with number 0, since numbering starts at 1.
- The template's `price` and `startNumber` fields are kept in the data but
  ignored by the generator, as in the source.
- Line 134 of `bookingStore.ts` closes the `for` loop with `});` where `}`
  is meant. The model follows the evident intent: a plain `for` loop over
  `1..seatCount`.

## Model

| member | source | states |
|---|---|---|
| `Seats.NextStatus` | src/store/bookingStore.ts:141-151 | the result is disabled exactly when the input is; any other status moves one place along the four-status cycle available, booked, blocked, bms-booked |
| `Seats.AdvanceAlongCycle` | src/store/bookingStore.ts:141-151 | k clicks on an enabled status move it k places along the cycle, modulo 4, and never disable it; k clicks leave a disabled status disabled |
| `Seats.FourClicksIdentity` | src/store/bookingStore.ts:141-151 | four clicks restore every status |
| `Seats.DisabledIsSink` | src/store/bookingStore.ts:142 | any number of clicks leave a disabled status disabled |
| `Seats.CycleReachesAll` | src/store/bookingStore.ts:144-149 | from every enabled status, every enabled status is reached in fewer than four clicks |
| `Decimal.DigitsValueOfNatToString` | src/store/bookingStore.ts:128 | the decimal text of a seat number reads back as that number |
| `Decimal.NatToStringInjective` | src/store/bookingStore.ts:128 | distinct numbers have distinct decimal texts |
| `Seats.SeatIdInjective` | src/store/bookingStore.ts:128 | for section names without '-' and row labels without digits, two ids are equal exactly when section, row and number are all equal |
| `Layout.RowSeats` | src/store/bookingStore.ts:119-133 | one row with count seats: seat k has number k+1, in increasing order |
| `Layout.RowsSeats` | src/store/bookingStore.ts:118-135 | the seats of the rows of a section number as many as the rows' seat counts add up to |
| `Layout.SectionsSeats` | src/store/bookingStore.ts:117-136 | the seats of the sections number as many as all their rows' seat counts add up to |
| `Layout.CreateInitialSeats` | src/store/bookingStore.ts:114-139 | the generator returns exactly the initial layout `InitialSeats()` |
| `Layout.ExpandSections` | src/store/bookingStore.ts:115-138 | the loop over sections builds the seats of every section, section after section |
| `Layout.PushSection` | src/store/bookingStore.ts:118-135 | the loop over a section's rows appends that section's seats, row after row |
| `Layout.PushRow` | src/store/bookingStore.ts:119-133 | the loop over seats 1 to seatCount appends that row's seats with their ids, numbers and initial statuses, the balcony override included |
| `LayoutFacts.RowsCountUniform` | src/store/bookingStore.ts:57-61 | rows of equal size add up to their number times that size |
| `LayoutFacts.TemplateShape` | src/store/bookingStore.ts:54-111 | the template has five sections, holding 18, 96, 192, 168 and 60 seats |
| `LayoutFacts.InitialSeatCount` | src/store/bookingStore.ts:54-139 | the initial layout holds 534 seats |
| `LayoutIds.SectionsSeatsFrom` | src/store/bookingStore.ts:117-133 | every generated seat is seat n of some row of some section, with n in 1 to that row's seat count |
| `LayoutIds.SectionsSeatsContains` | src/store/bookingStore.ts:117-133 | every seat n in 1 to the row's count, of every row of every section, is in the layout |
| `LayoutIds.SectionsSeatsDistinct` | src/store/bookingStore.ts:117-133 | for a template with distinct, '-'-free section names and distinct, digit-free row labels per section, all generated ids are pairwise distinct |
| `LayoutIds.TemplateWellFormed` | src/store/bookingStore.ts:54-111 | the theatre template meets those conditions |
| `LayoutIds.InitialIdsDistinct` | src/store/bookingStore.ts:114-139 | the initial layout's ids are pairwise distinct |
| `InitialLayout.TemplateDefaults` | src/store/bookingStore.ts:54-111 | each section's default status: available for the star class and the balcony, disabled for the others |
| `InitialLayout.InitialSeatAt` | src/store/bookingStore.ts:119-133 | every initial seat has number at least 1 and the id built from its section, row and number; in balcony rows A and B it is disabled exactly when its number is at most 12, elsewhere it has its section's default status |
| `InitialLayout.BoxA1IsDisabled` | src/store/bookingStore.ts:55-62 | the initial layout holds a seat with id BOX-A1, and it is disabled |
| `InitialLayout.BoxA1OnlyDisabled` | src/store/bookingStore.ts:55-62 | every initial seat with id BOX-A1 is disabled |
| `InitialLayout.ToggleBoxA1` | src/store/bookingStore.ts:142 | a click on BOX-A1 in the initial layout changes nothing |
| `InitialLayout.SectionsSeatsAvailable` | src/store/bookingStore.ts:117-133 | the available seats of generated sections number as the template's row counts and balcony split give |
| `InitialLayout.BalconyRowsAvailable` | src/store/bookingStore.ts:76-88 | a balcony with the template's rows has 168 available seats: 12 in each of rows A and B, 24 in each of C to H |
| `InitialLayout.InitialAvailableCount` | src/store/bookingStore.ts:54-139 | the initial layout has 264 available seats |
| `InitialLayout.InitialStats` | src/store/bookingStore.ts:204-214 | on the initial layout the counts are total 264, available 264, and 0 booked, blocked and bms-booked |
| `Booking.ToggleSeat` | src/store/bookingStore.ts:163-167 | same length; every seat keeps id, row, number and section; seats with another id are unchanged; seats with the id advance one status |
| `Booking.ToggleUnknownId` | src/store/bookingStore.ts:163-167 | a click on an id no seat has leaves the seats unchanged |
| `Booking.ToggleDisabled` | src/store/bookingStore.ts:165 | a click on an id whose seats are disabled leaves the seats unchanged |
| `Booking.ToggleOneSeat` | src/store/bookingStore.ts:163-167 | with distinct ids, a click on seat k's id changes seat k alone, to its next status |
| `Booking.ToggleFourTimes` | src/store/bookingStore.ts:163-167 | four clicks on the same id restore the seats |
| `Booking.ToggleConforms` | src/store/bookingStore.ts:163-167 | a click never moves a seat nor enables or disables one |
| `Booking.ToggleKeepsTotal` | src/store/bookingStore.ts:163-167 | a click never changes the reported total |
| `Booking.Bookable` | src/store/bookingStore.ts:206 | a seat is in the result exactly when it is in the input and not disabled |
| `Booking.BookableMultiplicity` | src/store/bookingStore.ts:206 | each seat that is not disabled occurs in the result as often as in the input, and disabled seats not at all |
| `Booking.OfStatus` | src/store/bookingStore.ts:209-212 | a seat is in the result exactly when it is in the input with that status |
| `Booking.OfStatusMultiplicity` | src/store/bookingStore.ts:209-212 | each seat with that status occurs in the result as often as in the input, and other seats not at all |
| `Booking.StatsAddUp` | src/store/bookingStore.ts:204-214 | available + booked + blocked + bmsBooked == total, and total plus the disabled seats is every seat |
| `Booking.TotalOfConforming` | src/store/bookingStore.ts:206-208 | conforming seats (same places, same disabled seats) have the same total |
| `Booking.FindBooking` | src/store/bookingStore.ts:183-185 | None exactly when no saved booking matches date and show; otherwise the index of a match with no match before it |
| `Booking.FirstMatchIsFound` | src/store/bookingStore.ts:183-185 | a matching index with no match before it is the one found |
| `Booking.FindIgnoresLaterSaves` | src/store/bookingStore.ts:183-185 | once a key is saved, saves appended later never change what is found for it |
| `Booking.FindFirstSave` | src/store/bookingStore.ts:169-185 | after the first save of a key, that save is found whatever is appended after it |
| `Store.SaveThenLoadRestores` | src/store/bookingStore.ts:169-200 | the first save of a key is what loading the key restores, whatever is saved after it |
| `Store.LaterSaveShadowed` | src/store/bookingStore.ts:183-192 | a second save for a key already saved does not change what loading it gives |
| `Store.LoadUnsaved` | src/store/bookingStore.ts:193-198 | loading a date and show never saved gives the initial layout |
| `Store.SaveKeepsValid` | src/store/bookingStore.ts:169-179 | saving a copy of conforming seats keeps every saved copy conforming |
| `Store.LoadConforms` | src/store/bookingStore.ts:181-200 | whatever loading gives conforms to the initial layout |
| `Store.BookingStore.constructor` | src/store/bookingStore.ts:153-157 | the store starts on the given date, the Evening show, the initial layout and an empty history |
| `Store.BookingStore.SetSelectedDate` | src/store/bookingStore.ts:159 | sets the date; show, seats and history unchanged |
| `Store.BookingStore.SetSelectedShow` | src/store/bookingStore.ts:161 | sets the show; date, seats and history unchanged |
| `Store.BookingStore.ToggleSeatStatus` | src/store/bookingStore.ts:163-167 | the seats become the clicked seats; date, show and history unchanged |
| `Store.BookingStore.SaveBooking` | src/store/bookingStore.ts:169-179 | the history gains exactly one last entry with the selected date, show and current seats; date, show and seats unchanged |
| `Store.BookingStore.LoadBookingForDate` | src/store/bookingStore.ts:181-200 | sets date and show; the seats become those of the first saved booking for them, or the initial layout; history unchanged |
| `Store.BookingStore.InitializeSeats` | src/store/bookingStore.ts:202 | the seats become the initial layout; date, show and history unchanged |
| `Store.BookingStore.GetBookingStats` | src/store/bookingStore.ts:204-214 | the counts of the seats that are not disabled; total is 264 in every reachable state and the four counts add up to it |
| `Store.SaveEditLoad` | src/store/bookingStore.ts:169-202 | a save for an unsaved key, then any click and a reset, then a load of that key: the saved seats are back, with one more entry in the history |
| `Store.StarA1Available` | src/store/bookingStore.ts:64-74 | seat Rs. 150 STAR CLASS-A1 is in the initial layout, available |
| `Store.StarA1BookedAfterClick` | src/store/bookingStore.ts:163-167 | one click on that seat in the initial layout books it |
| `Store.StarClassRoundTrip` | src/store/bookingStore.ts:153-202 | click the star-class seat A1, select 2024-01-01 Evening and save, click A1 again, reset and load: the store ends on 2024-01-01 Evening with seat A1 booked, and its single saved booking holds exactly the current seats |

## Left out

- The zustand `create`/`set`/`get` plumbing: the store is a class whose methods assign its fields.
- Subscriptions and re-rendering: a UI concern outside the model.
- The clock: the initial `selectedDate` (`new Date()` at line 154) and each snapshot's `timestamp` (line 176) are parameters of the constructor and of `SaveBooking`.
- JavaScript aliasing of `[...state.seats]` and `[...booking.seats]`: Dafny sequences are values, so copies are automatic.
- The `default` branch of `getNextStatus` (line 149): no status reaches it, so `Seats.NextStatus` has no such branch.
- `Seat.number` is a JavaScript number; the model keeps it as an `int`, and the generator produces only numbers from 1 up.
- `ShowTime` is a union of four string literals; the model makes it a datatype with four constructors.
- `src/components/SeatGrid.tsx` and `src/components/SectionHeader.tsx`: presentation only (CSS classes, grouping by row, the legend, a click guard that repeats the disabled check).
- `Store.BookingStore.GetBookingStats`: its `total == 264` holds under the invariant `Valid()` that the model adds. The source states no invariant; `SeatGrid.tsx` and `SectionHeader.tsx` change it only through the store's actions, but zustand's own `setState` on the hook could bypass them, which the model does not cover.
