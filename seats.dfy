/**
 * Seat statuses, the per-seat state machine of a click, and the seat record
 * with its identifier.
 */
module Seats {
  import opened Decimal

  datatype SeatStatus = Available | Booked | Blocked | BmsBooked | Disabled

  /** The order in which a click advances a seat that is not disabled. */
  const Cycle: seq<SeatStatus> := [Available, Booked, Blocked, BmsBooked]

  /** Where a status that is not disabled stands in Cycle. */
  function CyclePosition(s: SeatStatus): (k: nat)
    requires s != Disabled
    ensures k < |Cycle| && Cycle[k] == s
  {
    match s
    case Available => 0
    case Booked => 1
    case Blocked => 2
    case BmsBooked => 3
  }

  /**
   * The status a click moves a seat to: a disabled seat stays disabled,
   * every other status moves one step forward along Cycle, wrapping round.
   */
  function NextStatus(s: SeatStatus): (r: SeatStatus)
    ensures r == Disabled <==> s == Disabled
    ensures s != Disabled ==> r == Cycle[(CyclePosition(s) + 1) % |Cycle|]
  {
    if s == Disabled then Disabled
    else
      match s
      case Available => Booked
      case Booked => Blocked
      case Blocked => BmsBooked
      case BmsBooked => Available
  }

  /** The status after k clicks. */
  function Advance(s: SeatStatus, k: nat): SeatStatus
  {
    if k == 0 then s else NextStatus(Advance(s, k - 1))
  }

  /** k clicks move a seat that is not disabled k steps along Cycle, and leave a disabled one disabled. */
  lemma {:induction false} AdvanceAlongCycle(s: SeatStatus, k: nat)
    ensures s == Disabled ==> Advance(s, k) == Disabled
    ensures s != Disabled ==> Advance(s, k) != Disabled
    ensures s != Disabled ==> Advance(s, k) == Cycle[(CyclePosition(s) + k) % |Cycle|]
  {
    if s == Disabled {
      DisabledIsSink(k);
    } else if k > 0 {
      AdvanceAlongCycle(s, k - 1);
      var t := Advance(s, k - 1);
      var p := CyclePosition(s);
      assert CyclePosition(t) == (p + k - 1) % 4;
      ModFourStep(p + k - 1);
    }
  }

  lemma ModFourStep(a: nat)
    ensures (a % 4 + 1) % 4 == (a + 1) % 4
  {
    var q := a / 4;
    assert a == 4 * q + a % 4;
    if a % 4 == 3 {
      assert a + 1 == 4 * (q + 1);
    } else {
      assert a + 1 == 4 * q + (a % 4 + 1);
    }
  }

  /** Four clicks bring every status back to where it started. */
  lemma FourClicksIdentity(s: SeatStatus)
    ensures Advance(s, 4) == s
  {
    if s == Disabled {
      DisabledIsSink(4);
    } else {
      AdvanceAlongCycle(s, 4);
    }
  }

  /** No number of clicks takes a seat out of Disabled. */
  lemma {:induction false} DisabledIsSink(k: nat)
    ensures Advance(Disabled, k) == Disabled
  {
    if k > 0 {
      DisabledIsSink(k - 1);
    }
  }

  /** How many clicks lead from s to t along Cycle. */
  function ClicksBetween(s: SeatStatus, t: SeatStatus): nat
    requires s != Disabled && t != Disabled
  {
    var ps, pt := CyclePosition(s), CyclePosition(t);
    if ps <= pt then pt - ps else pt + |Cycle| - ps
  }

  /** The four statuses that are not disabled are mutually reachable by clicks. */
  lemma CycleReachesAll(s: SeatStatus, t: SeatStatus)
    requires s != Disabled && t != Disabled
    ensures ClicksBetween(s, t) < 4 && Advance(s, ClicksBetween(s, t)) == t
  {
    AdvanceAlongCycle(s, ClicksBetween(s, t));
  }

  datatype Seat = Seat(id: string, row: string, number: int, status: SeatStatus, section: string)

  /** The identifier the generator gives a seat: section name, '-', row label, seat number. */
  function SeatId(sectionName: string, row: string, number: nat): string
  {
    sectionName + "-" + row + NatToString(number)
  }

  predicate NoneIn(s: string, excluded: set<char>) {
    forall i :: 0 <= i < |s| ==> s[i] !in excluded
  }

  const Digits: set<char> := {'0', '1', '2', '3', '4', '5', '6', '7', '8', '9'}

  /** A section name free of '-': the first '-' of an identifier ends the name. */
  predicate PlainName(name: string) {
    NoneIn(name, {'-'})
  }

  /** A row label free of digits: the first digit after the '-' starts the number. */
  predicate PlainRow(row: string) {
    NoneIn(row, Digits)
  }

  lemma CharAfterShorterPrefix(a1: string, b1: string, a2: string, b2: string)
    requires a1 + b1 == a2 + b2 && |a1| < |a2| && |b1| > 0
    ensures a2[|a1|] == b1[0]
  {
    assert (a1 + b1)[|a1|] == b1[0];
  }

  /**
   * If two strings split as a prefix free of the separators followed by a
   * part starting with a separator, the split points coincide.
   */
  lemma SplitAtSeparator(a1: string, b1: string, a2: string, b2: string, seps: set<char>)
    requires a1 + b1 == a2 + b2
    requires NoneIn(a1, seps) && NoneIn(a2, seps)
    requires |b1| > 0 && b1[0] in seps && |b2| > 0 && b2[0] in seps
    ensures a1 == a2 && b1 == b2
  {
    if |a1| < |a2| {
      CharAfterShorterPrefix(a1, b1, a2, b2);
      assert false;
    } else if |a2| < |a1| {
      CharAfterShorterPrefix(a2, b2, a1, b1);
      assert false;
    } else {
      assert a1 == (a1 + b1)[..|a1|] && a2 == (a2 + b2)[..|a2|];
      assert b1 == (a1 + b1)[|a1|..] && b2 == (a2 + b2)[|a2|..];
    }
  }

  lemma DigitsStartWithDigit(n: nat)
    ensures NatToString(n)[0] in Digits
  {
    var c := NatToString(n)[0];
    assert IsDigit(c);
    assert c == '0' || c == '1' || c == '2' || c == '3' || c == '4'
        || c == '5' || c == '6' || c == '7' || c == '8' || c == '9';
  }

  /** Over plain section names and row labels, the identifier determines its three parts. */
  lemma SeatIdInjective(name1: string, row1: string, n1: nat, name2: string, row2: string, n2: nat)
    requires PlainName(name1) && PlainName(name2) && PlainRow(row1) && PlainRow(row2)
    ensures SeatId(name1, row1, n1) == SeatId(name2, row2, n2)
        <==> name1 == name2 && row1 == row2 && n1 == n2
  {
    if SeatId(name1, row1, n1) == SeatId(name2, row2, n2) {
      assert SeatId(name1, row1, n1) == name1 + ("-" + row1 + NatToString(n1));
      assert SeatId(name2, row2, n2) == name2 + ("-" + row2 + NatToString(n2));
      SplitAtSeparator(name1, "-" + row1 + NatToString(n1), name2, "-" + row2 + NatToString(n2), {'-'});
      assert row1 + NatToString(n1) == ("-" + row1 + NatToString(n1))[1..];
      assert row2 + NatToString(n2) == ("-" + row2 + NatToString(n2))[1..];
      DigitsStartWithDigit(n1);
      DigitsStartWithDigit(n2);
      SplitAtSeparator(row1, NatToString(n1), row2, NatToString(n2), Digits);
      NatToStringInjective(n1, n2);
    }
  }
}
