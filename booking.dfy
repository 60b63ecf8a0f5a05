/** The hotel of the reservation program: a fixed inventory of ten rooms,
    each either available or booked, and the list of reservations made
    against them. */
module Booking {

  datatype RoomType = Standard | Deluxe | Suite

  /** A room. Its number and type are fixed when it is built; only its
      availability ever changes. */
  class Room {
    const number: int
    const kind: RoomType
    var available: bool

    constructor (number: int, kind: RoomType)
      ensures this.number == number && this.kind == kind && available
    {
      this.number := number;
      this.kind := kind;
      available := true;
    }
  }

  /** A reservation; the date it was made is not modelled. */
  datatype Reservation = Reservation(guestName: string, roomNumber: int, kind: RoomType, paid: bool)

  const RoomCount: int := 10

  /** The type the hotel gives room number `n`: 1-5 standard, 6-8 deluxe,
      9-10 suites. */
  function TypeOfRoom(n: int): RoomType
  {
    if n <= 5 then Standard else if n <= 8 then Deluxe else Suite
  }

  // ---------------------------------------------------------------------
  // Guest names are compared ignoring case

  /** Upper-case of a character; only the ASCII letters have a case here. */
  function Upper(c: char): char
  {
    if 'a' <= c <= 'z' then (c as int - 32) as char else c
  }

  /** The name with every character upper-cased. */
  function UpperAll(s: string): string
  {
    seq(|s|, i requires 0 <= i < |s| => Upper(s[i]))
  }

  /** Two names are equal ignoring case when they have the same length and
      each pair of characters is equal or equal once upper-cased. */
  predicate EqualsIgnoreCase(a: string, b: string)
  {
    |a| == |b| && forall i :: 0 <= i < |a| ==> a[i] == b[i] || Upper(a[i]) == Upper(b[i])
  }

  /** Comparing ignoring case is comparing the upper-cased names. */
  lemma EqualsIgnoreCaseIffSameUpper(a: string, b: string)
    ensures EqualsIgnoreCase(a, b) <==> UpperAll(a) == UpperAll(b)
  {
    assert |UpperAll(a)| == |a| && forall i :: 0 <= i < |a| ==> UpperAll(a)[i] == Upper(a[i]);
    assert |UpperAll(b)| == |b| && forall i :: 0 <= i < |b| ==> UpperAll(b)[i] == Upper(b[i]);
  }

  /** The reservation a cancel request for `guestName` and `roomNumber` names. */
  predicate Matches(r: Reservation, guestName: string, roomNumber: int)
  {
    EqualsIgnoreCase(r.guestName, guestName) && r.roomNumber == roomNumber
  }

  /** The index of the first reservation matching the request, or the
      length of the list when none does. */
  function FirstMatch(rs: seq<Reservation>, guestName: string, roomNumber: int): (m: nat)
    ensures m <= |rs|
    ensures forall j :: 0 <= j < m ==> !Matches(rs[j], guestName, roomNumber)
    ensures m < |rs| ==> Matches(rs[m], guestName, roomNumber)
  {
    if rs == [] then 0
    else if Matches(rs[0], guestName, roomNumber) then 0
    else 1 + FirstMatch(rs[1..], guestName, roomNumber)
  }

  // ---------------------------------------------------------------------
  // Room numbers of reservations

  function ReservedNumbers(rs: seq<Reservation>): set<int>
  {
    set r | r in rs :: r.roomNumber
  }

  /** No room number is reserved twice. */
  predicate NumbersDistinct(rs: seq<Reservation>)
  {
    forall i, j :: 0 <= i < j < |rs| ==> rs[i].roomNumber != rs[j].roomNumber
  }

  /** The reserved numbers of a non-empty list: its head's and its tail's. */
  lemma ReservedNumbersCons(rs: seq<Reservation>)
    requires rs != []
    ensures ReservedNumbers(rs) == {rs[0].roomNumber} + ReservedNumbers(rs[1..])
  {
  }

  /** In a list with distinct numbers, the head's number is not in the
      tail and the tail's numbers are distinct. */
  lemma DistinctTail(rs: seq<Reservation>)
    requires rs != [] && NumbersDistinct(rs)
    ensures NumbersDistinct(rs[1..])
    ensures rs[0].roomNumber !in ReservedNumbers(rs[1..])
  {
  }

  /** With distinct room numbers there are as many reserved numbers as
      reservations. */
  lemma {:induction false} DistinctNumbersCount(rs: seq<Reservation>)
    requires NumbersDistinct(rs)
    ensures |ReservedNumbers(rs)| == |rs|
  {
    if rs != [] {
      DistinctTail(rs);
      DistinctNumbersCount(rs[1..]);
      ReservedNumbersCons(rs);
    }
  }

  /** Removing the reservation at `m` keeps the numbers distinct and
      un-reserves exactly its room. */
  lemma RemoveReservation(rs: seq<Reservation>, m: nat)
    requires NumbersDistinct(rs) && m < |rs|
    ensures NumbersDistinct(rs[..m] + rs[m + 1..])
    ensures ReservedNumbers(rs[..m] + rs[m + 1..]) == ReservedNumbers(rs) - {rs[m].roomNumber}
  {
  }

  // ---------------------------------------------------------------------
  // The hotel

  class Hotel {
    const rooms: seq<Room>
    var reservations: seq<Reservation>

    /** The ten rooms as built, each a distinct object. */
    ghost predicate Inventory()
    {
      && |rooms| == RoomCount
      && (forall i :: 0 <= i < |rooms| ==> rooms[i].number == i + 1 && rooms[i].kind == TypeOfRoom(i + 1))
      && (forall i, j :: 0 <= i < j < |rooms| ==> rooms[i] != rooms[j])
    }

    /** The booked rooms are exactly the rooms the reservations name, and no
        room is named twice. */
    ghost predicate Valid()
      reads this, rooms
    {
      && Inventory()
      && NumbersDistinct(reservations)
      && (forall r :: r in reservations ==> 1 <= r.roomNumber <= |rooms|)
      && (forall i :: 0 <= i < |rooms| ==> (!rooms[i].available <==> rooms[i].number in ReservedNumbers(reservations)))
    }

    /** The numbers of the booked rooms. */
    ghost function BookedNumbers(): set<int>
      reads rooms
    {
      set i | 0 <= i < |rooms| && !rooms[i].available :: rooms[i].number
    }

    /** Builds the ten rooms, all available, and no reservations. */
    constructor ()
      ensures Valid()
      ensures reservations == []
      ensures forall i :: 0 <= i < |rooms| ==> fresh(rooms[i]) && rooms[i].available
    {
      var rs := AddRooms([], 5, Standard);
      rs := AddRooms(rs, 8, Deluxe);
      rs := AddRooms(rs, 10, Suite);
      rooms := rs;
      reservations := [];
    }

    /** Appends rooms numbered |rs| + 1 up to `last`, all of type `kind`. */
    static method AddRooms(rs: seq<Room>, last: int, kind: RoomType) returns (more: seq<Room>)
      requires |rs| <= last
      requires forall i, j :: 0 <= i < j < |rs| ==> rs[i] != rs[j]
      ensures |more| == last && more[..|rs|] == rs
      ensures forall i :: |rs| <= i < last ==>
        fresh(more[i]) && more[i].number == i + 1 && more[i].kind == kind && more[i].available
      ensures forall i, j :: 0 <= i < j < |more| ==> more[i] != more[j]
    {
      more := rs;
      for n := |rs| + 1 to last + 1
        invariant |more| == n - 1 && more[..|rs|] == rs
        invariant forall i :: |rs| <= i < |more| ==>
          fresh(more[i]) && more[i].number == i + 1 && more[i].kind == kind && more[i].available
        invariant forall i, j :: 0 <= i < j < |more| ==> more[i] != more[j]
      {
        var room := new Room(n, kind);
        more := more + [room];
      }
    }

    /** The index of the first room from `from` on that has type `t` and is
        available, or the number of rooms when there is none. */
    function FirstAvailable(t: RoomType, from: nat): (k: nat)
      requires from <= |rooms|
      reads rooms
      decreases |rooms| - from
      ensures from <= k <= |rooms|
      ensures forall i :: from <= i < k ==> !(rooms[i].kind == t && rooms[i].available)
      ensures k < |rooms| ==> rooms[k].kind == t && rooms[k].available
    {
      if from == |rooms| then from
      else if rooms[from].kind == t && rooms[from].available then from
      else FirstAvailable(t, from + 1)
    }

    /** The first room in list order of type `t` that is available; null
        exactly when there is none. */
    method FindAvailableRoom(t: RoomType) returns (room: Room?)
      ensures room == null <==> forall i :: 0 <= i < |rooms| ==> !(rooms[i].kind == t && rooms[i].available)
      ensures room != null ==> FirstAvailable(t, 0) < |rooms| && room == rooms[FirstAvailable(t, 0)]
    {
      for i := 0 to |rooms|
        invariant forall j :: 0 <= j < i ==> !(rooms[j].kind == t && rooms[j].available)
      {
        if rooms[i].kind == t && rooms[i].available {
          return rooms[i];
        }
      }
      return null;
    }

    /** Books the first available room of type `t` for the guest: the room
        becomes unavailable and a paid reservation for it is appended. With
        no such room nothing changes. */
    method BookRoom(guestName: string, t: RoomType) returns (booked: bool)
      requires Valid()
      modifies this, rooms
      ensures Valid()
      ensures booked <==> old(FirstAvailable(t, 0)) < |rooms|
      ensures forall i :: 0 <= i < |rooms| ==>
        rooms[i].available == (old(rooms[i].available) && !(booked && i == old(FirstAvailable(t, 0))))
      ensures !booked ==> reservations == old(reservations)
      ensures booked ==>
        reservations == old(reservations) + [Reservation(guestName, rooms[old(FirstAvailable(t, 0))].number, t, true)]
    {
      var room := FindAvailableRoom(t);
      if room == null {
        return false;
      }
      ghost var k := FirstAvailable(t, 0);
      var paid := true;
      room.available := false;
      reservations := reservations + [Reservation(guestName, room.number, t, paid)];
      assert room.number == k + 1;
      assert k + 1 !in old(ReservedNumbers(reservations));
      assert ReservedNumbers(reservations) == old(ReservedNumbers(reservations)) + {k + 1};
      return true;
    }

    /** Cancels the first reservation for `roomNumber` whose guest name
        matches ignoring case: it is removed, the rest keep their order, and
        the room becomes available. With no such reservation nothing
        changes. */
    method CancelReservation(guestName: string, roomNumber: int) returns (found: bool)
      requires Valid()
      modifies this, rooms
      ensures Valid()
      ensures found <==> old(FirstMatch(reservations, guestName, roomNumber)) < old(|reservations|)
      ensures found ==>
        var m := old(FirstMatch(reservations, guestName, roomNumber));
        reservations == old(reservations[..m] + reservations[m + 1..])
      ensures !found ==> reservations == old(reservations)
      ensures forall i :: 0 <= i < |rooms| ==>
        rooms[i].available == (old(rooms[i].available) || (found && rooms[i].number == roomNumber))
    {
      found := false;
      var i := 0;
      while i < |reservations|
        invariant 0 <= i <= |reservations|
        invariant reservations == old(reservations)
        invariant forall j :: 0 <= j < i ==> !Matches(reservations[j], guestName, roomNumber)
      {
        var res := reservations[i];
        if Matches(res, guestName, roomNumber) {
          assert FirstMatch(reservations, guestName, roomNumber) == i;
          RemoveReservation(reservations, i);
          reservations := reservations[..i] + reservations[i + 1..];
          for r := 0 to |rooms|
            modifies rooms
            invariant forall j :: 0 <= j < |rooms| ==>
              rooms[j].available == (old(rooms[j].available) || (j < r && rooms[j].number == roomNumber))
          {
            if rooms[r].number == roomNumber {
              rooms[r].available := true;
            }
          }
          found := true;
          break;
        }
        i := i + 1;
      }
    }
  }

  /** In a consistent hotel the set of booked room numbers is the set of
      reserved ones, and there are as many as there are reservations. */
  lemma BookedMatchesReservations(h: Hotel)
    requires h.Valid()
    ensures h.BookedNumbers() == ReservedNumbers(h.reservations)
    ensures |h.BookedNumbers()| == |h.reservations|
  {
    forall n | n in ReservedNumbers(h.reservations) ensures n in h.BookedNumbers() {
      var r :| r in h.reservations && r.roomNumber == n;
      assert !h.rooms[n - 1].available;
    }
    DistinctNumbersCount(h.reservations);
  }
}
