# Portfolio ledger and hotel reservations, in Dafny

This project models the two in-memory state machines of a pair of Java
console programs and proves properties of them.

- **Trading** (`trading.dfy`) models the stock-trading simulator's
  `Portfolio`. It holds a cash balance, a symbol-to-quantity holdings map and
  an append-only list of BUY/SELL transactions. `Buy` goes through only when
  the cash covers price times quantity. `Sell` goes through only when enough
  shares are held. A request that fails changes nothing. The portfolio view
  totals cash plus quantity times market price over the held symbols. The
  menu rejects symbols that are not listed in the market before it calls
  `Buy` or `Sell`.
  - `Portfolio` is a class with the Java class's three fields. Its methods are
    proved against the pure functions `Bought` and `Sold` on a `Ledger`
    value. Those functions, and the lemmas about them, state what a trade
    does and that solvency is kept. They also state that a buy followed by a
    sell of the same quantity at the same price restores the cash and every
    held quantity, and appends one BUY and one SELL record.
  - Money is counted in whole cents (`int`). The starting 10000.0 is
    `1_000_000`, and the price 180.0 is `18000`.
- **Booking** (`booking.dfy`) models the reservation program's `Hotel`. It
  has ten `Room` objects, each with a fixed number and type and a mutable
  availability flag, and a list of `Reservation` records.
  - `FindAvailableRoom` is the first-match search.
  - `BookRoom` books the room that search finds and appends a paid
    reservation.
  - `CancelReservation` removes the first reservation whose guest name
    matches ignoring case and whose room number matches, then frees that room.
  - The object invariant `Hotel.Valid` says that reservation room numbers
    are distinct, and that the booked rooms are exactly the rooms the
    reservations name. Both methods preserve it.
  - Room numbers and types are `const` fields, so only availability can ever
    change.

Three behaviours of the Java code are worth noting:
- The Java `buy` and `sell` do not check that the quantity is positive
  (OnileInternshiptask.java:40-57). Lemmas `NegativeSellOverdraws` and
  `NegativeBuyShorts` show what such a trade does. The invariant lemmas
  assume non-negative quantities and prices.
- Valuation with a held symbol that is not in the market throws a
  `NullPointerException` (OnileInternshiptask.java:70). Here it returns
  `None`.
- Money is a Java `double`. See "Left out".

The Java file declares the stock record as `class StockTradingPlatform`
with a constructor named `Stock` (lines 4-12) and does not compile as written.
It is read as `class Stock { symbol; price }`, which is the `Stock` datatype
here.

## Model

| member | source | states |
|---|---|---|
| `Trading.Portfolio.constructor` | OnileInternshiptask.java:36-38 | a new portfolio has cash 10000.00, no holdings and no transactions |
| `Trading.Bought` | OnileInternshiptask.java:40-50 | a buy goes through iff cash >= price * quantity. Then cash drops by exactly that cost, the symbol's holding becomes its old quantity (0 if absent) plus the quantity, the symbol is a key, every other symbol's quantity is unchanged, and exactly one BUY record with that symbol, quantity and price is appended. Otherwise the ledger is unchanged |
| `Trading.Sold` | OnileInternshiptask.java:52-62 | a sell goes through iff the held quantity (0 if absent) >= quantity. Then cash rises by price * quantity, the holding becomes owned - quantity and the key is kept even at 0, other symbols are unchanged, and exactly one SELL record is appended. Otherwise the ledger is unchanged |
| `Trading.Portfolio.Buy` | OnileInternshiptask.java:40-50 | the new state is `Bought` of the old state. It reports success exactly when the cash covered the cost, and "insufficient funds" otherwise |
| `Trading.Portfolio.Sell` | OnileInternshiptask.java:52-62 | the new state is `Sold` of the old state. It reports success exactly when enough shares were held, and "not enough shares" otherwise |
| `Trading.Portfolio.PortfolioValue` | OnileInternshiptask.java:64-75 | the total is cash plus the sum over the held symbols of quantity * market price, visiting the keys in any order. There is no total exactly when a held symbol is missing from the market |
| `Trading.SumOverRemove` | OnileInternshiptask.java:67-73 | the valuation sum over a set of symbols is any one symbol's worth plus the sum over the rest, so the key order of the loop does not matter |
| `Trading.SumOverAgree` | OnileInternshiptask.java:68-72 | the valuation sum over some symbols depends only on the quantities of those symbols |
| `Trading.ZeroEntryAddsNothing` | OnileInternshiptask.java:56-72 | a zero-quantity entry, which a full sell leaves behind, does not change the portfolio value |
| `Trading.RequestBuy` | OnileInternshiptask.java:113-117 | an unlisted symbol is reported "not found" and changes nothing. A listed one buys at the market's price for that symbol |
| `Trading.RequestSell` | OnileInternshiptask.java:123-127 | an unlisted symbol is reported "not found" and changes nothing. A listed one sells at the market's price for that symbol |
| `Trading.ApplyKeepsInvariants` | OnileInternshiptask.java:40-62 | one trade with quantity >= 0 and price >= 0 keeps cash >= 0 and every holding >= 0. It appends one record if it goes through and leaves the ledger unchanged if not. It never rewrites earlier records |
| `Trading.RunKeepsInvariants` | OnileInternshiptask.java:40-62 | after any sequence of such trades, cash >= 0 and every holding >= 0. The transaction list has grown by exactly the number of trades that went through, and its earlier entries are untouched |
| `Trading.BuyThenSellRestores` | OnileInternshiptask.java:40-62 | a buy that goes through, followed by a sell of the same quantity at the same price, also goes through. Together they restore the cash and every quantity (a zero entry may remain) and append exactly a BUY and a SELL record |
| `Trading.BuyThenSellKeepsValue` | OnileInternshiptask.java:40-72 | that buy-then-sell leaves the portfolio value unchanged at any market prices |
| `Trading.ExampleSession` | OnileInternshiptask.java:40-62 | from a fresh portfolio: buy 10 AAPL at 180.00 leaves cash 8200.00 and one record. Selling 15 then fails with no change. Selling 10 at 190.00 leaves cash 10100.00, a zero AAPL entry and two records |
| `Trading.NegativeSellOverdraws` | OnileInternshiptask.java:52-57 | the unchecked quantity lets a sell of -100 shares go through and leave cash negative |
| `Trading.NegativeBuyShorts` | OnileInternshiptask.java:40-45 | the unchecked quantity lets a buy of -1 share go through and leave a negative holding |
| `Booking.Room.constructor` | HotelReservationSystem.java:6-14 | a new room has the given number and type and is available |
| `Booking.Hotel.constructor` | HotelReservationSystem.java:48-55 | a new hotel has exactly 10 distinct, fresh rooms, all available. Rooms 1-5 are standard, 6-8 deluxe and 9-10 suites. There are no reservations, and the invariant holds |
| `Booking.Hotel.AddRooms` | HotelReservationSystem.java:51-53 | one construction loop appends fresh, distinct, available rooms of one type, numbered consecutively after the existing ones |
| `Booking.Hotel.FirstAvailable` | HotelReservationSystem.java:66-71 | the index found is the first one at or after the start whose room has the requested type and is available, or the list length when there is none |
| `Booking.Hotel.FindAvailableRoom` | HotelReservationSystem.java:66-71 | returns null exactly when no room of the type is available. Otherwise it returns the first such room in list order |
| `Booking.Hotel.BookRoom` | HotelReservationSystem.java:73-88 | books exactly when a room of the type is available. Only the room the search returns becomes unavailable, and the other rooms are unchanged. Exactly one reservation (guest, that room's number, type, paid) is appended at the end. With no room nothing changes. The invariant is preserved |
| `Booking.Hotel.CancelReservation` | HotelReservationSystem.java:90-106 | finds a match exactly when some reservation has the room number and a guest name equal ignoring case. Only the first one is removed, the rest stay in order, and every room with that number becomes available. With no match nothing changes. The invariant is preserved |
| `Booking.FirstMatch` | HotelReservationSystem.java:93-95 | the index found is the first reservation matching the name, ignoring case, and the room number, or the list length when none matches |
| `Booking.EqualsIgnoreCaseIffSameUpper` | HotelReservationSystem.java:95 | two names are equal ignoring case iff their upper-cased forms are equal |
| `Booking.RemoveReservation` | HotelReservationSystem.java:96-98 | removing one reservation keeps the room numbers distinct and un-reserves exactly its room number |
| `Booking.DistinctNumbersCount` | HotelReservationSystem.java:84-98 | with distinct room numbers there are as many reserved numbers as reservations |
| `Booking.BookedMatchesReservations` | HotelReservationSystem.java:84-98 | in a consistent hotel, the numbers of the booked rooms are exactly the reserved numbers, and there are as many booked rooms as reservations |

## Left out

- The console menus, `Scanner` input, every `System.out.println`, and
  `showMarket`, `showTransactions`, `showReservations`, `showAvailableRooms`
  and the `toString` methods are input and output only. The messages become
  the `Outcome` result of a trade and the `bool` results of `BookRoom` and
  `CancelReservation`. The upper-casing of typed symbols and the parsing of
  room types belong to input handling.
- `savePortfolio`/`loadPortfolio` and `saveData`/`loadData` are Java object
  serialization to files and are not modelled. A hotel is always the one
  its constructor builds, then changed by the two methods. The fallback to a
  fresh object when no file exists is the constructor itself.
- The `Date` in `Transaction` and `Reservation` reads the wall clock and is
  dropped.
- The `double` arithmetic for cash and prices is not modelled. Money is exact
  integer cents, so no rounding occurs.
- The market built in `main` is fixed data and is a parameter here.
- The simulated payment is the constant `true`. It is carried only as the
  `paid` field.
- Trading.Bought: does not model the 32-bit wrap-around of the `Integer`
  holding when the old quantity plus the bought quantity exceeds 2^31 - 1.
  Quantities are unbounded integers.
- Trading.Sold: likewise does not model 32-bit wrap-around of `owned - quantity`.
- Trading.Portfolio.PortfolioValue: the Java `showPortfolio` throws a
  `NullPointerException` at an unlisted symbol, after printing the lines of
  the symbols visited before it. The model returns `None`, and the partial
  output is not modelled.
- Booking.EqualsIgnoreCase: case is folded only for the ASCII letters `a`-`z`.
  Java's `equalsIgnoreCase` also folds other Unicode letters.
- Booking.Hotel.BookRoom and Booking.Hotel.CancelReservation require the
  object invariant `Valid`. The constructor establishes it and both methods
  keep it. A hotel restored from a corrupted file could break it, and that
  case is not modelled.
- The `rooms.isEmpty()` test in the `Hotel` constructor is always true for a
  new object, so the rooms are built unconditionally.
