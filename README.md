# BurkinaStay booking store, modelled in Dafny

BurkinaStay is a single-page booking site for stays in Burkina Faso. All of
its state lives in the browser: a list of accounts, a list of listings
("properties"), a list of reservations and the logged-in user, each kept in
the page's local storage under its own key. This project models that store
with the page stripped away:

- `Storage` (`storage.dfy`): the persistence adapter. `Save` and `Load` work
  over a key/value substrate with four fixed keys. A write that throws leaves
  the substrate unchanged. A read that throws, a missing key or text that does
  not parse yields the caller's default.
- `BookingStore.Store` (`store.dfy`): the four pieces of state as `seq` and
  `Option` fields of a class. Its methods are start-up loading
  (`InitializeData`), the full save at page close (`SaveAll`), `Register`,
  `Login`, `Logout` and `MakeReservation`. Each method states its whole new
  state. `Register`, `Login`, `Logout` and `MakeReservation` also keep
  `Consistent()`: e-mails are unique, the session user is a registered
  account, and every reservation names an account and a listing. Start-up
  loading does not establish it, since it takes stored data as it is.
- `Queries` (`queries.dfy`): the lookups and filters the page runs over the
  collections, and `Book`, the booking decision of `makeReservation`.
- `Collections`, `Text`, `Entities`, `Wrappers`: `Array.prototype.find` and
  `filter`, `String.prototype.trim`, the three record types with the seed
  listings, and `Option`/`Result`.

Form fields become method parameters. The clock becomes parameters too: the
`Date.now()` ids and the ISO timestamps. Dates are day numbers, and an empty
date field is `None`.

Some behaviours of the code that a reader might not expect, and that the
model keeps:
- Booking does not check that checkout comes after checkin. A stay of zero
  or negative length is booked at a price of zero or below
  (`Queries.ReversedDatesAreBooked`).
- The code does not reject an unknown listing id before the dates are checked. The
  page faults when it reads the missing listing's title. The model reports
  this as `PropertyNotFound`, in that same order, and records nothing.
- Login takes the first account whose e-mail and password match; the code
  does not require the match to be unique.
- Start-up reads every key verbatim. A stored empty listing collection
  therefore replaces the seed set (`BookingStore.StoredPropertiesWin`).

## Model

| member | source | states |
|---|---|---|
| `Collections.Find` | script.js:99 | `Array.prototype.find`: nothing is returned iff no element satisfies the predicate; otherwise the result is an element that satisfies it, and no earlier element does |
| `Collections.Filter` | script.js:214-216 | `Array.prototype.filter`: every kept element satisfies the predicate, each satisfying element is kept as often as it occurs, and the result is a subsequence of the input |
| `Collections.FilterUnique` | script.js:228-230 | those three properties determine the filter's result, so "the matching elements in their original order" is exactly what it returns |
| `Text.Trim` | script.js:64-66 | `trim()`: the result is a contiguous piece of the input; only white space (as ECMAScript defines it) is cut from either end; the result neither starts nor ends with white space |
| `Text.TrimIdempotent` | script.js:96 | trimming a stored, already trimmed e-mail gives it back, so the stored address itself always matches at login |
| `Entities.DefaultProperties` | script.js:136-181 | `getDefaultProperties`: the seed set has three listings with distinct ids, each in its own city, each priced above zero. Partners: `FirstVisitStartsFromSeed`, `SeedSearchFindsBoboDioulasso` |
| `Storage.Save` | script.js:16-22 | `saveToStorage`: the read and write flags are kept; a successful write leaves the value under its key; a write that throws is caught and leaves every entry as it was; no other key changes either way. Partners: `LoadAfterSave`, `SaveLeavesOtherKeys`, `SaveIdempotent` |
| `Storage.Load` | script.js:24-32 | `loadFromStorage`: the result is the caller's default or a value parsed from the key's text; when the read works and the key holds parsable text, it is that value. Partner: `LoadAfterSave` |
| `Storage.LoadAfterSave` | script.js:16-31 | loading a key right after saving a value under it returns that value |
| `Storage.SaveLeavesOtherKeys` | script.js:16-22 | a save, successful or not, changes what no other key loads |
| `Storage.SaveIdempotent` | script.js:53-58 | repeating a save of the same value changes nothing, so the full save at page close is harmless after earlier saves |
| `Queries.FindByEmail` | script.js:70 | the duplicate check finds an account iff some account has exactly that e-mail, and what it finds has it |
| `Queries.FindByCredentials` | script.js:99 | the login lookup succeeds iff some account has exactly that e-mail and password; it returns the first such account |
| `Queries.CredentialsSelectTheOwner` | script.js:93-109 | with unique e-mails, logging in with an account's e-mail succeeds iff the password is that account's, and yields that account |
| `Queries.AppendKeepsEmailsUnique` | script.js:69-85 | appending an account whose e-mail is not taken keeps e-mails unique |
| `Queries.RegisteredUserIsFound` | script.js:76-99 | for any account list, an account appended after the duplicate check passed is the one the login lookup finds for its own e-mail and password |
| `Queries.PropertiesIn` | script.js:214-216 | the location filter keeps only listings in the queried city, keeps each of them as often as it is stored, and keeps stored order |
| `Queries.PropertiesInExactly` | script.js:228-230 | any subsequence of the listings with those three properties is the filter's result, so the city shortcut and the search form return the same list |
| `Queries.SearchProperties` | script.js:202-218 | the search is refused iff the destination or a date is empty; otherwise it returns exactly the location filter's result: the listings in the destination, each as often as stored, in stored order |
| `Queries.FindProperty` | script.js:236 | the lookup by id fails iff no listing has the id; otherwise it returns the first stored listing with that id |
| `Queries.FindPropertyAt` | script.js:286 | with unique ids, looking up a listing's id returns that listing |
| `Queries.ReservationsOf` | script.js:346 | the dashboard list holds exactly the user's reservations, each as often as stored, in booking order |
| `Queries.ReservationsOfAppend` | script.js:307 | a new reservation is added to the end of its own user's list and leaves every other user's list unchanged |
| `Queries.Book` | script.js:280-305 | checks run in the page's order: not logged in, then an empty date, then an unknown listing. Booking succeeds iff a user is logged in, both dates are set and the listing exists. The record has the user's id, the listing's title, price × nights, status `confirmé`, the given id and timestamp |
| `Queries.CeilDiv` | script.js:302 | models `Math.ceil(x / d)` for a positive divisor: the result is the least `r` with `x <= r * d` |
| `Queries.Nights` | script.js:302 | the page's count, a day's milliseconds divided into the millisecond difference and rounded up, is exactly the difference of the day numbers; it is positive iff checkout is after checkin |
| `Queries.ReversedDatesAreBooked` | script.js:290-302 | for any listing list that holds the id and whose prices are all zero or more, a logged-in booking whose checkout is not after its checkin still succeeds, at a total of zero or less |
| `BookingStore.LoadedUsers` | script.js:36 | the accounts read at start-up are either the empty default or exactly the account list stored under the accounts key; a stored list is always taken, and a stored `[]` gives no accounts whatever collection it was written as |
| `BookingStore.LoadedProperties` | script.js:37 | the listings read at start-up are either the seed set or exactly what is stored under the listings key; a stored list is always taken, and a stored `[]`, whatever collection it was written as, gives no listings rather than the seed set |
| `BookingStore.LoadedReservations` | script.js:38 | the reservations read at start-up are either the empty default or exactly the stored reservation list; a stored list is always taken, and a stored `[]` gives no reservations whatever collection it was written as |
| `BookingStore.LoadedSession` | script.js:39 | the session read at start-up is either nobody or exactly the user record stored under the session key; a stored record is always taken |
| `BookingStore.SaveAllTo` | script.js:53-58 | when storage can be written, each of the four keys holds its collection or the session (`null` when nobody is logged in); when it cannot, nothing changes; every other key keeps its value and no key outside the four is added. Partner: `ReloadRestores` |
| `BookingStore.FirstVisitStartsFromSeed` | script.js:35-39 | with nothing stored or storage unreadable, start-up gives no accounts, no bookings, no session and the seed listings |
| `BookingStore.StoredPropertiesWin` | script.js:37 | a stored listing collection, even an empty one and even an empty array written as another collection, is used instead of the seed set |
| `BookingStore.ReloadRestores` | script.js:53-58 | after the full save at page close, start-up restores exactly the same accounts, listings, reservations and session |
| `BookingStore.SavedSessionReloads` | script.js:102-114 | the session written by login or logout is the session read back at the next start-up |
| `BookingStore.Store.constructor` | script.js:2-5 | the store starts with no session and empty collections |
| `BookingStore.Store.InitializeData` | script.js:35-39 | each collection and the session become what storage holds under its key, with its own default; storage is untouched |
| `BookingStore.Store.SaveAll` | script.js:53-58 | all four keys are written from memory, and memory is unchanged |
| `BookingStore.Store.Register` | script.js:61-91 | fails with `DuplicateEmail` iff the trimmed e-mail is taken, and then changes nothing. Otherwise it appends exactly one account (trimmed name, e-mail and phone, the password as typed, the given id and date) and saves the list. Nothing else changes, and `Consistent` is kept |
| `BookingStore.Store.Login` | script.js:93-110 | succeeds iff some account matches the trimmed e-mail and the password. The session becomes the first match and is saved. On failure the session and storage are unchanged. `Consistent` is kept |
| `BookingStore.Store.Logout` | script.js:112-118 | the session is cleared and `null` is saved under the session key; nothing else changes |
| `BookingStore.Store.MakeReservation` | script.js:280-312 | returns `Book`'s decision. On success it appends exactly that reservation and saves the list. On failure reservations and storage are unchanged. Accounts, listings and session never change. `Consistent` is kept |
| `BookingStore.SeedSearchFindsBoboDioulasso` | script.js:152-165 | searching the seed set for "bobo-dioulasso" returns exactly the traditional house |
| `BookingStore.SeedBookingPrice` | script.js:295-305 | three nights in the seed house at 15000 FCFA a night cost 45000 FCFA; the booking is confirmed under that listing's title and the user's id |
| `BookingStore.RegisterThenLogIn` | script.js:88 | on any store, right after a successful registration, logging in with the same form input succeeds and makes the new account the session user; `Consistent` is kept |

## Left out

- Page rendering, modals, navigation, `alert` messages, `toLocaleString` formatting and the footer stubs are not modelled. They only display what the store holds.
- Event wiring is not modelled: the start-up listener, the close listener, the outside-click handler and the `min` dates set on the date fields. Only their effects on the store are modelled (`InitializeData`, `SaveAll`).
- `JSON.stringify`/`JSON.parse` are abstracted: a saved value reads back unchanged. Text that fails to parse is `Unparsable`, which also covers the empty string.
- The source adopts a stored value of the wrong shape verbatim, such as an object under the accounts key, and later calls then break. The model's collections are typed, so `InitializeData` uses that key's default instead.
- Storage failure is two flags, "reads throw" and "writes throw". They stand in for a disabled store or an exceeded quota. A quota that depends on the size of the value is not modelled, and neither is the error logging.
- Ids come from `Date.now()` and timestamps from `new Date().toISOString()`. Both are parameters here, so the model does not show that ids are unique. Two quick registrations or bookings can share an id in the source.
- Date arithmetic is over day numbers. Date-only form values parse to UTC midnight, so a date's time value is its day number times a day's milliseconds (`Queries.Nights` proves that the rounded-up quotient is then the day difference). A non-empty date text that does not parse (a `NaN` price in the source) is not modelled: date fields give either an empty value or a valid date.
- Booking an unknown listing makes the source throw a `TypeError`. The model returns `PropertyNotFound` instead of an uncaught fault. Either way, no reservation is recorded.
- The dashboard filter needs a logged-in user, or it faults on `currentUser.id`. `Queries.ReservationsOf` takes the user's id as a parameter instead.
- Start-up does not re-establish `Consistent()`: stored data is trusted as it is, as in the source.
- Listing creation and editing is a stub in the source (`showAddProperty`), so listings never change.
- Passwords are stored and compared in plain text, as in the source; no security property is claimed.
