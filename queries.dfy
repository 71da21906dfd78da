/** The read-only queries of the store and the booking decision, as
    functions of the collections they read. */
module Queries {
  import opened Wrappers
  import opened Collections
  import opened Entities

  // ---------------------------------------------------------------- accounts

  /** Some account already uses `email` (exact, case-sensitive match). */
  predicate EmailTaken(users: seq<User>, email: string)
  {
    exists i | 0 <= i < |users| :: users[i].email == email
  }

  /** No two accounts share an e-mail address. */
  ghost predicate UniqueEmails(users: seq<User>)
  {
    forall i, j | 0 <= i < j < |users| :: users[i].email != users[j].email
  }

  /** The duplicate check of registration: the first account with `email`. */
  function FindByEmail(users: seq<User>, email: string): (r: Option<User>)
    ensures r.Some? <==> EmailTaken(users, email)
    ensures r.Some? ==> r.value in users && r.value.email == email
  {
    Find(users, (u: User) => u.email == email)
  }

  /** The login lookup: the first account whose e-mail and password both
      equal the given ones. */
  function FindByCredentials(users: seq<User>, email: string, password: string): (r: Option<User>)
    ensures r.Some? <==> exists i | 0 <= i < |users| :: users[i].email == email && users[i].password == password
    ensures r.Some? ==> exists i | 0 <= i < |users| ::
              && users[i] == r.value && r.value.email == email && r.value.password == password
              && forall j | 0 <= j < i :: !(users[j].email == email && users[j].password == password)
  {
    Find(users, (u: User) => u.email == email && u.password == password)
  }

  /** With e-mails unique, at most one account can match: the login lookup
      finds the account holding `email` exactly when its password is
      `password`. */
  lemma CredentialsSelectTheOwner(users: seq<User>, i: nat, password: string)
    requires UniqueEmails(users)
    requires i < |users|
    ensures FindByCredentials(users, users[i].email, password)
            == if users[i].password == password then Some(users[i]) else None
  {
  }

  /** Appending an account whose e-mail is not yet taken keeps e-mails unique. */
  lemma AppendKeepsEmailsUnique(users: seq<User>, u: User)
    requires UniqueEmails(users)
    requires !EmailTaken(users, u.email)
    ensures UniqueEmails(users + [u])
  {
  }

  /** An account that registration has just appended is the one the login
      lookup finds for its own e-mail and password. */
  lemma RegisteredUserIsFound(users: seq<User>, u: User)
    requires !EmailTaken(users, u.email)
    ensures FindByCredentials(users + [u], u.email, u.password) == Some(u)
  {
    assert (users + [u])[|users|] == u;
  }

  // -------------------------------------------------------------- properties

  /** The location filter shared by the search form and the city shortcuts:
      the listings whose `location` is exactly `location`, in stored order. */
  function PropertiesIn(properties: seq<Property>, location: string): (r: seq<Property>)
    ensures forall i | 0 <= i < |r| :: r[i].location == location
    ensures forall p: Property | p.location == location :: multiset(r)[p] == multiset(properties)[p]
    ensures IsSubsequence(r, properties)
  {
    Filter(properties, (p: Property) => p.location == location)
  }

  /** The location filter's contract pins its result down: a subsequence of
      the listings that keeps every listing in `location`, each as often as
      it is stored, and nothing else, is the filter's result. */
  lemma PropertiesInExactly(properties: seq<Property>, location: string, r: seq<Property>)
    requires IsSubsequence(r, properties)
    requires forall i | 0 <= i < |r| :: r[i].location == location
    requires forall p: Property | p.location == location :: multiset(r)[p] == multiset(properties)[p]
    ensures r == PropertiesIn(properties, location)
  {
    FilterUnique(properties, (p: Property) => p.location == location, r);
  }

  /** `searchProperties`: refuses when the destination or either date is
      empty, and otherwise lists the listings in the destination. */
  function SearchProperties(properties: seq<Property>, destination: string,
                            checkin: Option<int>, checkout: Option<int>): (r: Option<seq<Property>>)
    ensures r.None? <==> destination == [] || checkin.None? || checkout.None?
    ensures r.Some? ==> r.value == PropertiesIn(properties, destination)
  {
    if destination == [] || checkin.None? || checkout.None? then None
    else Some(PropertiesIn(properties, destination))
  }

  /** `showPropertyDetails` and `makeReservation` look a listing up by id:
      the first listing with that id, or nothing. */
  function FindProperty(properties: seq<Property>, id: int): (r: Option<Property>)
    ensures r.None? <==> forall i | 0 <= i < |properties| :: properties[i].id != id
    ensures r.Some? ==> exists i | 0 <= i < |properties| ::
              && properties[i] == r.value && r.value.id == id
              && forall j | 0 <= j < i :: properties[j].id != id
  {
    Find(properties, (p: Property) => p.id == id)
  }

  /** With unique ids the lookup returns the one listing holding the id. */
  lemma FindPropertyAt(properties: seq<Property>, i: nat)
    requires UniquePropertyIds(properties)
    requires i < |properties|
    ensures FindProperty(properties, properties[i].id) == Some(properties[i])
  {
  }

  // ------------------------------------------------------------ reservations

  /** The dashboard's list: the reservations made by `userId`, in the order
      they were made. */
  function ReservationsOf(reservations: seq<Reservation>, userId: int): (r: seq<Reservation>)
    ensures forall i | 0 <= i < |r| :: r[i].userId == userId
    ensures forall b: Reservation | b.userId == userId :: multiset(r)[b] == multiset(reservations)[b]
    ensures IsSubsequence(r, reservations)
  {
    Filter(reservations, (b: Reservation) => b.userId == userId)
  }

  /** A new reservation only adds to its own user's list. */
  lemma ReservationsOfAppend(reservations: seq<Reservation>, b: Reservation, userId: int)
    ensures ReservationsOf(reservations + [b], userId)
            == ReservationsOf(reservations, userId) + (if b.userId == userId then [b] else [])
  {
    var s := reservations + [b];
    var r := ReservationsOf(reservations, userId) + (if b.userId == userId then [b] else []);
    SubsequenceAppend(ReservationsOf(reservations, userId), reservations, b, b.userId == userId);
    FilterUnique(s, (x: Reservation) => x.userId == userId, r);
  }

  /** Extending both sides of a subsequence by the same last element, or only
      the longer side, keeps it a subsequence. */
  lemma {:induction false} SubsequenceAppend<T>(r: seq<T>, s: seq<T>, x: T, keep: bool)
    requires IsSubsequence(r, s)
    ensures IsSubsequence(r + (if keep then [x] else []), s + [x])
  {
    var r' := r + (if keep then [x] else []);
    if r == [] {
      if keep {
        assert r' == [x];
        SubsequenceOfSingleton(x, s);
      }
    } else {
      assert s != [];
      assert (s + [x])[1..] == s[1..] + [x];
      if r[0] == s[0] && IsSubsequence(r[1..], s[1..]) {
        SubsequenceAppend(r[1..], s[1..], x, keep);
        assert r'[1..] == r[1..] + (if keep then [x] else []);
      } else {
        SubsequenceAppend(r, s[1..], x, keep);
      }
    }
  }

  lemma {:induction false} SubsequenceOfSingleton<T>(x: T, s: seq<T>)
    ensures IsSubsequence([x], s + [x])
  {
    if s != [] {
      assert (s + [x])[1..] == s[1..] + [x];
      SubsequenceOfSingleton(x, s[1..]);
    }
  }

  // ----------------------------------------------------------------- booking

  /** Why a booking request is turned down. `PropertyNotFound` stands for the
      fault the page hits when it reads the title of a listing that does not
      exist; no reservation is recorded in that case either. */
  datatype BookingError = NotLoggedIn | MissingDates | PropertyNotFound

  /** Milliseconds in a day. */
  const MsPerDay: int := 86400000

  /** `Math.ceil(x / d)` for a positive divisor: the least `r` with
      `x <= r * d`. Dafny's `/` on `int` rounds down when `d > 0`. */
  function CeilDiv(x: int, d: int): (r: int)
    requires d > 0
    ensures (r - 1) * d < x <= r * d
  {
    if x % d == 0 then x / d else x / d + 1
  }

  /** Nights between two dates given as day numbers. A date-only form value
      parses to midnight UTC, so its time value is the day number times a
      day's milliseconds; the page divides the difference by a day and
      rounds up. The count is exactly the difference of the day numbers. */
  function Nights(checkin: int, checkout: int): (r: int)
    ensures r == checkout - checkin
    ensures r > 0 <==> checkin < checkout
  {
    CeilDiv(checkout * MsPerDay - checkin * MsPerDay, MsPerDay)
  }

  /** The booking decision of `makeReservation`, in the order the page makes
      its checks: a logged-in user first, then both dates filled in, then a
      listing with the id. The reservation it builds belongs to the current
      user, copies the listing's title, costs the nightly price times the
      nights, and is confirmed. The dates are not compared with each other. */
  function Book(currentUser: Option<User>, properties: seq<Property>, propertyId: int,
                checkin: Option<int>, checkout: Option<int>, id: int, now: string): (r: Result<Reservation, BookingError>)
    ensures currentUser.None? ==> r == Failure(NotLoggedIn)
    ensures currentUser.Some? && (checkin.None? || checkout.None?) ==> r == Failure(MissingDates)
    ensures currentUser.Some? && checkin.Some? && checkout.Some? && FindProperty(properties, propertyId).None?
            ==> r == Failure(PropertyNotFound)
    ensures r.Success? <==> currentUser.Some? && checkin.Some? && checkout.Some?
                            && exists i | 0 <= i < |properties| :: properties[i].id == propertyId
    ensures r.Success? ==>
              var p := FindProperty(properties, propertyId).value;
              && r.value.id == id
              && r.value.userId == currentUser.value.id
              && r.value.propertyId == propertyId && p in properties
              && r.value.propertyTitle == p.title
              && r.value.checkin == checkin.value && r.value.checkout == checkout.value
              && r.value.totalPrice == p.price * (checkout.value - checkin.value)
              && r.value.status == Confirmed
              && r.value.bookingDate == now
  {
    if currentUser.None? then Failure(NotLoggedIn)
    else if checkin.None? || checkout.None? then Failure(MissingDates)
    else match FindProperty(properties, propertyId)
      case None => Failure(PropertyNotFound)
      case Some(p) =>
        Success(Reservation(id, currentUser.value.id, propertyId, p.title, checkin.value, checkout.value,
                            p.price * Nights(checkin.value, checkout.value), Confirmed, now))
  }

  /** Nothing stops a stay whose checkout is not after its checkin: it is
      booked, at a price of zero or below. */
  lemma ReversedDatesAreBooked(u: User, properties: seq<Property>, propertyId: int,
                                checkin: int, checkout: int, id: int, now: string)
    requires exists i | 0 <= i < |properties| :: properties[i].id == propertyId
    requires forall i | 0 <= i < |properties| :: properties[i].price >= 0
    requires checkout <= checkin
    ensures Book(Some(u), properties, propertyId, Some(checkin), Some(checkout), id, now).Success?
    ensures Book(Some(u), properties, propertyId, Some(checkin), Some(checkout), id, now).value.totalPrice <= 0
  {
  }
}
