/** The booking site's in-memory state and the operations that change it:
    loading from storage at start-up, registration, login, logout, booking,
    and the full save made when the page is closed. */
module BookingStore {
  import opened Wrappers
  import opened Text
  import opened Entities
  import opened Storage
  import opened Queries

  /** Why an account operation is turned down. */
  datatype AccountError = DuplicateEmail | InvalidCredentials

  /** How the session is written: the user record, or `null` when nobody
      is logged in. */
  function SessionValue(currentUser: Option<User>): Value
  {
    if currentUser.Some? then UserRecord(currentUser.value) else Null
  }

  // What start-up reads under each key: the collection stored there, or the
  // key's default. A value of the wrong shape under a key is replaced by
  // that key's default.

  function LoadedUsers(s: Substrate): (r: seq<User>)
    ensures r == [] || (s.readable && UsersKey in s.entries && s.entries[UsersKey] == Json(UserList(r)))
    ensures s.readable && UsersKey in s.entries && s.entries[UsersKey].Json? && s.entries[UsersKey].value.UserList?
            ==> r == s.entries[UsersKey].value.users
    ensures s.readable && UsersKey in s.entries && s.entries[UsersKey].Json? && IsEmptyArray(s.entries[UsersKey].value)
            ==> r == []
  {
    match Load(s, UsersKey, UserList([]))
    case UserList(us) => us
    case _ => []
  }

  function LoadedProperties(s: Substrate): (r: seq<Property>)
    ensures r == DefaultProperties()
            || (s.readable && PropertiesKey in s.entries && s.entries[PropertiesKey].Json?
                && (s.entries[PropertiesKey].value == PropertyList(r)
                    || (r == [] && IsEmptyArray(s.entries[PropertiesKey].value))))
    ensures s.readable && PropertiesKey in s.entries && s.entries[PropertiesKey].Json? && s.entries[PropertiesKey].value.PropertyList?
            ==> r == s.entries[PropertiesKey].value.properties
    ensures s.readable && PropertiesKey in s.entries && s.entries[PropertiesKey].Json? && IsEmptyArray(s.entries[PropertiesKey].value)
            ==> r == []
  {
    var v := Load(s, PropertiesKey, PropertyList(DefaultProperties()));
    if v.PropertyList? then v.properties
    else if IsEmptyArray(v) then []
    else DefaultProperties()
  }

  function LoadedReservations(s: Substrate): (r: seq<Reservation>)
    ensures r == [] || (s.readable && ReservationsKey in s.entries && s.entries[ReservationsKey] == Json(ReservationList(r)))
    ensures s.readable && ReservationsKey in s.entries && s.entries[ReservationsKey].Json? && s.entries[ReservationsKey].value.ReservationList?
            ==> r == s.entries[ReservationsKey].value.reservations
    ensures s.readable && ReservationsKey in s.entries && s.entries[ReservationsKey].Json? && IsEmptyArray(s.entries[ReservationsKey].value)
            ==> r == []
  {
    match Load(s, ReservationsKey, ReservationList([]))
    case ReservationList(rs) => rs
    case _ => []
  }

  function LoadedSession(s: Substrate): (r: Option<User>)
    ensures r == None || (s.readable && CurrentUserKey in s.entries && s.entries[CurrentUserKey] == Json(UserRecord(r.value)))
    ensures (s.readable && CurrentUserKey in s.entries && s.entries[CurrentUserKey].Json?
             && s.entries[CurrentUserKey].value.UserRecord?) ==> r == Some(s.entries[CurrentUserKey].value.user)
  {
    match Load(s, CurrentUserKey, Null)
    case UserRecord(u) => Some(u)
    case _ => None
  }

  /** The four writes made when the page is closed: when storage can be
      written, each of the four keys holds its collection or the session;
      when it cannot, nothing changes. No other key is touched. */
  function SaveAllTo(s: Substrate, users: seq<User>, properties: seq<Property>,
                     reservations: seq<Reservation>, currentUser: Option<User>): (r: Substrate)
    ensures r.readable == s.readable && r.writable == s.writable
    ensures !s.writable ==> r == s
    ensures s.writable ==>
              && UsersKey in r.entries && r.entries[UsersKey] == Json(UserList(users))
              && PropertiesKey in r.entries && r.entries[PropertiesKey] == Json(PropertyList(properties))
              && ReservationsKey in r.entries && r.entries[ReservationsKey] == Json(ReservationList(reservations))
              && CurrentUserKey in r.entries && r.entries[CurrentUserKey] == Json(SessionValue(currentUser))
    ensures forall k | k in s.entries && k !in StoreKeys :: k in r.entries && r.entries[k] == s.entries[k]
    ensures forall k | k in r.entries && k !in StoreKeys :: k in s.entries
  {
    KeysDistinct();
    var s1 := Save(s, UsersKey, UserList(users));
    var s2 := Save(s1, PropertiesKey, PropertyList(properties));
    var s3 := Save(s2, ReservationsKey, ReservationList(reservations));
    Save(s3, CurrentUserKey, SessionValue(currentUser))
  }

  /** On a first visit, when nothing has been stored or storage cannot be
      read, the site starts with no accounts, no bookings, nobody logged in
      and the three seed listings. */
  lemma FirstVisitStartsFromSeed(s: Substrate)
    requires !s.readable || (UsersKey !in s.entries && PropertiesKey !in s.entries
                             && ReservationsKey !in s.entries && CurrentUserKey !in s.entries)
    ensures LoadedUsers(s) == [] && LoadedReservations(s) == [] && LoadedSession(s) == None
    ensures LoadedProperties(s) == DefaultProperties()
  {
    assert Load(s, PropertiesKey, PropertyList(DefaultProperties())) == PropertyList(DefaultProperties());
  }

  /** A stored listing collection is taken as it is, even when it is empty:
      the seed set is used only when nothing usable is stored. */
  lemma StoredPropertiesWin(s: Substrate, ps: seq<Property>)
    requires s.readable && PropertiesKey in s.entries
    requires s.entries[PropertiesKey] == Json(PropertyList(ps))
             || (ps == [] && s.entries[PropertiesKey].Json? && IsEmptyArray(s.entries[PropertiesKey].value))
    ensures LoadedProperties(s) == ps
  {
  }

  /** Closing the page and opening it again restores the same state, provided
      storage can be written and read. */
  lemma ReloadRestores(s: Substrate, users: seq<User>, properties: seq<Property>,
                       reservations: seq<Reservation>, currentUser: Option<User>)
    requires s.readable && s.writable
    ensures var t := SaveAllTo(s, users, properties, reservations, currentUser);
            && LoadedUsers(t) == users && LoadedProperties(t) == properties
            && LoadedReservations(t) == reservations && LoadedSession(t) == currentUser
  {
    var s1 := Save(s, UsersKey, UserList(users));
    var s2 := Save(s1, PropertiesKey, PropertyList(properties));
    var s3 := Save(s2, ReservationsKey, ReservationList(reservations));
    var t := Save(s3, CurrentUserKey, SessionValue(currentUser));
    KeysDistinct();
    // each key reads back its own write, unaffected by the later ones
    SaveLeavesOtherKeys(s1, PropertiesKey, PropertyList(properties), UsersKey, UserList([]));
    SaveLeavesOtherKeys(s2, ReservationsKey, ReservationList(reservations), UsersKey, UserList([]));
    SaveLeavesOtherKeys(s3, CurrentUserKey, SessionValue(currentUser), UsersKey, UserList([]));
    SaveLeavesOtherKeys(s2, ReservationsKey, ReservationList(reservations), PropertiesKey, PropertyList(DefaultProperties()));
    SaveLeavesOtherKeys(s3, CurrentUserKey, SessionValue(currentUser), PropertiesKey, PropertyList(DefaultProperties()));
    SaveLeavesOtherKeys(s3, CurrentUserKey, SessionValue(currentUser), ReservationsKey, ReservationList([]));
  }

  /** The four storage keys are different strings. */
  lemma KeysDistinct()
    ensures UsersKey != PropertiesKey && UsersKey != ReservationsKey && UsersKey != CurrentUserKey
    ensures PropertiesKey != ReservationsKey && PropertiesKey != CurrentUserKey
    ensures ReservationsKey != CurrentUserKey
  {
  }

  /** The session written by login or logout is the one read back at the
      next start-up. */
  lemma SavedSessionReloads(s: Substrate, currentUser: Option<User>)
    requires s.readable && s.writable
    ensures LoadedSession(Save(s, CurrentUserKey, SessionValue(currentUser))) == currentUser
  {
  }

  class Store {
    var users: seq<User>
    var properties: seq<Property>
    var reservations: seq<Reservation>
    var currentUser: Option<User>
    /** The browser storage the store persists to. */
    var storage: Substrate

    /** The relations between the collections that the operations keep:
        e-mails are unique, the session user is a registered account, and
        every reservation names a registered account and an existing
        listing. */
    ghost predicate Consistent()
      reads this
    {
      && UniqueEmails(users)
      && (currentUser.Some? ==> currentUser.value in users)
      && (forall b | b in reservations :: exists u | u in users :: u.id == b.userId)
      && (forall b | b in reservations :: exists p | p in properties :: p.id == b.propertyId)
    }

    /** The state before start-up: nobody logged in, every collection empty. */
    constructor (storage: Substrate)
      ensures users == [] && properties == [] && reservations == [] && currentUser == None
      ensures this.storage == storage
      ensures Consistent()
    {
      users, properties, reservations, currentUser := [], [], [], None;
      this.storage := storage;
    }

    /** `initializeData`: replaces the four collections by what storage holds,
        each falling back to its default. */
    method InitializeData()
      modifies this
      ensures storage == old(storage)
      ensures users == LoadedUsers(storage) && properties == LoadedProperties(storage)
      ensures reservations == LoadedReservations(storage) && currentUser == LoadedSession(storage)
    {
      users := LoadedUsers(storage);
      properties := LoadedProperties(storage);
      reservations := LoadedReservations(storage);
      currentUser := LoadedSession(storage);
    }

    /** `saveAllDataBeforeUnload`: writes all four keys; memory is unchanged. */
    method SaveAll()
      modifies this
      ensures storage == SaveAllTo(old(storage), users, properties, reservations, currentUser)
      ensures users == old(users) && properties == old(properties)
      ensures reservations == old(reservations) && currentUser == old(currentUser)
    {
      storage := Save(storage, UsersKey, UserList(users));
      storage := Save(storage, PropertiesKey, PropertyList(properties));
      storage := Save(storage, ReservationsKey, ReservationList(reservations));
      storage := Save(storage, CurrentUserKey, SessionValue(currentUser));
    }

    /** `register`: name, e-mail and phone are trimmed, the password is kept
        as typed. A taken e-mail changes nothing; otherwise the new account
        is appended and the account list is saved. */
    method Register(rawName: string, rawEmail: string, rawPhone: string, password: string,
                    id: int, joinDate: string) returns (result: Result<User, AccountError>)
      modifies this
      ensures result.Failure? <==> EmailTaken(old(users), Trim(rawEmail))
      ensures result.Failure? ==> result.error == DuplicateEmail && users == old(users) && storage == old(storage)
      ensures result.Success? ==>
                && result.value == User(id, Trim(rawName), Trim(rawEmail), Trim(rawPhone), password, joinDate)
                && users == old(users) + [result.value]
                && storage == Save(old(storage), UsersKey, UserList(users))
      ensures properties == old(properties) && reservations == old(reservations)
      ensures currentUser == old(currentUser)
      ensures old(Consistent()) ==> Consistent()
    {
      var email := Trim(rawEmail);
      if FindByEmail(users, email).Some? {
        result := Failure(DuplicateEmail);
        return;
      }
      var u := User(id, Trim(rawName), email, Trim(rawPhone), password, joinDate);
      ghost var before := users;
      users := users + [u];
      storage := Save(storage, UsersKey, UserList(users));
      result := Success(u);
      if old(Consistent()) {
        AppendKeepsEmailsUnique(before, u);
        assert forall x | x in before :: x in users;
      }
    }

    /** `login`: the e-mail is trimmed, the password is compared as typed.
        The first account matching both becomes the session user and is
        saved; when none matches nothing changes. */
    method Login(rawEmail: string, password: string) returns (result: Result<User, AccountError>)
      modifies this
      ensures result.Success? <==>
                exists i | 0 <= i < |users| :: users[i].email == Trim(rawEmail) && users[i].password == password
      ensures result.Success? ==>
                && Some(result.value) == FindByCredentials(users, Trim(rawEmail), password)
                && currentUser == Some(result.value)
                && storage == Save(old(storage), CurrentUserKey, SessionValue(currentUser))
      ensures result.Failure? ==>
                result.error == InvalidCredentials && currentUser == old(currentUser) && storage == old(storage)
      ensures users == old(users) && properties == old(properties) && reservations == old(reservations)
      ensures old(Consistent()) ==> Consistent()
    {
      var found := FindByCredentials(users, Trim(rawEmail), password);
      if found.Some? {
        assert found.value in users;
        currentUser := found;
        storage := Save(storage, CurrentUserKey, SessionValue(currentUser));
        result := Success(found.value);
      } else {
        result := Failure(InvalidCredentials);
      }
    }

    /** `logout`: clears the session and saves the cleared session. */
    method Logout()
      modifies this
      ensures currentUser == None
      ensures storage == Save(old(storage), CurrentUserKey, Null)
      ensures users == old(users) && properties == old(properties) && reservations == old(reservations)
      ensures old(Consistent()) ==> Consistent()
    {
      currentUser := None;
      storage := Save(storage, CurrentUserKey, Null);
    }

    /** `makeReservation`: decides as `Book` does; on success the reservation
        is appended and the reservation list is saved, otherwise nothing
        changes. */
    method MakeReservation(propertyId: int, checkin: Option<int>, checkout: Option<int>,
                           id: int, now: string) returns (result: Result<Reservation, BookingError>)
      modifies this
      ensures result == Book(currentUser, properties, propertyId, checkin, checkout, id, now)
      ensures result.Success? ==>
                && reservations == old(reservations) + [result.value]
                && storage == Save(old(storage), ReservationsKey, ReservationList(reservations))
      ensures result.Failure? ==> reservations == old(reservations) && storage == old(storage)
      ensures users == old(users) && properties == old(properties) && currentUser == old(currentUser)
      ensures old(Consistent()) ==> Consistent()
    {
      result := Book(currentUser, properties, propertyId, checkin, checkout, id, now);
      if result.Success? {
        reservations := reservations + [result.value];
        storage := Save(storage, ReservationsKey, ReservationList(reservations));
      }
    }
  }

  /** The search for "bobo-dioulasso" over the seed set finds exactly the
      traditional house. */
  lemma SeedSearchFindsBoboDioulasso()
    ensures PropertiesIn(DefaultProperties(), "bobo-dioulasso") == [DefaultProperties()[1]]
  {
  }

  /** Three nights in the Bobo-Dioulasso house from the seed set cost
      45000 FCFA, and the booking is confirmed under that listing's title. */
  lemma SeedBookingPrice(u: User, checkin: int, id: int, now: string)
    ensures var r := Book(Some(u), DefaultProperties(), 2, Some(checkin), Some(checkin + 3), id, now);
            && r.Success? && r.value.totalPrice == 45000 && r.value.status == Confirmed
            && r.value.propertyTitle == "Maison traditionnelle à Bobo-Dioulasso" && r.value.userId == u.id
  {
  }

  /** What registration promises its user: right after a successful
      registration, logging in with the same e-mail field and password
      succeeds and makes the new account the session user. */
  method RegisterThenLogIn(store: Store, rawName: string, rawEmail: string, rawPhone: string,
                           password: string, id: int, joinDate: string)
      returns (registered: Result<User, AccountError>, loggedIn: Result<User, AccountError>)
    modifies store
    ensures registered.Success? ==> loggedIn == registered && store.currentUser == Some(registered.value)
    ensures old(store.Consistent()) ==> store.Consistent()
  {
    ghost var before := store.users;
    registered := store.Register(rawName, rawEmail, rawPhone, password, id, joinDate);
    ghost var found := FindByCredentials(store.users, Trim(rawEmail), password);
    if registered.Success? {
      var u := registered.value;
      assert u.email == Trim(rawEmail) && u.password == password;
      RegisteredUserIsFound(before, u);
      assert found == Some(u);
    }
    loggedIn := store.Login(rawEmail, password);
  }
}
