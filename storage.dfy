/** The persistence adapter: `saveToStorage` and `loadFromStorage` over the
    browser's key/value store. JSON text is abstracted to the structured
    value it encodes, so writing a value and parsing it back is the
    identity. */
module Storage {
  import opened Entities

  /** The structured values the store writes: `null`, one user record, or
      one of the three collections. */
  datatype Value =
    | Null
    | UserRecord(user: User)
    | UserList(users: seq<User>)
    | PropertyList(properties: seq<Property>)
    | ReservationList(reservations: seq<Reservation>)

  /** The JSON text `[]` carries no element type: each of the three empty
      collections stands for the same text. */
  predicate IsEmptyArray(v: Value)
  {
    v == UserList([]) || v == PropertyList([]) || v == ReservationList([])
  }

  /** What a key holds: text that parses to a value, or text that does not
      (including the empty string, which the loader also treats as absent). */
  datatype Entry = Json(value: Value) | Unparsable

  /** The key/value substrate. When `readable` is false every read throws;
      when `writable` is false every write throws (storage disabled, quota
      exceeded). */
  datatype Substrate = Substrate(entries: map<string, Entry>, readable: bool, writable: bool)

  const UsersKey: string := "burkinaStay_users"
  const PropertiesKey: string := "burkinaStay_properties"
  const ReservationsKey: string := "burkinaStay_reservations"
  const CurrentUserKey: string := "burkinaStay_currentUser"

  /** The four keys the store writes. */
  const StoreKeys: set<string> := {UsersKey, PropertiesKey, ReservationsKey, CurrentUserKey}

  /** `saveToStorage`: writes `v` under `key`; a failing write is caught and
      leaves the substrate as it was. */
  function Save(s: Substrate, key: string, v: Value): (r: Substrate)
    ensures r.readable == s.readable && r.writable == s.writable
    ensures s.writable ==> key in r.entries && r.entries[key] == Json(v)
    ensures !s.writable ==> r.entries == s.entries
    ensures forall k | k in s.entries && k != key :: k in r.entries && r.entries[k] == s.entries[k]
    ensures forall k | k in r.entries && k != key :: k in s.entries
  {
    if s.writable then s.(entries := s.entries[key := Json(v)]) else s
  }

  /** `loadFromStorage`: the value stored under `key`, or `default` when the
      key is absent, its text does not parse, or the read throws. */
  function Load(s: Substrate, key: string, default: Value): (r: Value)
    ensures r == default || (s.readable && key in s.entries && s.entries[key] == Json(r))
    ensures s.readable && key in s.entries && s.entries[key].Json? ==> r == s.entries[key].value
  {
    if s.readable && key in s.entries && s.entries[key].Json? then s.entries[key].value
    else default
  }

  /** Saving then loading the same key gives back what was saved. */
  lemma LoadAfterSave(s: Substrate, key: string, v: Value, default: Value)
    requires s.readable && s.writable
    ensures Load(Save(s, key, v), key, default) == v
  {
  }

  /** A save touches only its own key, whether it succeeds or fails. */
  lemma SaveLeavesOtherKeys(s: Substrate, key: string, v: Value, other: string, default: Value)
    requires other != key
    ensures Load(Save(s, key, v), other, default) == Load(s, other, default)
    ensures Save(s, key, v).readable == s.readable && Save(s, key, v).writable == s.writable
  {
  }

  /** Saving the same value under a key twice is the same as saving it once,
      so the full save at page unload can repeat earlier saves harmlessly. */
  lemma SaveIdempotent(s: Substrate, key: string, v: Value)
    ensures Save(Save(s, key, v), key, v) == Save(s, key, v)
  {
  }
}
