/** The three record kinds the booking site keeps, and the listings it
    starts with when nothing has been saved yet. */
module Entities {

  /** An account. `id` comes from the clock at registration time and
      `joinDate` is an ISO-8601 timestamp; the password is kept verbatim. */
  datatype User = User(
    id: int,
    name: string,
    email: string,
    phone: string,
    password: string,
    joinDate: string)

  /** A listing. `location` is the city key that searches match against and
      `price` is in FCFA per night. */
  datatype Property = Property(
    id: int,
    title: string,
    location: string,
    price: int,
    rating: real,
    image: string,
    description: string,
    amenities: seq<string>,
    host: string,
    bedrooms: int,
    bathrooms: int,
    guests: int)

  /** A booking. `checkin` and `checkout` are day numbers; `propertyTitle`
      is a copy of the listing's title taken when the booking is made. */
  datatype Reservation = Reservation(
    id: int,
    userId: int,
    propertyId: int,
    propertyTitle: string,
    checkin: int,
    checkout: int,
    totalPrice: int,
    status: string,
    bookingDate: string)

  /** The only status a reservation is ever given. */
  const Confirmed: string := "confirmé"

  /** The three listings shown on a first visit: distinct ids, each in its
      own city, each priced above zero. */
  function DefaultProperties(): (r: seq<Property>)
    ensures |r| == 3
    ensures UniquePropertyIds(r)
    ensures forall i | 0 <= i < |r| :: r[i].price > 0
    ensures forall i, j | 0 <= i < j < |r| :: r[i].location != r[j].location
  {
    assert Villa.location[0] == 'o' && House.location[0] == 'b' && Flat.location[0] == 'k';
    [Villa, House, Flat]
  }

  /** The villa in Ouagadougou. */
  const Villa: Property :=
    Property(1, "Villa moderne à Ouagadougou", "ouagadougou", 25000, 4.8,
             "https://images.unsplash.com/photo-1566073771259-6a8506099945?w=400",
             "Belle villa moderne avec piscine dans le quartier résidentiel de Ouaga 2000",
             ["WiFi", "Piscine", "Parking", "Climatisation"],
             "Marie Ouédraogo", 3, 2, 6)

  /** The traditional house in Bobo-Dioulasso. */
  const House: Property :=
    Property(2, "Maison traditionnelle à Bobo-Dioulasso", "bobo-dioulasso", 15000, 4.5,
             "https://images.unsplash.com/photo-1564013799919-ab600027ffc6?w=400",
             "Authentique maison traditionnelle au cœur de la ville de Sya",
             ["WiFi", "Jardin", "Terrasse"],
             "Amadou Traoré", 2, 1, 4)

  /** The flat in Koudougou. */
  const Flat: Property :=
    Property(3, "Appartement central à Koudougou", "koudougou", 12000, 4.2,
             "https://images.unsplash.com/photo-1522708323590-d24dbb6b0267?w=400",
             "Appartement confortable en centre-ville, proche des commerces",
             ["WiFi", "Balcon", "Cuisine équipée"],
             "Fatou Sawadogo", 1, 1, 2)

  /** No two listings share an id. */
  ghost predicate UniquePropertyIds(ps: seq<Property>)
  {
    forall i, j | 0 <= i < j < |ps| :: ps[i].id != ps[j].id
  }
}
