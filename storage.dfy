/**
 * `localStorage` as the pages use it: a map from keys to strings, the three
 * keys the pages write, and the typed save/get helpers built on the codec.
 */
module Storage {
  import opened Wrappers
  import opened Records
  import opened Codec

  const LastClickedCarKey := "lastClickedCar"
  const ReservationFormDataKey := "reservationFormData"
  const CarsDataKey := "carsData"

  /**
   * What a getter makes of a key: an absent key or an empty string is
   * falsy and reads as nothing; otherwise the text is decoded.
   */
  function Load(items: map<string, string>, key: string): (r: Option<Stored>)
    ensures r.Some? ==> key in items && Decode(items[key]) == r
    ensures key !in items ==> r.None?
  {
    if key in items && items[key] != "" then Decode(items[key]) else None
  }

  /** `getLastClickedCar`. */
  function StoredCar(items: map<string, string>): (r: Option<Car>)
    ensures r.Some? ==> Load(items, LastClickedCarKey) == Some(SelectedCar(r.value))
    ensures r.None? ==> !(Load(items, LastClickedCarKey).Some? && Load(items, LastClickedCarKey).value.SelectedCar?)
  {
    match Load(items, LastClickedCarKey)
    case Some(SelectedCar(c)) => Some(c)
    case _ => None
  }

  /** `getReservationFormData`. */
  function StoredDraft(items: map<string, string>): (r: Option<Draft>)
    ensures r.Some? ==> Load(items, ReservationFormDataKey) == Some(DraftForm(r.value))
    ensures r.None? ==> !(Load(items, ReservationFormDataKey).Some? && Load(items, ReservationFormDataKey).value.DraftForm?)
  {
    match Load(items, ReservationFormDataKey)
    case Some(DraftForm(d)) => Some(d)
    case _ => None
  }

  /** The catalog snapshot written after an order, read back as `JSON.parse(localCars)`. */
  function StoredCatalog(items: map<string, string>): (r: Option<seq<Car>>)
    ensures r.Some? ==> Load(items, CarsDataKey) == Some(CarList(r.value))
    ensures r.None? ==> !(Load(items, CarsDataKey).Some? && Load(items, CarsDataKey).value.CarList?)
  {
    match Load(items, CarsDataKey)
    case Some(CarList(cs)) => Some(cs)
    case _ => None
  }

  /** A value saved under a key is what the getter then returns. */
  lemma SaveThenLoad(items: map<string, string>, key: string, v: Stored)
    ensures Load(items[key := Encode(v)], key) == Some(v)
  {
    DecodeEncode(v);
  }

  /** A removed key reads as nothing. */
  lemma RemoveThenLoad(items: map<string, string>, key: string)
    ensures Load(items - {key}, key).None?
  {
    assert key !in items - {key};
  }

  /** The browser's `localStorage` for one origin. */
  class Store {
    var items: map<string, string>

    constructor(items: map<string, string>)
      ensures this.items == items
    {
      this.items := items;
    }

    method SetItem(key: string, value: string)
      modifies this
      ensures items == old(items)[key := value]
    {
      items := items[key := value];
    }

    function GetItem(key: string): (r: Option<string>)
      reads this
      ensures r.Some? <==> key in items
      ensures r.Some? ==> r.value == items[key]
    {
      if key in items then Some(items[key]) else None
    }

    method RemoveItem(key: string)
      modifies this
      ensures items == old(items) - {key}
    {
      items := items - {key};
    }

    /** `saveLastClickedCar`: the getter returns the car from now on. */
    method SaveLastClickedCar(car: Car)
      modifies this
      ensures items == old(items)[LastClickedCarKey := Encode(SelectedCar(car))]
      ensures StoredCar(items) == Some(car)
    {
      SetItem(LastClickedCarKey, Encode(SelectedCar(car)));
      SaveThenLoad(old(items), LastClickedCarKey, SelectedCar(car));
    }

    /** `saveReservationFormData`: the getter returns the draft from now on. */
    method SaveReservationFormData(d: Draft)
      modifies this
      ensures items == old(items)[ReservationFormDataKey := Encode(DraftForm(d))]
      ensures StoredDraft(items) == Some(d)
    {
      SetItem(ReservationFormDataKey, Encode(DraftForm(d)));
      SaveThenLoad(old(items), ReservationFormDataKey, DraftForm(d));
    }
  }
}
