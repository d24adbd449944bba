/**
 * The records the pages exchange: a catalog car and the reservation draft,
 * plus the two catalog look-ups the pages share (`data.find` by vin and the
 * snapshot rebuilt after an order).
 */
module Records {
  import opened Wrappers

  /** One catalog entry; `carType` is the record's `type` field. */
  datatype Car = Car(
    vin: string,
    brand: string,
    model: string,
    carType: string,
    description: string,
    pricePerDay: int,
    available: bool)

  /** The reservation form's six inputs, by their `name` attributes. */
  datatype Draft = Draft(
    name: string,
    phone: string,
    email: string,
    license: string,
    startDate: string,
    days: string)

  /** The `{}` that stands in for a missing draft: every field reads as empty. */
  const EmptyDraft := Draft("", "", "", "", "", "")

  /** `data.find(c => c.vin === vin)`: the first car carrying the vin, if any. */
  function FindByVin(cars: seq<Car>, vin: string): (r: Option<Car>)
    ensures r.Some? ==> r.value.vin == vin && r.value in cars
    ensures r.None? <==> forall i :: 0 <= i < |cars| ==> cars[i].vin != vin
  {
    if cars == [] then None
    else if cars[0].vin == vin then Some(cars[0])
    else FindByVin(cars[1..], vin)
  }

  /** The car `find` returns is the first one carrying the vin. */
  lemma {:induction false} FindByVinIsFirst(cars: seq<Car>, vin: string, i: nat)
    requires i < |cars| && cars[i].vin == vin
    requires forall j :: 0 <= j < i ==> cars[j].vin != vin
    ensures FindByVin(cars, vin) == Some(cars[i])
  {
    if i > 0 {
      assert cars[0].vin != vin;
      assert cars[1..][i - 1] == cars[i];
      FindByVinIsFirst(cars[1..], vin, i - 1);
    }
  }

  /**
   * The snapshot written after an order (`data.map` with a spread copy): the
   * same cars in the same order; cars carrying `vin` become unavailable and
   * keep every other field, and all other cars are untouched.
   */
  function MarkUnavailable(data: seq<Car>, vin: string): (r: seq<Car>)
    ensures |r| == |data|
    ensures forall i :: 0 <= i < |data| && data[i].vin == vin ==>
              !r[i].available && r[i].(available := true) == data[i].(available := true)
    ensures forall i :: 0 <= i < |data| && data[i].vin != vin ==> r[i] == data[i]
  {
    seq(|data|, i requires 0 <= i < |data| =>
      if data[i].vin == vin then data[i].(available := false) else data[i])
  }

  /**
   * After the snapshot is taken, looking the vin up again finds the same car,
   * now unavailable, and looking up any other vin finds what it found before.
   */
  lemma {:induction false} FindAfterMarkUnavailable(data: seq<Car>, vin: string, other: string)
    ensures var r := MarkUnavailable(data, vin);
      && (FindByVin(data, vin).Some? ==>
            FindByVin(r, vin) == Some(FindByVin(data, vin).value.(available := false)))
      && (FindByVin(data, vin).None? ==> FindByVin(r, vin).None?)
      && (other != vin ==> FindByVin(r, other) == FindByVin(data, other))
  {
    var r := MarkUnavailable(data, vin);
    if data != [] {
      assert r[1..] == MarkUnavailable(data[1..], vin);
      FindAfterMarkUnavailable(data[1..], vin, other);
    }
  }
}
