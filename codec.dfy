/**
 * The text form in which values are kept in browser storage. It stands in for
 * `JSON.stringify` / `JSON.parse`: the exact JSON syntax is not modelled, only
 * that a stored value is a non-empty string from which the value is read back
 * unchanged.
 *
 * Layout: strings end with `"` and escape `"` and `\` with a `\`; integers
 * are a sign, decimal digits and `;`; booleans are `t` / `f`; a list of cars
 * is `,` before each car and `]` at the end; the whole value starts with a
 * tag saying which kind of value it is.
 */
module Codec {
  import opened Wrappers
  import opened Text
  import opened Records

  /** What the page keeps under its three storage keys. */
  datatype Stored = SelectedCar(car: Car) | CarList(cars: seq<Car>) | DraftForm(draft: Draft)

  // Each writer puts its value in front of `after`, the text that follows it;
  // each reader returns the value and the text left after it.

  // ---------- strings ----------

  function EscapeChar(c: char): string {
    if c == '"' || c == '\\' then ['\\', c] else [c]
  }

  function WriteString(s: string, after: string): string {
    if s == [] then ['"'] + after else EscapeChar(s[0]) + WriteString(s[1..], after)
  }

  function ReadString(t: string): (r: Option<(string, string)>)
    ensures r.Some? ==> |r.value.1| < |t|
  {
    if t == [] then None
    else if t[0] == '"' then Some(([], t[1..]))
    else if t[0] == '\\' then
      if |t| < 2 then None
      else
        match ReadString(t[2..])
        case None => None
        case Some((s, rest)) => Some(([t[1]] + s, rest))
    else
      match ReadString(t[1..])
      case None => None
      case Some((s, rest)) => Some(([t[0]] + s, rest))
  }

  lemma {:induction false} StringRoundTrip(s: string, after: string)
    ensures ReadString(WriteString(s, after)) == Some((s, after))
  {
    if s == [] {
      assert (['"'] + after)[1..] == after;
    } else {
      var t := WriteString(s, after);
      StringRoundTrip(s[1..], after);
      assert [s[0]] + s[1..] == s;
      if s[0] == '"' || s[0] == '\\' {
        assert t[2..] == WriteString(s[1..], after);
      } else {
        assert t[1..] == WriteString(s[1..], after);
      }
    }
  }

  // ---------- integers and booleans ----------

  function Abs(n: int): nat {
    if n < 0 then -n else n
  }

  function WriteInt(n: int, after: string): string {
    (if n < 0 then "-" else "+") + ShowNat(Abs(n)) + ";" + after
  }

  function ReadInt(t: string): (r: Option<(int, string)>)
    ensures r.Some? ==> |r.value.1| < |t|
  {
    if t == [] || (t[0] != '+' && t[0] != '-') then None
    else
      var u := t[1..];
      var k := DigitRun(u);
      if k == 0 || k == |u| || u[k] != ';' then None
      else
        var n: int := DigitsValue(u[..k]);
        Some((if t[0] == '-' then -n else n, u[k + 1..]))
  }

  lemma IntRoundTrip(n: int, after: string)
    ensures ReadInt(WriteInt(n, after)) == Some((n, after))
  {
    var digits := ShowNat(Abs(n));
    var t := WriteInt(n, after);
    var u := t[1..];
    assert u == digits + (";" + after);
    DigitRunOfDigits(digits, ";" + after);
    assert u[..|digits|] == digits;
    assert u[|digits| + 1..] == after;
  }

  function WriteBool(b: bool, after: string): string {
    (if b then "t" else "f") + after
  }

  function ReadBool(t: string): (r: Option<(bool, string)>)
    ensures r.Some? ==> |r.value.1| < |t|
  {
    if t == [] then None
    else if t[0] == 't' then Some((true, t[1..]))
    else if t[0] == 'f' then Some((false, t[1..]))
    else None
  }

  lemma BoolRoundTrip(b: bool, after: string)
    ensures ReadBool(WriteBool(b, after)) == Some((b, after))
  {
    assert WriteBool(b, after)[1..] == after;
  }

  // ---------- records ----------

  /** Several strings one after the other. */
  function WriteStrings(ss: seq<string>, after: string): string {
    if ss == [] then after else WriteString(ss[0], WriteStrings(ss[1..], after))
  }

  /** Reads `n` strings one after the other. */
  function ReadStrings(t: string, n: nat): (r: Option<(seq<string>, string)>)
    ensures r.Some? ==> |r.value.0| == n && |r.value.1| <= |t|
    decreases n
  {
    if n == 0 then Some(([], t))
    else
      match ReadString(t)
      case None => None
      case Some((s, t1)) =>
        match ReadStrings(t1, n - 1)
        case None => None
        case Some((ss, t2)) => Some(([s] + ss, t2))
  }

  lemma {:induction false} StringsRoundTrip(ss: seq<string>, after: string)
    ensures ReadStrings(WriteStrings(ss, after), |ss|) == Some((ss, after))
  {
    if ss != [] {
      StringRoundTrip(ss[0], WriteStrings(ss[1..], after));
      StringsRoundTrip(ss[1..], after);
      assert [ss[0]] + ss[1..] == ss;
    }
  }

  /** The text fields of a car, in the order they are written. */
  function CarTexts(c: Car): seq<string> {
    [c.vin, c.brand, c.model, c.carType, c.description]
  }

  function WriteCar(c: Car, after: string): string {
    WriteStrings(CarTexts(c), WriteInt(c.pricePerDay, WriteBool(c.available, after)))
  }

  function ReadCar(t: string): (r: Option<(Car, string)>)
    ensures r.Some? ==> |r.value.1| < |t|
  {
    match ReadStrings(t, 5)
    case None => None
    case Some((f, t1)) =>
      match ReadInt(t1)
      case None => None
      case Some((price, t2)) =>
        match ReadBool(t2)
        case None => None
        case Some((available, t3)) => Some((Car(f[0], f[1], f[2], f[3], f[4], price, available), t3))
  }

  lemma CarRoundTrip(c: Car, after: string)
    ensures ReadCar(WriteCar(c, after)) == Some((c, after))
  {
    var t2 := WriteBool(c.available, after);
    var t1 := WriteInt(c.pricePerDay, t2);
    StringsRoundTrip(CarTexts(c), t1);
    IntRoundTrip(c.pricePerDay, t2);
    BoolRoundTrip(c.available, after);
  }

  function WriteCars(cars: seq<Car>, after: string): string {
    if cars == [] then "]" + after else "," + WriteCar(cars[0], WriteCars(cars[1..], after))
  }

  function ReadCars(t: string): (r: Option<(seq<Car>, string)>)
    ensures r.Some? ==> |r.value.1| < |t|
    decreases |t|
  {
    if t == [] then None
    else if t[0] == ']' then Some(([], t[1..]))
    else if t[0] == ',' then
      match ReadCar(t[1..])
      case None => None
      case Some((c, t1)) =>
        match ReadCars(t1)
        case None => None
        case Some((cs, t2)) => Some(([c] + cs, t2))
    else None
  }

  lemma {:induction false} CarsRoundTrip(cars: seq<Car>, after: string)
    ensures ReadCars(WriteCars(cars, after)) == Some((cars, after))
  {
    var t := WriteCars(cars, after);
    if cars == [] {
      assert t[1..] == after;
    } else {
      var tail := WriteCars(cars[1..], after);
      assert t[0] == ',' && t[1..] == WriteCar(cars[0], tail);
      CarRoundTrip(cars[0], tail);
      CarsRoundTrip(cars[1..], after);
      assert ReadCars(t) == Some(([cars[0]] + cars[1..], after));
      assert [cars[0]] + cars[1..] == cars;
    }
  }

  /** The fields of a draft, in the order they are written. */
  function DraftTexts(d: Draft): seq<string> {
    [d.name, d.phone, d.email, d.license, d.startDate, d.days]
  }

  function WriteDraft(d: Draft, after: string): string {
    WriteStrings(DraftTexts(d), after)
  }

  function ReadDraft(t: string): Option<(Draft, string)> {
    match ReadStrings(t, 6)
    case None => None
    case Some((f, rest)) => Some((Draft(f[0], f[1], f[2], f[3], f[4], f[5]), rest))
  }

  lemma DraftRoundTrip(d: Draft, after: string)
    ensures ReadDraft(WriteDraft(d, after)) == Some((d, after))
  {
    StringsRoundTrip(DraftTexts(d), after);
  }

  // ---------- whole values ----------

  /** `JSON.stringify`: a non-empty text whose first character says which kind of value it holds. */
  function Encode(v: Stored): (r: string)
    ensures r != []
    ensures (r[0] == 'C' <==> v.SelectedCar?) && (r[0] == 'L' <==> v.CarList?) && (r[0] == 'D' <==> v.DraftForm?)
  {
    match v
    case SelectedCar(c) => "C" + WriteCar(c, [])
    case CarList(cs) => "L" + WriteCars(cs, [])
    case DraftForm(d) => "D" + WriteDraft(d, [])
  }

  /** `JSON.parse`: `None` where the text is not a whole encoded value. */
  function Decode(t: string): (r: Option<Stored>)
    ensures r.Some? ==> t != []
    ensures r.Some? ==>
      (t[0] == 'C' <==> r.value.SelectedCar?) && (t[0] == 'L' <==> r.value.CarList?)
      && (t[0] == 'D' <==> r.value.DraftForm?)
  {
    if t == [] then None
    else if t[0] == 'C' then
      match ReadCar(t[1..])
      case Some((c, rest)) => if rest == [] then Some(SelectedCar(c)) else None
      case None => None
    else if t[0] == 'L' then
      match ReadCars(t[1..])
      case Some((cs, rest)) => if rest == [] then Some(CarList(cs)) else None
      case None => None
    else if t[0] == 'D' then
      match ReadDraft(t[1..])
      case Some((d, rest)) => if rest == [] then Some(DraftForm(d)) else None
      case None => None
    else None
  }

  /**
   * Every value is stored as a non-empty string (so the truthiness test of
   * the getters accepts it) and is read back unchanged.
   */
  lemma DecodeEncode(v: Stored)
    ensures Encode(v) != []
    ensures Decode(Encode(v)) == Some(v)
  {
    var t := Encode(v);
    match v
    case SelectedCar(c) =>
      assert t[1..] == WriteCar(c, []);
      CarRoundTrip(c, []);
    case CarList(cs) =>
      assert t[1..] == WriteCars(cs, []);
      CarsRoundTrip(cs, []);
    case DraftForm(d) =>
      assert t[1..] == WriteDraft(d, []);
      DraftRoundTrip(d, []);
  }
}
