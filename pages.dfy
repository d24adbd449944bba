/**
 * The two pages and the state each keeps between events: the home page's
 * `carsData` and rent click, and the reservation page's decision, form,
 * total, submit button, cancel and order submission. Fetches of
 * `data/cars.json` arrive as parameters: `None` when both paths failed.
 */
module Pages {
  import opened Wrappers
  import opened Text
  import opened Records
  import opened Catalog
  import opened ReservationForm
  import opened Codec
  import opened Storage

  // ---------- home page ----------

  /**
   * `carsData` once `cars.json` has arrived: the snapshot stored after an
   * order replaces the file's list whenever one is stored.
   */
  function CatalogData(fetched: seq<Car>, items: map<string, string>): (r: seq<Car>)
    ensures StoredCatalog(items).Some? ==> r == StoredCatalog(items).value
    ensures StoredCatalog(items).None? ==> r == fetched
  {
    match StoredCatalog(items)
    case Some(cs) => cs
    case None => fetched
  }

  /** What the grid area shows besides the cards. */
  datatype GridNotice = NoNotice | LoadFailedNotice

  class CatalogPage {
    const store: Store
    var carsData: seq<Car>
    var notice: GridNotice
    var filters: FilterOptions
    /** The grid is rendered and its handlers are attached. */
    var ready: bool
    /** The browser left for the reservation page. */
    var navigated: bool

    constructor(store: Store)
      ensures this.store == store
      ensures carsData == [] && notice == NoNotice && filters == FilterOptions([], [])
      ensures !ready && !navigated
    {
      this.store := store;
      carsData := [];
      notice := NoNotice;
      filters := FilterOptions([], []);
      ready := false;
      navigated := false;
    }

    /**
     * The page's start-up: on a failed fetch only the failure notice is
     * shown; otherwise `carsData` is settled, the filter options are filled
     * and the handlers are attached.
     */
    method Load(fetched: Option<seq<Car>>)
      requires !ready
      modifies this
      ensures fetched.None? ==>
        carsData == old(carsData) && notice == LoadFailedNotice && filters == old(filters) && !ready
      ensures fetched.Some? ==>
        && carsData == CatalogData(fetched.value, store.items)
        && filters == PopulateFilters(carsData)
        && notice == old(notice)
        && ready
      ensures navigated == old(navigated)
    {
      if fetched.None? {
        notice := LoadFailedNotice;
        return;
      }
      carsData := fetched.value;
      var localCars := StoredCatalog(store.items);
      if localCars.Some? {
        carsData := localCars.value;
      }
      filters := PopulateFilters(carsData);
      ready := true;
    }

    /** The cards the grid shows for the current search box and filters. */
    function Grid(searchText: string, carType: string, brand: string): (r: seq<Car>)
      reads this
      ensures IsSubsequence(r, carsData)
      ensures forall c ::
        multiset(r)[c] == if CarMatches(c, ToLower(searchText), carType, brand) then multiset(carsData)[c] else 0
      ensures forall c :: c in r <==> c in carsData && CarMatches(c, ToLower(searchText), carType, brand)
    {
      FilterCars(carsData, searchText, carType, brand)
    }

    /**
     * A click on a card's rent button: the car is remembered, and the
     * browser moves on, only when the vin is found and that car is available.
     */
    method RentClick(vin: string)
      requires ready
      modifies this, store
      ensures var car := FindByVin(carsData, vin);
        if car.Some? && car.value.available then
          store.items == old(store.items)[LastClickedCarKey := Encode(SelectedCar(car.value))]
          && StoredCar(store.items) == car
          && navigated
        else
          store.items == old(store.items) && navigated == old(navigated)
      ensures carsData == old(carsData) && filters == old(filters) && notice == old(notice) && ready
    {
      var car := FindByVin(carsData, vin);
      if car.Some? && car.value.available {
        store.SaveLastClickedCar(car.value);
        navigated := true;
      }
    }
  }

  // ---------- reservation page ----------

  /** What `#reservationContent` holds once the page has decided. */
  datatype Content =
    | Blank
    | SelectFirstReminder
    | LoadFailedReminder
    | NotFoundReminder
    | UnavailableReminder(car: Car)
    | FormShown(car: Car)

  /** The order message under the form. */
  datatype OrderMsg = NoOrderMsg | CannotAccessData | NoLongerAvailable

  /**
   * The decision of `renderReservationPage` and `renderReservationCarDetail`:
   * the remembered car is looked up by vin in the freshly fetched list, and
   * the form appears only for a car found there and available.
   */
  function PageContent(last: Option<Car>, fetched: Option<seq<Car>>): (c: Content)
    ensures c == SelectFirstReminder <==> last.None?
    ensures c == LoadFailedReminder <==> last.Some? && fetched.None?
    ensures c.NotFoundReminder? <==>
      last.Some? && fetched.Some? && FindByVin(fetched.value, last.value.vin).None?
    ensures (c.UnavailableReminder? || c.FormShown?) ==>
      last.Some? && fetched.Some? && FindByVin(fetched.value, last.value.vin) == Some(c.car)
    ensures c.UnavailableReminder? <==>
      && last.Some? && fetched.Some? && FindByVin(fetched.value, last.value.vin).Some?
      && !FindByVin(fetched.value, last.value.vin).value.available
    ensures c.FormShown? <==>
      last.Some? && fetched.Some? && OrderAccepted(fetched.value, last.value.vin)
    ensures c != Blank
  {
    if last.None? then SelectFirstReminder
    else if fetched.None? then LoadFailedReminder
    else
      match FindByVin(fetched.value, last.value.vin)
      case None => NotFoundReminder
      case Some(car) => if car.available then FormShown(car) else UnavailableReminder(car)
  }

  /** The fetched list holds the vin and the car found for it is available. */
  predicate OrderAccepted(data: seq<Car>, vin: string) {
    FindByVin(data, vin).Some? && FindByVin(data, vin).value.available
  }

  /** The storage after a successful order: draft removed, then the snapshot written. */
  function AfterOrder(items: map<string, string>, data: seq<Car>, vin: string): map<string, string> {
    (items - {ReservationFormDataKey})[CarsDataKey := Encode(CarList(MarkUnavailable(data, vin)))]
  }

  class ReservationPage {
    const store: Store
    var lastClickedCar: Option<Car>
    var reservationFormData: Draft
    var content: Content
    /** The values in the six inputs. */
    var form: Draft
    /** The text next to each input, in input order. */
    var feedback: seq<Feedback>
    /** The total price line; `None` when it is empty. */
    var total: Option<int>
    var submitEnabled: bool
    var formVisible: bool
    var orderMsg: OrderMsg
    var orderSucceeded: bool
    /** The browser went back to the home page. */
    var navigated: bool

    /**
     * The total and the submit button agree with the form: while the form
     * is visible they are what `updateTotalAndButton` computes for it, and
     * otherwise the total is empty and submit is disabled; a successful
     * order has hidden the form.
     */
    predicate Consistent()
      reads this
    {
      && (formVisible ==> content.FormShown? && !orderSucceeded)
      && (formVisible ==>
            feedback == FormFeedback(form)
            && Pricing(total, submitEnabled) == PricingOf(form, content.car.pricePerDay))
      && (!formVisible ==> total.None? && !submitEnabled)
    }

    constructor(store: Store)
      ensures this.store == store
      ensures content == Blank && lastClickedCar.None? && reservationFormData == EmptyDraft
      ensures form == EmptyDraft && feedback == [] && !formVisible
      ensures orderMsg == NoOrderMsg && !orderSucceeded && !navigated
      ensures Consistent()
    {
      this.store := store;
      lastClickedCar := None;
      reservationFormData := EmptyDraft;
      content := Blank;
      form := EmptyDraft;
      feedback := [];
      total := None;
      submitEnabled := false;
      formVisible := false;
      orderMsg := NoOrderMsg;
      orderSucceeded := false;
      navigated := false;
    }

    /**
     * `renderReservationPage`: read the remembered car; without one, ask for
     * a selection; otherwise a failed fetch is reported and a fetched list
     * goes to `renderReservationCarDetail`.
     */
    method Enter(fetched: Option<seq<Car>>)
      requires content == Blank && !formVisible && !orderSucceeded && Consistent()
      modifies this
      ensures lastClickedCar == StoredCar(store.items)
      ensures content == PageContent(lastClickedCar, fetched)
      ensures formVisible <==> content.FormShown?
      ensures content.FormShown? ==>
        reservationFormData == StoredDraft(store.items).GetOr(EmptyDraft) && form == reservationFormData
      ensures !content.FormShown? ==>
        reservationFormData == old(reservationFormData) && form == old(form) && feedback == old(feedback)
      ensures orderMsg == old(orderMsg) && orderSucceeded == old(orderSucceeded) && navigated == old(navigated)
      ensures Consistent()
    {
      lastClickedCar := StoredCar(store.items);
      if lastClickedCar.None? {
        content := SelectFirstReminder;
        return;
      }
      if fetched.None? {
        content := LoadFailedReminder;
        return;
      }
      RenderCarDetail(fetched.value);
    }

    /**
     * `renderReservationCarDetail`: the remembered vin is looked up in the
     * fetched list; for an available car the form is shown, prefilled from
     * the stored draft (empty fields where there is none), with its total
     * and button.
     */
    method RenderCarDetail(data: seq<Car>)
      requires lastClickedCar.Some? && content == Blank && !formVisible && !orderSucceeded && Consistent()
      modifies this
      ensures content == PageContent(lastClickedCar, Some(data))
      ensures formVisible <==> content.FormShown?
      ensures content.FormShown? ==>
        reservationFormData == StoredDraft(store.items).GetOr(EmptyDraft) && form == reservationFormData
      ensures !content.FormShown? ==>
        reservationFormData == old(reservationFormData) && form == old(form) && feedback == old(feedback)
      ensures lastClickedCar == old(lastClickedCar)
      ensures orderMsg == old(orderMsg) && orderSucceeded == old(orderSucceeded) && navigated == old(navigated)
      ensures Consistent()
    {
      var car := FindByVin(data, lastClickedCar.value.vin);
      if car.None? {
        content := NotFoundReminder;
        return;
      }
      if !car.value.available {
        content := UnavailableReminder(car.value);
        return;
      }
      ShowForm(car.value);
    }

    /**
     * The form part of `renderReservationCarDetail`: prefilled from the
     * stored draft, or empty without one, followed by the first
     * `updateTotalAndButton`.
     */
    method ShowForm(car: Car)
      requires !orderSucceeded
      modifies this
      ensures content == FormShown(car) && formVisible
      ensures reservationFormData == StoredDraft(store.items).GetOr(EmptyDraft) && form == reservationFormData
      ensures lastClickedCar == old(lastClickedCar)
      ensures orderMsg == old(orderMsg) && orderSucceeded == old(orderSucceeded) && navigated == old(navigated)
      ensures Consistent()
    {
      reservationFormData := StoredDraft(store.items).GetOr(EmptyDraft);
      form := reservationFormData;
      content := FormShown(car);
      formVisible := true;
      UpdateTotalAndButton();
    }

    /**
     * `updateTotalAndButton`: runs the validator over the inputs; on a valid
     * form shows `parseInt(days) * price_per_day` and enables submit,
     * otherwise clears the total and disables submit.
     */
    method UpdateTotalAndButton()
      requires content.FormShown?
      modifies this
      ensures content == old(content) && form == old(form) && formVisible == old(formVisible)
      ensures feedback == FormFeedback(form)
      ensures Pricing(total, submitEnabled) == PricingOf(form, content.car.pricePerDay)
      ensures lastClickedCar == old(lastClickedCar) && reservationFormData == old(reservationFormData)
      ensures orderMsg == old(orderMsg) && orderSucceeded == old(orderSucceeded) && navigated == old(navigated)
    {
      var valid, fb := ValidateReservationForm(Inputs(form));
      ValidatorOnForm(form, valid, fb);
      feedback := fb;
      if valid {
        assert FormFeedback(form)[5] == NoFeedback;
        DaysRule(form.days);
        ParseIntIsWholePart(form.days);
        var days := ParseInt(form.days).value;
        total := Some(days * content.car.pricePerDay);
        submitEnabled := true;
      } else {
        total := None;
        submitEnabled := false;
      }
    }

    /** An input or change event: recompute the total and button, then save the draft. */
    method Edit(d: Draft)
      requires content.FormShown? && formVisible && Consistent()
      modifies this, store
      ensures form == d
      ensures store.items == old(store.items)[ReservationFormDataKey := Encode(DraftForm(d))]
      ensures StoredDraft(store.items) == Some(d)
      ensures content == old(content) && formVisible
      ensures lastClickedCar == old(lastClickedCar) && reservationFormData == old(reservationFormData)
      ensures orderMsg == old(orderMsg) && orderSucceeded == old(orderSucceeded) && navigated == old(navigated)
      ensures Consistent()
    {
      form := d;
      UpdateTotalAndButton();
      store.SaveReservationFormData(d);
    }

    /** The cancel button: the draft is dropped and the browser goes home. */
    method Cancel()
      requires content.FormShown? && formVisible && Consistent()
      modifies this, store
      ensures store.items == old(store.items) - {ReservationFormDataKey}
      ensures StoredDraft(store.items).None?
      ensures navigated
      ensures form == old(form) && content == old(content) && formVisible
      ensures feedback == old(feedback) && total == old(total) && submitEnabled == old(submitEnabled)
      ensures lastClickedCar == old(lastClickedCar) && reservationFormData == old(reservationFormData)
      ensures orderMsg == old(orderMsg) && orderSucceeded == old(orderSucceeded)
      ensures Consistent()
    {
      store.RemoveItem(ReservationFormDataKey);
      RemoveThenLoad(old(store.items), ReservationFormDataKey);
      navigated := true;
    }

    /**
     * The submit event: re-validate, and stop on an invalid form; then a
     * failed fetch reports that the data cannot be reached, and a fetched
     * list goes to `handleOrderSubmission`.
     */
    method Submit(fetched: Option<seq<Car>>)
      requires content.FormShown? && formVisible && Consistent()
      modifies this, store
      ensures feedback == FormFeedback(form) && form == old(form) && content == old(content)
      ensures !FormValid(form) || fetched.None? ==>
        store.items == old(store.items) && formVisible && !orderSucceeded
      ensures FormValid(form) && fetched.None? ==> orderMsg == CannotAccessData
      ensures !FormValid(form) ==> orderMsg == old(orderMsg)
      ensures FormValid(form) && fetched.Some? ==>
        if OrderAccepted(fetched.value, content.car.vin) then
          store.items == AfterOrder(old(store.items), fetched.value, content.car.vin)
          && !formVisible && orderSucceeded && orderMsg == old(orderMsg)
        else
          store.items == old(store.items) && formVisible && orderMsg == NoLongerAvailable
          && !orderSucceeded
      ensures lastClickedCar == old(lastClickedCar) && reservationFormData == old(reservationFormData)
      ensures navigated == old(navigated)
      ensures Consistent()
    {
      var valid, fb := ValidateReservationForm(Inputs(form));
      ValidatorOnForm(form, valid, fb);
      feedback := fb;
      if !valid {
        return;
      }
      if fetched.None? {
        orderMsg := CannotAccessData;
        return;
      }
      HandleOrderSubmission(fetched.value);
    }

    /**
     * `handleOrderSubmission`: a car missing from `data` or unavailable there
     * fails the order and changes nothing else; otherwise the draft is
     * removed, the form hidden, the total cleared, submit disabled, and the
     * snapshot with that vin marked unavailable is stored.
     */
    method HandleOrderSubmission(data: seq<Car>)
      requires content.FormShown? && formVisible && !orderSucceeded
      modifies this, store
      ensures content == old(content) && form == old(form) && feedback == old(feedback)
      ensures !OrderAccepted(data, content.car.vin) ==>
        && store.items == old(store.items)
        && orderMsg == NoLongerAvailable
        && formVisible && total == old(total) && submitEnabled == old(submitEnabled)
        && !orderSucceeded
      ensures OrderAccepted(data, content.car.vin) ==>
        && store.items == AfterOrder(old(store.items), data, content.car.vin)
        && !formVisible && total.None? && !submitEnabled
        && orderSucceeded && orderMsg == old(orderMsg)
      ensures lastClickedCar == old(lastClickedCar) && reservationFormData == old(reservationFormData)
      ensures navigated == old(navigated)
    {
      var carData := FindByVin(data, content.car.vin);
      if carData.None? || !carData.value.available {
        orderMsg := NoLongerAvailable;
        return;
      }
      PlaceOrder(data);
    }

    /**
     * The success path of `handleOrderSubmission`: the draft is removed,
     * the form hidden, the total cleared, submit disabled, and the snapshot
     * with the ordered vin marked unavailable is stored.
     */
    method PlaceOrder(data: seq<Car>)
      requires content.FormShown?
      modifies this, store
      ensures content == old(content) && form == old(form) && feedback == old(feedback)
      ensures store.items == AfterOrder(old(store.items), data, content.car.vin)
      ensures !formVisible && total.None? && !submitEnabled && orderSucceeded
      ensures orderMsg == old(orderMsg) && navigated == old(navigated)
      ensures lastClickedCar == old(lastClickedCar) && reservationFormData == old(reservationFormData)
    {
      store.RemoveItem(ReservationFormDataKey);
      formVisible := false;
      total := None;
      submitEnabled := false;
      var updatedCars := MarkUnavailable(data, content.car.vin);
      store.SetItem(CarsDataKey, Encode(CarList(updatedCars)));
      orderSucceeded := true;
    }
  }

  // ---------- across the two pages ----------

  /**
   * After a successful order the stored snapshot is the fetched list with
   * the vin marked unavailable, the draft is gone, and the remembered car
   * is untouched.
   */
  lemma OrderSnapshot(items: map<string, string>, data: seq<Car>, vin: string)
    ensures StoredCatalog(AfterOrder(items, data, vin)) == Some(MarkUnavailable(data, vin))
    ensures StoredDraft(AfterOrder(items, data, vin)).None?
    ensures StoredCar(AfterOrder(items, data, vin)) == StoredCar(items)
  {
    var after := AfterOrder(items, data, vin);
    SaveThenLoad(items - {ReservationFormDataKey}, CarsDataKey, CarList(MarkUnavailable(data, vin)));
    assert ReservationFormDataKey !in after;
    assert LastClickedCarKey in after <==> LastClickedCarKey in items;
    assert LastClickedCarKey in items ==> after[LastClickedCarKey] == items[LastClickedCarKey];
  }

  /**
   * Right after an order, the home page, whatever `cars.json` then says,
   * shows the ordered car unavailable (so its rent button does nothing),
   * and shows every other vin as the order's fetched list had it.
   */
  lemma OrderedCarShownUnavailable(items: map<string, string>, data: seq<Car>, vin: string,
                                   fetched: seq<Car>, other: string)
    ensures var cars := CatalogData(fetched, AfterOrder(items, data, vin));
      && !OrderAccepted(cars, vin)
      && (other != vin ==> FindByVin(cars, other) == FindByVin(data, other))
  {
    OrderSnapshot(items, data, vin);
    FindAfterMarkUnavailable(data, vin, other);
  }

  /**
   * A later order forgets an earlier one: each order rebuilds the snapshot
   * from its own fetch of `cars.json`, not from the stored snapshot, so
   * after ordering `first` and then `second` against the same list, the
   * home page offers `first` again.
   */
  lemma LaterOrderForgetsEarlierOrder(items: map<string, string>, data: seq<Car>,
                                      first: string, second: string, fetched: seq<Car>)
    requires first != second && OrderAccepted(data, first)
    ensures OrderAccepted(CatalogData(fetched, AfterOrder(AfterOrder(items, data, first), data, second)), first)
  {
    OrderSnapshot(AfterOrder(items, data, first), data, second);
    FindAfterMarkUnavailable(data, second, first);
  }

  /**
   * A rent click saved an available car of the list, and the reservation
   * page fetches the same list: the page shows the form for that car.
   */
  lemma RentedCarShowsForm(items: map<string, string>, cars: seq<Car>, vin: string)
    requires OrderAccepted(cars, vin)
    ensures var saved := items[LastClickedCarKey := Encode(SelectedCar(FindByVin(cars, vin).value))];
      PageContent(StoredCar(saved), Some(cars)) == FormShown(FindByVin(cars, vin).value)
  {
    var car := FindByVin(cars, vin).value;
    SaveThenLoad(items, LastClickedCarKey, SelectedCar(car));
  }
}
