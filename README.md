# Go Car rental pages, modelled in Dafny

This project models the browser logic of the Go Car rental site
(`car_rental/static/js/main.js`). Two pages share the browser's `localStorage`.

The **home page**:

- loads the catalog from `data/cars.json`;
- replaces it with a stored snapshot when one exists;
- fills the type and brand filters;
- filters the grid by keyword, type and brand;
- suggests up to five search terms while the user types;
- on a rent click, remembers the chosen car, but only when that car is
  available.

The **reservation page**:

- reads the remembered car and fetches the catalog again;
- shows the form only when that car is still in the catalog and
  available;
- prefills the form from a saved draft;
- validates every input on every change, shows the total price and enables
  submit when the form is valid, and saves the draft;
- on cancel, drops the draft;
- on submit, checks availability against the freshly fetched list. After a
  successful order it stores a catalog snapshot with the car marked
  unavailable, and it removes the draft.

Layout:

- `wrappers.dfy`: `Option`.
- `text.dfy`: JavaScript `trim`, lower-casing, `includes` and decimal
  digits.
- `records.dfy`: the car and draft records, lookup by vin, and the
  snapshot rebuild.
- `catalog.dfy`: the filter, the filter options and the suggestion builder.
- `reservation_form.dfy`: the field rules, the validator loop and the
  pricing rule.
- `codec.dfy`: a textual encoding of the stored values, used in place of
  JSON, with its round trip proved.
- `storage.dfy`: `localStorage` as a class over a string map, plus the
  typed save and get helpers.
- `pages.dfy`: the two pages as classes holding the page globals, and
  facts that span both pages.

The fetch of `cars.json` is a parameter `Option<seq<Car>>`. It is `None`
when both the relative and the absolute path failed.

Two behaviours of the code differ from what the page's markup suggests. In
both, the model follows the code:

- **The days field.** The markup declares
  `<input type="number" name="days" min="1">` (main.js:251), which asks for
  a whole number of days from 1. The validator only tests
  `isNaN(value) || value < 1` (main.js:285), so `"2.5"` passes it. The live
  total then uses `parseInt`, which reads 2 days, and submit is enabled
  (`ReservationForm.FractionalDaysAreTruncated`). Such an order is not
  placed in a browser: the `number` input's own constraint check (a step
  mismatch for `min="1"` with the default step 1) blocks the `submit`
  event. The model does not include the browser's constraint checks (see
  "Left out").
- **Which list the reservation page checks.** It checks the freshly fetched
  `cars.json` (main.js:329-340), never the stored snapshot. Only the home
  page reads the snapshot (main.js:379-382). So right after an order, the
  home page shows the car unavailable (`Pages.OrderedCarShownUnavailable`).
  The reservation page still accepts the remembered car for as long as
  `cars.json` lists it as available. Each order also rebuilds the snapshot
  from its own fetch of `cars.json` (main.js:359-360). A later order of
  another car therefore writes the first car back as `cars.json` has it,
  and the home page offers it again (`Pages.LaterOrderForgetsEarlierOrder`).

## Model

| member | source | states |
|---|---|---|
| Text.Trim | car_rental/static/js/main.js:270 | `trim()` is no longer than the value, and it is empty (falsy) exactly when the value is all whitespace. |
| Text.TrimEmptyIffBlank | car_rental/static/js/main.js:270-273 | Trimming both ends leaves nothing exactly when every character is whitespace, which is when `!value` holds. |
| Text.TrimStartIsSuffix | car_rental/static/js/main.js:270 | The left-trimmed value is a suffix of the input, everything dropped is whitespace, and it does not start with whitespace. |
| Text.TrimEndIsPrefix | car_rental/static/js/main.js:270 | The right-trimmed value is a prefix of the input, everything dropped is whitespace, and it does not end with whitespace. |
| Text.TrimIsInnerSlice | car_rental/static/js/main.js:270 | `trim()` returns a contiguous slice of the input. Everything outside the slice is whitespace, and the slice neither starts nor ends with whitespace. |
| Text.ToLower | car_rental/static/js/main.js:94 | `toLowerCase()` keeps the length, turns each ASCII capital into its small letter, and keeps every other character. |
| Text.ToLowerIgnoresCase | car_rental/static/js/main.js:94-102 | Strings that differ only in the case of ASCII letters lower-case to the same string, so the keyword and suggestion tests ignore that case. |
| Text.Includes | car_rental/static/js/main.js:99-102 | `includes` holds for the empty string in every string, and only for pieces no longer than the string. |
| Text.DigitRun | car_rental/static/js/main.js:299 | The leading run of digits that `parseInt` reads. It stops at the first non-digit or at the end. |
| Text.DigitRunStopsInPrefix | car_rental/static/js/main.js:299 | Text after a non-digit does not change the leading digit run. |
| Text.DigitRunOfDigits | car_rental/static/js/main.js:299 | A string of digits followed by nothing or by a non-digit has the whole string as its run. |
| Text.DigitsValuePositive | car_rental/static/js/main.js:285 | A digit string has value at least 1 exactly when one of its digits is not `0`. |
| Text.ShowNat | car_rental/static/js/main.js:32 | The decimal text of a number is non-empty, made of digits, and reads back as the same number. |
| Records.FindByVin | car_rental/static/js/main.js:150 | `find` by vin returns `None` exactly when no car has the vin. Otherwise it returns a car of the list carrying that vin. |
| Records.FindByVinIsFirst | car_rental/static/js/main.js:150 | The car found is the first one carrying the vin. |
| Records.MarkUnavailable | car_rental/static/js/main.js:359 | The snapshot has the same length and order as the list. Cars with the vin become unavailable with every other field kept; all other cars are unchanged. |
| Records.FindAfterMarkUnavailable | car_rental/static/js/main.js:351-360 | In the snapshot, the ordered vin is found as the same car but unavailable. A vin that was missing stays missing, and any other vin finds what it found before. |
| Codec.StringRoundTrip | car_rental/static/js/main.js:32 | Reading back a written string, whatever follows it, gives the string and leaves exactly the following text. |
| Codec.IntRoundTrip | car_rental/static/js/main.js:32 | Reading back a written integer, of either sign, gives the same integer and the following text. |
| Codec.BoolRoundTrip | car_rental/static/js/main.js:32 | Reading back a written flag gives the same flag and the following text. |
| Codec.StringsRoundTrip | car_rental/static/js/main.js:32 | Several written strings read back as the same strings, in order, followed by the following text. |
| Codec.CarRoundTrip | car_rental/static/js/main.js:32 | A written car record reads back field for field. |
| Codec.CarsRoundTrip | car_rental/static/js/main.js:360 | A written car list reads back as the same list, in order. |
| Codec.DraftRoundTrip | car_rental/static/js/main.js:43 | A written draft reads back field for field. |
| Codec.Encode | car_rental/static/js/main.js:32 | A stored value is written as a non-empty text whose first character tells a car, a car list and a draft apart. |
| Codec.Decode | car_rental/static/js/main.js:38 | Parsing succeeds only on a non-empty text, and the kind of value it yields is the one its first character names. |
| Codec.DecodeEncode | car_rental/static/js/main.js:31-50 | Every stored value is written as a non-empty (truthy) string, and parsing it gives back the value. |
| Catalog.SelectCount | car_rental/static/js/main.js:97-107 | The filter keeps each matching car as many times as it occurs and drops every other car. |
| Catalog.SelectIsSubsequence | car_rental/static/js/main.js:97-107 | The filter result is a subsequence of the catalog, so catalog order is kept. |
| Catalog.SelectIsOrderedSelection | car_rental/static/js/main.js:97-107 | For a given keyword, `filter` keeps the cars that pass the three tests, in catalog order, each as often as it occurs, and no other car. |
| Catalog.FilterCars | car_rental/static/js/main.js:93-107 | The filter returns exactly the cars, in catalog order and with multiplicity, that pass the keyword test on the lower-cased search text and the exact type and brand tests, where empty means any. |
| Catalog.Distinct | car_rental/static/js/main.js:86 | `[...new Set(xs)]` holds exactly the strings of `xs`, each once. |
| Catalog.DistinctKeepsFirstOccurrenceOrder | car_rental/static/js/main.js:86 | `[...new Set(xs)]` lists the strings in the order of their first occurrence in `xs`. |
| Catalog.PopulateFilters | car_rental/static/js/main.js:85-87 | The type (brand) options are exactly the types (brands) some car has, with no duplicates. |
| Catalog.PopulateFiltersOrder | car_rental/static/js/main.js:86-87 | The options follow first-occurrence order over the catalog. |
| Catalog.MatchingFields | car_rental/static/js/main.js:119 | The fields kept are exactly those whose lower-cased form contains the input. |
| Catalog.Suggestions | car_rental/static/js/main.js:114-124 | Nothing for an empty lower-cased input. Otherwise the suggestion list is the fields whose lower-cased form contains the input, with repeats dropped, as `[...new Set(...)]` would give. |
| Catalog.Shown | car_rental/static/js/main.js:127 | `slice(0, 5)` is a prefix of the suggestions, at most 5 long, and shorter only when the suggestions run out. |
| Catalog.SuggestStep | car_rental/static/js/main.js:119-120 | One step of the inner loop pushes a field exactly when it matches and is not yet listed, and keeps the list equal to the distinct matches seen so far. |
| Catalog.PushMatches | car_rental/static/js/main.js:118-122 | The inner loop over one car's fields leaves the list the pushes over all fields visited so far would build. |
| Catalog.CollectIsDistinctMatches | car_rental/static/js/main.js:117-123 | The pushes over all the fields build the distinct matching fields, in first-occurrence order. |
| Catalog.BuildSuggestions | car_rental/static/js/main.js:113-130 | The nested loop builds exactly the suggestion list. At most 5 are displayed, and the list is visible iff a suggestion exists. |
| Catalog.FieldsAreCarFields | car_rental/static/js/main.js:117-118 | A string is visited exactly when it is the type, brand or model of some car. |
| Catalog.MatchingFieldsKeepsOrder | car_rental/static/js/main.js:117-123 | Among the matching fields, distinct strings keep the order of their first occurrence in the visit order. |
| Catalog.SuggestionsAreOrderedMatches | car_rental/static/js/main.js:114-123 | No suggestions for empty input. Otherwise a string is suggested iff it is some car's type, brand or model and its lower-cased form contains the lower-cased input. There are no repeats, in first-occurrence order over cars, then type, brand, model. |
| ReservationForm.EmailPatternIsEmailShape | car_rental/static/js/main.js:276 | The email pattern holds iff the value has exactly one `@`, something before it, and after it a `.` that is neither the first nor the last character of the domain. |
| ReservationForm.SplitHasShape | car_rental/static/js/main.js:276 | A split the pattern accepts has that shape. |
| ReservationForm.ShapeHasSplit | car_rental/static/js/main.js:276 | A value of that shape has a split the pattern accepts. |
| ReservationForm.DaysPassIff | car_rental/static/js/main.js:285 | The days rule passes iff the value is digits with an optional fraction and its integer part has a non-zero digit. |
| ReservationForm.ParseInt | car_rental/static/js/main.js:299 | `parseInt(value, 10)` yields a number exactly when the value, after leading whitespace, starts with a digit; otherwise `NaN`. |
| ReservationForm.ParseIntIsWholePart | car_rental/static/js/main.js:299 | On a days value the rule accepts, `parseInt` of the raw input is the integer part of the trimmed value. |
| ReservationForm.Check | car_rental/static/js/main.js:270-288 | An input gets Required exactly when its value is all whitespace. Each of the other messages appears only on its own input: Invalid email on the email, Invalid phone on the phone, Invalid license on the license and Invalid days on the days. |
| ReservationForm.AllClearAppend | car_rental/static/js/main.js:272-275 | One more input keeps the form clear iff the form was clear and that input has no feedback. |
| ReservationForm.ValidateReservationForm | car_rental/static/js/main.js:266-292 | Each input gets the feedback of its first failing rule on the trimmed value. The result is true iff no input has feedback. |
| ReservationForm.EmailRule | car_rental/static/js/main.js:273-278 | Email gets Required when empty, else Invalid email unless it has the one-`@`, dotted-domain shape, else no feedback. |
| ReservationForm.FormValidByInput | car_rental/static/js/main.js:268-291 | The form is valid exactly when each of the six inputs, checked alone, has no feedback. |
| ReservationForm.FormValidIff | car_rental/static/js/main.js:266-291 | The form is valid iff every trimmed field is non-empty, the email has the shape above, the phone is at least 8 digits, the license has at least 5 characters and the days value is numeric with integer part at least 1. |
| ReservationForm.PricingOf | car_rental/static/js/main.js:297-306 | Submit is enabled iff the form is valid. The total is shown iff submit is enabled, and it equals the integer part of the days times the price per day. |
| ReservationForm.FractionalDaysAreTruncated | car_rental/static/js/main.js:285 | `"2.5"` passes the days rule, and `parseInt` reads it as 2. |
| Storage.Load | car_rental/static/js/main.js:37-38 | A getter yields a value only for a present key, and the value is the decoding of its text. An absent key yields nothing. |
| Storage.StoredCar | car_rental/static/js/main.js:36-39 | `getLastClickedCar` returns a car exactly when the key holds an encoded car. |
| Storage.StoredDraft | car_rental/static/js/main.js:47-50 | `getReservationFormData` returns a draft exactly when the key holds an encoded draft. |
| Storage.StoredCatalog | car_rental/static/js/main.js:379-381 | The stored snapshot is read exactly when the key holds an encoded car list. |
| Storage.SaveThenLoad | car_rental/static/js/main.js:31-50 | A get after a save on the same key returns the saved value. |
| Storage.RemoveThenLoad | car_rental/static/js/main.js:319 | After the draft key is removed, the getter returns nothing. |
| Storage.Store.SetItem | car_rental/static/js/main.js:32 | `localStorage.setItem` maps the key to the text and leaves every other key as it was. |
| Storage.Store.GetItem | car_rental/static/js/main.js:37 | `localStorage.getItem` returns the text of a present key, and nothing for an absent key. |
| Storage.Store.RemoveItem | car_rental/static/js/main.js:319 | `localStorage.removeItem` drops the key and leaves every other key as it was. |
| Storage.Store.SaveLastClickedCar | car_rental/static/js/main.js:31-33 | Only the `lastClickedCar` key changes, and the getter then returns the car. |
| Storage.Store.SaveReservationFormData | car_rental/static/js/main.js:42-44 | Only the `reservationFormData` key changes, and the getter then returns the draft. |
| Pages.CatalogData | car_rental/static/js/main.js:379-382 | A stored snapshot replaces the fetched list; without one the fetched list stays. |
| Pages.CatalogPage.Load | car_rental/static/js/main.js:373-384 | A failed fetch only shows the failure notice. Otherwise `carsData` is settled and the filters are filled from it. |
| Pages.CatalogPage.Grid | car_rental/static/js/main.js:93-108 | The grid shows a subsequence of `carsData`: exactly the cars that match the search and filters, each as often as it occurs in `carsData`. |
| Pages.CatalogPage.RentClick | car_rental/static/js/main.js:148-154 | The car is saved, and the page navigates, only when the vin is found and that car is available. Otherwise storage is unchanged. |
| Pages.PageContent | car_rental/static/js/main.js:170-219 | Each outcome holds exactly in its own case. The page asks for a selection iff no car is remembered. It reports a failed fetch iff a car is remembered and the fetch failed. It says "not found" iff the vin is missing from the fetched list. It shows the unavailable reminder iff the car found is unavailable, and the form iff it is available. |
| Pages.ReservationPage.Enter | car_rental/static/js/main.js:170-193 | The remembered car is read from storage, and the page shows what `PageContent` decides. The form is prefilled from the stored draft only when it appears; on every other outcome the draft, form and feedback are unchanged. The invariant holds. |
| Pages.ReservationPage.RenderCarDetail | car_rental/static/js/main.js:195-219 | A missing vin gives "not found", an unavailable car its reminder, and an available car the form, as `PageContent` decides. Only the form outcome sets the draft, form and feedback. |
| Pages.ReservationPage.ShowForm | car_rental/static/js/main.js:221-262 | The form is shown for the car, prefilled from the stored draft or empty without one, and its total and button are computed. |
| Pages.ReservationPage.UpdateTotalAndButton | car_rental/static/js/main.js:297-307 | The feedback is the form's, and the total and button are what `PricingOf` gives for the form and the car's price. |
| Pages.ReservationPage.Edit | car_rental/static/js/main.js:308-314 | The form takes the new values, total and button are recomputed, and exactly the draft key is rewritten with them. The remembered car, the prefill draft, the order state and navigation are unchanged. |
| Pages.ReservationPage.Cancel | car_rental/static/js/main.js:318-321 | Exactly the draft key is removed, and the page navigates home. The form, its feedback, total, button and order state are unchanged, and the invariant holds. |
| Pages.ReservationPage.Submit | car_rental/static/js/main.js:324-341 | An invalid form stops with storage and message unchanged. A failed fetch reports that the data cannot be reached. Otherwise the outcome is the order rule on the fetched list, and a successful order leaves the message as it was. The page never navigates. |
| Pages.ReservationPage.HandleOrderSubmission | car_rental/static/js/main.js:344-369 | A missing or unavailable car fails the order with storage and form unchanged. Otherwise the draft is removed, the snapshot is stored, the form is hidden, the total cleared and submit disabled. The page never navigates. |
| Pages.ReservationPage.PlaceOrder | car_rental/static/js/main.js:351-360 | The success path: exactly the draft key is removed and the snapshot with the vin marked unavailable is written, the form is hidden, the total cleared, submit disabled, and nothing else changes. |
| Pages.OrderSnapshot | car_rental/static/js/main.js:353-360 | After an order, the stored catalog is the fetched list with the vin marked unavailable, the draft is gone, and the remembered car is unchanged. |
| Pages.OrderedCarShownUnavailable | car_rental/static/js/main.js:359-360 | Right after an order, whatever `cars.json` then says, the home page's catalog does not accept that vin, and every other vin is looked up as in the order's fetched list. |
| Pages.LaterOrderForgetsEarlierOrder | car_rental/static/js/main.js:359-360 | Two orders of different cars against the same fetched list: after the second, the home page's catalog accepts the first car again, because the snapshot is rebuilt from the fetched list. |
| Pages.RentedCarShowsForm | car_rental/static/js/main.js:150-152 | A car saved by a rent click, against the same fetched list, makes the reservation page show the form for that car. |

## Left out

- Fetching `data/cars.json` and its fallback from the relative to the absolute path are left out. The fetch is network I/O, so a fetch result is a parameter that is `None` when both attempts failed.
- HTML rendering, jQuery DOM updates, event wiring, the 200 ms blur timer, `window.location` and `console.error` are left out. They are presentation and browser plumbing. Navigation is a `navigated` flag.
- Clicking a suggestion only fills the search box and reruns the filter, which `Catalog.FilterCars` models. The click itself is not modelled.
- The `mileage`, `fuelType` and `image` fields of a car are left out. They are only displayed.
- JSON is replaced by a self-delimiting text encoding with a proved round trip. The exact JSON text is not modelled.
- Storage.Load: a stored text that fails to parse is read as absent, where `JSON.parse` would throw and stop the handler. A snapshot or remembered value of the wrong shape is also read as absent.
- Text.ToLower: only ASCII letters are lower-cased. Unicode case mapping is not modelled.
- ReservationForm.LicenseRule: the length is counted in characters, not in UTF-16 code units.
- ReservationForm.DaysPass: `Number(value)` is modelled only on digits with an optional `.` fraction. Signs, exponents, hexadecimal, `Infinity` and floating-point rounding of very long fractions are not modelled, so some strings JavaScript accepts as numbers are rejected here.
- ReservationForm.ParseInt: leading whitespace and a run of decimal digits only. Signs and radix prefixes are not modelled.
- Prices are integers, so `days * price_per_day` is exact. Floating-point prices are not modelled. JavaScript numbers are doubles, so `parseInt` and the product round once a day count exceeds 2^53; that rounding is not modelled.
- Pages.ReservationPage.Submit: the browser's HTML constraint validation (`required`, `type="email"`, `type="number" min="1"`, main.js:226-251) is not modelled. In a browser it blocks the `submit` event for forms the script's validator accepts, such as days `"2.5"` or emails `"a b@c.d"` and `"a@b..c"`; the model places the order for those. The fetch is also treated as atomic, so a submit happens only while the form is shown. In a browser, a second click while the fetch is pending runs `handleOrderSubmission` again. With `cars.json` unchanged that second run succeeds too, and the check for an existing success message (main.js:362) keeps the message single.
- Pages.CatalogPage.RentClick: the vin is compared as a string. jQuery's `.data('vin')` would turn a numeric-looking vin into a number, and the strict comparison would then fail; that is not modelled.
- Pages.ReservationPage.RenderCarDetail: values are prefilled as given. The HTML attribute escaping of prefilled values is not modelled.
- The success message element and its duplicate check are left out. They are presentation; `orderSucceeded` records the success.
- Concurrent pages writing the same storage (several tabs) are left out. The code does nothing to coordinate them.
