# TravelBuddy pricing and booking validation, in Dafny

This project models the business rules of the TravelBuddy site script
(`assignment6/script.js`): the final price of each catalogue package, the live price
estimate of the booking form, and the booking form's validation. Everything else in the
script builds DOM elements, wires events or toggles CSS classes. The model leaves it out.

Modules:

- `JsText` (`js_text.dfy`) holds the JavaScript built-ins the rules depend on.
  - `trim()` with the exact ECMAScript whitespace and line-terminator set.
  - `.length`, counted in UTF-16 code units.
  - `toLowerCase` / `toUpperCase`, as far as they can make a string equal to an ASCII key.
  - `/word/i.test`, for a word of plain letters.
  - `Math.round`.
  - `String(n)` and `toFixed(2)` for non-negative values, each with a reader that recovers the value.
  - The estimate box text has a reader too, which recovers the total in cents and the night count.
- `Wrappers` (`wrappers.dfy`) is an `Option` type; `None` stands for an element missing from the page.
- `Packages` (`packages.dfy`) covers the catalogue and `computeFinalPrice`. It has a season
  multiplier, a 5% "weekend" surcharge for trips of six days or more, and rounding to
  cents. The table body is a class whose method appends one priced row per package.
- `BookingEstimate` (`booking_estimate.dfy`) covers `getSelectedBasePrice` with its label
  table and its destination order. It also has the night count, the guest surcharge,
  the promo table, the total in cents, and the estimate box text.
- `BookingValidation` (`booking_validation.dfy`) covers the four checks and the verdict.
  It also says which fields get a red border and what `toggleInvalid` leaves behind.
- `BookingPage` (`booking_page.dfy`) is the page state that the handlers write.
  - The state is the estimate text, the submit button's disabled flag and the field borders.
  - `updateEstimate` is a method that recomputes the total step by step, as the script does.
  - `validateFormAndToggleSubmit` and `toggleInvalid` are methods on the same state.
  - Each method is proved against the functions above.
  - The module also holds the worked examples.

Representation choices:

- Money is an exact Dafny `real`; every total is then given in whole cents.
- `Math.round(x * 100)` is `floor(100x + 1/2)`.
- A date field is empty, unparsable (a NaN time), or a time in milliseconds.
  The night count is `floor((checkOut - checkIn) / 86400000)`, clamped at 0.
- The guest count is the result of `Number(...)`: NaN or a real.
- E-mail validity (`checkValidity()`) is an opaque boolean.

Three details of the code:

- The promo code is trimmed as well as upper-cased before the lookup.
- Check-in is marked invalid only when it is empty. A value that does not parse is not
  marked. Check-out is marked when it is empty or when there is no whole night.
- The guest surcharge applies to any number above 2, such as 2.5, not only to whole counts.

## Model

| member | source | states |
|---|---|---|
| `Packages.SeasonMultiplier` | assignment6/script.js:84-90 | 1.25, 1.10 or 0.90 exactly when the lower-cased season is "peak", "shoulder" or "off"; exactly 1.0 for any other season and for a missing one |
| `Packages.SeasonIgnoresCase` | assignment6/script.js:85-90 | an ASCII season gets 1.25, 1.10 or 0.90 exactly when it equals "peak", "shoulder" or "off" ignoring ASCII case |
| `Packages.SeasonExamples` | assignment6/script.js:85-90 | "PEAK" gets 1.25, "Off" 0.90, "PEA" followed by the Kelvin sign 1.25, and a missing season 1.0 |
| `Packages.WeekendSurcharge` | assignment6/script.js:92-93 | the surcharge is 5% if and only if the trip lasts 6 days or more, and 0 otherwise |
| `Packages.FinalPriceCents` | assignment6/script.js:94-95 | the price in cents is the integer within half a cent of base × multiplier × (1 + surcharge), halves rounded up |
| `Packages.LongerTripNeverCheaper` | assignment6/script.js:92-95 | with the same season and a base price no lower, a longer trip never gets a lower final price |
| `Packages.CatalogFinalPrices` | assignment6/script.js:41-46 | the four catalogue packages cost 1575.00, 1650.00, 1039.50 and 2231.25 (Tokyo, 1700, peak, 8 days) |
| `Packages.RowFor` | assignment6/script.js:66-75 | a row carries its package and the integer within half a cent of the package's exact final price |
| `Packages.PackageTable.constructor` | assignment6/script.js:63 | a new table body has no rows |
| `Packages.PackageTable.AppendRows` | assignment6/script.js:65-77 | the rows already there are kept; one row per package is appended, in order, each carrying the package and its final price |
| `Packages.CatalogTable` | assignment6/script.js:41-77 | the packages page's new table body has one row per catalogue package, in catalogue order, priced 1575.00, 1650.00, 1039.50 and 2231.25 |
| `BookingEstimate.FirstMatch` | assignment6/script.js:188-193 | the index returned is the first destination word found in the text, ignoring case; every earlier word is absent; none left means no word matched |
| `BookingEstimate.DestinationRate` | assignment6/script.js:188-193 | the rate is that of the first of bali, paris, dubai, tokyo found in the destination, ignoring case, else the fallback 1000 |
| `BookingEstimate.SelectedBasePrice` | assignment6/script.js:174-194 | a trimmed label from the four-entry table decides the rate; otherwise the destination does; the rate is always one of 1000, 1100, 1200, 1500, 1700 |
| `BookingEstimate.DestinationOrder` | assignment6/script.js:186-193 | without a known label, a destination naming place i, and none of the places before it, gets place i's rate |
| `BookingEstimate.NoDestinationFallsBack` | assignment6/script.js:193 | without a known label or a known place, the rate is 1000 |
| `BookingEstimate.Nights` | assignment6/script.js:217-224 | nights are positive exactly when both dates parse and check-out is at least one day after check-in; otherwise 0 (empty, unparsable or inverted dates); when positive, n is the floor of the difference in days |
| `BookingEstimate.NightsOfDays` | assignment6/script.js:219-222 | for midnight dates the night count is the difference of the day numbers, and 0 when check-out is not later |
| `BookingEstimate.GuestFactor` | assignment6/script.js:230-231 | the multiplier is 1.2 exactly when the guest count is a number above 2, and 1.0 otherwise (also for NaN) |
| `BookingEstimate.NormalizePromo` | assignment6/script.js:214 | the looked-up code is at least as long as the trimmed entry and at most three times as long, and holds no ASCII small letter |
| `BookingEstimate.PromoDiscount` | assignment6/script.js:233-240 | EARLYBIRD gives 0.10, SUMMER 0.05, FALLSALE 0.15; any other code gives 0; the rate is always between 0 and 0.15 |
| `BookingEstimate.PromoIgnoresCase` | assignment6/script.js:214-240 | an ASCII entry gets 0.10, 0.05 or 0.15 exactly when, once trimmed, it equals EARLYBIRD, SUMMER or FALLSALE ignoring ASCII case |
| `BookingEstimate.PromoExamples` | assignment6/script.js:214 | codes match after trimming and upper-casing (" earlybird ", "Summer"); "early bird" gets no discount |
| `BookingEstimate.PreDiscount` | assignment6/script.js:228-231 | the undiscounted total lies between rate × max(1, nights) and 1.2 times that |
| `BookingEstimate.DiscountBounds` | assignment6/script.js:241 | a discount of at most 15% leaves a non-negative total between 85% of itself and itself |
| `BookingEstimate.ExactTotal` | assignment6/script.js:228-241 | the exact total after the discount is at least 85% of the undiscounted total and never above it |
| `BookingEstimate.TotalCents` | assignment6/script.js:226-242 | the total in cents equals the exact total (rate × max(1, nights) × guest factor × (1 − discount)), so rounding never moves it; it is never above the undiscounted total |
| `BookingEstimate.ChargesAtLeastOneNight` | assignment6/script.js:228 | any night count costs at least as much as one night, and 0 nights cost exactly as much as one night |
| `BookingEstimate.NightsLabel` | assignment6/script.js:244 | the night label ends in "s" exactly when there is more than one night |
| `BookingEstimate.NightsReadBack` | assignment6/script.js:244 | the night label followed by ")" reads back as the night count |
| `BookingEstimate.AmountReadsBack` | assignment6/script.js:244 | in toFixed(2) of the total followed by " (", the digits before the point and the two after it read back as the cents |
| `BookingEstimate.FigureText` | assignment6/script.js:244 | the figure text has "$" right after "Estimated total: " |
| `BookingEstimate.FigureReadsBack` | assignment6/script.js:244 | the figure text reads back as exactly the cents and the nights it was made from, so it shows toFixed(2) of the total and the night count |
| `BookingEstimate.EstimateText` | assignment6/script.js:244 | the box shows exactly the placeholder "Estimated total: —" when there are 0 nights; otherwise it shows the figure with the total and the night label |
| `BookingEstimate.EstimateReadsBack` | assignment6/script.js:226-244 | the box text reads back as the total in cents and the night count when there is a night, and as no figure otherwise |
| `BookingValidation.Validate` | assignment6/script.js:254-267 | the name passes exactly when it is present and its trim has at least 2 UTF-16 units; the e-mail exactly when it is present and valid; the dates exactly when both parse a whole day or more apart; the package exactly when it is present and not all whitespace |
| `BookingValidation.ZeroNightsBlockSubmit` | assignment6/script.js:257-267 | with 0 nights the form never passes, whatever the other fields hold |
| `BookingValidation.NameLengthExamples` | assignment6/script.js:254 | " Al " passes the name check and "A" fails it; one character above U+FFFF counts 2 units |
| `BookingValidation.MarkedInvalid` | assignment6/script.js:272-276 | a marked field means the form fails; name, e-mail and package are each marked exactly when their own check fails; check-in is marked exactly when it is missing or empty; check-out exactly when the dates fail |
| `BookingValidation.OkIffNothingMarked` | assignment6/script.js:267-276 | with every element present, the form passes exactly when no field is marked invalid |
| `BookingValidation.ToggledBorders` | assignment6/script.js:279-283 | a present field gets "#ff4757" when invalid and "" when valid; other fields are untouched; a missing element changes nothing |
| `BookingValidation.BordersAfterSpec` | assignment6/script.js:271-283 | after one pass (`BordersAfter`) every present field shows its own verdict and a missing one keeps its old border |
| `BookingValidation.BordersAfterIdempotent` | assignment6/script.js:271-283 | validating the same form twice leaves the same borders as validating once |
| `BookingPage.Page.constructor` | assignment6/script.js:158-171 | the page starts with the placeholder in the estimate box, an enabled button and no border set |
| `BookingPage.Page.UpdateEstimate` | assignment6/script.js:210-245 | the step-by-step computation writes exactly the estimate text of the form, and no other page state changes |
| `BookingPage.Page.ToggleInvalid` | assignment6/script.js:279-283 | the borders become those of one toggle; nothing else changes |
| `BookingPage.Page.ShowInvalidMarkers` | assignment6/script.js:271-276 | the borders become those of the five toggles in the validator's order; nothing else changes |
| `BookingPage.Page.ValidateFormAndToggleSubmit` | assignment6/script.js:247-277 | the button is disabled exactly when the verdict fails, and the borders become those of one validation pass |
| `BookingPage.Page.Refresh` | assignment6/script.js:206-208 | after recomputing both, the box shows a figure exactly when the validator finds the dates valid |
| `BookingPage.FigureIffDatesValid` | assignment6/script.js:244-264 | the estimate shows a figure exactly when the validator's datesValid holds, because both use the same night count |
| `BookingPage.RomanticGetawayExamples` | assignment6/script.js:226-244 | 3 nights of "Romantic Getaway" for 3 guests with EARLYBIRD cost 4860.00, shown as "Estimated total: $4860.00 (3 nights)"; for 1 guest without a code, 4500.00 |
| `BookingPage.SameDayExample` | assignment6/script.js:217-267 | equal dates show the placeholder and block submission |
| `JsText.TrimSpec` | assignment6/script.js:185 | trim (`Trim`) keeps the slice between the leading and the trailing whitespace: it drops only whitespace, and what it keeps neither starts nor ends with whitespace |
| `JsText.TrimEmptyIff` | assignment6/script.js:265 | a value trims to "" exactly when it is all whitespace |
| `JsText.TrimIdempotent` | assignment6/script.js:185 | trimming a trimmed value changes nothing |
| `JsText.Utf16Length` | assignment6/script.js:254 | the length lies between the number of characters and twice that, is 0 only for "", and is 2 for a single character above U+FFFF and 1 for any other single character |
| `JsText.Utf16LengthAppend` | assignment6/script.js:254 | the length of a concatenation is the sum of the lengths |
| `JsText.LowerCase` | assignment6/script.js:85 | lower-casing keeps the number of characters |
| `JsText.LowerCaseOfAscii` | assignment6/script.js:85 | on ASCII text, lower-casing turns each capital into its small letter and keeps every other character |
| `JsText.LowerCaseEqualsIff` | assignment6/script.js:85 | ASCII text lower-cases to a word of small letters exactly when it equals that word ignoring ASCII case |
| `JsText.UpperCase` | assignment6/script.js:214 | upper-casing gives between one and three characters per character |
| `JsText.UpperCaseOfAscii` | assignment6/script.js:214 | on ASCII text, upper-casing keeps the length and turns each small letter into its capital, keeping every other character |
| `JsText.UpperCaseHasNoSmallLetter` | assignment6/script.js:214 | upper-cased text holds no ASCII small letter |
| `JsText.UpperCaseEqualsIff` | assignment6/script.js:214 | ASCII text upper-cases to a word of capitals exactly when it equals that word ignoring ASCII case |
| `JsText.TestIgnoreCaseFinds` | assignment6/script.js:189-192 | `/word/i.test` (`TestIgnoreCase`) finds the word wherever the text contains it in any ASCII case |
| `JsText.TestIgnoreCaseCaseBlind` | assignment6/script.js:189-192 | changing the ASCII case of the text never changes the outcome of the test |
| `JsText.MathRound` | assignment6/script.js:242 | the result is the integer n with n − 1/2 ≤ x < n + 1/2 |
| `JsText.NatToDecimalRoundTrip` | assignment6/script.js:244 | reading back the decimal rendering of a night count gives the count |
| `JsText.FixedTwoRoundTrip` | assignment6/script.js:244 | toFixed(2) shows the cents exactly: the integer part and the two fraction digits read back as the same number of cents |
| `JsText.FixedTwo` | assignment6/script.js:244 | the total is always written with exactly two fraction digits after a point |

## Left out

- DOM construction, styling and insertion of the date, guest and promo fields, the price box and the table HTML (assignment6/script.js:49-80, 106-171). This is UI plumbing. The table cells for the id, the base price and the capitalised season are not rendered; a row carries its package and its final price.
- Event wiring and the DOMContentLoaded entry point (assignment6/script.js:3-8, 197-208). Each handler is one synchronous `Refresh`. The model does not capture that a `change` event recomputes only the estimate.
- `new Date(...)` parsing, time zones and daylight-saving time. A date arrives as a time in milliseconds or as "unparsable".
- `Number(...)` parsing of the guest field, and an infinite guest count.
- `email.checkValidity()`, which is a browser-internal check. It is an opaque boolean.
- IEEE-754 rounding drift in `price * 100`, `Math.round` and `toFixed(2)`. The model uses exact rational arithmetic.
- `toFixed(2)` of 10^21 or more (exponent notation) and of negative values (a minus sign); `FixedTwo` takes a natural number of cents. Booking totals are non-negative and far below 10^21.
- `SelectedBasePrice`: the script's plain-object lookup `packagePrices[pkgVal]` also answers inherited names such as "toString" or "constructor". There it returns a function, and the total becomes NaN. The model's table holds only the four labels.
- `LowerCase` / `UpperCase`: only characters whose case mapping consists of ASCII letters only are mapped. These are the ASCII letters, the Kelvin sign, the dotless i, the long s, the sharp s and the Latin ligatures U+FB00 to U+FB06. Any other character keeps its value. This does not change any lookup result, but the strings themselves differ from JavaScript's for other scripts.
- `SeasonIgnoresCase` / `PromoIgnoresCase`: stated for ASCII entries only. A non-ASCII entry such as one holding the Kelvin sign or the long s can also match a key; `SeasonExamples` shows one such case, but no lemma characterises them all.
- Strings holding lone UTF-16 surrogates cannot be written as Dafny strings.
- The submit button is taken to exist. It is dereferenced at assignment6/script.js:170 when the script creates the price box; otherwise only the guard at assignment6/script.js:269 touches it.
- Navigation highlighting and smooth scrolling (assignment6/script.js:11-33), the gallery modal and the layout toggle (assignment6/script.js:287-354), and `capitalize` (assignment6/script.js:98). These are UI class toggling with no business rule.
