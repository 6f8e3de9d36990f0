/** The booking page's observable state and its two handlers: the estimate box's text,
    the submit button's disabled flag and the border colour of each validated field,
    recomputed from the form on every input. */
module BookingPage {
  import opened Wrappers
  import opened JsText
  import opened BookingEstimate
  import opened BookingValidation

  class Page {
    var estimate: string
    var submitDisabled: bool
    var borders: map<Field, string>

    /** The page as first built: the placeholder in the estimate box, an enabled button,
        no border set. */
    constructor ()
      ensures estimate == Placeholder && !submitDisabled && borders == map[]
    {
      estimate := Placeholder;
      submitDisabled := false;
      borders := map[];
    }

    /** updateEstimate: works out the nights and the total step by step and writes the
        estimate box. */
    method UpdateEstimate(f: BookingForm)
      modifies this`estimate
      ensures estimate == EstimateText(f)
    {
      var ci := f.checkIn.GetOr(Blank);
      var co := f.checkOut.GetOr(Blank);
      var guests := f.guests.GetOr(Num(1.0));
      var promo := NormalizePromo(f.promoCode.GetOr(""));

      var nights: int := 0;
      if ci != Blank && co != Blank {
        if ci.Parsed? && co.Parsed? {
          nights := (co.time - ci.time) / MsPerDay;
        }
        if !(ci.Parsed? && co.Parsed?) || nights < 0 {
          nights := 0;
        }
      }
      assert nights == FormNights(f);

      var basePrice := SelectedBasePrice(f.package.GetOr(""), f.destination.GetOr(""));
      var total: real := (basePrice * Max(1, nights)) as real;
      if guests.Num? && guests.value > 2.0 {
        total := total * 1.2;
      }
      assert total == PreDiscount(basePrice, nights, guests);
      var promoDiscount := PromoDiscount(promo);
      ghost var undiscounted := total;
      total := total * (1.0 - promoDiscount);
      DiscountStep(undiscounted, promoDiscount, total);
      assert undiscounted == PreDiscount(BasePrice(f), FormNights(f), Guests(f));
      assert promoDiscount == Discount(f);
      assert total == ExactTotal(f);
      var cents := MathRound(total * 100.0);
      assert cents == TotalCents(f);

      estimate := if nights > 0 then FigureText(cents, nights) else Placeholder;
    }

    /** toggleInvalid on one field. */
    method ToggleInvalid(field: Field, present: bool, invalid: bool)
      modifies this`borders
      ensures borders == ToggledBorders(old(borders), field, present, invalid)
    {
      if !present {
        return;
      }
      if invalid {
        borders := borders[field := InvalidBorder];
      } else {
        borders := borders[field := ""];
      }
    }

    /** validateFormAndToggleSubmit: the four checks, the button, then the markers. */
    method ValidateFormAndToggleSubmit(f: BookingForm)
      modifies this`submitDisabled, this`borders
      ensures submitDisabled == !Validate(f).Ok()
      ensures borders == BordersAfter(old(borders), f)
    {
      var isNameValid := f.name.Some? && Utf16Length(Trim(f.name.value)) > 1;
      var isEmailValid := f.email == Some(true);
      var nights := 0;
      if f.checkIn.Some? && f.checkOut.Some? && f.checkIn.value != Blank && f.checkOut.value != Blank {
        nights := Nights(f.checkIn.value, f.checkOut.value);
      }
      var datesValid := nights > 0;
      var packageValid := f.package.Some? && Trim(f.package.value) != "";

      var ok := isNameValid && isEmailValid && datesValid && packageValid;
      assert nights == FormNights(f);
      assert Validate(f) == Verdict(isNameValid, isEmailValid, datesValid, packageValid);
      submitDisabled := !ok;

      var checkInMark := !(f.checkIn.Some? && f.checkIn.value != Blank);
      var checkOutMark := !(f.checkOut.Some? && f.checkOut.value != Blank && nights > 0);
      MarkersOf(f);
      ShowInvalidMarkers(f, !isNameValid, !isEmailValid, checkInMark, checkOutMark, !packageValid);
    }

    /** The validator's visual invalid indicators: toggleInvalid on each of the five
        fields in turn. */
    method ShowInvalidMarkers(f: BookingForm,
      nameMark: bool, emailMark: bool, checkInMark: bool, checkOutMark: bool, packageMark: bool)
      modifies this`borders
      ensures borders == Toggles(old(borders), f, nameMark, emailMark, checkInMark, checkOutMark, packageMark)
    {
      ToggleInvalid(NameField, f.name.Some?, nameMark);
      ToggleInvalid(EmailField, f.email.Some?, emailMark);
      ToggleInvalid(CheckInField, f.checkIn.Some?, checkInMark);
      ToggleInvalid(CheckOutField, f.checkOut.Some?, checkOutMark);
      ToggleInvalid(PackageField, f.package.Some?, packageMark);
    }

    /** One input event: the estimate and the validation are both recomputed. Because
        both use the same night count, a figure is shown exactly when the dates pass
        validation, and a figure with the button enabled means every check passed. */
    method Refresh(f: BookingForm)
      modifies this
      ensures estimate == EstimateText(f)
      ensures submitDisabled == !Validate(f).Ok()
      ensures borders == BordersAfter(old(borders), f)
      ensures estimate != Placeholder <==> Validate(f).datesValid
    {
      UpdateEstimate(f);
      ValidateFormAndToggleSubmit(f);
    }
  }

  /** The estimate box shows a figure exactly when the validator finds the dates valid. */
  lemma FigureIffDatesValid(f: BookingForm)
    ensures EstimateText(f) != Placeholder <==> Validate(f).datesValid
  {
  }

  /** Check-in 2024-06-01, check-out 2024-06-04 (milliseconds since the epoch, UTC). */
  const June1: int := 1717200000000
  const June4: int := 1717459200000

  function RomanticGetaway(guests: real, promo: string): BookingForm {
    BookingForm(Some(Parsed(June1)), Some(Parsed(June4)), Some(Num(guests)), Some(promo),
      Some("Romantic Getaway"), None, Some("Al"), Some(true))
  }

  lemma RomanticGetawayInputs(guests: real, promo: string)
    ensures FormNights(RomanticGetaway(guests, promo)) == 3
    ensures BasePrice(RomanticGetaway(guests, promo)) == 1500
  {
  }

  lemma EarlybirdCode()
    ensures NormalizePromo("EARLYBIRD") == "EARLYBIRD"
  {
    TrimUnpadded("EARLYBIRD");
    UpperCaseOfAsciiIs("EARLYBIRD", "EARLYBIRD");
  }

  lemma FigureOf4860()
    ensures FigureText(486000, 3) == "Estimated total: $4860.00 (3 nights)"
  {
  }

  /** Three nights of the "Romantic Getaway" package (1500 a night) for three guests with
      EARLYBIRD cost 1500 * 3 * 1.2 * 0.9 = 4860.00; for one guest and no code, 4500.00. */
  lemma RomanticGetawayExamples()
    ensures TotalCents(RomanticGetaway(3.0, "EARLYBIRD")) == 486000
    ensures EstimateText(RomanticGetaway(3.0, "EARLYBIRD")) == "Estimated total: $4860.00 (3 nights)"
    ensures TotalCents(RomanticGetaway(1.0, "")) == 450000
  {
    RomanticGetawayInputs(3.0, "EARLYBIRD");
    RomanticGetawayInputs(1.0, "");
    EarlybirdCode();
    assert NormalizePromo("") == "";
    FigureOf4860();
  }

  /** Equal dates give no night: the placeholder is shown and submission is blocked. */
  lemma SameDayExample()
    ensures EstimateText(BookingForm(Some(Parsed(June1)), Some(Parsed(June1)), None, None,
      Some("Romantic Getaway"), None, Some("Al"), Some(true))) == Placeholder
    ensures !Validate(BookingForm(Some(Parsed(June1)), Some(Parsed(June1)), None, None,
      Some("Romantic Getaway"), None, Some("Al"), Some(true))).Ok()
  {
  }
}
