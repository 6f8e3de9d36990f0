/** The booking form's validation rules: four independent checks that decide whether
    the submit button is enabled, and the fields that are marked invalid with a red
    border. */
module BookingValidation {
  import opened Wrappers
  import opened JsText
  import opened BookingEstimate

  /** The four checks. */
  datatype Verdict = Verdict(nameValid: bool, emailValid: bool, datesValid: bool, packageValid: bool) {
    predicate Ok() {
      nameValid && emailValid && datesValid && packageValid
    }
  }

  /** The verdict. The name passes when it has at least two UTF-16 units once trimmed,
      the e-mail when the browser finds it valid, the dates when both parse with
      check-out at least a whole day after check-in, and the package when it holds
      something other than whitespace. A missing element fails its check. */
  function Validate(f: BookingForm): (v: Verdict)
    ensures v.nameValid <==> f.name.Some? && Utf16Length(Trim(f.name.value)) >= 2
    ensures v.emailValid <==> f.email == Some(true)
    ensures v.datesValid <==>
      && f.checkIn.Some? && f.checkIn.value.Parsed?
      && f.checkOut.Some? && f.checkOut.value.Parsed?
      && f.checkOut.value.time - f.checkIn.value.time >= MsPerDay
    ensures v.packageValid <==> f.package.Some? && !AllWhitespace(f.package.value)
  {
    TrimEmptyIff(f.package.GetOr(""));
    Verdict(
      f.name.Some? && Utf16Length(Trim(f.name.value)) > 1,
      f.email == Some(true),
      FormNights(f) > 0,
      f.package.Some? && Trim(f.package.value) != "")
  }

  /** Zero nights keep the form from being submitted whatever the other fields hold. */
  lemma ZeroNightsBlockSubmit(f: BookingForm)
    requires FormNights(f) == 0
    ensures !Validate(f).Ok()
  {
  }

  /** A two-letter name passes and a one-letter name fails, surrounding spaces aside; a
      single character above U+FFFF is two UTF-16 units and passes. */
  lemma NameLengthExamples()
    ensures Utf16Length(Trim(" Al ")) > 1
    ensures !(Utf16Length(Trim("A")) > 1)
    ensures Utf16Length(Trim("\U{1F600}")) == 2
  {
    TrimUnpadded("\U{1F600}");
  }

  /** The fields that carry an invalid marker. */
  datatype Field = NameField | EmailField | CheckInField | CheckOutField | PackageField

  const InvalidBorder: string := "#ff4757"

  /** Whether the field's element is on the page. */
  function Present(f: BookingForm, field: Field): bool {
    match field
    case NameField => f.name.Some?
    case EmailField => f.email.Some?
    case CheckInField => f.checkIn.Some?
    case CheckOutField => f.checkOut.Some?
    case PackageField => f.package.Some?
  }

  /** The `invalid` argument the validator passes for each field. A marked field always
      means the form cannot be submitted. Check-in is marked only when it is missing or
      empty (a value that does not parse is not marked); check-out exactly when the
      dates fail. */
  function MarkedInvalid(f: BookingForm, field: Field): (m: bool)
    ensures m ==> !Validate(f).Ok()
    ensures field == NameField ==> (m <==> !Validate(f).nameValid)
    ensures field == EmailField ==> (m <==> !Validate(f).emailValid)
    ensures field == PackageField ==> (m <==> !Validate(f).packageValid)
    ensures field == CheckInField ==> (m <==> f.checkIn.None? || f.checkIn.value == Blank)
    ensures field == CheckOutField ==> (m <==> !Validate(f).datesValid)
  {
    var v := Validate(f);
    match field
    case NameField => !v.nameValid
    case EmailField => !v.emailValid
    case CheckInField => !(f.checkIn.Some? && f.checkIn.value != Blank)
    case CheckOutField => !(f.checkOut.Some? && f.checkOut.value != Blank && FormNights(f) > 0)
    case PackageField => !v.packageValid
  }

  /** The five `invalid` arguments, spelled as the validator computes them. */
  lemma MarkersOf(f: BookingForm)
    ensures MarkedInvalid(f, NameField) == !(f.name.Some? && Utf16Length(Trim(f.name.value)) > 1)
    ensures MarkedInvalid(f, EmailField) == !(f.email == Some(true))
    ensures MarkedInvalid(f, CheckInField) == !(f.checkIn.Some? && f.checkIn.value != Blank)
    ensures MarkedInvalid(f, CheckOutField) == !(f.checkOut.Some? && f.checkOut.value != Blank && FormNights(f) > 0)
    ensures MarkedInvalid(f, PackageField) == !(f.package.Some? && Trim(f.package.value) != "")
  {
  }

  /** With every element on the page, the form can be submitted exactly when no field
      is marked invalid. */
  lemma OkIffNothingMarked(f: BookingForm)
    requires forall field :: Present(f, field)
    ensures Validate(f).Ok() <==> forall field :: !MarkedInvalid(f, field)
  {
    assert Present(f, CheckInField) && Present(f, CheckOutField);
    if !Validate(f).Ok() {
      if !Validate(f).datesValid {
        assert MarkedInvalid(f, CheckOutField);
      } else if !Validate(f).nameValid {
        assert MarkedInvalid(f, NameField);
      } else if !Validate(f).emailValid {
        assert MarkedInvalid(f, EmailField);
      } else {
        assert MarkedInvalid(f, PackageField);
      }
    } else {
      forall field ensures !MarkedInvalid(f, field) {
        if field == CheckInField {
          assert f.checkIn.value.Parsed?;
        }
      }
    }
  }

  /** What toggleInvalid leaves: on a present element, a red border when invalid and the border
      cleared otherwise; nothing happens for a missing element. */
  function ToggledBorders(borders: map<Field, string>, field: Field, present: bool, invalid: bool): (r: map<Field, string>)
    ensures present ==> field in r && r[field] == (if invalid then InvalidBorder else "")
    ensures forall other :: other != field ==> (other in r <==> other in borders)
    ensures forall other :: other != field && other in borders ==> r[other] == borders[other]
    ensures !present ==> r == borders
  {
    if !present then borders
    else if invalid then borders[field := InvalidBorder]
    else borders[field := ""]
  }

  /** toggleInvalid on the five fields in the validator's order, given the `invalid`
      argument for each. */
  function Toggles(borders: map<Field, string>, f: BookingForm,
    nameMark: bool, emailMark: bool, checkInMark: bool, checkOutMark: bool, packageMark: bool): map<Field, string>
  {
    var b1 := ToggledBorders(borders, NameField, f.name.Some?, nameMark);
    var b2 := ToggledBorders(b1, EmailField, f.email.Some?, emailMark);
    var b3 := ToggledBorders(b2, CheckInField, f.checkIn.Some?, checkInMark);
    var b4 := ToggledBorders(b3, CheckOutField, f.checkOut.Some?, checkOutMark);
    ToggledBorders(b4, PackageField, f.package.Some?, packageMark)
  }

  /** The borders after one validation pass. */
  function BordersAfter(borders: map<Field, string>, f: BookingForm): map<Field, string> {
    Toggles(borders, f, MarkedInvalid(f, NameField), MarkedInvalid(f, EmailField),
      MarkedInvalid(f, CheckInField), MarkedInvalid(f, CheckOutField), MarkedInvalid(f, PackageField))
  }

  /** After a pass every present field shows exactly its own marker, and a missing one
      keeps whatever it had. */
  lemma BordersAfterSpec(borders: map<Field, string>, f: BookingForm, field: Field)
    ensures Present(f, field) ==>
      field in BordersAfter(borders, f) &&
      BordersAfter(borders, f)[field] == (if MarkedInvalid(f, field) then InvalidBorder else "")
    ensures !Present(f, field) ==>
      (field in BordersAfter(borders, f) <==> field in borders) &&
      (field in borders ==> BordersAfter(borders, f)[field] == borders[field])
  {
  }

  /** Validating twice leaves the borders as validating once. */
  lemma BordersAfterIdempotent(borders: map<Field, string>, f: BookingForm)
    ensures BordersAfter(BordersAfter(borders, f), f) == BordersAfter(borders, f)
  {
    var once := BordersAfter(borders, f);
    var twice := BordersAfter(once, f);
    forall field
      ensures (field in twice <==> field in once) && (field in once ==> twice[field] == once[field])
    {
      BordersAfterSpec(borders, f, field);
      BordersAfterSpec(once, f, field);
    }
  }
}
