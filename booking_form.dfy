/**
 * The booking form: the phone number as it is sent for verification and as it is saved, the guards on
 * sending a code, verifying it and submitting the booking, the re-selection of the duration when the
 * service's options change, and the price of the selected duration.
 */
module BookingForm {
  import opened Wrappers
  import opened JsText

  datatype DurationOption = DurationOption(value: string, labelText: string, price: int)

  /** The country code the form starts with and returns to after a booking. */
  const DefaultCountryCode: string := "+970"

  // ---------------------------------------------------------------- phone numbers

  /** The local part: the digits the user typed, without leading zeros. */
  function LocalDigits(phone: string): string {
    StripLeadingZeros(DigitsOnly(phone))
  }

  /** The number sent to the verification functions: country code and local digits, with `+` and spaces removed. */
  function VerificationPhone(countryCode: string, phone: string): string {
    StripPlusAndSpace(countryCode + LocalDigits(phone))
  }

  /** The number saved with the booking: the country code as chosen, then the local digits. */
  function SavedPhone(countryCode: string, phone: string): string {
    countryCode + LocalDigits(phone)
  }

  /** A country code made of digits, `+` and spaces only, like the form's `+970` and `+972`. */
  predicate PlainCountryCode(countryCode: string) {
    forall i :: 0 <= i < |countryCode| ==> IsDigit(countryCode[i]) || countryCode[i] == '+' || IsSpace(countryCode[i])
  }

  /** The local digits are digits and never start with a zero. */
  lemma LocalDigitsShape(phone: string)
    ensures AllDigits(LocalDigits(phone))
    ensures LocalDigits(phone) == [] || LocalDigits(phone)[0] != '0'
  {
    var d := DigitsOnly(phone);
    assert LocalDigits(phone) == d[|d| - |LocalDigits(phone)|..];
  }

  /** The number sent for verification is the cleaned country code followed by the local digits. */
  lemma VerificationPhoneSplits(countryCode: string, phone: string)
    ensures VerificationPhone(countryCode, phone) == StripPlusAndSpace(countryCode) + LocalDigits(phone)
  {
    StripPlusAndSpaceAppend(countryCode, LocalDigits(phone));
    LocalDigitsShape(phone);
    StripPlusAndSpaceOfDigits(LocalDigits(phone));
  }

  /** The digits of a plain country code are exactly what cleaning it leaves. */
  lemma {:induction false} CleanCountryCode(countryCode: string)
    requires PlainCountryCode(countryCode)
    ensures StripPlusAndSpace(countryCode) == DigitsOnly(countryCode)
    decreases |countryCode|
  {
    if countryCode != [] {
      CleanCountryCode(countryCode[1..]);
    }
  }

  /** With a plain country code, the number sent for verification is all digits. */
  lemma VerificationPhoneIsDigits(countryCode: string, phone: string)
    requires PlainCountryCode(countryCode)
    ensures AllDigits(VerificationPhone(countryCode, phone))
  {
    VerificationPhoneSplits(countryCode, phone);
    CleanCountryCode(countryCode);
    LocalDigitsShape(phone);
  }

  /** Cleaning the saved number gives the verified one: both name the same phone. */
  lemma SavedPhoneCleansToVerified(countryCode: string, phone: string)
    ensures StripPlusAndSpace(SavedPhone(countryCode, phone)) == VerificationPhone(countryCode, phone)
  {
  }

  /** For `+970`, the verified number is `970` and the saved one `+970`, each followed by the local digits. */
  lemma DefaultCountryCodePhones(phone: string)
    ensures VerificationPhone(DefaultCountryCode, phone) == "970" + LocalDigits(phone)
    ensures SavedPhone(DefaultCountryCode, phone) == "+970" + LocalDigits(phone)
  {
    CleanDefaultCountryCode();
    VerificationPhoneSplits(DefaultCountryCode, phone);
  }

  lemma CleanDefaultCountryCode()
    ensures StripPlusAndSpace(DefaultCountryCode) == "970"
  {
    assert DefaultCountryCode == ['+'] + "970";
    StripPlusAndSpaceAppend(['+'], "970");
    assert ['+'][1..] == [];
    StripPlusAndSpaceOfDigits("970");
  }

  // ---------------------------------------------------------------- durations and price

  /** `durationOptions.some(opt => opt.value === selected)`. */
  predicate HasOption(options: seq<DurationOption>, selected: string) {
    exists i :: 0 <= i < |options| && options[i].value == selected
  }

  /**
   * The duration after the service's options are fetched: with at least one option, a selection that is
   * empty or no longer offered becomes the first option; otherwise the selection stays.
   */
  function DurationAfterFetch(selected: string, options: seq<DurationOption>): (r: string)
    ensures |options| > 0 ==> HasOption(options, r)
    ensures selected != [] && HasOption(options, selected) ==> r == selected
    ensures |options| == 0 ==> r == selected
  {
    if |options| > 0 && !(selected != [] && HasOption(options, selected)) then options[0].value else selected
  }

  /**
   * Fetching the same options again changes nothing: the re-selection is idempotent, even when the first
   * option's value is empty.
   */
  lemma DurationAfterFetchIdempotent(selected: string, options: seq<DurationOption>)
    ensures DurationAfterFetch(DurationAfterFetch(selected, options), options) == DurationAfterFetch(selected, options)
  {
  }

  /** `durationOptions.find(d => d.value === selected)?.price || 0` from position `i` on. */
  function PriceFrom(options: seq<DurationOption>, selected: string, i: nat): (price: int)
    requires i <= |options|
    ensures (forall j :: i <= j < |options| ==> options[j].value != selected) ==> price == 0
    ensures forall k :: (i <= k < |options| && options[k].value == selected &&
      forall j :: i <= j < k ==> options[j].value != selected) ==> price == options[k].price
    decreases |options| - i
  {
    if i == |options| then 0
    else if options[i].value == selected then options[i].price
    else PriceFrom(options, selected, i + 1)
  }

  /** The price of the selected duration: that of the first option with that value, or 0. */
  function SelectedDurationPrice(options: seq<DurationOption>, selected: string): int {
    PriceFrom(options, selected, 0)
  }

  // ---------------------------------------------------------------- the form

  /** What the verification function answered: a transport error, or a reply with its `success` flag. */
  datatype VerifyReply = InvokeError | Replied(success: bool)

  datatype SubmitOutcome = MissingInfo | NotVerified | SaveFailed | Saved

  datatype BookingInsert = BookingInsert(
    service: string, bookingDate: string, bookingTime: string, bookingDuration: string, price: int,
    customerName: string, phoneNumber: string, notes: Option<string>, status: string)

  class FormState {
    var selectedService: string
    /** The chosen day as `YYYY-MM-DD`, or `None`. */
    var date: Option<string>
    var selectedTime: string
    var selectedDuration: string
    var name: string
    var countryCode: string
    var phone: string
    var notes: string
    var durationOptions: seq<DurationOption>
    var verificationCode: string
    var codeSent: bool
    var isVerified: bool

    constructor(preSelectedService: string)
      ensures selectedService == preSelectedService && date.None? && selectedTime == [] && selectedDuration == []
      ensures name == [] && countryCode == DefaultCountryCode && phone == [] && notes == [] && durationOptions == []
      ensures verificationCode == [] && !codeSent && !isVerified
    {
      selectedService := preSelectedService;
      date, selectedTime, selectedDuration := None, [], [];
      name, countryCode, phone, notes := [], DefaultCountryCode, [], [];
      durationOptions := [];
      verificationCode, codeSent, isVerified := [], false, false;
    }

    /** The service's options arrive: they replace the list and the duration is re-selected. */
    method OnDurationOptionsFetched(newOptions: seq<DurationOption>)
      modifies this`durationOptions, this`selectedDuration
      ensures durationOptions == newOptions
      ensures selectedDuration == DurationAfterFetch(old(selectedDuration), newOptions)
    {
      durationOptions := newOptions;
      if |newOptions| > 0 {
        var durationExists := selectedDuration != [] && HasOption(newOptions, selectedDuration);
        if !durationExists {
          selectedDuration := newOptions[0].value;
        }
      }
    }

    /** Typing in the phone field keeps only digits and resets the whole verification. */
    method OnPhoneChange(input: string)
      modifies this`phone, this`codeSent, this`isVerified, this`verificationCode
      ensures phone == DigitsOnly(input) && !codeSent && !isVerified && verificationCode == []
    {
      phone := DigitsOnly(input);
      codeSent, isVerified, verificationCode := false, false, [];
    }

    /**
     * `handleSendVerification`: nothing without a phone; otherwise the cleaned number is sent, and the
     * code counts as sent once the function call succeeds.
     */
    method HandleSendVerification(delivered: bool) returns (sentTo: Option<string>)
      modifies this`codeSent
      ensures phone == [] ==> sentTo.None? && codeSent == old(codeSent)
      ensures phone != [] ==> sentTo == Some(VerificationPhone(countryCode, phone))
      ensures phone != [] ==> codeSent == (old(codeSent) || delivered)
    {
      if phone == [] {
        return None;
      }
      sentTo := Some(VerificationPhone(countryCode, phone));
      if delivered {
        codeSent := true;
      }
    }

    /**
     * `handleVerifyCode`: a code that is not exactly six characters is refused before any request;
     * otherwise the cleaned number and the code are sent, and only a successful reply verifies.
     */
    method HandleVerifyCode(reply: VerifyReply) returns (request: Option<(string, string)>)
      modifies this`isVerified
      ensures |verificationCode| != 6 ==> request.None? && isVerified == old(isVerified)
      ensures |verificationCode| == 6 ==> request == Some((VerificationPhone(countryCode, phone), verificationCode))
      ensures |verificationCode| == 6 ==> isVerified == (old(isVerified) || reply == Replied(true))
    {
      if verificationCode == [] || |verificationCode| != 6 {
        return None;
      }
      request := Some((VerificationPhone(countryCode, phone), verificationCode));
      if reply.Replied? && reply.success {
        isVerified := true;
      }
    }

    /** Service, date, time, name and phone are all filled in. */
    predicate Complete()
      reads this
    {
      selectedService != [] && date.Some? && selectedTime != [] && name != [] && phone != []
    }

    /** The row a submit writes: the saved phone, the selected duration's price, empty notes as null, `pending`. */
    function PendingBooking(): (b: BookingInsert)
      requires date.Some?
      reads this
      ensures b.status == "pending" && b.phoneNumber == SavedPhone(countryCode, phone)
      ensures b.price == SelectedDurationPrice(durationOptions, selectedDuration)
      ensures b.notes.None? <==> notes == []
    {
      BookingInsert(
        selectedService, date.value, selectedTime, selectedDuration,
        SelectedDurationPrice(durationOptions, selectedDuration), name,
        SavedPhone(countryCode, phone), if notes == [] then None else Some(notes), "pending")
    }

    /** The form after a saved booking: everything cleared, the duration back to the first option. */
    predicate Cleared()
      reads this
    {
      date.None? && selectedTime == [] && name == [] && phone == [] && countryCode == DefaultCountryCode &&
      notes == [] && verificationCode == [] && !codeSent && !isVerified &&
      selectedDuration == (if |durationOptions| > 0 then durationOptions[0].value else [])
    }

    method ResetForm()
      modifies this`date, this`selectedTime, this`selectedDuration, this`name, this`phone, this`countryCode,
        this`notes, this`verificationCode, this`codeSent, this`isVerified
      ensures Cleared()
    {
      date, selectedTime := None, [];
      selectedDuration := if |durationOptions| > 0 then durationOptions[0].value else [];
      name, phone, countryCode, notes := [], [], DefaultCountryCode, [];
      verificationCode, codeSent, isVerified := [], false, false;
    }

    /**
     * `handleSubmit`: refused when a field is missing or the phone is not verified; otherwise the pending
     * booking is written, and after a successful write the form is cleared (the service stays).
     */
    method HandleSubmit(stored: bool) returns (outcome: SubmitOutcome, booking: Option<BookingInsert>)
      modifies this`date, this`selectedTime, this`selectedDuration, this`name, this`phone, this`countryCode,
        this`notes, this`verificationCode, this`codeSent, this`isVerified
      ensures outcome == MissingInfo <==> !old(Complete())
      ensures outcome == NotVerified <==> old(Complete()) && !old(isVerified)
      ensures booking.Some? <==> old(Complete()) && old(isVerified)
      ensures booking.Some? ==> old(date).Some? && booking.value == old(PendingBooking())
      ensures booking.Some? ==> (outcome == Saved <==> stored)
      ensures outcome == Saved ==> Cleared() && selectedService == old(selectedService)
      ensures outcome != Saved ==> unchanged(this)
    {
      if selectedService == [] || date.None? || selectedTime == [] || name == [] || phone == [] {
        return MissingInfo, None;
      }
      if !isVerified {
        return NotVerified, None;
      }
      booking := Some(PendingBooking());
      if !stored {
        return SaveFailed, booking;
      }
      ResetForm();
      outcome := Saved;
    }
  }
}
