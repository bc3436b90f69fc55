/** The quote form of `ContactSection.tsx`: the guest counters, the stay-price
    estimate, the booking summary appended to the message and the reset after
    a successful submission. The pricing options fetched from the hosted
    backend and the outcome of the hosted insert are inputs; date parsing is
    a parameter. */
module ContactSection {
  import opened Options
  import opened Seqs
  import opened Numbers
  import opened Records

  const AdultSurcharge := 25
  const ChildSurcharge := 15
  const PetSurcharge := 10
  const MsPerDay := 1000 * 60 * 60 * 24

  datatype ContactForm = ContactForm(
    name: string,
    email: string,
    phone: string,
    message: string,
    requestType: RequestType,
    arrivalDate: string,
    departureDate: string,
    adults: nat,
    childrenUnder3: nat,
    childrenUnder12: nat,
    pets: nat)

  /** The form as first shown and as left after a successful submission. */
  const InitialForm := ContactForm("", "", "", "", Quote, "", "", 1, 0, 0, 0)

  datatype FormStatus = Idle | Submitting | Success | Error

  /** The numeric inputs, each wired to `handleNumberChange`. */
  datatype Counter = Adults | ChildrenUnder3 | ChildrenUnder12 | Pets

  /** `Math.max(0, parseInt(value) || 0)`. */
  function ClampCount(value: string): (n: nat)
    ensures ParseInt(value).Some? && ParseInt(value).value >= 0 ==> n == ParseInt(value).value
    ensures ParseInt(value).None? || ParseInt(value).value < 0 ==> n == 0
  {
    match ParseInt(value)
    case None => 0
    case Some(v) => if v < 0 then 0 else v
  }

  /** Typing a count shows that count; typing a negative one shows 0. */
  lemma ClampCountOfShown(k: int)
    ensures ClampCount(ShowInt(k)) == if k < 0 then 0 else k
  {
    ParseShowInt(k);
  }

  /** `handleNumberChange`: the named counter gets the clamped value, every
      other field is kept. */
  function HandleNumberChange(form: ContactForm, field: Counter, value: string): (r: ContactForm)
    ensures r.(adults := form.adults, childrenUnder3 := form.childrenUnder3,
               childrenUnder12 := form.childrenUnder12, pets := form.pets) == form
    ensures field == Adults ==> r.adults == ClampCount(value)
    ensures field == ChildrenUnder3 ==> r.childrenUnder3 == ClampCount(value)
    ensures field == ChildrenUnder12 ==> r.childrenUnder12 == ClampCount(value)
    ensures field == Pets ==> r.pets == ClampCount(value)
    ensures field != Adults ==> r.adults == form.adults
    ensures field != ChildrenUnder3 ==> r.childrenUnder3 == form.childrenUnder3
    ensures field != ChildrenUnder12 ==> r.childrenUnder12 == form.childrenUnder12
    ensures field != Pets ==> r.pets == form.pets
  {
    var n := ClampCount(value);
    match field
    case Adults => form.(adults := n)
    case ChildrenUnder3 => form.(childrenUnder3 := n)
    case ChildrenUnder12 => form.(childrenUnder12 := n)
    case Pets => form.(pets := n)
  }

  /** `Math.ceil(n / d)` for a positive divisor. */
  function CeilDiv(n: int, d: int): (q: int)
    requires d > 0
    ensures d * (q - 1) < n <= d * q
  {
    -((-n) / d)
  }

  /** The night count from the two parsed dates; `None` is the `NaN` an
      unparseable date yields. */
  function Nights(arrival: Option<Instant>, departure: Option<Instant>): (r: Option<int>)
    ensures r.None? <==> arrival.None? || departure.None?
    ensures r.Some? ==> MsPerDay * (r.value - 1) < departure.value - arrival.value <= MsPerDay * r.value
  {
    if arrival.None? || departure.None? then None
    else Some(CeilDiv(departure.value - arrival.value, MsPerDay))
  }

  /** A departure that is not after the arrival yields no nights; each started
      day after it yields one. */
  lemma NightsPositiveIffLater(arrival: Instant, departure: Instant)
    ensures Nights(Some(arrival), Some(departure)).value >= 1 <==> departure > arrival
  {
  }

  datatype Estimate = Estimate(perNight: int, total: int, nights: int)

  /** A `string | null` selection is falsy when null or empty. */
  predicate Selected(selection: Option<string>) {
    selection.Some? && selection.value != ""
  }

  function OptionIdIs(id: string): PricingOption -> bool { (o: PricingOption) => o.id == id }

  /** The option a selection points at: the first loaded option with that id. */
  function SelectedOption(selection: Option<string>, options: seq<PricingOption>): (r: Option<PricingOption>)
    ensures r.Some? ==> Selected(selection) && r.value in options && r.value.id == selection.value
    ensures Selected(selection) && (exists i :: 0 <= i < |options| && options[i].id == selection.value) ==> r.Some?
    ensures r.Some? ==> exists k :: 0 <= k < |options| && options[k] == r.value &&
                                   forall j :: 0 <= j < k ==> options[j].id != selection.value
  {
    if !Selected(selection) then None else Find(options, OptionIdIs(selection.value))
  }

  /** The nightly price: the option's base rate plus the per-guest and per-pet
      surcharges; children under 3 stay free. */
  function NightlyPrice(base: int, form: ContactForm): int {
    base + form.adults * AdultSurcharge + form.childrenUnder12 * ChildSurcharge + form.pets * PetSurcharge
  }

  /** `calculateEstimatedPrice`. */
  function EstimatePrice(selection: Option<string>, options: seq<PricingOption>, form: ContactForm,
                         parseDate: string -> Option<Instant>): (r: Option<Estimate>)
    ensures var nights := Nights(parseDate(form.arrivalDate), parseDate(form.departureDate));
      r.None? <==> SelectedOption(selection, options).None? || nights.None? || nights.value <= 0
    ensures r.Some? ==> r.value.nights >= 1
    ensures r.Some? ==> r.value.total == r.value.perNight * r.value.nights
    ensures r.Some? ==>
              r.value.perNight == SelectedOption(selection, options).value.pricePerNight
                                  + 25 * form.adults + 15 * form.childrenUnder12 + 10 * form.pets
    ensures r.Some? ==> Some(r.value.nights) == Nights(parseDate(form.arrivalDate), parseDate(form.departureDate))
  {
    match SelectedOption(selection, options)
    case None => None
    case Some(option) =>
      var perNight := NightlyPrice(option.pricePerNight, form);
      var nights := Nights(parseDate(form.arrivalDate), parseDate(form.departureDate));
      if nights.None? || nights.value <= 0 then None
      else Some(Estimate(perNight, perNight * nights.value, nights.value))
  }

  /** Children under 3 never change the estimate. */
  lemma InfantsAreFree(selection: Option<string>, options: seq<PricingOption>, form: ContactForm,
                       infants: nat, parseDate: string -> Option<Instant>)
    ensures EstimatePrice(selection, options, form.(childrenUnder3 := infants), parseDate)
         == EstimatePrice(selection, options, form, parseDate)
  {
  }

  /** Another paying guest or pet never lowers an available estimate. */
  lemma MoreGuestsCostMore(selection: Option<string>, options: seq<PricingOption>, form: ContactForm,
                           parseDate: string -> Option<Instant>)
    requires EstimatePrice(selection, options, form, parseDate).Some?
    ensures var e := EstimatePrice(selection, options, form, parseDate).value;
      && EstimatePrice(selection, options, form.(adults := form.adults + 1), parseDate).value.total
         == e.total + AdultSurcharge * e.nights
      && EstimatePrice(selection, options, form.(childrenUnder12 := form.childrenUnder12 + 1), parseDate).value.total
         == e.total + ChildSurcharge * e.nights
      && EstimatePrice(selection, options, form.(pets := form.pets + 1), parseDate).value.total
         == e.total + PetSurcharge * e.nights
  {
  }

  /** The worked example: one adult for two nights on a 35-a-night pitch is 60
      a night and 120 in all. */
  lemma TwoNightExample(form: ContactForm, parseDate: string -> Option<Instant>)
    requires form.adults == 1 && form.childrenUnder12 == 0 && form.pets == 0
    requires parseDate(form.arrivalDate) == Some(0) && parseDate(form.departureDate) == Some(2 * MsPerDay)
    ensures var options := [PricingOption("1", "Standard Campsite", "", 35, [])];
      EstimatePrice(Some("1"), options, form, parseDate) == Some(Estimate(60, 120, 2))
  {
    var options := [PricingOption("1", "Standard Campsite", "", 35, [])];
    assert Find(options, OptionIdIs("1")) == Some(options[0]);
  }

  /** `toFixed(2)` of an integer. */
  function Fixed2(n: int): string {
    ShowInt(n) + ".00"
  }

  /** The booking summary the submission appends to the message. */
  function BookingDetails(option: PricingOption, form: ContactForm, e: Estimate): (text: string)
    ensures |text| > 0
  {
    "\n\nBooking Details:\n- Accommodation: " + option.name
    + "\n- Arrival: " + form.arrivalDate
    + "\n- Departure: " + form.departureDate
    + "\n- Adults: " + ShowInt(form.adults)
    + "\n- Children (under 3): " + ShowInt(form.childrenUnder3)
    + "\n- Children (3-12): " + ShowInt(form.childrenUnder12)
    + "\n- Pets: " + ShowInt(form.pets)
    + "\n- Estimated Price: $" + Fixed2(e.total) + " (" + ShowInt(e.nights)
    + " nights at $" + Fixed2(e.perNight) + "/night)"
  }

  /** The message `handleSubmit` sends: the typed message, followed by the
      booking summary when there is a selection, an estimate and the option. */
  function FinalMessage(selection: Option<string>, options: seq<PricingOption>, form: ContactForm,
                        parseDate: string -> Option<Instant>): (m: string)
    ensures form.message <= m
    ensures m == form.message <==> EstimatePrice(selection, options, form, parseDate).None?
    ensures EstimatePrice(selection, options, form, parseDate).Some? ==>
      m == form.message + BookingDetails(SelectedOption(selection, options).value, form,
                                         EstimatePrice(selection, options, form, parseDate).value)
  {
    var estimate := EstimatePrice(selection, options, form, parseDate);
    if Selected(selection) && estimate.Some? then
      match Find(options, OptionIdIs(selection.value))
      case Some(option) => form.message + BookingDetails(option, form, estimate.value)
      case None => form.message
    else form.message
  }

  /** The row handed to the hosted `contact_requests` insert. */
  datatype ContactInsert = ContactInsert(
    name: string, email: string, phone: Option<string>, message: string, requestType: RequestType)

  /** What a submission leaves behind: the form, the selection, the status
      and the row that was sent. */
  datatype Submission = Submission(
    form: ContactForm, selection: Option<string>, status: FormStatus, sent: ContactInsert)

  /** `handleSubmit`, with `insertSucceeded` standing for the hosted insert's
      outcome: success clears the form and the selection, failure keeps both
      and reports an error. */
  function HandleSubmit(selection: Option<string>, options: seq<PricingOption>, form: ContactForm,
                        parseDate: string -> Option<Instant>, insertSucceeded: bool): (r: Submission)
    ensures r.sent.name == form.name && r.sent.email == form.email && r.sent.requestType == form.requestType
    ensures r.sent.phone == if form.phone == "" then None else Some(form.phone)
    ensures r.sent.message == FinalMessage(selection, options, form, parseDate)
    ensures insertSucceeded ==> r.status == Success && r.selection.None?
    ensures insertSucceeded ==>
              && r.form.adults == 1 && r.form.childrenUnder3 == 0
              && r.form.childrenUnder12 == 0 && r.form.pets == 0 && r.form.requestType == Quote
              && r.form.name == "" && r.form.email == "" && r.form.phone == "" && r.form.message == ""
              && r.form.arrivalDate == "" && r.form.departureDate == ""
    ensures !insertSucceeded ==> r.status == Error && r.form == form && r.selection == selection
  {
    var sent := ContactInsert(form.name, form.email, if form.phone == "" then None else Some(form.phone),
                              FinalMessage(selection, options, form, parseDate), form.requestType);
    if insertSucceeded then Submission(InitialForm, None, Success, sent)
    else Submission(form, selection, Error, sent)
  }

  /** Once a submission has gone through, no estimate is shown any more. */
  lemma NoEstimateAfterSubmit(selection: Option<string>, options: seq<PricingOption>, form: ContactForm,
                              parseDate: string -> Option<Instant>)
    ensures var r := HandleSubmit(selection, options, form, parseDate, true);
      EstimatePrice(r.selection, options, r.form, parseDate).None?
  {
  }
}
