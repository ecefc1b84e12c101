/**
 * The services screen of the admin panel: the picture shown for a service, the default duration options,
 * the service form (loading a service into it, editing its list of duration options, the row it saves),
 * and showing, hiding and deleting a service.
 */
module ServicesManagement {
  import opened Wrappers
  import opened JsText
  import BookingForm

  type DurationOption = BookingForm.DurationOption

  // ---------------------------------------------------------------- pictures

  /** An uploaded picture's address, or one of the bundled pictures. */
  datatype ServiceImage = Uploaded(url: string) | MassageImage | HammamImage | SkincareImage

  const MassageWord: string := "مساج"
  const HammamWord: string := "حمام"
  const CareWord: string := "عناية"

  /**
   * `getServiceImage`: an address starting with `http` is shown as it is; otherwise the first of the
   * words massage, hammam, care that the name contains picks the bundled picture, massage by default.
   */
  function GetServiceImage(imageUrl: string, serviceName: string): (img: ServiceImage)
    ensures img.Uploaded? <==> StartsWith(imageUrl, "http")
    ensures img.Uploaded? ==> img.url == imageUrl
    ensures img == HammamImage <==>
      !StartsWith(imageUrl, "http") && !Contains(serviceName, MassageWord) && Contains(serviceName, HammamWord)
    ensures img == SkincareImage <==>
      !StartsWith(imageUrl, "http") && !Contains(serviceName, MassageWord) && !Contains(serviceName, HammamWord) &&
      Contains(serviceName, CareWord)
  {
    if StartsWith(imageUrl, "http") then Uploaded(imageUrl)
    else if Contains(serviceName, MassageWord) then MassageImage
    else if Contains(serviceName, HammamWord) then HammamImage
    else if Contains(serviceName, CareWord) then SkincareImage
    else MassageImage
  }

  /** Without an uploaded picture, a name naming massage, or none of the three words, shows the massage picture. */
  lemma MassageIsTheFallback(imageUrl: string, serviceName: string)
    requires !StartsWith(imageUrl, "http")
    requires Contains(serviceName, MassageWord) ||
      (!Contains(serviceName, HammamWord) && !Contains(serviceName, CareWord))
    ensures GetServiceImage(imageUrl, serviceName) == MassageImage
  {
  }

  // ---------------------------------------------------------------- duration options

  /** The three options a new service starts with and a service without stored options is shown with. */
  const DefaultOptions: seq<DurationOption> := [
    BookingForm.DurationOption("30 mins", "30 دقيقة", 100),
    BookingForm.DurationOption("1 hr", "ساعة", 150),
    BookingForm.DurationOption("1.5 hr", "ساعة ونصف", 200)
  ]

  const EmptyOption: DurationOption := BookingForm.DurationOption([], [], 0)

  /** `duration_options || defaults`: only a missing list is replaced; an empty stored list stays empty. */
  function OptionsOrDefaults(stored: Option<seq<DurationOption>>): (r: seq<DurationOption>)
    ensures stored.None? ==> r == DefaultOptions && |r| == 3
    ensures stored.Some? ==> r == stored.value
  {
    stored.GetOr(DefaultOptions)
  }

  /** One change to the form's list of options, as the buttons and fields of the form make it. */
  datatype OptionEdit =
    | AddOption
    | RemoveOption(index: nat)
    | SetValue(index: nat, value: string)
    | SetLabel(index: nat, labelText: string)
    | SetPrice(index: nat, price: int)

  /**
   * The list after one change: "add" appends an empty option; "remove" drops the option at the index only
   * while more than one is left; the fields write the option at the index.
   */
  function ApplyEdit(options: seq<DurationOption>, edit: OptionEdit): seq<DurationOption> {
    match edit
    case AddOption => options + [EmptyOption]
    case RemoveOption(i) => if |options| > 1 && i < |options| then options[..i] + options[i + 1..] else options
    case SetValue(i, v) => if i < |options| then options[i := options[i].(value := v)] else options
    case SetLabel(i, l) => if i < |options| then options[i := options[i].(labelText := l)] else options
    case SetPrice(i, p) => if i < |options| then options[i := options[i].(price := p)] else options
  }

  function ApplyEdits(options: seq<DurationOption>, edits: seq<OptionEdit>): seq<DurationOption>
    decreases |edits|
  {
    if edits == [] then options else ApplyEdits(ApplyEdit(options, edits[0]), edits[1..])
  }

  /** One change: add grows the list by one, remove shrinks it by one only from two or more, the fields keep its length. */
  lemma EditSize(options: seq<DurationOption>, edit: OptionEdit)
    ensures edit.AddOption? ==> |ApplyEdit(options, edit)| == |options| + 1 && ApplyEdit(options, edit)[..|options|] == options
    ensures edit.RemoveOption? ==>
      |ApplyEdit(options, edit)| == if |options| > 1 && edit.index < |options| then |options| - 1 else |options|
    ensures !edit.AddOption? && !edit.RemoveOption? ==> |ApplyEdit(options, edit)| == |options|
  {
  }

  /** Whatever the admin does in the form, a list with an option keeps at least one. */
  lemma {:induction false} EditsKeepAnOption(options: seq<DurationOption>, edits: seq<OptionEdit>)
    requires |options| >= 1
    ensures |ApplyEdits(options, edits)| >= 1
    decreases |edits|
  {
    if edits != [] {
      EditSize(options, edits[0]);
      EditsKeepAnOption(ApplyEdit(options, edits[0]), edits[1..]);
    }
  }

  /** `parseFloat(text) || 0` for the price field: NaN and zero both read as zero. */
  function PriceInput(text: string): (p: Decimal)
    ensures p.mantissa == 0 ==> p == Decimal(0, 0)
    ensures ParseFloat(text).None? ==> p == Decimal(0, 0)
  {
    match ParseFloat(text)
    case None => Decimal(0, 0)
    case Some(d) => if d.mantissa == 0 then Decimal(0, 0) else d
  }

  /** A whole price typed as digits is read as that number. */
  lemma WholePriceInput(digits: string)
    requires |digits| > 0 && AllDigits(digits)
    ensures PriceInput(digits) == Decimal(DigitsValue(digits), 0)
  {
    assert digits + [] == digits;
    ParseFloatOfWhole(digits, []);
  }

  // ---------------------------------------------------------------- services and the form

  /** A row of the `services` table. */
  datatype ServiceRow = ServiceRow(
    id: string, name: string, description: Option<string>, imageUrl: string, currency: string, isActive: bool,
    displayOrder: Option<int>, durationOptions: Option<seq<DurationOption>>)

  /** The columns a save writes. */
  datatype ServiceData = ServiceData(
    name: string, description: Option<string>, imageUrl: string, currency: string, isActive: bool,
    displayOrder: Option<int>, durationOptions: seq<DurationOption>)

  /** The form's fields, all text except the switch and the list of options. */
  datatype ServiceForm = ServiceForm(
    name: string, description: string, imageUrl: string, currency: string, isActive: bool, displayOrder: string,
    durationOptions: seq<DurationOption>)

  /** The form of a new service. */
  const BlankForm: ServiceForm := ServiceForm([], [], [], "₪", true, [], DefaultOptions)

  /** `display_order ? parseInt(display_order) : null`, a NaN being written as null. */
  function DisplayOrder(text: string): (order: Option<int>)
    ensures text == [] ==> order.None?
    ensures order.Some? <==> text != [] && ParseInt(text).Finite?
    ensures order.Some? ==> order.value == ParseInt(text).n
  {
    if text == [] then None
    else match ParseInt(text)
      case Finite(n) => Some(n)
      case NaN => None
  }

  /** `display_order?.toString() || ""`. */
  function DisplayOrderText(order: Option<int>): (text: string)
    ensures text == [] <==> order.None?
  {
    match order
    case None => []
    case Some(n) => IntToString(n)
  }

  /** Any order written into the form reads back as itself. */
  lemma DisplayOrderRoundTrip(order: Option<int>)
    ensures DisplayOrder(DisplayOrderText(order)) == order
  {
    if order.Some? {
      var n := order.value;
      var m: nat := if n < 0 then -n else n;
      var s := NatToString(m);
      assert s + [] == s;
      NatToStringRoundTrip(m);
      if n >= 0 {
        ParseIntOfNumeral(s, []);
      } else {
        var t := "-" + s;
        TrimStartNoOp(t);
        assert AfterSign(t) == s;
        LeadingDigitsOfNumeral(s, []);
        assert !(|s| >= 2 && s[0] == '0');
      }
    }
  }

  /** `handleEdit`: the form shows the service, a missing text as empty and missing options as the defaults. */
  function EditForm(service: ServiceRow): (form: ServiceForm)
    ensures form.durationOptions == OptionsOrDefaults(service.durationOptions)
    ensures form.description == [] <==> service.description.None? || service.description == Some([])
  {
    ServiceForm(service.name, service.description.GetOr([]), service.imageUrl, service.currency, service.isActive,
                DisplayOrderText(service.displayOrder), OptionsOrDefaults(service.durationOptions))
  }

  /** The row `handleSubmit` writes: an empty description and an empty order become null. */
  function Payload(form: ServiceForm): (data: ServiceData)
    ensures data.description.None? <==> form.description == []
    ensures data.description.Some? ==> data.description.value == form.description
    ensures data.displayOrder == DisplayOrder(form.displayOrder)
    ensures data.durationOptions == form.durationOptions
  {
    ServiceData(form.name, if form.description == [] then None else Some(form.description), form.imageUrl,
                form.currency, form.isActive, DisplayOrder(form.displayOrder), form.durationOptions)
  }

  /**
   * Opening a service and saving it without changes writes back what it had, except that missing options
   * are saved as the defaults and an empty description as null.
   */
  lemma EditThenSaveKeepsService(service: ServiceRow)
    ensures Payload(EditForm(service)) == ServiceData(
      service.name, if service.description == Some([]) then None else service.description, service.imageUrl,
      service.currency, service.isActive, service.displayOrder, OptionsOrDefaults(service.durationOptions))
  {
    DisplayOrderRoundTrip(service.displayOrder);
  }

  /** The list as the screen shows it after a fetch: every service with its options or the defaults. */
  function WithDefaultOptions(rows: seq<ServiceRow>): (r: seq<ServiceRow>)
    ensures |r| == |rows|
    ensures forall j :: 0 <= j < |rows| ==>
      r[j] == rows[j].(durationOptions := Some(OptionsOrDefaults(rows[j].durationOptions)))
  {
    seq(|rows|, j requires 0 <= j < |rows| => rows[j].(durationOptions := Some(OptionsOrDefaults(rows[j].durationOptions))))
  }

  /** `toggleActive`: `.update({ is_active: !currentState }).eq('id', serviceId)`. */
  function ToggleActive(rows: seq<ServiceRow>, serviceId: string, currentState: bool): (r: seq<ServiceRow>)
    ensures |r| == |rows|
    ensures forall j :: 0 <= j < |rows| && rows[j].id == serviceId ==> r[j] == rows[j].(isActive := !currentState)
    ensures forall j :: 0 <= j < |rows| && rows[j].id != serviceId ==> r[j] == rows[j]
  {
    seq(|rows|, j requires 0 <= j < |rows| => if rows[j].id == serviceId then rows[j].(isActive := !currentState) else rows[j])
  }

  /** Pressing the switch twice on a service, each time with the state it shows, leaves the table as it was. */
  lemma ToggleTwiceRestores(rows: seq<ServiceRow>, k: nat)
    requires k < |rows|
    requires forall j :: 0 <= j < |rows| && rows[j].id == rows[k].id ==> rows[j].isActive == rows[k].isActive
    ensures var once := ToggleActive(rows, rows[k].id, rows[k].isActive);
      once[k].isActive == !rows[k].isActive && ToggleActive(once, rows[k].id, once[k].isActive) == rows
  {
  }

  /** `.delete().eq('id', id)`. */
  function WithoutService(rows: seq<ServiceRow>, id: string): (r: seq<ServiceRow>)
    ensures |r| <= |rows|
    ensures forall s :: s in r <==> s in rows && s.id != id
  {
    if rows == [] then []
    else (if rows[0].id != id then [rows[0]] else []) + WithoutService(rows[1..], id)
  }

  /** The screen: the listed services, the open form, and which service it edits (none for a new one). */
  class ServicesScreen {
    var services: seq<ServiceRow>
    var formData: ServiceForm
    var editingId: Option<string>
    var dialogOpen: bool

    constructor()
      ensures services == [] && formData == BlankForm && editingId.None? && !dialogOpen
    {
      services, formData, editingId, dialogOpen := [], BlankForm, None, false;
    }

    /** `fetchServices`: the fetched rows with defaults for missing options; a failed fetch keeps the list. */
    method OnServicesFetched(rows: seq<ServiceRow>, queryOk: bool)
      modifies this`services
      ensures services == if queryOk then WithDefaultOptions(rows) else old(services)
    {
      if queryOk {
        services := WithDefaultOptions(rows);
      }
    }

    /** `handleEdit`: the form is loaded with the service and the dialog opens. */
    method HandleEdit(service: ServiceRow)
      modifies this`formData, this`editingId, this`dialogOpen
      ensures formData == EditForm(service) && editingId == Some(service.id) && dialogOpen
    {
      editingId := Some(service.id);
      formData := EditForm(service);
      dialogOpen := true;
    }

    /** `resetForm`. */
    method ResetForm()
      modifies this`formData, this`editingId
      ensures formData == BlankForm && editingId.None?
    {
      formData := BlankForm;
      editingId := None;
    }

    /** The "add option" button. */
    method AddOption()
      modifies this`formData
      ensures formData == old(formData).(durationOptions := ApplyEdit(old(formData.durationOptions), OptionEdit.AddOption))
      ensures |formData.durationOptions| == |old(formData.durationOptions)| + 1
    {
      formData := formData.(durationOptions := formData.durationOptions + [EmptyOption]);
    }

    /** The remove button of the option at `index`: refused, with a warning, when it is the last one. */
    method RemoveOption(index: nat) returns (warned: bool)
      requires index < |formData.durationOptions|
      modifies this`formData
      ensures formData == old(formData).(durationOptions := ApplyEdit(old(formData.durationOptions), OptionEdit.RemoveOption(index)))
      ensures warned <==> |old(formData.durationOptions)| == 1
      ensures |formData.durationOptions| >= 1
    {
      var options := formData.durationOptions;
      if |options| > 1 {
        formData := formData.(durationOptions := options[..index] + options[index + 1..]);
        warned := false;
      } else {
        warned := true;
      }
    }

    /** Typing in the option's duration field. */
    method SetOptionValue(index: nat, value: string)
      requires index < |formData.durationOptions|
      modifies this`formData
      ensures formData == old(formData).(durationOptions := ApplyEdit(old(formData.durationOptions), SetValue(index, value)))
    {
      var options := formData.durationOptions;
      formData := formData.(durationOptions := options[index := options[index].(value := value)]);
    }

    /** Typing in the option's label field. */
    method SetOptionLabel(index: nat, labelText: string)
      requires index < |formData.durationOptions|
      modifies this`formData
      ensures formData == old(formData).(durationOptions := ApplyEdit(old(formData.durationOptions), SetLabel(index, labelText)))
    {
      var options := formData.durationOptions;
      formData := formData.(durationOptions := options[index := options[index].(labelText := labelText)]);
    }

    /** Typing in the option's price field, with the price already read by `PriceInput`. */
    method SetOptionPrice(index: nat, price: int)
      requires index < |formData.durationOptions|
      modifies this`formData
      ensures formData == old(formData).(durationOptions := ApplyEdit(old(formData.durationOptions), SetPrice(index, price)))
    {
      var options := formData.durationOptions;
      formData := formData.(durationOptions := options[index := options[index].(price := price)]);
    }

    /**
     * `handleSubmit`: the form's row is written, as an update of the edited service or as a new one; once
     * written, the form is reset and the dialog closes.
     */
    method HandleSubmit(writeOk: bool) returns (data: ServiceData, updates: Option<string>)
      modifies this`formData, this`editingId, this`dialogOpen
      ensures data == Payload(old(formData)) && updates == old(editingId)
      ensures writeOk ==> formData == BlankForm && editingId.None? && !dialogOpen
      ensures !writeOk ==> formData == old(formData) && editingId == old(editingId) && dialogOpen == old(dialogOpen)
    {
      data, updates := Payload(formData), editingId;
      if writeOk {
        ResetForm();
        dialogOpen := false;
      }
    }
  }
}
