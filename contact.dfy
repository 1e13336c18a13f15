/**
 * The pricing/contact form of the contact page: a fixed package catalog,
 * the seven form fields, the selected package, the in-flight flag of the
 * submit handler and the toast. The handlers are modelled as transitions
 * of a `FormState` value (the specification) and as methods of the class
 * `ContactPage`, whose fields the handlers overwrite.
 *
 * The asynchronous submit handler is split at its one `await`:
 * `BeginSubmit` runs up to the POST and returns the request body (or
 * nothing, when a submit is already in flight); `FinishSubmit(ok)` runs the
 * rest, with the outcome of the POST as its parameter.
 */
module Contact {
  import opened Wrappers
  import opened FormEntries

  // ---------------------------------------------------------------------------
  // The package catalog

  /** A pricing package (the fields the form logic reads). */
  datatype Package = Package(id: string, name: string, price: string, timeline: string)

  /** The four packages, in display order. */
  const Packages: seq<Package> := [
    Package("starter", "Starter Website", "$900 \U{2013} $1,500", "1\U{2013}2 weeks"),
    Package("business", "Business Website", "$1,800 \U{2013} $3,500", "2\U{2013}3 weeks"),
    Package("ecommerce", "eCommerce Website", "$3,000 \U{2013} $6,000+", "3\U{2013}5 weeks"),
    Package("custom", "Custom Web App", "Custom Quote", "Scoped per project")
  ]

  const DefaultPackageId: string := "starter"

  /** `ps.find(p => p.id === id)`: the first package with that id, if any. */
  function FindIn(ps: seq<Package>, id: string): Option<Package>
  {
    if ps == [] then None
    else if ps[0].id == id then Some(ps[0])
    else FindIn(ps[1..], id)
  }

  /** `find` answers nothing exactly when no package has the id, and otherwise a package with it. */
  lemma {:induction false} FindInSpec(ps: seq<Package>, id: string)
    ensures FindIn(ps, id).None? <==> forall p :: p in ps ==> p.id != id
    ensures FindIn(ps, id).Some? ==> FindIn(ps, id).value in ps && FindIn(ps, id).value.id == id
  {
    if ps != [] && ps[0].id != id {
      FindInSpec(ps[1..], id);
      assert forall p :: p in ps ==> p == ps[0] || p in ps[1..];
    }
  }

  /** `find` answers the FIRST package with the id: none before it has that id. */
  lemma {:induction false} FindInFirst(ps: seq<Package>, id: string)
    requires FindIn(ps, id).Some?
    ensures exists i :: 0 <= i < |ps| && ps[i] == FindIn(ps, id).value &&
                        forall j :: 0 <= j < i ==> ps[j].id != id
  {
    if ps[0].id != id {
      FindInFirst(ps[1..], id);
      var i :| 0 <= i < |ps[1..]| && ps[1..][i] == FindIn(ps, id).value &&
                forall j :: 0 <= j < i ==> ps[1..][j].id != id;
      assert ps[i + 1] == FindIn(ps, id).value;
      assert forall j :: 0 < j < i + 1 ==> ps[j] == ps[1..][j - 1];
    }
  }

  function Find(id: string): Option<Package>
  {
    FindIn(Packages, id)
  }

  /** Whether `id` names a catalog entry. */
  predicate InCatalog(id: string)
  {
    Find(id).Some?
  }

  /** Catalog ids are unique, so looking up any entry's id finds that entry. */
  lemma CatalogLookup(i: nat)
    requires i < |Packages|
    ensures Find(Packages[i].id) == Some(Packages[i])
  {
  }

  // ---------------------------------------------------------------------------
  // The form fields

  datatype Fields = Fields(
    name: string, email: string, company: string, projectType: string,
    budget: string, timeline: string, message: string)

  /** The `name` attributes of the form's inputs. */
  datatype FieldName = Name | Email | Company | ProjectType | Budget | Timeline | Message

  function Field(f: Fields, n: FieldName): string
  {
    match n
    case Name => f.name
    case Email => f.email
    case Company => f.company
    case ProjectType => f.projectType
    case Budget => f.budget
    case Timeline => f.timeline
    case Message => f.message
  }

  /** `{ ...prev, [n]: v }`: exactly field `n` takes the value `v`. */
  function WithField(f: Fields, n: FieldName, v: string): (r: Fields)
    ensures Field(r, n) == v
    ensures forall m :: m != n ==> Field(r, m) == Field(f, m)
  {
    match n
    case Name => f.(name := v)
    case Email => f.(email := v)
    case Company => f.(company := v)
    case ProjectType => f.(projectType := v)
    case Budget => f.(budget := v)
    case Timeline => f.(timeline := v)
    case Message => f.(message := v)
  }

  /** JavaScript's `s || fallback` on a string. */
  function OrElse(s: string, fallback: string): string
  {
    if s != "" then s else fallback
  }

  /** `defaultPkg?.price || "..."` and `defaultPkg?.timeline || "..."`. */
  function DefaultBudget(): string
  {
    match Find(DefaultPackageId)
    case Some(p) => OrElse(p.price, "$900 \U{2013} $1,500")
    case None => "$900 \U{2013} $1,500"
  }

  function DefaultTimeline(): string
  {
    match Find(DefaultPackageId)
    case Some(p) => OrElse(p.timeline, "1\U{2013}2 weeks")
    case None => "1\U{2013}2 weeks"
  }

  /** The initial (and after a successful submit, the reset) field values. */
  function InitialFields(): Fields
  {
    Fields("", "", "", "web-development", DefaultBudget(), DefaultTimeline(), "")
  }

  /** The defaults are the starter package's price and timeline, every text field empty. */
  lemma InitialFieldsAreStarter()
    ensures InitialFields().budget == Packages[0].price == "$900 \U{2013} $1,500"
    ensures InitialFields().timeline == Packages[0].timeline == "1\U{2013}2 weeks"
    ensures InitialFields().projectType == "web-development"
    ensures InitialFields().name == InitialFields().email == InitialFields().company == InitialFields().message == ""
  {
  }

  // ---------------------------------------------------------------------------
  // Toast, analytics, request body

  datatype ToastKind = NoToast | SuccessToast | ErrorToast

  datatype Toast = Toast(kind: ToastKind, msg: string)

  /** `{ type: null, msg: "" }` */
  const HiddenToast: Toast := Toast(NoToast, "")

  const SuccessMessage: string := "Thanks \U{2014} message received. I'll reply within 24 hours."

  const ErrorMessage: string :=
    "Submit failed. Please check your connection and try again, or email charlesboswell@boswellwebdevelopment.com."

  /** The analytics calls the form makes; what happens to them is not modelled. */
  datatype AnalyticsEvent =
    | TrackPackageSelection(packageName: string)
    | TrackContactFormSubmit(packageName: string)

  /** `selected?.name || ""` and `selected?.price || ""` for a package id. */
  function SelectedName(id: string): string
  {
    match Find(id)
    case Some(p) => OrElse(p.name, "")
    case None => ""
  }

  function SelectedPrice(id: string): string
  {
    match Find(id)
    case Some(p) => OrElse(p.price, "")
    case None => ""
  }

  /** The `data.set(...)` calls of the submit handler, in their order. */
  function PayloadUpdates(f: Fields, selected: string): seq<Entry>
  {
    [ Entry("form-name", "contact"),
      Entry("name", f.name),
      Entry("email", f.email),
      Entry("company", f.company),
      Entry("timeline", f.timeline),
      Entry("budget", f.budget),
      Entry("message", f.message),
      Entry("projectType", f.projectType),
      Entry("selectedPackageId", selected),
      Entry("selectedPackageName", SelectedName(selected)),
      Entry("selectedPackagePrice", SelectedPrice(selected)) ]
  }

  /** The keys the submit handler sets, in the order it sets them. */
  const PayloadKeys: seq<string> := [
    "form-name", "name", "email", "company", "timeline", "budget", "message",
    "projectType", "selectedPackageId", "selectedPackageName", "selectedPackagePrice"]

  predicate IsPayloadKey(k: string)
  {
    k in PayloadKeys
  }

  /**
   * The request body: the entries `new FormData(form)` reads from the form
   * element (`form`), then the handler's `set` calls.
   */
  function BuildPayload(form: seq<Entry>, f: Fields, selected: string): seq<Entry>
  {
    SetAll(form, PayloadUpdates(f, selected))
  }

  /** The handler's `set` calls are one per payload key, in the order of `PayloadKeys`, with no key twice. */
  lemma PayloadUpdateKeys(f: Fields, selected: string)
    ensures |PayloadUpdates(f, selected)| == |PayloadKeys|
    ensures forall j :: 0 <= j < |PayloadKeys| ==> PayloadUpdates(f, selected)[j].key == PayloadKeys[j]
    ensures DistinctKeys(PayloadUpdates(f, selected))
  {
  }

  /** The `j`-th key the handler sets occurs once in the body, with the value it was set to. */
  lemma PayloadEntry(form: seq<Entry>, f: Fields, selected: string, j: nat)
    requires j < |PayloadKeys|
    ensures Count(BuildPayload(form, f, selected), PayloadKeys[j]) == 1
    ensures Get(BuildPayload(form, f, selected), PayloadKeys[j]) == Some(PayloadUpdates(f, selected)[j].value)
  {
    PayloadUpdateKeys(f, selected);
    SetAllContents(form, PayloadUpdates(f, selected));
  }

  /** The package name and price sent: those of the found package, or empty when none is found. */
  lemma SelectedNameAndPrice(id: string)
    ensures SelectedName(id) == (if InCatalog(id) then Find(id).value.name else "")
    ensures SelectedPrice(id) == (if InCatalog(id) then Find(id).value.price else "")
    ensures InCatalog(id) ==> SelectedName(id) != "" && SelectedPrice(id) != ""
  {
    FindInSpec(Packages, id);
    if InCatalog(id) {
      var p := Find(id).value;
      var i :| 0 <= i < |Packages| && Packages[i] == p;
      assert p.name != "" && p.price != "" by {
        assert Packages[0].name != "" && Packages[1].name != "" && Packages[2].name != "" && Packages[3].name != "";
        assert Packages[0].price != "" && Packages[1].price != "" && Packages[2].price != "" && Packages[3].price != "";
      }
    }
  }

  /**
   * Each key the handler sets occurs once in the body, with the value taken
   * from the state.
   */
  lemma PayloadContents(form: seq<Entry>, f: Fields, selected: string)
    ensures var p := BuildPayload(form, f, selected);
      && Get(p, "form-name") == Some("contact")
      && Get(p, "name") == Some(f.name)
      && Get(p, "email") == Some(f.email)
      && Get(p, "company") == Some(f.company)
      && Get(p, "timeline") == Some(f.timeline)
      && Get(p, "budget") == Some(f.budget)
      && Get(p, "message") == Some(f.message)
      && Get(p, "projectType") == Some(f.projectType)
      && Get(p, "selectedPackageId") == Some(selected)
      && Get(p, "selectedPackageName") == Some(if InCatalog(selected) then Find(selected).value.name else "")
      && Get(p, "selectedPackagePrice") == Some(if InCatalog(selected) then Find(selected).value.price else "")
    ensures forall k :: IsPayloadKey(k) ==> Count(BuildPayload(form, f, selected), k) == 1
  {
    PayloadEntry(form, f, selected, 0);
    PayloadEntry(form, f, selected, 1);
    PayloadEntry(form, f, selected, 2);
    PayloadEntry(form, f, selected, 3);
    PayloadEntry(form, f, selected, 4);
    PayloadEntry(form, f, selected, 5);
    PayloadEntry(form, f, selected, 6);
    PayloadEntry(form, f, selected, 7);
    PayloadEntry(form, f, selected, 8);
    PayloadEntry(form, f, selected, 9);
    PayloadEntry(form, f, selected, 10);
    SelectedNameAndPrice(selected);
    forall k | IsPayloadKey(k) ensures Count(BuildPayload(form, f, selected), k) == 1 {
      var j :| 0 <= j < |PayloadKeys| && PayloadKeys[j] == k;
      PayloadEntry(form, f, selected, j);
    }
  }

  /** Every entry of the form element under a key the handler does not set is sent as read. */
  lemma PayloadKeepsFormEntries(form: seq<Entry>, f: Fields, selected: string, k: string)
    requires !IsPayloadKey(k)
    ensures Count(BuildPayload(form, f, selected), k) == Count(form, k)
    ensures Get(BuildPayload(form, f, selected), k) == Get(form, k)
    ensures Only(BuildPayload(form, f, selected), k) == Only(form, k)
  {
    var ups := PayloadUpdates(f, selected);
    PayloadUpdateKeys(f, selected);
    forall j | 0 <= j < |ups| ensures ups[j].key != k {
      assert ups[j].key == PayloadKeys[j];
    }
    SetAllContents(form, ups);
    OnlySetAll(form, ups, k);
  }

  // ---------------------------------------------------------------------------
  // The state and its transitions

  /**
   * The component's state. `pendingPackage` is the `selectedPackage` the
   * running submit handler closed over (its analytics call uses it).
   */
  datatype FormState = FormState(
    selectedPackage: string,
    fields: Fields,
    submitting: bool,
    toast: Toast,
    pendingPackage: string,
    events: seq<AnalyticsEvent>)

  /** The state invariant: the selected package always names a catalog entry. */
  predicate ValidState(s: FormState)
  {
    InCatalog(s.selectedPackage) && InCatalog(s.pendingPackage)
  }

  function InitialState(): FormState
  {
    FormState(DefaultPackageId, InitialFields(), false, HiddenToast, DefaultPackageId, [])
  }

  /** `handleInputChange`. */
  function AfterInputChange(s: FormState, n: FieldName, v: string): FormState
  {
    s.(fields := WithField(s.fields, n, v))
  }

  /** `handlePackageSelect`. */
  function AfterPackageSelect(s: FormState, id: string): FormState
  {
    match Find(id)
    case None => s
    case Some(p) =>
      s.(selectedPackage := id,
         fields := s.fields.(budget := p.price,
                             projectType := if id == "ecommerce" then "ecommerce" else "web-development",
                             timeline := p.timeline),
         events := s.events + [TrackPackageSelection(p.name)])
  }

  /** `handleSubmit` up to the POST: the state it leaves. */
  function AfterSubmitStart(s: FormState): FormState
  {
    if s.submitting then s
    else s.(submitting := true, toast := HiddenToast, pendingPackage := s.selectedPackage)
  }

  /**
   * `handleSubmit` up to the POST: the request body it sends, if any.
   * `form` is what `new FormData(formEl)` reads from the form element.
   */
  function SubmitRequest(s: FormState, form: seq<Entry>): Option<seq<Entry>>
  {
    if s.submitting then None else Some(BuildPayload(form, s.fields, s.selectedPackage))
  }

  /** `handleSubmit` after the POST: `ok` is false for a non-OK status or a thrown exception. */
  function AfterSubmitEnd(s: FormState, ok: bool): FormState
  {
    if ok then
      s.(submitting := false,
         toast := Toast(SuccessToast, SuccessMessage),
         fields := InitialFields(),
         selectedPackage := DefaultPackageId,
         events := s.events + [TrackContactFormSubmit(OrElse(SelectedName(s.pendingPackage), "no_package_selected"))])
    else
      s.(submitting := false, toast := Toast(ErrorToast, ErrorMessage))
  }

  /** The auto-hide timer of the toast firing. */
  function AfterToastTimeout(s: FormState): FormState
  {
    s.(toast := HiddenToast)
  }

  // ---------------------------------------------------------------------------
  // Properties of the transitions

  lemma InitialStateValid()
    ensures ValidState(InitialState())
    ensures InitialState().selectedPackage == "starter" && !InitialState().submitting
  {
  }

  /** Every transition keeps the selected package inside the catalog. */
  lemma TransitionsPreserveValid(s: FormState, n: FieldName, v: string, id: string, ok: bool)
    requires ValidState(s)
    ensures ValidState(AfterInputChange(s, n, v))
    ensures ValidState(AfterPackageSelect(s, id))
    ensures ValidState(AfterSubmitStart(s))
    ensures ValidState(AfterSubmitEnd(s, ok))
    ensures ValidState(AfterToastTimeout(s))
  {
  }

  /** An edit sets exactly one field, to any string (the empty one included), and nothing else. */
  lemma InputChangeEffect(s: FormState, n: FieldName, v: string)
    ensures var t := AfterInputChange(s, n, v);
      && Field(t.fields, n) == v
      && (forall m :: m != n ==> Field(t.fields, m) == Field(s.fields, m))
      && t.(fields := s.fields) == s
  {
  }

  /** Selecting a catalog package copies its price and timeline and sets the project type. */
  lemma SelectKnownPackage(s: FormState, i: nat)
    requires i < |Packages|
    ensures var p := Packages[i];
      var t := AfterPackageSelect(s, p.id);
      && t.selectedPackage == p.id
      && t.fields.budget == p.price
      && t.fields.timeline == p.timeline
      && (t.fields.projectType == "ecommerce" <==> p.id == "ecommerce")
      && (t.fields.projectType != "ecommerce" ==> t.fields.projectType == "web-development")
      && t.fields.name == s.fields.name && t.fields.email == s.fields.email
      && t.fields.company == s.fields.company && t.fields.message == s.fields.message
      && t.submitting == s.submitting && t.toast == s.toast
      && t.events == s.events + [TrackPackageSelection(p.name)]
  {
  }

  /** An id outside the catalog changes nothing, analytics included. */
  lemma SelectUnknownPackage(s: FormState, id: string)
    requires forall i :: 0 <= i < |Packages| ==> Packages[i].id != id
    ensures AfterPackageSelect(s, id) == s
  {
    FindInSpec(Packages, id);
  }

  /** Selecting the same id twice gives the state of selecting it once (only the analytics call repeats). */
  lemma SelectTwice(s: FormState, id: string)
    ensures var once := AfterPackageSelect(s, id);
      var twice := AfterPackageSelect(once, id);
      && twice.(events := once.events) == once
      && (InCatalog(id) ==> twice.events == once.events + [TrackPackageSelection(Find(id).value.name)])
  {
  }

  /** While a submit is in flight, another one sends nothing and changes nothing. */
  lemma SubmitReentryIgnored(s: FormState, form: seq<Entry>)
    requires s.submitting
    ensures AfterSubmitStart(s) == s && SubmitRequest(s, form) == None
  {
  }

  /** Otherwise the flag is raised, the toast cleared and exactly one request body built from the state. */
  lemma SubmitStarts(s: FormState, form: seq<Entry>)
    requires !s.submitting
    ensures var t := AfterSubmitStart(s);
      && t.submitting
      && t.toast == HiddenToast
      && t.fields == s.fields && t.selectedPackage == s.selectedPackage
      && SubmitRequest(s, form) == Some(BuildPayload(form, s.fields, s.selectedPackage))
      && Get(SubmitRequest(s, form).value, "selectedPackageId") == Some(s.selectedPackage)
  {
    PayloadContents(form, s.fields, s.selectedPackage);
  }

  /** A successful POST resets the form and the selection to their initial values. */
  lemma SubmitSucceeds(s: FormState)
    requires ValidState(s) && !s.submitting
    ensures var t := AfterSubmitEnd(AfterSubmitStart(s), true);
      && !t.submitting
      && t.fields == InitialState().fields
      && t.selectedPackage == InitialState().selectedPackage
      && t.toast == Toast(SuccessToast, SuccessMessage)
      && t.events == s.events + [TrackContactFormSubmit(Find(s.selectedPackage).value.name)]
  {
    SelectedNameAndPrice(s.selectedPackage);
  }

  /** A failed POST (non-OK status or exception) keeps the user's input and shows the error toast. */
  lemma SubmitFails(s: FormState)
    requires !s.submitting
    ensures var t := AfterSubmitEnd(AfterSubmitStart(s), false);
      && !t.submitting
      && t.fields == s.fields
      && t.selectedPackage == s.selectedPackage
      && t.toast == Toast(ErrorToast, ErrorMessage)
      && t.events == s.events
  {
  }

  // ---------------------------------------------------------------------------
  // The component

  class ContactPage {
    var selectedPackage: string
    var formData: Fields
    var submitting: bool
    var toast: Toast
    var pendingPackage: string
    var tracked: seq<AnalyticsEvent>

    function State(): FormState
      reads this
    {
      FormState(selectedPackage, formData, submitting, toast, pendingPackage, tracked)
    }

    ghost predicate Valid()
      reads this
    {
      ValidState(State())
    }

    constructor ()
      ensures State() == InitialState() && Valid()
    {
      selectedPackage := DefaultPackageId;
      formData := InitialFields();
      submitting := false;
      toast := HiddenToast;
      pendingPackage := DefaultPackageId;
      tracked := [];
      InitialStateValid();
    }

    method HandleInputChange(n: FieldName, v: string)
      requires Valid()
      modifies this
      ensures State() == AfterInputChange(old(State()), n, v) && Valid()
    {
      formData := WithField(formData, n, v);
    }

    method HandlePackageSelect(id: string)
      requires Valid()
      modifies this
      ensures State() == AfterPackageSelect(old(State()), id) && Valid()
    {
      ghost var before := State();
      var selected := Find(id);
      if selected.None? {
        return;
      }
      var p := selected.value;
      selectedPackage := id;
      formData := formData.(budget := p.price,
                            projectType := if id == "ecommerce" then "ecommerce" else "web-development",
                            timeline := p.timeline);
      tracked := tracked + [TrackPackageSelection(p.name)];
      assert State() == AfterPackageSelect(before, id);
      assert ValidState(before) && InCatalog(id);
    }

    /** The submit handler up to the POST; `request` is the body sent, if any. */
    method BeginSubmit(form: seq<Entry>) returns (request: Option<seq<Entry>>)
      requires Valid()
      modifies this
      ensures State() == AfterSubmitStart(old(State())) && Valid()
      ensures request == SubmitRequest(old(State()), form)
    {
      if submitting {
        return None;
      }
      ghost var before := State();
      var data := BuildPayload(form, formData, selectedPackage);
      var params := ToSearchParams(data);
      request := Some(params);
      submitting := true;
      toast := HiddenToast;
      pendingPackage := selectedPackage;
      assert State() == AfterSubmitStart(before);
      assert ValidState(before);
    }

    /** The submit handler after the POST, with its outcome. */
    method FinishSubmit(ok: bool)
      requires Valid() && submitting
      modifies this
      ensures State() == AfterSubmitEnd(old(State()), ok) && Valid()
    {
      ghost var before := State();
      if ok {
        var packageName := OrElse(SelectedName(pendingPackage), "no_package_selected");
        tracked := tracked + [TrackContactFormSubmit(packageName)];
        toast := Toast(SuccessToast, SuccessMessage);
        formData := InitialFields();
        selectedPackage := DefaultPackageId;
      } else {
        toast := Toast(ErrorToast, ErrorMessage);
      }
      submitting := false;
      assert State() == AfterSubmitEnd(before, ok);
    }

    /** The toast's auto-hide timer firing. */
    method HideToast()
      requires Valid()
      modifies this
      ensures State() == AfterToastTimeout(old(State())) && Valid()
    {
      toast := HiddenToast;
    }
  }
}
