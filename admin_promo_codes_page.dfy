/** The admin promo codes page (app/admin/promo-codes/page.jsx): the creation form and
    the request it sends, and the list of codes kept in step with creations and
    deletions. */
module AdminPromoCodesPage {
  import opened Wrappers
  import Text
  import Seqs
  import opened PromoCodeModel
  import PromoValidateRoute
  import AdminPromoCodesRoute

  /** A form field that starts out as the number 0 and holds the typed text once the
      administrator edits it. */
  datatype NumberField = Num(n: int) | Typed(text: string)

  /** JavaScript truthiness of the field: 0 and the empty string are falsy, any typed
      text (even "0") is truthy. */
  predicate FieldTruthy(v: NumberField) {
    match v
    case Num(n) => n != 0
    case Typed(t) => t != ""
  }

  /** `parseInt(v)`: a number parses to itself (through its decimal rendering), text by
      the rules of `parseInt`; `None` is `NaN`. */
  function ParseField(v: NumberField): Option<int> {
    match v
    case Num(n) => Text.ParseInt(Text.IntToString(n))
    case Typed(t) => Text.ParseInt(t)
  }

  datatype FormData = FormData(
    code: string,
    discountType: DiscountType,
    discountValue: NumberField,
    maxDiscount: string,
    minPurchaseAmount: string,
    expiryDate: string,
    usageLimit: string)

  /** The state the form starts in and returns to (lines 14-22 and 44-53). */
  const InitialForm := FormData("", Percentage, Num(0), "", "", "", "")

  datatype FormError = MissingRequired | InvalidDate

  function Message(e: FormError): string {
    match e
    case MissingRequired => "Please fill all required fields"
    case InvalidDate => "Error creating promo code"
  }

  /** Line 61: `code`, `discountValue` or `expiryDate` is falsy. */
  predicate MissingRequiredField(f: FormData) {
    f.code == "" || !FieldTruthy(f.discountValue) || f.expiryDate == ""
  }

  /** An optional number field: empty becomes `undefined`, anything else `parseInt`
      (whose `NaN` the JSON body carries as null). */
  function OptionalNumber(s: string): Option<int> {
    if s != "" then Text.ParseInt(s) else None
  }

  /** Lines 61-75. `expiry` is the time the date input denotes, `None`
      when that is an invalid date (and `toISOString` throws). */
  function BuildPayload(f: FormData, expiry: Option<int>): (r: Result<AdminPromoCodesRoute.CreateRequest, FormError>)
    ensures r == Err(MissingRequired) <==> MissingRequiredField(f)
    ensures r == Err(InvalidDate) <==> !MissingRequiredField(f) && expiry.None?
    ensures r.Ok? ==>
      && r.value.code == Text.ToUpper(f.code) && Text.IsUpperCase(r.value.code)
      && r.value.discountType == Some(f.discountType)
      && r.value.discountValue == ParseField(f.discountValue)
      && r.value.expiryDate == expiry
    ensures r.Ok? && f.maxDiscount == "" ==> r.value.maxDiscount.None?
    ensures r.Ok? && f.usageLimit == "" ==> r.value.usageLimit.None?
    ensures r.Ok? && f.minPurchaseAmount == "" ==> r.value.minPurchaseAmount == Some(0)
  {
    if MissingRequiredField(f) then Err(MissingRequired)
    else if expiry.None? then Err(InvalidDate)
    else
      Text.ToUpperIsUpperCase(f.code);
      Ok(AdminPromoCodesRoute.CreateRequest(
        Text.ToUpper(f.code), Some(f.discountType), ParseField(f.discountValue),
        OptionalNumber(f.maxDiscount),
        if f.minPurchaseAmount != "" then Text.ParseInt(f.minPurchaseAmount) else Some(0),
        expiry, OptionalNumber(f.usageLimit)))
  }

  /** The untouched discount value 0 counts as missing, but a typed "0" does not: it
      passes the form check and is sent as 0. */
  lemma ZeroDiscountValue(f: FormData, expiry: int)
    ensures BuildPayload(f.(discountValue := Num(0)), Some(expiry)) == Err(MissingRequired)
    ensures f.code != "" && f.expiryDate != "" ==>
      var r := BuildPayload(f.(discountValue := Typed("0")), Some(expiry));
      r.Ok? && r.value.discountValue == Some(0)
  {
    assert Text.AllDigits("0") && Text.DigitsValue("0") == 0;
    Text.ParseIntOfDigits("0");
  }

  /** An optional field holding a number typed in decimal denotes that number. */
  lemma OptionalNumberOfIntToString(n: int)
    ensures OptionalNumber(Text.IntToString(n)) == Some(n)
  {
    assert Text.IntToString(n) != "" by {
      if n < 0 {
        assert |Text.IntToString(n)| == 1 + |Text.NatToString(-n)|;
      }
    }
    Text.ParseIntOfIntToString(n);
  }

  /** Numbers typed in decimal reach the request as those numbers. */
  lemma TypedNumbersArrive(f: FormData, expiry: int, value: int, max: int, min: int, limit: int)
    requires f.code != "" && f.expiryDate != ""
    requires f.discountValue == Typed(Text.IntToString(value))
    requires f.maxDiscount == Text.IntToString(max)
    requires f.minPurchaseAmount == Text.IntToString(min)
    requires f.usageLimit == Text.IntToString(limit)
    ensures var r := BuildPayload(f, Some(expiry));
      && r.Ok? && r.value.discountValue == Some(value) && r.value.maxDiscount == Some(max)
      && r.value.minPurchaseAmount == Some(min) && r.value.usageLimit == Some(limit)
  {
    Text.ParseIntOfIntToString(value);
    OptionalNumberOfIntToString(max);
    OptionalNumberOfIntToString(min);
    OptionalNumberOfIntToString(limit);
    assert !MissingRequiredField(f);
  }

  /** The server stores the code exactly as the form sends it, since it is already upper
      case. */
  lemma ServerKeepsSentCode(f: FormData, expiry: Option<int>)
    requires BuildPayload(f, expiry).Ok?
    ensures var body := BuildPayload(f, expiry).value;
      AdminPromoCodesRoute.FieldsFor(body).code == body.code
  {
    Text.ToUpperFixesUpperCase(Text.ToUpper(f.code));
  }

  /** Line 304: the row is shown as expired when its expiry lies before now. */
  predicate IsExpired(p: PromoCode, now: int) { p.expiryDate < now }

  /** The row is marked expired at exactly the times the validation handler rejects the
      code as expired; at the expiry instant itself it is neither. */
  lemma ShownExpiredIffRejected(p: PromoCode, now: int)
    ensures IsExpired(p, now) <==> PromoValidateRoute.IsExpiredAt(p, now)
    ensures !IsExpired(p, p.expiryDate)
  {
  }

  /** Line 340: "used/limit", the limit shown as ∞ when it is unset or 0. */
  function UsageLabel(p: PromoCode): string {
    Text.IntToString(p.usageCount) + "/"
      + if Truthy(p.usageLimit) then Text.IntToString(p.usageLimit.value) else "∞"
  }

  /** The label ends in ∞ exactly when the limit is falsy, and starts with the count. */
  lemma UsageLabelShowsLimit(p: PromoCode)
    ensures var s := UsageLabel(p);
      |s| >= 1 && (s[|s| - 1] == '∞' <==> !Truthy(p.usageLimit))
    ensures var c := Text.IntToString(p.usageCount);
      |UsageLabel(p)| > |c| && UsageLabel(p)[..|c| + 1] == c + "/"
  {
    if Truthy(p.usageLimit) {
      Text.IntToStringEndsInDigit(p.usageLimit.value);
      var s := UsageLabel(p);
      var l := Text.IntToString(p.usageLimit.value);
      assert s[|s| - 1] == l[|l| - 1];
    }
  }

  /** The inputs whose change handler stores the typed text unchanged. */
  datatype InputField = DiscountValueInput | MaxDiscountInput | MinPurchaseInput | ExpiryInput | UsageLimitInput

  function WithInput(f: FormData, field: InputField, value: string): FormData {
    match field
    case DiscountValueInput => f.(discountValue := Typed(value))
    case MaxDiscountInput => f.(maxDiscount := value)
    case MinPurchaseInput => f.(minPurchaseAmount := value)
    case ExpiryInput => f.(expiryDate := value)
    case UsageLimitInput => f.(usageLimit := value)
  }

  /** How the create request ended: the created record, a refusal with the body's
      `error` (if any), or a thrown `fetch`. */
  datatype CreateResponse = Created(promo: PromoCode) | Refused(error: Option<string>) | CreateNetworkFailure

  /** The text the form shows for a refused create (line 91): the body's `error` when
      it is truthy, otherwise "Failed to create promo code". */
  function RefusalText(error: Option<string>): (m: string)
    ensures error.Some? && error.value != "" ==> m == error.value
    ensures error.None? || error.value == "" ==> m == "Failed to create promo code"
    ensures m != ""
  {
    if error.Some? && error.value != "" then error.value else "Failed to create promo code"
  }

  /** The create handler's refusal reaches the form as its own `error` text: a duplicate
      shows "Promo code already exists", a failed save its message, or the page's
      fallback when that message is empty. */
  lemma RouteRefusalShown(e: AdminPromoCodesRoute.CreateError)
    ensures e.CodeExists? ==>
      RefusalText(Some(AdminPromoCodesRoute.Message(e))) == "Promo code already exists"
    ensures e.SaveFailed? && e.message != "" ==>
      RefusalText(Some(AdminPromoCodesRoute.Message(e))) == e.message
    ensures e.SaveFailed? && e.message == "" ==>
      RefusalText(Some(AdminPromoCodesRoute.Message(e))) == "Failed to create promo code"
  {
  }

  /** How a confirmed delete ended: done, or refused or failed. */
  datatype DeleteOutcome = Deleted | DeleteFailed

  /** The body of `GET /api/admin/promo-codes`: a list, or something else. */
  datatype FetchResponse = Listed(codes: seq<PromoCode>) | NotAList | FetchFailed

  class PromoCodesPage {
    var promoCodes: seq<PromoCode>
    var loading: bool
    var showForm: bool
    var formError: string
    var formData: FormData
    /** The list a pending create started from: `handleSubmit` closes over the
        `promoCodes` of the render it belongs to and prepends to that list. */
    var submitBase: seq<PromoCode>
    /** The id and starting list of a pending delete, captured the same way by
        `handleDelete`. */
    var deleteId: string
    var deleteBase: seq<PromoCode>

    constructor ()
      ensures promoCodes == [] && loading && !showForm && formError == "" && formData == InitialForm
    {
      promoCodes := [];
      submitBase := [];
      deleteId := "";
      deleteBase := [];
      loading := true;
      showForm := false;
      formError := "";
      formData := InitialForm;
    }
    /** The pending creates and deletes keep what they captured. */
    twostate predicate PendingKept()
      reads this
    {
      submitBase == old(submitBase) && deleteId == old(deleteId) && deleteBase == old(deleteBase)
    }

    /** `fetchPromoCodes` once the request ends (lines 28-38). */
    method OnFetched(resp: FetchResponse)
      modifies this
      ensures promoCodes == match resp
        case Listed(codes) => codes
        case NotAList => []
        case FetchFailed => old(promoCodes)
      ensures !loading
      ensures showForm == old(showForm) && formError == old(formError) && formData == old(formData)
      ensures PendingKept()
    {
      match resp {
        case Listed(codes) => promoCodes := codes;
        case NotAList => promoCodes := [];
        case FetchFailed =>
      }
      loading := false;
    }

    /** The "Add Promo Code" button (line 125). */
    method ToggleForm()
      modifies this
      ensures showForm == !old(showForm)
      ensures promoCodes == old(promoCodes) && loading == old(loading)
      ensures formError == old(formError) && formData == old(formData)
      ensures PendingKept()
    {
      showForm := !showForm;
    }

    /** Typing in the code field (line 154): the text is upper-cased. */
    method SetCode(value: string)
      modifies this
      ensures formData == old(formData).(code := Text.ToUpper(value))
      ensures Text.IsUpperCase(formData.code)
      ensures promoCodes == old(promoCodes) && loading == old(loading)
      ensures showForm == old(showForm) && formError == old(formError)
      ensures PendingKept()
    {
      Text.ToUpperIsUpperCase(value);
      formData := formData.(code := Text.ToUpper(value));
    }

    /** `handleInputChange(field, value)` (lines 40-42) for the number, limit and date
        inputs: the one field takes the typed text, the others stay. */
    method SetInput(field: InputField, value: string)
      modifies this
      ensures formData == WithInput(old(formData), field, value)
      ensures promoCodes == old(promoCodes) && loading == old(loading)
      ensures showForm == old(showForm) && formError == old(formError)
      ensures PendingKept()
    {
      formData := WithInput(formData, field, value);
    }

    /** The discount type select (line 165). */
    method SetDiscountType(t: DiscountType)
      modifies this
      ensures formData == old(formData).(discountType := t)
      ensures promoCodes == old(promoCodes) && loading == old(loading)
      ensures showForm == old(showForm) && formError == old(formError)
      ensures PendingKept()
    {
      formData := formData.(discountType := t);
    }

    /** `resetForm` (lines 44-55). */
    method ResetForm()
      modifies this
      ensures formData == InitialForm && formError == ""
      ensures formData.discountType == Percentage && formData.discountValue == Num(0)
      ensures formData.code == "" && formData.expiryDate == ""
      ensures promoCodes == old(promoCodes) && loading == old(loading) && showForm == old(showForm)
      ensures PendingKept()
    {
      formData := InitialForm;
      formError := "";
    }

    /** The form's Cancel button (lines 249-252): the form is hidden and reset. */
    method Cancel()
      modifies this
      ensures !showForm && formData == InitialForm && formError == ""
      ensures promoCodes == old(promoCodes) && loading == old(loading)
      ensures PendingKept()
    {
      showForm := false;
      ResetForm();
    }

    /** The first half of `handleSubmit` (lines 57-81), up to the request it sends. A
        sent request remembers the list it started from. */
    method StartSubmit(expiry: Option<int>) returns (req: Option<AdminPromoCodesRoute.CreateRequest>)
      modifies this
      ensures MissingRequiredField(old(formData)) ==>
        req.None? && formError == "Please fill all required fields"
      ensures !MissingRequiredField(old(formData)) && expiry.None? ==>
        req.None? && formError == "Error creating promo code"
      ensures !MissingRequiredField(old(formData)) && expiry.Some? ==>
        req.Some? && req == Some(BuildPayload(old(formData), expiry).value) && formError == ""
      ensures req.Some? ==> submitBase == old(promoCodes)
      ensures req.None? ==> submitBase == old(submitBase)
      ensures promoCodes == old(promoCodes) && loading == old(loading)
      ensures showForm == old(showForm) && formData == old(formData)
      ensures deleteId == old(deleteId) && deleteBase == old(deleteBase)
    {
      var payload := BuildPayload(formData, expiry);
      if payload.Ok? {
        formError := "";
        submitBase := promoCodes;
        req := Some(payload.value);
      } else {
        formError := Message(payload.error);
        req := None;
      }
    }

    /** The second half of `handleSubmit` (lines 83-96). A created promo goes to the
        front of the list the request started from, which keeps its order, and the form
        is reset and hidden; otherwise the list stays and the error is shown. */
    method CompleteSubmit(resp: CreateResponse)
      modifies this
      ensures resp.Created? ==>
        && promoCodes == [resp.promo] + old(submitBase)
        && formData == InitialForm && formError == "" && !showForm
      ensures resp.Refused? ==>
        && promoCodes == old(promoCodes) && formData == old(formData) && showForm == old(showForm)
        && formError == RefusalText(resp.error)
      ensures resp.CreateNetworkFailure? ==>
        && promoCodes == old(promoCodes) && formData == old(formData) && showForm == old(showForm)
        && formError == "Error creating promo code"
      ensures loading == old(loading)
      ensures PendingKept()
    {
      match resp {
        case Created(p) =>
          promoCodes := [p] + submitBase;
          ResetForm();
          showForm := false;
        case Refused(message) =>
          formError := RefusalText(message);
        case CreateNetworkFailure =>
          formError := "Error creating promo code";
      }
    }

    /** The first half of `handleDelete(id)` (lines 99-102): the confirmation, and for a
        confirmed delete the request, which remembers the id and the list it started
        from. */
    method StartDelete(id: string, confirmed: bool) returns (sent: bool)
      modifies this
      ensures sent == confirmed
      ensures confirmed ==> deleteId == id && deleteBase == old(promoCodes)
      ensures !confirmed ==> deleteId == old(deleteId) && deleteBase == old(deleteBase)
      ensures promoCodes == old(promoCodes) && loading == old(loading) && showForm == old(showForm)
      ensures formError == old(formError) && formData == old(formData)
      ensures submitBase == old(submitBase)
    {
      if confirmed {
        deleteId := id;
        deleteBase := promoCodes;
      }
      sent := confirmed;
    }

    /** The second half of `handleDelete` (lines 103-113): after a successful delete the
        list is the starting list without exactly the records with that id, the others
        keeping their order and multiplicity; otherwise nothing changes. */
    method CompleteDelete(outcome: DeleteOutcome)
      modifies this
      ensures outcome == DeleteFailed ==> promoCodes == old(promoCodes)
      ensures outcome == Deleted ==>
        && Seqs.IsSubsequence(promoCodes, old(deleteBase))
        && (forall i :: 0 <= i < |promoCodes| ==> promoCodes[i].id != old(deleteId))
        && (forall p :: multiset(promoCodes)[p] ==
              if p.id != old(deleteId) then multiset(old(deleteBase))[p] else 0)
      ensures loading == old(loading) && showForm == old(showForm)
      ensures formError == old(formError) && formData == old(formData)
      ensures PendingKept()
    {
      if outcome == Deleted {
        var id := deleteId;
        promoCodes := Seqs.Filter(deleteBase, (p: PromoCode) => p.id != id);
      }
    }
  }

  /** A create that was pending while a delete completed puts the deleted record back:
      the create's completion builds on the list from before the delete. */
  method StaleListExample(p: PromoCode, q: PromoCode)
  {
    var page := new PromoCodesPage();
    page.OnFetched(Listed([q]));
    page.formData := FormData("SAVE10", Percentage, Typed("10"), "", "", "2030-01-01", "");
    var req := page.StartSubmit(Some(0));
    assert req.Some? && page.submitBase == [q];
    var sent := page.StartDelete(q.id, true);
    page.CompleteDelete(Deleted);
    assert q !in page.promoCodes && page.submitBase == [q];
    page.CompleteSubmit(Created(p));
    assert page.promoCodes == [p] + [q];
  }
}
