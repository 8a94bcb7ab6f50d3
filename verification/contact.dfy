/**
 * The order form of the contact page: the per-field validators, the error
 * map and its maintenance, the submit guards in their order, the reset after
 * a successful send, the query-parameter defaults and the submit label.
 * Messages come in English and Arabic; `isAr` selects Arabic (the `ar` and
 * `eg` languages).
 */
module Contact {
  import opened Wrappers
  import opened Strings
  import opened Query
  import opened Types

  // ---------------------------------------------------------------------------
  // Form fields
  // ---------------------------------------------------------------------------

  datatype Field =
    | Name | Email | Phone | Address | BrandName | BrandWebsite | BrandSocial
    | Quantity | Shape | Technique | Embroidery | Size | Color | Notes

  /** The values of the fourteen form fields. */
  datatype OrderDetails = OrderDetails(
    name: string, email: string, phone: string, address: string,
    brandName: string, brandWebsite: string, brandSocial: string, quantity: string,
    shape: string, technique: string, embroidery: string,
    size: string, color: string, notes: string)
  {
    function Get(f: Field): string {
      match f
      case Name => name
      case Email => email
      case Phone => phone
      case Address => address
      case BrandName => brandName
      case BrandWebsite => brandWebsite
      case BrandSocial => brandSocial
      case Quantity => quantity
      case Shape => shape
      case Technique => technique
      case Embroidery => embroidery
      case Size => size
      case Color => color
      case Notes => notes
    }

    /** `{ ...details, [f]: v }`: only field `f` changes. */
    function Set(f: Field, v: string): (r: OrderDetails)
      ensures r.Get(f) == v
      ensures forall g :: g != f ==> r.Get(g) == Get(g)
    {
      match f
      case Name => this.(name := v)
      case Email => this.(email := v)
      case Phone => this.(phone := v)
      case Address => this.(address := v)
      case BrandName => this.(brandName := v)
      case BrandWebsite => this.(brandWebsite := v)
      case BrandSocial => this.(brandSocial := v)
      case Quantity => this.(quantity := v)
      case Shape => this.(shape := v)
      case Technique => this.(technique := v)
      case Embroidery => this.(embroidery := v)
      case Size => this.(size := v)
      case Color => this.(color := v)
      case Notes => this.(notes := v)
    }
  }

  /** The empty form: every field blank except the three catalogue filters. */
  const EmptyDetails := OrderDetails("", "", "", "", "", "", "", "", "all", "all", "all", "", "", "")

  /** The fields that must not be blank. */
  const RequiredFields: seq<Field> := [Name, Email, Phone, Address, BrandName, Size]

  /** The fields the whole-form check validates: the required ones, then the
      brand website and social link, then the quantity. */
  const CheckedFields: seq<Field> := RequiredFields + [BrandWebsite, BrandSocial, Quantity]

  // ---------------------------------------------------------------------------
  // Field rules
  // ---------------------------------------------------------------------------

  /** No `@` and no white space. */
  predicate NoAtOrSpace(s: string) {
    forall k :: 0 <= k < |s| ==> s[k] != '@' && !IsJsSpace(s[k])
  }

  /** `s` reads `local@domain.tld` with `@` at `i` and the `.` at `j`, every part
      non-empty and free of `@` and white space. */
  predicate EmailSplit(s: string, i: int, j: int) {
    && 0 < i && i + 1 < j && j + 1 < |s|
    && s[i] == '@' && s[j] == '.'
    && NoAtOrSpace(s[..i]) && NoAtOrSpace(s[i + 1..j]) && NoAtOrSpace(s[j + 1..])
  }

  /** The e-mail pattern `^[^@\s]+@[^@\s]+\.[^@\s]+$`. */
  ghost predicate MatchesEmailPattern(s: string) {
    exists i, j :: EmailSplit(s, i, j)
  }

  predicate NoSpace(s: string) {
    forall k :: 0 <= k < |s| ==> !IsJsSpace(s[k])
  }

  /** The e-mail check as computed: no white space, one `@` that is not
      first, and a `.` after the character following it, before the last. */
  function IsEmail(s: string): bool {
    var at := IndexOf(s, '@');
    && NoSpace(s)
    && at.Some? && at.value > 0
    && '@' !in s[at.value + 1..]
    && at.value + 2 <= |s| - 1
    && '.' in s[at.value + 2..|s| - 1]
  }

  /** The computed check accepts exactly the strings the pattern matches. */
  lemma IsEmailMatchesPattern(s: string)
    ensures IsEmail(s) <==> MatchesEmailPattern(s)
  {
    if IsEmail(s) {
      var i := IndexOf(s, '@').value;
      var mid := s[i + 2..|s| - 1];
      var m :| 0 <= m < |mid| && mid[m] == '.';
      var j := i + 2 + m;
      assert s[j] == '.';
      assert forall k :: 0 <= k < i ==> s[..i][k] == s[k] && s[k] in s[..i];
      assert forall k :: i + 1 <= k < |s| ==> s[k] == s[i + 1..][k - i - 1];
      assert EmailSplit(s, i, j);
    }
    if MatchesEmailPattern(s) {
      var i, j :| EmailSplit(s, i, j);
      forall k | 0 <= k < |s|
        ensures !IsJsSpace(s[k]) && (k != i ==> s[k] != '@')
      {
        if k < i {
          assert s[k] == s[..i][k];
        } else if i < k < j {
          assert s[k] == s[i + 1..j][k - i - 1];
        } else if j < k {
          assert s[k] == s[j + 1..][k - j - 1];
        }
      }
      var at := IndexOf(s, '@');
      assert s[i] == '@';
      assert at == Some(i);
      assert '@' !in s[i + 1..];
      assert s[i + 2..|s| - 1][j - i - 2] == '.';
    }
  }

  predicate IsPhoneChar(c: char) {
    IsDigit(c) || c == '+' || IsJsSpace(c) || c == '(' || c == ')' || c == '-'
  }

  /** The phone pattern `^[0-9+\s()-]{7,}$`. */
  predicate IsPhone(s: string) {
    |s| >= 7 && forall k :: 0 <= k < |s| ==> IsPhoneChar(s[k])
  }

  /** The class `[\w.]`. */
  predicate IsHandleChar(c: char) {
    ('a' <= c <= 'z') || ('A' <= c <= 'Z') || IsDigit(c) || c == '_' || c == '.'
  }

  /** A handle without its optional leading `@`. */
  function HandleBody(s: string): string {
    if |s| > 0 && s[0] == '@' then s[1..] else s
  }

  /** The social-handle pattern `^@?[\w.]{2,}$`. */
  predicate IsHandle(s: string) {
    |HandleBody(s)| >= 2 && forall k :: 0 <= k < |HandleBody(s)| ==> IsHandleChar(HandleBody(s)[k])
  }

  /** The handle pattern on a few inputs: the `@` is optional, and at
      least two word characters or dots must follow it. */
  lemma HandleExamples()
    ensures IsHandle("@nemora.eg") && IsHandle("nemora_eg") && IsHandle("ab")
    ensures !IsHandle("@a") && !IsHandle("@") && !IsHandle("nemora eg") && !IsHandle("@@ab")
  {
    assert HandleBody("@nemora.eg") == "nemora.eg";
    assert forall k :: 0 <= k < 9 ==> IsHandleChar("nemora.eg"[k]);
    assert forall k :: 0 <= k < 9 ==> IsHandleChar("nemora_eg"[k]);
    assert forall k :: 0 <= k < 2 ==> IsHandleChar("ab"[k]);
    assert HandleBody("nemora eg") == "nemora eg" && !IsHandleChar("nemora eg"[6]);
    assert HandleBody("@@ab") == "@ab" && !IsHandleChar("@ab"[0]);
  }

  /** The quantity rule: decimal digits whose value is positive. */
  predicate IsPositiveCount(s: string) {
    |s| > 0 && AllDigits(s) && DigitsValue(s) > 0
  }

  predicate HasNonZeroDigit(s: string) {
    exists k :: 0 <= k < |s| && s[k] != '0'
  }

  /** A string of digits has a positive value exactly when some digit is not `0`. */
  lemma {:induction false} PositiveIffNonZeroDigit(s: string)
    requires AllDigits(s)
    ensures DigitsValue(s) > 0 <==> HasNonZeroDigit(s)
    decreases |s|
  {
    if |s| > 0 {
      var init := s[..|s| - 1];
      PositiveIffNonZeroDigit(init);
      assert forall k :: 0 <= k < |init| ==> init[k] == s[k];
      if HasNonZeroDigit(s) {
        var k :| 0 <= k < |s| && s[k] != '0';
        if k < |init| {
          assert init[k] != '0';
        }
      }
    }
  }

  // ---------------------------------------------------------------------------
  // validateField
  // ---------------------------------------------------------------------------

  const NameRequired := Copy("Name is required.", "الاسم مطلوب.")
  const EmailRequired := Copy("Email is required.", "البريد الالكتروني مطلوب.")
  const EmailInvalid := Copy("Email is invalid.", "البريد الالكتروني غير صحيح.")
  const PhoneRequired := Copy("Phone is required.", "رقم الموبايل مطلوب.")
  const PhoneInvalid := Copy("Phone number is invalid.", "رقم الموبايل غير صحيح.")
  const AddressRequired := Copy("Address is required.", "العنوان مطلوب.")
  const BrandNameRequired := Copy("Brand name is required.", "اسم البراند مطلوب.")
  const WebsiteInvalid := Copy("Website link is invalid.", "لينك الموقع غير صحيح.")
  const SocialInvalid := Copy("Social link is invalid.", "لينك السوشيال غير صحيح.")
  const QuantityInvalid := Copy("Quantity must be a positive number.", "الكمية لازم تكون رقم موجب.")
  const SizeRequired := Copy("Please select a size.", "من فضلك اختر المقاس.")

  /** `validateField`: the error message for a field's value, or `""` when it
      is acceptable. `isUrl` is the website pattern. */
  function ValidateField(f: Field, value: string, isAr: bool, isUrl: string -> bool): (msg: string)
    ensures msg != "" ==> f in CheckedFields
  {
    var t := Trim(value);
    match f
    case Name => if t != "" then "" else NameRequired.In(isAr)
    case Email =>
      if t == "" then EmailRequired.In(isAr)
      else if IsEmail(t) then "" else EmailInvalid.In(isAr)
    case Phone =>
      if t == "" then PhoneRequired.In(isAr)
      else if IsPhone(t) then "" else PhoneInvalid.In(isAr)
    case Address => if t != "" then "" else AddressRequired.In(isAr)
    case BrandName => if t != "" then "" else BrandNameRequired.In(isAr)
    case BrandWebsite =>
      if t == "" then ""
      else if isUrl(t) then "" else WebsiteInvalid.In(isAr)
    case BrandSocial =>
      if t == "" then ""
      else if IsHandle(t) || isUrl(t) then "" else SocialInvalid.In(isAr)
    case Quantity =>
      if t == "" then ""
      else if IsPositiveCount(t) then "" else QuantityInvalid.In(isAr)
    case Size => if t != "" then "" else SizeRequired.In(isAr)
    case _ => ""
  }

  /** Name, address, brand name and size are refused exactly when blank. */
  lemma RequiredFieldRule(f: Field, value: string, isAr: bool, isUrl: string -> bool)
    requires f in {Name, Address, BrandName, Size}
    ensures ValidateField(f, value, isAr, isUrl) != "" <==> IsBlank(value)
  {
  }

  /** The e-mail is refused exactly when blank or not of the form
      `local@domain.tld`; the phone exactly when blank or not seven or more
      characters of digits, `+`, spaces, parentheses and dashes. */
  lemma ContactFieldRules(value: string, isAr: bool, isUrl: string -> bool)
    ensures ValidateField(Email, value, isAr, isUrl) == "" <==> !IsBlank(value) && MatchesEmailPattern(Trim(value))
    ensures ValidateField(Phone, value, isAr, isUrl) == "" <==> !IsBlank(value) && IsPhone(Trim(value))
  {
    IsEmailMatchesPattern(Trim(value));
  }

  /** The optional fields accept a blank value. Otherwise a website is
      accepted exactly when it is a URL, a social link exactly when it is a
      handle or a URL, and a quantity exactly when it is all digits with one
      that is not `0`. */
  lemma OptionalFieldRules(value: string, isAr: bool, isUrl: string -> bool)
    ensures IsBlank(value) ==>
      && ValidateField(BrandWebsite, value, isAr, isUrl) == ""
      && ValidateField(BrandSocial, value, isAr, isUrl) == ""
      && ValidateField(Quantity, value, isAr, isUrl) == ""
    ensures var t := Trim(value);
      ValidateField(BrandWebsite, value, isAr, isUrl) == "" <==> t == "" || isUrl(t)
    ensures var t := Trim(value);
      ValidateField(BrandSocial, value, isAr, isUrl) == "" <==> t == "" || IsHandle(t) || isUrl(t)
    ensures var t := Trim(value);
      ValidateField(Quantity, value, isAr, isUrl) == "" <==> t == "" || (AllDigits(t) && HasNonZeroDigit(t))
  {
    var t := Trim(value);
    assert ValidateField(Quantity, value, isAr, isUrl) == "" <==> t == "" || IsPositiveCount(t);
    CountRule(t);
  }

  /** The quantity rule in terms of digits: a non-empty text passes exactly
      when it is all digits and one of them is not `0`. */
  lemma CountRule(t: string)
    ensures t == "" || IsPositiveCount(t) <==> t == "" || (AllDigits(t) && HasNonZeroDigit(t))
  {
    if t != "" && AllDigits(t) {
      PositiveIffNonZeroDigit(t);
    }
  }

  // ---------------------------------------------------------------------------
  // The error map
  // ---------------------------------------------------------------------------

  /** The error shown under each field. */
  type Errors = map<Field, string>

  /** The errors of the given fields, one entry per field with a message. */
  function ErrorsFor(fields: seq<Field>, d: OrderDetails, isAr: bool, isUrl: string -> bool): (e: Errors)
    ensures forall f :: f in e <==> f in fields && ValidateField(f, d.Get(f), isAr, isUrl) != ""
    ensures forall f :: f in e ==> e[f] == ValidateField(f, d.Get(f), isAr, isUrl)
    decreases |fields|
  {
    if |fields| == 0 then map[]
    else
      var rest := ErrorsFor(fields[1..], d, isAr, isUrl);
      assert forall f :: f in fields <==> f == fields[0] || f in fields[1..];
      var msg := ValidateField(fields[0], d.Get(fields[0]), isAr, isUrl);
      if msg != "" then rest[fields[0] := msg] else rest
  }

  /** `validateAllFields`: the new error map and whether the form is valid. */
  function ValidateAllFields(d: OrderDetails, isAr: bool, isUrl: string -> bool): (r: (Errors, bool))
    ensures r.1 <==> r.0 == map[]
    ensures forall f :: f in r.0 <==> ValidateField(f, d.Get(f), isAr, isUrl) != ""
    ensures forall f :: f in r.0 ==> r.0[f] == ValidateField(f, d.Get(f), isAr, isUrl)
  {
    var errors := ErrorsFor(CheckedFields, d, isAr, isUrl);
    (errors, |errors| == 0)
  }

  /** The form is valid exactly when no field's rule reports a message. */
  lemma ValidIffEveryFieldPasses(d: OrderDetails, isAr: bool, isUrl: string -> bool)
    ensures ValidateAllFields(d, isAr, isUrl).1 <==> forall f :: ValidateField(f, d.Get(f), isAr, isUrl) == ""
  {
    var (errors, valid) := ValidateAllFields(d, isAr, isUrl);
    if !valid {
      var f :| f in errors;
      assert ValidateField(f, d.Get(f), isAr, isUrl) != "";
    }
  }

  /** `clearFieldError`: removes the field's entry, leaving the map as it was
      when the field shows no error. */
  function ClearFieldError(errors: Errors, f: Field): (r: Errors)
    ensures f !in r || r[f] == ""
    ensures (f !in errors || errors[f] == "") ==> r == errors
    ensures f in errors && errors[f] != "" ==> f !in r
    ensures forall g :: g != f ==> (g in r <==> g in errors) && (g in r ==> r[g] == errors[g])
  {
    if f !in errors || errors[f] == "" then errors else errors - {f}
  }

  // ---------------------------------------------------------------------------
  // The form state and its handlers
  // ---------------------------------------------------------------------------

  datatype Tone = Success | Error | Info

  /** The state of the form that its handlers read and write. */
  datatype FormState = FormState(
    details: OrderDetails,
    errors: Errors,
    orderStatus: string,
    statusTone: Tone,
    statusKey: nat,
    uploadStatus: string,
    uploadName: string,
    uploadedUrl: string,
    previewUrl: string,
    previewIsImage: bool,
    showSuccess: bool,
    isSubmitting: bool,
    isUploading: bool)

  /** `handleFieldBlur`: shows the field's message, or clears its error. */
  function HandleFieldBlur(s: FormState, f: Field, isAr: bool, isUrl: string -> bool): (r: FormState)
    ensures r == s.(errors := r.errors)
    ensures var msg := ValidateField(f, s.details.Get(f), isAr, isUrl);
            && (msg != "" ==> r.errors == s.errors[f := msg])
            && (msg == "" ==> r.errors == ClearFieldError(s.errors, f))
  {
    s.(errors := ReviseError(s.errors, f, ValidateField(f, s.details.Get(f), isAr, isUrl)))
  }

  /** A field's errors after a fresh check that produced `msg`: the message
      is set (`setFieldError`), or the error is cleared when the check passed. */
  function ReviseError(errors: Errors, f: Field, msg: string): (r: Errors)
    ensures msg != "" ==> r == errors[f := msg]
    ensures msg == "" ==> r == ClearFieldError(errors, f)
    ensures msg == "" && f in errors && errors[f] != "" ==> f !in r
    ensures forall g :: g != f ==> (g in r <==> g in errors) && (g in r ==> r[g] == errors[g])
  {
    if msg != "" then errors[f := msg] else ClearFieldError(errors, f)
  }

  /** `handleOrderChange`: stores the value, clears the status message and,
      only when the field already shows an error, re-validates it. */
  function HandleOrderChange(s: FormState, f: Field, v: string, isAr: bool, isUrl: string -> bool): (r: FormState)
    ensures r.details == s.details.Set(f, v)
    ensures r.orderStatus == "" && r.statusTone == Info
    ensures !(f in s.errors && s.errors[f] != "") ==> r.errors == s.errors
    ensures f in s.errors && s.errors[f] != "" ==>
              var msg := ValidateField(f, v, isAr, isUrl);
              (msg != "" ==> r.errors == s.errors[f := msg]) && (msg == "" ==> f !in r.errors)
    ensures forall g :: g != f ==> (g in r.errors <==> g in s.errors) && (g in r.errors ==> r.errors[g] == s.errors[g])
    ensures r == s.(details := r.details, orderStatus := "", statusTone := Info, errors := r.errors)
  {
    var s1 := s.(details := s.details.Set(f, v), orderStatus := "", statusTone := Info);
    if f in s.errors && s.errors[f] != "" then
      s1.(errors := ReviseError(s.errors, f, ValidateField(f, v, isAr, isUrl)))
    else s1
  }

  /** `showOrderStatus`. */
  function ShowOrderStatus(s: FormState, message: string, tone: Tone): FormState {
    s.(orderStatus := message, statusTone := tone, statusKey := s.statusKey + 1)
  }

  const UploadingFile := Copy("Uploading file...", "جاري رفع الملف...")
  const FixFields := Copy("Please fix the highlighted fields.", "راجع الحقول المظللة وسبب الخطأ.")
  const EmailNotConfigured := Copy("Email service is not configured. Check EmailJS settings.",
                                   "خدمة الايميل غير مفعلة. تأكد من اعدادات EmailJS.")
  const FormMissing := Copy("Form reference is missing.", "حصل خطأ في ارسال النموذج.")
  const RequestSent := Copy("Your request has been sent. We will contact you soon.",
                            "تم ارسال طلبك وسيتم التواصل معك قريبا.")
  const SendFailed := Copy("Send failed. Try again.", "فشل الارسال. حاول مرة اخرى.")

  /** The form after a successful send: every field blank again except the
      shape, technique and embroidery choices. */
  function ResetDetails(d: OrderDetails): OrderDetails {
    EmptyDetails.(shape := d.shape, technique := d.technique, embroidery := d.embroidery)
  }

  /** What the page can and cannot do when the form is submitted: whether the
      e-mail service ids are configured, whether the form element exists, and
      whether sending succeeds. */
  datatype SubmitEnv = SubmitEnv(emailConfigured: bool, formPresent: bool, sendSucceeds: bool)

  /** The rest of `handleSubmit` once the error map is in place: stops on an
      upload in progress, an invalid form, a missing e-mail configuration or a
      missing form element, and otherwise sends. Returns the new state and
      whether the form was sent. */
  function SubmitChecked(s: FormState, valid: bool, env: SubmitEnv, isAr: bool): (r: (FormState, bool))
  {
    if s.isUploading then (s.(uploadStatus := UploadingFile.In(isAr)), false)
    else if !valid then (ShowOrderStatus(s, FixFields.In(isAr), Error), false)
    else if !env.emailConfigured then (ShowOrderStatus(s, EmailNotConfigured.In(isAr), Error), false)
    else if !env.formPresent then (ShowOrderStatus(s, FormMissing.In(isAr), Error), false)
    else if env.sendSucceeds then
      var s1 := ShowOrderStatus(s, RequestSent.In(isAr), Success);
      (s1.(showSuccess := true, uploadStatus := "", uploadName := "", uploadedUrl := "",
           previewUrl := "", previewIsImage := false, errors := map[],
           details := ResetDetails(s.details), isSubmitting := false), true)
    else (ShowOrderStatus(s, SendFailed.In(isAr), Error).(isSubmitting := false), true)
  }

  /** `handleSubmit`: recomputes every field's error, then runs the guards. */
  function HandleSubmit(s: FormState, env: SubmitEnv, isAr: bool, isUrl: string -> bool): (r: (FormState, bool))
  {
    var (errors, valid) := ValidateAllFields(s.details, isAr, isUrl);
    SubmitChecked(s.(errors := errors), valid, env, isAr)
  }

  /** The guards in their order: an upload in progress stops the submit
      without touching the status line; otherwise an invalid form, a missing
      configuration or a missing form each report their message and keep the
      details; the form is sent exactly when none of these applies. */
  lemma SubmitCheckedGuards(s: FormState, valid: bool, env: SubmitEnv, isAr: bool)
    ensures var (r, sent) := SubmitChecked(s, valid, env, isAr);
            sent <==> !s.isUploading && valid && env.emailConfigured && env.formPresent
    ensures var (r, sent) := SubmitChecked(s, valid, env, isAr);
            s.isUploading ==>
              r == s.(uploadStatus := UploadingFile.In(isAr))
    ensures var (r, sent) := SubmitChecked(s, valid, env, isAr);
            !sent && !s.isUploading ==>
              && r.details == s.details && r.errors == s.errors
              && r.statusTone == Error && r.statusKey == s.statusKey + 1
              && r.orderStatus == (if !valid then FixFields.In(isAr)
                                   else if !env.emailConfigured then EmailNotConfigured.In(isAr)
                                   else FormMissing.In(isAr))
  {
  }

  /** After a successful send the status says so, the upload and errors are
      cleared and every detail is blank again except shape, technique and
      embroidery, which keep the visitor's choices; after a failed send the
      details and errors stay for another try. */
  lemma SubmitCheckedOutcome(s: FormState, valid: bool, env: SubmitEnv, isAr: bool)
    ensures var (r, sent) := SubmitChecked(s, valid, env, isAr);
            sent && env.sendSucceeds ==>
              && r.orderStatus == RequestSent.In(isAr) && r.statusTone == Success && r.showSuccess
              && r.uploadedUrl == "" && r.previewUrl == "" && r.errors == map[] && !r.isSubmitting
              && (forall f :: f in {Shape, Technique, Embroidery} ==> r.details.Get(f) == s.details.Get(f))
              && (forall f :: f !in {Shape, Technique, Embroidery} ==> r.details.Get(f) == "")
    ensures var (r, sent) := SubmitChecked(s, valid, env, isAr);
            sent && !env.sendSucceeds ==>
              && r.details == s.details && r.errors == s.errors && !r.isSubmitting
              && r.orderStatus == SendFailed.In(isAr) && r.statusTone == Error
  {
  }

  /** Submitting always recomputes the error map first; it is sent exactly
      when nothing is uploading, every field passes its rule and the service
      and form are available. */
  lemma SubmitGuards(s: FormState, env: SubmitEnv, isAr: bool, isUrl: string -> bool)
    ensures var (r, sent) := HandleSubmit(s, env, isAr, isUrl);
            !(sent && env.sendSucceeds) ==> r.errors == ValidateAllFields(s.details, isAr, isUrl).0
    ensures var (r, sent) := HandleSubmit(s, env, isAr, isUrl);
            sent <==> && !s.isUploading && env.emailConfigured && env.formPresent
                      && forall f :: ValidateField(f, s.details.Get(f), isAr, isUrl) == ""
  {
    var (errors, valid) := ValidateAllFields(s.details, isAr, isUrl);
    SubmitCheckedGuards(s.(errors := errors), valid, env, isAr);
    SubmitCheckedOutcome(s.(errors := errors), valid, env, isAr);
    ValidIffEveryFieldPasses(s.details, isAr, isUrl);
  }

  // ---------------------------------------------------------------------------
  // Query parameters and the submit label
  // ---------------------------------------------------------------------------

  /** `searchParams.get(name) || fallback`. */
  function ParamOr(params: seq<(string, string)>, name: string, fallback: string): (r: string)
    ensures r == fallback <==> Lookup(params, name) in {None, Some(""), Some(fallback)}
  {
    match Lookup(params, name)
    case Some(v) => if v != "" then v else fallback
    case None => fallback
  }

  /** The shape, technique and embroidery the query string asks for, each
      `all` when absent or empty; the other details are left alone. */
  function ApplyQuery(d: OrderDetails, params: seq<(string, string)>): (r: OrderDetails)
    ensures forall f :: f !in {Shape, Technique, Embroidery} ==> r.Get(f) == d.Get(f)
    ensures r.shape == ParamOr(params, "shape", "all")
    ensures r.technique == ParamOr(params, "technique", "all")
    ensures r.embroidery == ParamOr(params, "embroidery", "all")
  {
    d.(shape := ParamOr(params, "shape", "all"),
       technique := ParamOr(params, "technique", "all"),
       embroidery := ParamOr(params, "embroidery", "all"))
  }

  const UploadingLabel := Copy("Uploading...", "جاري رفع الملف...")
  const SendingLabel := Copy("Sending...", "جاري الارسال...")
  const SendOrderLabel := Copy("Send Order", "ارسال الطلب")

  /** The submit button's label: uploading outranks sending. */
  function SubmitLabel(isUploading: bool, isSubmitting: bool, isAr: bool): (r: string)
    ensures isUploading ==> r == UploadingLabel.In(isAr)
    ensures !isUploading && isSubmitting ==> r == SendingLabel.In(isAr)
    ensures !isUploading && !isSubmitting ==> r == SendOrderLabel.In(isAr)
  {
    if isUploading then UploadingLabel.In(isAr)
    else if isSubmitting then SendingLabel.In(isAr)
    else SendOrderLabel.In(isAr)
  }
}
