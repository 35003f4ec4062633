/** The registration hook of the game page (src/hooks/useRegistration.tsx):
    the validation chain over the trimmed form fields, the choice between the
    claim and the register-only endpoint, the photo upload that must succeed
    before the registration is posted, and the handling of the reply.

    The hook's state setters and its outbound calls are recorded, in order, as
    a log of effects; the server replies are inputs. */
module Registration {
  import opened Wrappers
  import opened Text
  import opened Http

  const ClaimEndpoint: string := "/api/v1/claim"
  const OnlyRegisterEndpoint: string := "/api/v1/only-register"
  const ExitRoute: string := "/exit"
  const DefaultPrizeName: string := "Un gran premio!"

  const NameError: string := "❌ Nombre inválido (máx. 45 caracteres)."
  const PhoneError: string := "❌ Teléfono debe tener exactamente 9 dígitos numéricos."
  const DniError: string := "❌ DNI inválido (debe tener entre 8 y 11 dígitos numéricos)."
  const VoucherError: string := "❌ Comprobante inválido (debe tener entre 6 y 20 caracteres)."
  const PhotoError: string := "❌ La foto del comprobante es obligatoria."
  const UploadErrorPrefix: string := "❌ Fallo crítico al subir la foto. "
  const RegisterFallback: string := "Error en el registro"
  const ConnectionError: string := "❌ No se pudo conectar al servidor de Premios (Render)"
  const CompressionError: string := "❌ Error al comprimir la imagen."

  /** The image produced by client-side compression, standing for the `File`. */
  datatype CompressedFile = CompressedFile(fileName: string, size: nat)

  /** The validation rules, in the order they are checked. */
  datatype Rule = NameRule | PhoneRule | DniRule | VoucherRule | PhotoRule

  function Position(r: Rule): nat {
    match r
    case NameRule => 0
    case PhoneRule => 1
    case DniRule => 2
    case VoucherRule => 3
    case PhotoRule => 4
  }

  function RuleMessage(r: Rule): (m: string)
    ensures m != ""
  {
    match r
    case NameRule => NameError
    case PhoneRule => PhoneError
    case DniRule => DniError
    case VoucherRule => VoucherError
    case PhotoRule => PhotoError
  }

  /** The form state the hook holds when the form is submitted. */
  datatype Form = Form(
    name: string,
    phoneNumber: string,
    dni: string,
    voucherNumber: string,
    compressedFile: Option<CompressedFile>)

  // Each rule's rejection condition on an already trimmed field, with
  // `.length` counted in UTF-16 code units as JavaScript does.
  predicate NameRejected(t: string) {
    Utf16Length(t) > 45 || Utf16Length(t) == 0
  }

  predicate PhoneRejected(t: string) {
    Utf16Length(t) != 9 || !MatchesDigitRun(t)
  }

  predicate DniRejected(t: string) {
    Utf16Length(t) < 8 || Utf16Length(t) > 11 || !MatchesDigitRun(t)
  }

  predicate VoucherRejected(t: string) {
    Utf16Length(t) < 6 || Utf16Length(t) > 20
  }

  /** Whether rule `r`, taken on its own, rejects the form. */
  predicate Fails(f: Form, r: Rule) {
    match r
    case NameRule => NameRejected(Trim(f.name))
    case PhoneRule => PhoneRejected(Trim(f.phoneNumber))
    case DniRule => DniRejected(Trim(f.dni))
    case VoucherRule => VoucherRejected(Trim(f.voucherNumber))
    case PhotoRule => f.compressedFile.None?
  }

  /** The chain of checks in source order: the rule whose message is shown, or
      the compressed photo when every rule passes. */
  function Validate(f: Form): Result<CompressedFile, Rule> {
    if Fails(f, NameRule) then Failure(NameRule)
    else if Fails(f, PhoneRule) then Failure(PhoneRule)
    else if Fails(f, DniRule) then Failure(DniRule)
    else if Fails(f, VoucherRule) then Failure(VoucherRule)
    else match f.compressedFile
      case None => Failure(PhotoRule)
      case Some(file) => Success(file)
  }

  /** The message shown is exactly that of the first failing rule in the order
      name, phone, DNI, voucher, photo; there is none when every rule passes. */
  lemma {:induction false} ValidateReportsFirstFailure(f: Form)
    ensures Validate(f).Failure? ==> Fails(f, Validate(f).error)
    ensures Validate(f).Failure? ==> forall q :: Position(q) < Position(Validate(f).error) ==> !Fails(f, q)
    ensures Validate(f).Success? <==> forall q :: !Fails(f, q)
    ensures Validate(f).Success? ==> f.compressedFile == Some(Validate(f).value)
  {
    var r := Validate(f);
    forall q | r.Success? || Position(q) < Position(r.error) ensures !Fails(f, q) {
      match q
      case NameRule =>
      case PhoneRule =>
      case DniRule =>
      case VoucherRule =>
      case PhotoRule =>
    }
    if r.Failure? {
      assert Fails(f, r.error);
    }
  }

  /** The phone rule accepts exactly nine ASCII digits once trimmed. */
  lemma PhoneAccepted(raw: string)
    ensures !PhoneRejected(Trim(raw)) <==> |Trim(raw)| == 9 && AllDigits(Trim(raw))
  {
    var t := Trim(raw);
    Utf16LengthIsLength(t);
    if AllDigits(t) {
      assert forall k :: 0 <= k < |t| ==> (t[k] as int) < 0x10000 by {
        forall k | 0 <= k < |t| ensures (t[k] as int) < 0x10000 {
          assert IsDigit(t[k]);
        }
      }
    }
  }

  /** The DNI rule accepts exactly eight to eleven ASCII digits once trimmed. */
  lemma DniAccepted(raw: string)
    ensures !DniRejected(Trim(raw)) <==> 8 <= |Trim(raw)| <= 11 && AllDigits(Trim(raw))
  {
    var t := Trim(raw);
    Utf16LengthIsLength(t);
    if AllDigits(t) {
      assert forall k :: 0 <= k < |t| ==> (t[k] as int) < 0x10000 by {
        forall k | 0 <= k < |t| ensures (t[k] as int) < 0x10000 {
          assert IsDigit(t[k]);
        }
      }
    }
  }

  /** For text without characters outside the Basic Multilingual Plane, the
      name rule accepts one to 45 characters and the voucher rule six to 20. */
  lemma TextLengthsAccepted(t: string)
    requires forall k :: 0 <= k < |t| ==> (t[k] as int) < 0x10000
    ensures !NameRejected(t) <==> 1 <= |t| <= 45
    ensures !VoucherRejected(t) <==> 6 <= |t| <= 20
  {
    Utf16LengthIsLength(t);
  }

  /** A form without a compressed photo is never accepted, and once the four
      text fields pass it is the photo rule that rejects it. */
  lemma MissingPhotoRejected(f: Form)
    requires f.compressedFile.None?
    ensures Validate(f).Failure?
    ensures (forall q :: q != PhotoRule ==> !Fails(f, q)) ==> Validate(f) == Failure(PhotoRule)
  {
    assert Fails(f, PhotoRule);
  }

  /** A route parameter counts as present when it is defined and non-empty. */
  predicate HasStore(storeId: Option<string>) {
    storeId.Some? && storeId.value != ""
  }

  /** The registration endpoint: the claim endpoint exactly when a store is present. */
  function Endpoint(storeId: Option<string>): (e: string)
    ensures e == ClaimEndpoint <==> HasStore(storeId)
    ensures e == OnlyRegisterEndpoint <==> !HasStore(storeId)
  {
    if HasStore(storeId) then ClaimEndpoint else OnlyRegisterEndpoint
  }

  /** The JSON body posted to the registration endpoint; `storeId` is the only
      optional member, `photoUrl` is absent when the upload reply had no `url`. */
  datatype Payload = Payload(
    name: string,
    phoneNumber: string,
    dni: string,
    campaign: string,
    photoUrl: Option<string>,
    voucherNumber: string,
    storeId: Option<string>)

  /** The payload for a validated form: every text field trimmed, the storeId
      carried exactly in claim mode. */
  function BuildPayload(f: Form, storeId: Option<string>, campaign: string, photoUrl: Option<string>): (p: Payload)
    ensures p.name == Trim(f.name) && p.phoneNumber == Trim(f.phoneNumber)
    ensures p.dni == Trim(f.dni) && p.voucherNumber == Trim(f.voucherNumber)
    ensures p.campaign == campaign && p.photoUrl == photoUrl
    ensures p.storeId.Some? <==> HasStore(storeId)
    ensures p.storeId.Some? ==> p.storeId == storeId
  {
    Payload(Trim(f.name), Trim(f.phoneNumber), Trim(f.dni), campaign, photoUrl,
            Trim(f.voucherNumber), if HasStore(storeId) then storeId else None)
  }

  /** The upload service's reply: a network failure, or a status, the body as
      text (read when the status is not ok) and the body as JSON. */
  datatype UploadReply =
    | UploadThrew(error: string)
    | UploadAnswered(status: nat, text: string, body: UploadBody)

  datatype UploadBody = UploadNotJson(parseError: string) | UploadJson(url: Option<string>)

  /** The uploaded photo's URL, or the message of the error the upload raised. */
  function UploadStep(upload: UploadReply): (r: Result<Option<string>, string>)
    ensures r.Success? <==> upload.UploadAnswered? && IsOk(upload.status) && upload.body.UploadJson?
    ensures r.Success? ==> r.value == upload.body.url
    ensures upload.UploadAnswered? && !IsOk(upload.status) ==>
              r == Failure("Error en la subida : " + NatToString(upload.status) + " - " + upload.text)
  {
    match upload
    case UploadThrew(e) => Failure(e)
    case UploadAnswered(status, text, body) =>
      if !IsOk(status) then Failure("Error en la subida : " + NatToString(status) + " - " + text)
      else match body
        case UploadNotJson(pe) => Failure(pe)
        case UploadJson(url) => Success(url)
  }

  /** The registration endpoint's reply: a network failure or an unparsable
      body (both land in the same `catch`), or a status and the JSON members read. */
  datatype RegisterReply =
    | RegisterFailed
    | RegisterAnswered(status: int, prize: Option<string>, photoUrl: Option<string>, message: Option<string>)

  /** The navigation state handed to the exit page after a successful claim. */
  datatype ExitState = ExitState(prizeName: string, photoUrl: Option<string>)

  /** What one step of the submission does: a state update or an outbound call. */
  datatype Effect =
    | SetMessage(text: string)
    | SetLoading(on: bool)
    | UploadPhoto(file: CompressedFile)
    | PostRegistration(endpoint: string, payload: Payload)
    | Navigate(route: string, state: Option<ExitState>)

  /** `resJson.photoUrl || photoUrl`. */
  function PhotoUrlOr(reply: Option<string>, uploaded: Option<string>): Option<string> {
    if reply.Some? && reply.value != "" then reply else uploaded
  }

  /** What the reply to the registration post does. */
  function ReplyEffects(endpoint: string, photoUrl: Option<string>, reply: RegisterReply): (effects: seq<Effect>)
    ensures |effects| == 1
    ensures effects[0].Navigate? <==> reply.RegisterAnswered? && IsOk(reply.status)
    ensures effects[0].Navigate? ==> effects[0].route == ExitRoute
    ensures effects[0].Navigate? && endpoint == ClaimEndpoint ==>
              effects[0].state == Some(ExitState(OrElse(reply.prize, DefaultPrizeName), PhotoUrlOr(reply.photoUrl, photoUrl)))
    ensures effects[0].Navigate? && endpoint != ClaimEndpoint ==> effects[0].state.None?
    ensures reply.RegisterFailed? ==> effects == [SetMessage(ConnectionError)]
    ensures reply.RegisterAnswered? && !IsOk(reply.status) ==>
              effects == [SetMessage("❌ " + OrElse(reply.message, RegisterFallback))]
  {
    match reply
    case RegisterFailed => [SetMessage(ConnectionError)]
    case RegisterAnswered(status, prize, url, msg) =>
      if IsOk(status) then
        if endpoint == ClaimEndpoint then
          [Navigate(ExitRoute, Some(ExitState(OrElse(prize, DefaultPrizeName), PhotoUrlOr(url, photoUrl))))]
        else [Navigate(ExitRoute, None)]
      else [SetMessage("❌ " + OrElse(msg, RegisterFallback))]
  }

  /** What follows the clearing of the message when the validation chain
      rejects the form. */
  function RejectedEffects(rule: Rule): seq<Effect> {
    [SetMessage(RuleMessage(rule))]
  }

  /** What follows the clearing of the message for an accepted form whose
      photo upload failed. */
  function UploadFailedEffects(file: CompressedFile, reason: string): seq<Effect> {
    [SetLoading(true), UploadPhoto(file), SetMessage(UploadErrorPrefix + reason), SetLoading(false)]
  }

  /** What follows the clearing of the message for an accepted form whose
      photo was uploaded: the post, what its reply does, and `loading` off. */
  function PostedEffects(file: CompressedFile, endpoint: string, payload: Payload, answer: seq<Effect>): seq<Effect> {
    [SetLoading(true), UploadPhoto(file)] + PostEffects(endpoint, payload, answer)
  }

  /** The post itself, what its reply does, and the `finally` that switches
      `loading` off. */
  function PostEffects(endpoint: string, payload: Payload, answer: seq<Effect>): seq<Effect> {
    [PostRegistration(endpoint, payload)] + answer + [SetLoading(false)]
  }

  /** What follows the clearing of the message once the form is accepted. */
  function AcceptedEffects(f: Form, file: CompressedFile, storeId: Option<string>, campaign: string,
                           upload: UploadReply, reply: RegisterReply): seq<Effect> {
    match UploadStep(upload)
    case Failure(reason) => UploadFailedEffects(file, reason)
    case Success(photoUrl) =>
      PostedEffects(file, Endpoint(storeId), BuildPayload(f, storeId, campaign, photoUrl),
                    ReplyEffects(Endpoint(storeId), photoUrl, reply))
  }

  /** Every effect of one submission, in order: the message is cleared first. */
  function SubmitEffects(f: Form, storeId: Option<string>, campaign: string,
                         upload: UploadReply, reply: RegisterReply): (effects: seq<Effect>)
    ensures |effects| >= 2 && effects[0] == SetMessage("")
  {
    [SetMessage("")] +
    match Validate(f)
    case Failure(rule) => RejectedEffects(rule)
    case Success(file) => AcceptedEffects(f, file, storeId, campaign, upload, reply)
  }

  predicate NoPost(effects: seq<Effect>) {
    forall j :: 0 <= j < |effects| ==> !effects[j].PostRegistration?
  }

  predicate OnlyMessages(effects: seq<Effect>) {
    forall j :: 0 <= j < |effects| ==> effects[j].SetMessage?
  }

  predicate NoLoading(effects: seq<Effect>) {
    forall j :: 0 <= j < |effects| ==> !effects[j].SetLoading?
  }

  lemma RejectedShape(rule: Rule)
    ensures var effects := [SetMessage("")] + RejectedEffects(rule);
      OnlyMessages(effects) && NoPost(effects) && NoLoading(effects)
  {
  }

  lemma UploadFailedShape(file: CompressedFile, reason: string)
    ensures NoPost([SetMessage("")] + UploadFailedEffects(file, reason))
  {
  }

  lemma PostedShape(file: CompressedFile, endpoint: string, payload: Payload, answer: seq<Effect>)
    requires |answer| == 1 && !answer[0].PostRegistration?
    ensures var effects := [SetMessage("")] + PostedEffects(file, endpoint, payload, answer);
      |effects| == 6 && effects[2] == UploadPhoto(file) && effects[3] == PostRegistration(endpoint, payload)
      && forall j :: 0 <= j < |effects| && j != 3 ==> !effects[j].PostRegistration?
  {
  }

  /** A rejected form only shows the failing rule's message: `loading` is never
      touched, nothing is uploaded and nothing is posted. */
  lemma RejectedFormStopsEarly(f: Form, storeId: Option<string>, campaign: string,
                               upload: UploadReply, reply: RegisterReply)
    requires Validate(f).Failure?
    ensures var effects := SubmitEffects(f, storeId, campaign, upload, reply);
      && effects[|effects| - 1] == SetMessage(RuleMessage(Validate(f).error))
      && OnlyMessages(effects) && NoLoading(effects)
  {
    RejectedShape(Validate(f).error);
  }

  /** The registration is posted exactly when the form is accepted and the
      photo upload succeeded; it is then posted once, right after the upload,
      to the endpoint the store id selects and with the trimmed fields. */
  lemma PostOnlyAfterUpload(f: Form, storeId: Option<string>, campaign: string,
                            upload: UploadReply, reply: RegisterReply)
    ensures var effects := SubmitEffects(f, storeId, campaign, upload, reply);
      Validate(f).Success? && UploadStep(upload).Success? ==>
        && effects[2] == UploadPhoto(Validate(f).value)
        && effects[3] == PostRegistration(Endpoint(storeId), BuildPayload(f, storeId, campaign, UploadStep(upload).value))
        && forall j :: 0 <= j < |effects| && j != 3 ==> !effects[j].PostRegistration?
    ensures !(Validate(f).Success? && UploadStep(upload).Success?) ==>
              NoPost(SubmitEffects(f, storeId, campaign, upload, reply))
  {
    match Validate(f)
    case Failure(rule) =>
      RejectedShape(rule);
    case Success(file) =>
      match UploadStep(upload)
      case Failure(reason) =>
        UploadFailedShape(file, reason);
      case Success(photoUrl) =>
        PostedShape(file, Endpoint(storeId), BuildPayload(f, storeId, campaign, photoUrl),
                    ReplyEffects(Endpoint(storeId), photoUrl, reply));
  }

  /** A failed upload shows the upload message, switches `loading` off and posts nothing. */
  lemma UploadFailureStops(f: Form, storeId: Option<string>, campaign: string,
                           upload: UploadReply, reply: RegisterReply)
    requires Validate(f).Success? && UploadStep(upload).Failure?
    ensures var effects := SubmitEffects(f, storeId, campaign, upload, reply);
      && effects[|effects| - 2] == SetMessage(UploadErrorPrefix + UploadStep(upload).error)
      && effects[|effects| - 1] == SetLoading(false)
      && NoPost(effects)
  {
    UploadFailedShape(Validate(f).value, UploadStep(upload).error);
  }

  /** The `loading` state after a sequence of effects. */
  function LoadingAfter(initial: bool, effects: seq<Effect>): bool {
    if effects == [] then initial
    else if effects[|effects| - 1].SetLoading? then effects[|effects| - 1].on
    else LoadingAfter(initial, effects[..|effects| - 1])
  }

  /** The `message` state after a sequence of effects. */
  function MessageAfter(initial: string, effects: seq<Effect>): string {
    if effects == [] then initial
    else if effects[|effects| - 1].SetMessage? then effects[|effects| - 1].text
    else MessageAfter(initial, effects[..|effects| - 1])
  }

  /** Effects that do not set `loading` leave it as it was. */
  lemma {:induction false} LoadingUntouched(initial: bool, before: seq<Effect>, effects: seq<Effect>)
    requires NoLoading(effects)
    ensures LoadingAfter(initial, before + effects) == LoadingAfter(initial, before)
  {
    if effects != [] {
      var e := effects[..|effects| - 1];
      assert (before + effects)[..|before + effects| - 1] == before + e;
      LoadingUntouched(initial, before, e);
    } else {
      assert before + effects == before;
    }
  }

  /** After a rejected form, `loading` is as it was and the rule's message is
      shown; after an accepted one, `loading` is off again. */
  lemma SubmitFinalState(before: seq<Effect>, loading: bool, msg: string, f: Form, storeId: Option<string>,
                         campaign: string, upload: UploadReply, reply: RegisterReply)
    ensures var after := before + SubmitEffects(f, storeId, campaign, upload, reply);
      && (Validate(f).Failure? ==> LoadingAfter(loading, after) == LoadingAfter(loading, before))
      && (Validate(f).Failure? ==> MessageAfter(msg, after) == RuleMessage(Validate(f).error))
      && (Validate(f).Success? ==> !LoadingAfter(loading, after))
  {
    var effects := SubmitEffects(f, storeId, campaign, upload, reply);
    var after := before + effects;
    assert after[|after| - 1] == effects[|effects| - 1];
    if Validate(f).Failure? {
      RejectedShape(Validate(f).error);
      LoadingUntouched(loading, before, effects);
    }
  }

  /** The hook's state. `storeId` comes from the route and `campaign` from the
      build configuration; `log` records every effect in the order it happened. */
  class RegistrationHook {
    var name: string
    var phoneNumber: string
    var dni: string
    var voucherNumber: string
    var compressedFile: Option<CompressedFile>
    const storeId: Option<string>
    const campaign: string
    var loading: bool
    var message: string
    var log: seq<Effect>

    /** `loading` and `message` are what the logged effects left them as. */
    ghost predicate Valid()
      reads this
    {
      loading == LoadingAfter(false, log) && message == MessageAfter("", log)
    }

    constructor (storeId: Option<string>, campaign: string)
      ensures Valid() && this.storeId == storeId && this.campaign == campaign
      ensures name == "" && phoneNumber == "" && dni == "" && voucherNumber == ""
      ensures compressedFile.None? && !loading && message == "" && log == []
    {
      name, phoneNumber, dni, voucherNumber := "", "", "", "";
      compressedFile := None;
      this.storeId := storeId;
      this.campaign := campaign;
      loading, message, log := false, "", [];
    }

    /** Performs one effect: a state setter updates its field, every effect is logged. */
    method Emit(e: Effect)
      requires Valid()
      modifies this`loading, this`message, this`log
      ensures Valid() && log == old(log) + [e]
      ensures loading == (if e.SetLoading? then e.on else old(loading))
      ensures message == (if e.SetMessage? then e.text else old(message))
    {
      if e.SetLoading? {
        loading := e.on;
      }
      if e.SetMessage? {
        message := e.text;
      }
      log := log + [e];
      assert log[..|log| - 1] == old(log);
    }

    /** `handleFileChange`: no file clears the photo; otherwise the message is
        cleared and the compressed image, when compression succeeds, is kept.
        A failed compression leaves any earlier compressed image in place. */
    method HandleFileChange(picked: bool, compressed: Option<CompressedFile>)
      requires Valid()
      modifies this`compressedFile, this`loading, this`message, this`log
      ensures Valid()
      ensures !picked ==> compressedFile.None? && log == old(log)
      ensures picked && compressed.Some? ==> compressedFile == compressed && log == old(log) + [SetMessage("")]
      ensures picked && compressed.None? ==>
                compressedFile == old(compressedFile)
                && log == old(log) + [SetMessage(""), SetMessage(CompressionError)]
    {
      if !picked {
        compressedFile := None;
        return;
      }
      Emit(SetMessage(""));
      if compressed.Some? {
        compressedFile := compressed;
      } else {
        Emit(SetMessage(CompressionError));
      }
    }

    /** `handleSubmit`, given the upload service's and the registration
        endpoint's replies. */
    method HandleSubmit(upload: UploadReply, reply: RegisterReply)
      requires Valid()
      modifies this`loading, this`message, this`log
      ensures Valid()
      ensures log == old(log) + SubmitEffects(Form(name, phoneNumber, dni, voucherNumber, compressedFile),
                                              storeId, campaign, upload, reply)
    {
      var f := Form(name, phoneNumber, dni, voucherNumber, compressedFile);
      ghost var outcome := Validate(f);
      Emit(SetMessage(""));
      var validationError := ValidationError(f);
      if validationError != "" {
        Emit(SetMessage(validationError));
        AppendAssoc(old(log), [SetMessage("")], RejectedEffects(outcome.error));
        return;
      }
      SubmitAccepted(f, f.compressedFile.value, upload, reply);
      AppendAssoc(old(log), [SetMessage("")], AcceptedEffects(f, outcome.value, storeId, campaign, upload, reply));
      assert log == old(log) + SubmitEffects(f, storeId, campaign, upload, reply);
      assert f == Form(name, phoneNumber, dni, voucherNumber, compressedFile);
    }

    /** The rest of `handleSubmit` once the form `f` passed every check:
        upload the photo, then either report the failed upload or post the
        registration. */
    method SubmitAccepted(f: Form, file: CompressedFile, upload: UploadReply, reply: RegisterReply)
      requires Valid()
      modifies this`loading, this`message, this`log
      ensures Valid()
      ensures log == old(log) + AcceptedEffects(f, file, storeId, campaign, upload, reply)
    {
      var endpoint := if HasStore(storeId) then ClaimEndpoint else OnlyRegisterEndpoint;
      Emit(SetLoading(true));
      Emit(UploadPhoto(file));
      ghost var started := [SetLoading(true), UploadPhoto(file)];
      assert log == old(log) + started;
      var photoUrl, uploadError := SendPhoto(upload);
      if uploadError.Some? {
        UploadFailedStep(uploadError.value);
        AppendAssoc(old(log), started, [SetMessage(UploadErrorPrefix + uploadError.value), SetLoading(false)]);
        return;
      }
      var payload := Payload(Trim(f.name), Trim(f.phoneNumber), Trim(f.dni), campaign, photoUrl,
                             Trim(f.voucherNumber), if HasStore(storeId) then storeId else None);
      assert payload == BuildPayload(f, storeId, campaign, photoUrl);
      PostRegistrationStep(endpoint, payload, photoUrl, reply);
      AppendAssoc(old(log), started, PostEffects(endpoint, payload, ReplyEffects(endpoint, photoUrl, reply)));
    }

    /** The `catch` of the photo upload inside `handleSubmit`: the message,
        then `loading` off. */
    method UploadFailedStep(reason: string)
      requires Valid()
      modifies this`loading, this`message, this`log
      ensures Valid()
      ensures log == old(log) + [SetMessage(UploadErrorPrefix + reason), SetLoading(false)]
    {
      Emit(SetMessage(UploadErrorPrefix + reason));
      Emit(SetLoading(false));
    }

    /** The registration post inside `handleSubmit`, its reply, and the
        `finally` that switches `loading` off. */
    method PostRegistrationStep(endpoint: string, payload: Payload, photoUrl: Option<string>, reply: RegisterReply)
      requires Valid()
      modifies this`loading, this`message, this`log
      ensures Valid()
      ensures log == old(log) + PostEffects(endpoint, payload, ReplyEffects(endpoint, photoUrl, reply))
    {
      Emit(PostRegistration(endpoint, payload));
      HandleReply(endpoint, photoUrl, reply);
      Emit(SetLoading(false));
      AppendAssoc(old(log), [PostRegistration(endpoint, payload)], ReplyEffects(endpoint, photoUrl, reply));
      AppendAssoc(old(log), [PostRegistration(endpoint, payload)] + ReplyEffects(endpoint, photoUrl, reply), [SetLoading(false)]);
    }

    /** The handling of the registration endpoint's reply inside `handleSubmit`. */
    method HandleReply(endpoint: string, photoUrl: Option<string>, reply: RegisterReply)
      requires Valid()
      modifies this`loading, this`message, this`log
      ensures Valid()
      ensures log == old(log) + ReplyEffects(endpoint, photoUrl, reply)
    {
      match reply {
        case RegisterFailed =>
          Emit(SetMessage(ConnectionError));
        case RegisterAnswered(status, prize, replyUrl, msg) =>
          if IsOk(status) {
            if endpoint == ClaimEndpoint {
              Emit(Navigate(ExitRoute, Some(ExitState(OrElse(prize, DefaultPrizeName), PhotoUrlOr(replyUrl, photoUrl)))));
            } else {
              Emit(Navigate(ExitRoute, None));
            }
          } else {
            Emit(SetMessage("❌ " + OrElse(msg, RegisterFallback)));
          }
      }
    }
  }

  lemma AppendAssoc(a: seq<Effect>, b: seq<Effect>, c: seq<Effect>)
    ensures a + b + c == a + (b + c)
  {
  }

  /** The validation block of `handleSubmit`: the message of the first check
      the trimmed fields fail, or the empty string when all pass. */
  method ValidationError(f: Form) returns (validationError: string)
    ensures Validate(f).Success? ==> validationError == "" && f.compressedFile == Some(Validate(f).value)
    ensures Validate(f).Failure? ==> validationError == RuleMessage(Validate(f).error)
  {
    var trimmedName := Trim(f.name);
    var trimmedPhone := Trim(f.phoneNumber);
    var trimmedDni := Trim(f.dni);
    var trimmedVoucher := Trim(f.voucherNumber);
    validationError := "";
    if Utf16Length(trimmedName) > 45 || Utf16Length(trimmedName) == 0 {
      validationError := NameError;
      assert Validate(f) == Failure(NameRule);
    } else if Utf16Length(trimmedPhone) != 9 || !MatchesDigitRun(trimmedPhone) {
      validationError := PhoneError;
      assert Validate(f) == Failure(PhoneRule);
    } else if Utf16Length(trimmedDni) < 8 || Utf16Length(trimmedDni) > 11 || !MatchesDigitRun(trimmedDni) {
      validationError := DniError;
      assert Validate(f) == Failure(DniRule);
    } else if Utf16Length(trimmedVoucher) < 6 || Utf16Length(trimmedVoucher) > 20 {
      validationError := VoucherError;
      assert Validate(f) == Failure(VoucherRule);
    } else if f.compressedFile.None? {
      validationError := PhotoError;
      assert Validate(f) == Failure(PhotoRule);
    } else {
      assert Validate(f) == Success(f.compressedFile.value);
    }
  }

  /** The upload block of `handleSubmit`: the photo URL the service returned,
      or the message of the error the block raises. */
  method SendPhoto(upload: UploadReply) returns (photoUrl: Option<string>, uploadError: Option<string>)
    ensures uploadError.None? <==> UploadStep(upload).Success?
    ensures uploadError.Some? ==> UploadStep(upload) == Failure(uploadError.value)
    ensures uploadError.None? ==> photoUrl == UploadStep(upload).value
  {
    photoUrl := Some("");
    uploadError := None;
    match upload {
      case UploadThrew(e) =>
        uploadError := Some(e);
      case UploadAnswered(status, text, body) =>
        if !IsOk(status) {
          uploadError := Some("Error en la subida : " + NatToString(status) + " - " + text);
        } else {
          match body {
            case UploadNotJson(pe) =>
              uploadError := Some(pe);
            case UploadJson(url) =>
              photoUrl := url;
          }
        }
    }
  }
}
