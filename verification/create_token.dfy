/** The token-creation form of src/pages/create.tsx as a state record: the
    image upload with its 1 MiB limit, submit, the confirm flow that creates
    the token on chain and then registers it with the backend, the submit
    button and the navigation guard. The upload request, the chain call and
    the backend call are given as outcomes. */
module CreateToken {
  import opened Common

  /** `MAX_FILE_SIZE = 1024 * 1024` bytes. */
  const MaxFileSize: int := 1024 * 1024

  datatype Step = Idle | Uploading | Creating | Updating | Completed | Error

  datatype File = File(name: string, size: nat)

  datatype Toast = ToastSuccess(text: string) | ToastError(text: string)

  datatype Form = Form(
    tokenName: string,
    tokenSymbol: string,
    tokenImage: Option<File>,
    tokenImageUrl: Option<string>,
    isUploading: bool,
    creationStep: Step,
    showPurchasePopup: bool,
    lastToast: Option<Toast>)

  const Initial := Form("", "", None, None, false, Idle, false, None)

  // ---- messages ----

  const TooLarge := "File size exceeds 1MB limit. Please choose a smaller file."
  const Uploaded := "Image uploaded to IPFS successfully!"
  const UploadFailedGeneric := "Failed to upload image. Please try again."
  const NeedImage := "Please upload an image before creating the token."
  const CreatedAndUpdated := "Token created and updated successfully!"
  const Cancelled := "Transaction was cancelled. Please try again."
  const ChainFailure := "Failed to create token on blockchain. Please try again."
  const BackendFailure := "Token created on blockchain but failed to update in backend. Please try updating later in your portfolio."
  const Unexpected := "An unexpected error occurred. Please try again."

  // ---- image upload ----

  /** How the POST to the upload route ended: a response carrying `url`
      (None or empty when it had none), or an exception; an axios error with
      a response carries that response's `error` field and its own message. */
  datatype UploadOutcome =
    | Responded(url: Option<string>)
    | AxiosFailed(responseError: Option<string>, message: string)
    | OtherFailure

  /** The toast for a failed upload: the axios text when there was a
      response, the generic text otherwise. */
  function UploadFailureText(outcome: UploadOutcome): (text: string)
    requires !(outcome.Responded? && Truthy(outcome.url))
    ensures outcome.AxiosFailed? ==>
      text == "Failed to upload image: " + OrElse(outcome.responseError, outcome.message)
    ensures !outcome.AxiosFailed? ==> text == UploadFailedGeneric
  {
    match outcome
    case AxiosFailed(e, m) => "Failed to upload image: " + OrElse(e, m)
    case _ => UploadFailedGeneric
  }

  /** `handleFileUpload(file)` with `uploadToIPFS` inlined: the preview file is
      set first, then an oversized file is refused before any other change;
      otherwise the upload runs and its `finally` always ends idle. */
  function HandleFileUpload(f: Form, file: File, outcome: UploadOutcome): (r: Form)
    ensures r.tokenImage == Some(file)
    ensures file.size > MaxFileSize ==>
      r == f.(tokenImage := Some(file), lastToast := Some(ToastError(TooLarge)))
    ensures file.size <= MaxFileSize ==> r.creationStep == Idle && !r.isUploading
    ensures file.size <= MaxFileSize && outcome.Responded? && Truthy(outcome.url) ==>
      r.tokenImageUrl == outcome.url && r.lastToast == Some(ToastSuccess(Uploaded))
    ensures file.size <= MaxFileSize && !(outcome.Responded? && Truthy(outcome.url)) ==>
      r.tokenImageUrl == f.tokenImageUrl && r.lastToast == Some(ToastError(UploadFailureText(outcome)))
    ensures r.tokenName == f.tokenName && r.tokenSymbol == f.tokenSymbol
    ensures r.showPurchasePopup == f.showPurchasePopup
  {
    var withFile := f.(tokenImage := Some(file));
    if file.size > MaxFileSize then withFile.(lastToast := Some(ToastError(TooLarge)))
    else
      var uploading := withFile.(isUploading := true, creationStep := Uploading);
      var settled :=
        if outcome.Responded? && Truthy(outcome.url) then
          uploading.(tokenImageUrl := outcome.url, lastToast := Some(ToastSuccess(Uploaded)))
        else uploading.(lastToast := Some(ToastError(UploadFailureText(outcome))));
      settled.(isUploading := false, creationStep := Idle)
  }

  /** The limit is inclusive: a file of exactly 1 MiB is uploaded and its
      URL kept, one byte more is refused with nothing but the preview and the
      toast changed. */
  lemma SizeLimitIsInclusive(f: Form, name: string, url: string, outcome: UploadOutcome)
    requires url != ""
    ensures HandleFileUpload(f, File(name, 1048576), Responded(Some(url))).tokenImageUrl == Some(url)
    ensures HandleFileUpload(f, File(name, 1048577), outcome)
         == f.(tokenImage := Some(File(name, 1048577)), lastToast := Some(ToastError(TooLarge)))
  {
  }

  // ---- submit and confirm ----

  /** `handleSubmit`: without a (truthy) image URL only an error toast. */
  function HandleSubmit(f: Form): (r: Form)
    ensures !Truthy(f.tokenImageUrl) ==> r == f.(lastToast := Some(ToastError(NeedImage)))
    ensures Truthy(f.tokenImageUrl) ==> r == f.(showPurchasePopup := true)
  {
    if !Truthy(f.tokenImageUrl) then f.(lastToast := Some(ToastError(NeedImage)))
    else f.(showPurchasePopup := true)
  }

  /** How `createToken(...)` ended: an address (possibly null), or an
      exception, which may or may not be an `Error` and may be the wallet's
      user-rejected error. */
  datatype ChainOutcome =
    | Created(address: Option<string>)
    | ChainThrew(isError: bool, userRejected: bool)

  /** How `updateToken(...)` ended. */
  datatype UpdateOutcome = UpdateOk | UpdateThrew(isError: bool)

  /** The `catch` branch's toast. */
  function FailureText(isError: bool, userRejected: bool, tokenAddress: Option<string>): (text: string)
    ensures !isError ==> text == Unexpected
    ensures isError && userRejected ==> text == Cancelled
    ensures isError && !userRejected && !Truthy(tokenAddress) ==> text == ChainFailure
    ensures isError && !userRejected && Truthy(tokenAddress) ==> text == BackendFailure
  {
    if !isError then Unexpected
    else if userRejected then Cancelled
    else if !Truthy(tokenAddress) then ChainFailure
    else BackendFailure
  }

  /** Everything a confirm produced: the final form, every step it set in
      order, whether the backend update was requested, and where it navigated. */
  datatype Confirmed = Confirmed(form: Form, steps: seq<Step>, updateCalled: bool, navigateTo: Option<string>)

  /** `handlePurchaseConfirm`. */
  function HandlePurchaseConfirm(f: Form, chain: ChainOutcome, update: UpdateOutcome): (c: Confirmed)
    ensures !c.form.showPurchasePopup && |c.steps| >= 2 && c.steps[0] == Creating
    ensures c.form.creationStep == c.steps[|c.steps| - 1]
    ensures c.form.creationStep == Completed || c.form.creationStep == Idle
    ensures c.updateCalled <==> chain.Created? && Truthy(chain.address) && Truthy(f.tokenImageUrl)
    ensures c.form.creationStep == Completed <==> c.updateCalled && update == UpdateOk
    ensures c.form.creationStep == Completed ==>
      c.steps == [Creating, Updating, Completed] && c.navigateTo == Some("/token/" + chain.address.value)
      && c.form.lastToast == Some(ToastSuccess(CreatedAndUpdated))
    ensures c.form.creationStep == Idle ==>
      c.navigateTo == None && c.form.lastToast.Some? && c.form.lastToast.value.ToastError?
    ensures chain.ChainThrew? ==>
      && c.steps == [Creating, Idle]
      && c.form.lastToast == Some(ToastError(FailureText(chain.isError, chain.userRejected, None)))
    ensures chain.Created? && !c.updateCalled ==>
      && c.steps == [Creating, Updating, Idle]
      && c.form.lastToast == Some(ToastError(if Truthy(chain.address) then BackendFailure else ChainFailure))
    ensures c.updateCalled && update.UpdateThrew? ==>
      && c.steps == [Creating, Updating, Idle]
      && c.form.lastToast == Some(ToastError(if update.isError then BackendFailure else Unexpected))
    ensures c.form.tokenImageUrl == f.tokenImageUrl && c.form.tokenName == f.tokenName
  {
    var creating := f.(showPurchasePopup := false, creationStep := Creating);
    match chain
    case ChainThrew(isError, rejected) =>
      Confirmed(creating.(creationStep := Idle, lastToast := Some(ToastError(FailureText(isError, rejected, None)))),
                [Creating, Idle], false, None)
    case Created(address) =>
      var updating := creating.(creationStep := Updating);
      if Truthy(address) && Truthy(f.tokenImageUrl) then
        match update
        case UpdateOk =>
          Confirmed(updating.(creationStep := Completed, lastToast := Some(ToastSuccess(CreatedAndUpdated))),
                    [Creating, Updating, Completed], true, Some("/token/" + address.value))
        case UpdateThrew(isError) =>
          Confirmed(updating.(creationStep := Idle, lastToast := Some(ToastError(FailureText(isError, false, address)))),
                    [Creating, Updating, Idle], true, None)
      else
        Confirmed(updating.(creationStep := Idle, lastToast := Some(ToastError(FailureText(true, false, address)))),
                  [Creating, Updating, Idle], false, None)
  }

  // ---- button, guard ----

  /** `isButtonDisabled`. */
  predicate IsButtonDisabled(f: Form)
  {
    f.creationStep != Idle || f.tokenName == "" || f.tokenSymbol == "" || !Truthy(f.tokenImageUrl)
  }

  /** `getButtonText()`. */
  function ButtonText(step: Step, isBlockchainLoading: bool): (text: string)
    ensures text == "Create Token" <==> step == Idle
  {
    match step
    case Uploading => "Uploading image..."
    case Creating => if isBlockchainLoading then "Waiting for blockchain confirmation..." else "Creating token on blockchain..."
    case Updating => "Updating token in backend..."
    case Completed => "Token created successfully!"
    case Error => "Error occurred. Visit Portfolio to Update TokenInfo"
    case Idle => "Create Token"
  }

  /** Different steps never share a label, and only the creating label
      depends on the blockchain loading flag. */
  lemma ButtonTextDistinguishesSteps(s1: Step, l1: bool, s2: Step, l2: bool)
    ensures ButtonText(s1, l1) == ButtonText(s2, l2) ==> s1 == s2
    ensures s1 == s2 && s1 != Creating ==> ButtonText(s1, l1) == ButtonText(s2, l2)
    ensures s1 == Creating ==> (ButtonText(s1, true) != ButtonText(s1, false))
  {
    // the seven labels have seven different lengths
    if s1 != s2 {
      LabelLengthsDiffer(s1, l1, s2, l2);
    }
  }

  lemma LabelLengthsDiffer(s1: Step, l1: bool, s2: Step, l2: bool)
    requires s1 != s2
    ensures |ButtonText(s1, l1)| != |ButtonText(s2, l2)|
  {
    LabelLength(s1, l1);
    LabelLength(s2, l2);
  }

  /** The length of each label, one step at a time. */
  lemma LabelLength(step: Step, loading: bool)
    ensures |ButtonText(step, loading)| == match step
      case Uploading => 18
      case Creating => if loading then 38 else 31
      case Updating => 28
      case Completed => 27
      case Error => 51
      case Idle => 12
  {
    match step
    case Uploading =>
    case Creating =>
    case Updating =>
    case Completed =>
    case Error =>
    case Idle =>
  }

  /** An enabled button always gets past the image check: submitting then
      opens the purchase popup and nothing else. */
  lemma EnabledButtonOpensPopup(f: Form)
    requires !IsButtonDisabled(f)
    ensures HandleSubmit(f) == f.(showPurchasePopup := true)
    ensures f.creationStep == Idle && f.tokenName != "" && f.tokenSymbol != ""
  {
  }

  /** The "Please Wait" modal (and the unload prompt) is up exactly while
      the token is being created or updated. */
  predicate NavigationGuard(step: Step)
  {
    step == Creating || step == Updating
  }

  /** The verb in the modal's "Your token is being …" line. */
  function GuardVerb(step: Step): (verb: string)
    requires NavigationGuard(step)
    ensures verb == (if step == Creating then "created" else "updated")
  {
    if step == Creating then "created" else "updated"
  }

  /** Through a confirm the modal is up from the first step on, saying the
      token is being "created" and then, on the update step, "updated",
      and it is down again on the last step. */
  lemma ConfirmGuardPrompts(f: Form, chain: ChainOutcome, update: UpdateOutcome)
    ensures var c := HandlePurchaseConfirm(f, chain, update);
      && NavigationGuard(c.steps[0]) && GuardVerb(c.steps[0]) == "created"
      && (forall k :: 0 < k < |c.steps| - 1 ==> NavigationGuard(c.steps[k]) && GuardVerb(c.steps[k]) == "updated")
      && !NavigationGuard(c.steps[|c.steps| - 1])
  {
  }

  // ---- runs of the form ----

  datatype Event =
    | EditName(name: string)
    | EditSymbol(symbol: string)
    | Upload(file: File, outcome: UploadOutcome)
    | Submit
    | CancelPopup
    | Confirm(chain: ChainOutcome, update: UpdateOutcome)

  function Step1(f: Form, e: Event): Form
  {
    match e
    case EditName(n) => f.(tokenName := n)
    case EditSymbol(s) => f.(tokenSymbol := s)
    case Upload(file, o) => HandleFileUpload(f, file, o)
    case Submit => HandleSubmit(f)
    case CancelPopup => f.(showPurchasePopup := false)
    case Confirm(chain, update) => HandlePurchaseConfirm(f, chain, update).form
  }

  function Run(f: Form, events: seq<Event>): Form
    decreases |events|
  {
    if |events| == 0 then f else Run(Step1(f, events[0]), events[1..])
  }

  /** Between handlers the form is settled: idle or completed, no upload
      running, and never in the `'error'` step. */
  predicate Settled(f: Form)
  {
    (f.creationStep == Idle || f.creationStep == Completed) && !f.isUploading
  }

  /** No sequence of user actions reaches the `'error'` step, so the error
      label of the button is never shown, and no guard is left up. */
  lemma {:induction false} NoRunReachesError(f: Form, events: seq<Event>)
    requires Settled(f)
    ensures Settled(Run(f, events))
    ensures Run(f, events).creationStep != Error
    ensures !NavigationGuard(Run(f, events).creationStep)
    decreases |events|
  {
    if |events| > 0 {
      NoRunReachesError(Step1(f, events[0]), events[1..]);
    }
  }
}
