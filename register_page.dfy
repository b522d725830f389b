/**
 * The registration page: `onNext` checks the form in two steps, builds the
 * payload with empty optional fields left `undefined`, and hands it to the
 * registration mutation, whose success toasts and navigates to `/login`.
 * The mutation calls `AuthService.register`, which the auth service does
 * not define; the registration call is therefore a parameter here, and the
 * page as written is the instance whose call always throws a TypeError.
 */
module Registration {
  import opened Wrappers

  datatype RegisterForm = RegisterForm(
    name: string,
    surname1: string,
    surname2: string,
    nif: string,
    address: string,
    email: string,
    phone: string,
    password: string,
    repeatPassword: string)

  /** The mutation's payload; `None` is a field left `undefined`. */
  datatype RegisterPayload = RegisterPayload(
    firstName: string,
    lastName: string,
    secondLastName: Option<string>,
    nif: Option<string>,
    address: Option<string>,
    email: string,
    phone: Option<string>,
    password: string)

  const FillRequired := "Please fill required fields"
  const PasswordsDiffer := "Passwords do not match"
  const Registered := "Registration successful. Please log in."

  /** What `onNext` does: refuse with a toast, or submit a payload. */
  datatype NextStep = Refuse(message: string) | Submit(payload: RegisterPayload)

  /** `s || undefined`. */
  function OrUndefined(s: string): (r: Option<string>)
    ensures r.None? <==> s == ""
    ensures r.Some? ==> r.value == s
  {
    if s != "" then Some(s) else None
  }

  /** The form field an optional payload field came from: an `undefined` one was empty. */
  function Unfilled(v: Option<string>): string
  {
    if v.Some? then v.value else ""
  }

  predicate RequiredFilled(f: RegisterForm)
  {
    f.name != "" && f.surname1 != "" && f.email != "" && f.password != "" && f.repeatPassword != ""
  }

  function Payload(f: RegisterForm): RegisterPayload
  {
    RegisterPayload(f.name, f.surname1, OrUndefined(f.surname2), OrUndefined(f.nif), OrUndefined(f.address),
                    f.email, OrUndefined(f.phone), f.password)
  }

  /**
   * `onNext`: missing required fields first, then differing passwords, then
   * the payload.
   */
  function OnNext(f: RegisterForm): (r: NextStep)
    ensures r == Refuse(FillRequired) <==> !RequiredFilled(f)
    ensures r == Refuse(PasswordsDiffer) <==> RequiredFilled(f) && f.password != f.repeatPassword
    ensures r.Submit? <==> RequiredFilled(f) && f.password == f.repeatPassword
    ensures r.Submit? ==> r.payload.firstName == f.name && r.payload.lastName == f.surname1
                          && r.payload.email == f.email && r.payload.password == f.password
  {
    if f.name == "" || f.surname1 == "" || f.email == "" || f.password == "" || f.repeatPassword == "" then
      Refuse(FillRequired)
    else if f.password != f.repeatPassword then Refuse(PasswordsDiffer)
    else Submit(Payload(f))
  }

  // ---------------------------------------------------------------------
  // The mutation and its effects
  // ---------------------------------------------------------------------

  datatype Toast = ToastSuccess(text: string) | ToastError(text: string)

  /** Everything the page has done so far: its toasts, its navigations and the payloads it submitted. */
  datatype PageLog = PageLog(toasts: seq<Toast>, navigations: seq<string>, submitted: seq<RegisterPayload>)

  /** `onSuccess` toasts and navigates to `/login`; `onError` toasts the error's message. */
  function Settled(log: PageLog, outcome: Result<(), string>): (log': PageLog)
    ensures outcome.Ok? ==> log' == log.(toasts := log.toasts + [ToastSuccess(Registered)], navigations := log.navigations + ["/login"])
    ensures outcome.Err? ==> log' == log.(toasts := log.toasts + [ToastError(outcome.error)])
  {
    if outcome.Ok? then log.(toasts := log.toasts + [ToastSuccess(Registered)], navigations := log.navigations + ["/login"])
    else log.(toasts := log.toasts + [ToastError(outcome.error)])
  }

  /** A click on the button, the mutation included, with `register` the registration call. */
  function NextSpec(log: PageLog, f: RegisterForm, register: RegisterPayload -> Result<(), string>): PageLog
  {
    match OnNext(f)
    case Refuse(m) => log.(toasts := log.toasts + [ToastError(m)])
    case Submit(p) => Settled(log.(submitted := log.submitted + [p]), register(p))
  }

  /**
   * The message of the TypeError raised by calling an undefined method; its
   * wording is the engine's, this is the one V8 gives.
   */
  const MissingRegister := "AuthService.register is not a function"

  /** The page as written: `AuthService.register(payload)` throws for every payload. */
  function RegisterAsWritten(p: RegisterPayload): Result<(), string>
  {
    Err(MissingRegister)
  }

  /** The form's state cells and the page's effects. */
  class RegisterPage {
    var form: RegisterForm
    var log: PageLog

    constructor()
      ensures form == RegisterForm("", "", "", "", "", "", "", "", "")
      ensures log == PageLog([], [], [])
    {
      form := RegisterForm("", "", "", "", "", "", "", "", "");
      log := PageLog([], [], []);
    }

    /** The `onChange` setters: the form as edited. */
    method Edit(f: RegisterForm)
      modifies this
      ensures form == f && log == old(log)
    {
      form := f;
    }

    method OnNextClicked(register: RegisterPayload -> Result<(), string>)
      modifies this
      ensures log == NextSpec(old(log), old(form), register) && form == old(form)
    {
      var f := form;
      if f.name == "" || f.surname1 == "" || f.email == "" || f.password == "" || f.repeatPassword == "" {
        log := log.(toasts := log.toasts + [ToastError(FillRequired)]);
        return;
      }
      if f.password != f.repeatPassword {
        log := log.(toasts := log.toasts + [ToastError(PasswordsDiffer)]);
        return;
      }
      var payload := RegisterPayload(f.name, f.surname1, OrUndefined(f.surname2), OrUndefined(f.nif),
                                     OrUndefined(f.address), f.email, OrUndefined(f.phone), f.password);
      log := log.(submitted := log.submitted + [payload]);
      var outcome := register(payload);
      if outcome.Ok? {
        log := log.(toasts := log.toasts + [ToastSuccess(Registered)], navigations := log.navigations + ["/login"]);
      } else {
        log := log.(toasts := log.toasts + [ToastError(outcome.error)]);
      }
    }
  }

  // ---------------------------------------------------------------------
  // Properties
  // ---------------------------------------------------------------------

  /** The required-fields message wins when both checks fail. */
  lemma {:induction false} RequiredCheckFirst(f: RegisterForm)
    requires !RequiredFilled(f) && f.password != f.repeatPassword
    ensures OnNext(f) == Refuse(FillRequired)
  {
  }

  /** A refused form submits nothing and navigates nowhere, whatever the registration call would do. */
  lemma {:induction false} RefusalSubmitsNothing(log: PageLog, f: RegisterForm, register: RegisterPayload -> Result<(), string>)
    requires OnNext(f).Refuse?
    ensures var log' := NextSpec(log, f, register);
      && log'.submitted == log.submitted && log'.navigations == log.navigations
      && log'.toasts == log.toasts + [ToastError(OnNext(f).message)]
  {
  }

  /**
   * The payload loses nothing but the repeated password: the form comes
   * back from it, an `undefined` optional field reading as the empty one.
   */
  lemma {:induction false} PayloadKeepsTheForm(f: RegisterForm)
    ensures var p := Payload(f);
      RegisterForm(p.firstName, p.lastName, Unfilled(p.secondLastName), Unfilled(p.nif), Unfilled(p.address),
                   p.email, Unfilled(p.phone), p.password, f.repeatPassword) == f
    ensures Payload(f).secondLastName.None? <==> f.surname2 == ""
    ensures Payload(f).nif.None? <==> f.nif == ""
    ensures Payload(f).address.None? <==> f.address == ""
    ensures Payload(f).phone.None? <==> f.phone == ""
  {
  }

  /** A successful registration toasts once and navigates to `/login`, having submitted the form's payload. */
  lemma {:induction false} SuccessNavigatesToLogin(log: PageLog, f: RegisterForm, register: RegisterPayload -> Result<(), string>)
    requires OnNext(f).Submit? && register(Payload(f)).Ok?
    ensures NextSpec(log, f, register)
         == PageLog(log.toasts + [ToastSuccess(Registered)], log.navigations + ["/login"], log.submitted + [Payload(f)])
  {
  }

  /** As written, no form ever reaches `/login`: a valid one only toasts the TypeError. */
  lemma {:induction false} AsWrittenNeverRegisters(log: PageLog, f: RegisterForm)
    ensures NextSpec(log, f, RegisterAsWritten).navigations == log.navigations
    ensures OnNext(f).Submit? ==>
      NextSpec(log, f, RegisterAsWritten).toasts == log.toasts + [ToastError(MissingRegister)]
  {
  }

  /** A concrete form the page accepts and cannot register. */
  lemma AsWrittenWitness()
    ensures var f := RegisterForm("Ana", "Ruiz", "", "", "", "ana@example.com", "", "secret", "secret");
      && OnNext(f).Submit?
      && NextSpec(PageLog([], [], []), f, RegisterAsWritten).navigations == []
      && NextSpec(PageLog([], [], []), f, p => Ok(())).navigations == ["/login"]
  {
    var f := RegisterForm("Ana", "Ruiz", "", "", "", "ana@example.com", "", "secret", "secret");
    AsWrittenNeverRegisters(PageLog([], [], []), f);
    SuccessNavigatesToLogin(PageLog([], [], []), f, p => Ok(()));
  }
}
