/**
 * The change-password page: `submit` refuses differing new passwords,
 * otherwise shows the loading state with no message while the call runs,
 * then either the success message with all three fields cleared or the
 * call's error message with the fields kept. The button is disabled while
 * loading or while any field is empty. `UserService.changePassword` is a
 * parameter: the call's outcome for the two passwords it is given.
 */
module PasswordChange {
  import opened Wrappers

  datatype Status = Idle | Loading | Success | Error

  const PasswordsDiffer := "Passwords do not match"
  const PasswordUpdated := "Password updated successfully"

  /** The five state cells. */
  datatype PageState = PageState(currentPassword: string, newPassword: string, confirmPassword: string, status: Status, message: string)

  /** The button's `disabled` condition. */
  predicate Disabled(s: PageState)
  {
    s.status == Loading || s.currentPassword == "" || s.newPassword == "" || s.confirmPassword == ""
  }

  /** What the page shows while the call is awaited. */
  function Awaiting(s: PageState): PageState
  {
    s.(status := Loading, message := "")
  }

  /** `submit`, from the state it starts in to the state it ends in, with `changePassword` the service call. */
  function SubmitSpec(s: PageState, changePassword: (string, string) -> Result<(), string>): (s': PageState)
    ensures s.newPassword != s.confirmPassword ==> s' == s.(status := Error, message := PasswordsDiffer)
    ensures s.newPassword == s.confirmPassword && changePassword(s.currentPassword, s.newPassword).Ok? ==>
              s' == PageState("", "", "", Success, PasswordUpdated)
    ensures s.newPassword == s.confirmPassword && changePassword(s.currentPassword, s.newPassword).Err? ==>
              s' == s.(status := Error, message := changePassword(s.currentPassword, s.newPassword).error)
  {
    if s.newPassword != s.confirmPassword then s.(status := Error, message := PasswordsDiffer)
    else
      var outcome := changePassword(s.currentPassword, s.newPassword);
      if outcome.Ok? then PageState("", "", "", Success, PasswordUpdated)
      else Awaiting(s).(status := Error, message := outcome.error)
  }

  class ChangePasswordPage {
    var currentPassword: string
    var newPassword: string
    var confirmPassword: string
    var status: Status
    var message: string
    /** The `(currentPassword, newPassword)` pairs passed to the service, in order. */
    var calls: seq<(string, string)>

    constructor()
      ensures State() == PageState("", "", "", Idle, "") && calls == []
    {
      currentPassword, newPassword, confirmPassword := "", "", "";
      status, message := Idle, "";
      calls := [];
    }

    function State(): PageState
      reads this
    {
      PageState(currentPassword, newPassword, confirmPassword, status, message)
    }

    /** The `onChange` setters of the three inputs. */
    method Type(current: string, next: string, confirm: string)
      modifies this
      ensures State() == old(State()).(currentPassword := current, newPassword := next, confirmPassword := confirm)
      ensures calls == old(calls)
    {
      currentPassword, newPassword, confirmPassword := current, next, confirm;
    }

    /**
     * `submit()`. `during` is the state rendered while the call is awaited;
     * a refused submit makes no call and has no such state.
     */
    method Submit(changePassword: (string, string) -> Result<(), string>) returns (ghost during: Option<PageState>)
      modifies this
      ensures State() == SubmitSpec(old(State()), changePassword)
      ensures old(newPassword) != old(confirmPassword) ==> during == None && calls == old(calls)
      ensures old(newPassword) == old(confirmPassword) ==>
                during == Some(Awaiting(old(State())))
                && calls == old(calls) + [(old(currentPassword), old(newPassword))]
    {
      if newPassword != confirmPassword {
        status := Error;
        message := PasswordsDiffer;
        return None;
      }
      status := Loading;
      message := "";
      during := Some(State());
      calls := calls + [(currentPassword, newPassword)];
      var outcome := changePassword(currentPassword, newPassword);
      if outcome.Ok? {
        status := Success;
        message := PasswordUpdated;
        currentPassword := "";
        newPassword := "";
        confirmPassword := "";
      } else {
        status := Error;
        message := outcome.error;
      }
    }
  }

  // ---------------------------------------------------------------------
  // Properties
  // ---------------------------------------------------------------------

  /** While the call is awaited the button is disabled, so a second submit cannot start. */
  lemma {:induction false} AwaitingDisablesSubmit(s: PageState)
    ensures Disabled(Awaiting(s))
    ensures Awaiting(s).message == ""
  {
  }

  /**
   * `submit` never ends loading or idle; it ends in success only through a
   * successful call, and a success leaves the button disabled until the
   * fields are filled again.
   */
  lemma {:induction false} SubmitSettles(s: PageState, changePassword: (string, string) -> Result<(), string>)
    ensures var s' := SubmitSpec(s, changePassword);
      && (s'.status == Success || s'.status == Error)
      && (s'.status == Success <==> s.newPassword == s.confirmPassword && changePassword(s.currentPassword, s.newPassword).Ok?)
      && (s'.status == Success ==> Disabled(s') && s'.message == PasswordUpdated)
      && (s'.status == Error ==> s'.currentPassword == s.currentPassword && s'.newPassword == s.newPassword && s'.confirmPassword == s.confirmPassword)
  {
  }

  /**
   * An enabled button hands the service two non-empty passwords; the
   * mismatch check alone would let three empty fields through, but the
   * button is then disabled.
   */
  lemma {:induction false} EnabledSubmitSendsFilledFields(s: PageState)
    requires !Disabled(s) && s.newPassword == s.confirmPassword
    ensures s.currentPassword != "" && s.newPassword != "" && s.status != Loading
  {
  }

  /**
   * A failed call keeps what was typed, so submitting again sends the same
   * passwords. The retry is a new call to the server (`retry`), which may
   * answer differently: it ends exactly as a first submission of the same
   * fields would with that answer, success included.
   */
  lemma {:induction false} RetryAfterFailure(s: PageState, first: (string, string) -> Result<(), string>,
                                             retry: (string, string) -> Result<(), string>)
    requires s.newPassword == s.confirmPassword && first(s.currentPassword, s.newPassword).Err?
    ensures var s' := SubmitSpec(s, first);
      && s'.status == Error && s'.message == first(s.currentPassword, s.newPassword).error
      && s'.currentPassword == s.currentPassword && s'.newPassword == s.newPassword
      && s'.newPassword == s'.confirmPassword
      && SubmitSpec(s', retry) == SubmitSpec(s, retry)
  {
  }
}
