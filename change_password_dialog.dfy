/**
 * The change-password dialog (src/routes/_auth/-components/layout/ChangePasswordDialog.tsx):
 * the confirmation check, the submit validator, the request it sends and the way closing or a
 * successful change resets it.
 *
 * Assumption about the form library, whose code is not part of this model: a submission is
 * refused while a field shows an error; otherwise it goes ahead only when the form-level
 * validator passes and the confirmation field's own validator, re-run at submit time, reports
 * nothing. While the mutation is pending the submit button is disabled
 * (src/components/form/SubmitButton.tsx).
 */
module ChangePasswordDialog {
  import opened Wrappers
  import opened JsStrings
  import opened AppErrors
  import opened Mutations

  datatype PasswordForm = PasswordForm(currentPassword: string, newPassword: string, confirmPassword: string)

  const EmptyPasswordForm: PasswordForm := PasswordForm("", "", "")

  const MismatchMessage: string := "Passwords don't match"

  datatype Field = CurrentPasswordField | NewPasswordField | ConfirmPasswordField

  /** The state of `changePasswordMutation` as the dialog sees it. */
  datatype MutationState = Idle | Pending(request: Mutation) | Succeeded | Failed(error: AppError)

  /**
   * The confirmation field's `onChange` validator: a mismatch is reported only when both the
   * confirmation and the new password are non-empty (JavaScript truthiness) and they differ.
   */
  function ConfirmError(confirmPassword: string, newPassword: string): (r: Option<string>)
    ensures r.Some? <==> confirmPassword != [] && newPassword != [] && confirmPassword != newPassword
    ensures r.Some? ==> r.value == MismatchMessage
  {
    if confirmPassword != "" && newPassword != "" && confirmPassword != newPassword then Some(MismatchMessage) else None
  }

  /** The form-level submit validator: every field at least 2 long. */
  predicate SubmitValid(form: PasswordForm) {
    && Utf16Length(form.currentPassword) >= 2
    && Utf16Length(form.newPassword) >= 2
    && Utf16Length(form.confirmPassword) >= 2
  }

  predicate CanSubmit(form: PasswordForm) {
    SubmitValid(form) && ConfirmError(form.confirmPassword, form.newPassword).None?
  }

  /** The mutation `onSubmit` runs: the current and the new password; the confirmation is not sent. */
  function Payload(form: PasswordForm): (r: Mutation)
    ensures r.ChangePassword?
    ensures RequestOf(r).json == Some(map["currentPassword" := FString(form.currentPassword),
                                          "newPassword" := FString(form.newPassword)])
  {
    ChangePassword(form.currentPassword, form.newPassword)
  }

  /**
   * Together the two validators make the confirmation redundant in what is sent: a form that
   * can be submitted has a confirmation equal to the new password, so the request's new
   * password is the one typed twice.
   */
  lemma SubmittedPasswordsMatch(form: PasswordForm)
    requires CanSubmit(form)
    ensures form.confirmPassword == form.newPassword
    ensures Payload(form).newPassword == form.confirmPassword
  {
    Utf16LengthBounds(form.confirmPassword);
    Utf16LengthBounds(form.newPassword);
  }

  /** An empty confirmation or an empty new password never shows the mismatch message, even when the other differs. */
  lemma EmptyFieldNoMismatch(confirmPassword: string, newPassword: string)
    requires confirmPassword == [] || newPassword == []
    ensures ConfirmError(confirmPassword, newPassword) == None
  {
  }

  class Dialog {
    /** The parent's `passwordDialogOpen`, which `onOpenChange` sets. */
    var open: bool
    var form: PasswordForm
    /** The message the confirmation field shows. */
    var confirmError: Option<string>
    var mutation: MutationState

    constructor ()
      ensures !open && form == EmptyPasswordForm && confirmError == None && mutation == Idle
    {
      open := false;
      form := EmptyPasswordForm;
      confirmError := None;
      mutation := Idle;
    }

    /** Typing into one field. Only the confirmation field's own change re-runs its validator. */
    method Edit(field: Field, value: string)
      modifies this
      ensures field == CurrentPasswordField ==> form == old(form).(currentPassword := value)
      ensures field == NewPasswordField ==> form == old(form).(newPassword := value)
      ensures field == ConfirmPasswordField ==> form == old(form).(confirmPassword := value)
      ensures field == ConfirmPasswordField ==> confirmError == ConfirmError(value, form.newPassword)
      ensures field != ConfirmPasswordField ==> confirmError == old(confirmError)
      ensures open == old(open) && mutation == old(mutation)
    {
      match field
      case CurrentPasswordField => form := form.(currentPassword := value);
      case NewPasswordField => form := form.(newPassword := value);
      case ConfirmPasswordField =>
        form := form.(confirmPassword := value);
        confirmError := ConfirmError(value, form.newPassword);
    }

    /**
     * Submitting. Nothing happens while the mutation is pending (the button is disabled) or while
     * the confirmation field still shows an error (the form cannot submit). Otherwise the
     * validators run again and, when they pass, the mutation starts with the payload.
     */
    method Submit() returns (sent: Option<Mutation>)
      modifies this
      ensures sent.Some? <==> !old(mutation).Pending? && old(confirmError).None? && CanSubmit(old(form))
      ensures sent.Some? ==> sent.value == Payload(old(form)) && mutation == Pending(sent.value)
      ensures sent.None? ==> mutation == old(mutation)
      ensures form == old(form) && open == old(open)
      ensures !old(mutation).Pending? && old(confirmError).None? ==> confirmError == ConfirmError(form.confirmPassword, form.newPassword)
      ensures old(mutation).Pending? || old(confirmError).Some? ==> confirmError == old(confirmError)
    {
      sent := None;
      if mutation.Pending? || confirmError.Some? {
        return;
      }
      confirmError := ConfirmError(form.confirmPassword, form.newPassword);
      if SubmitValid(form) && confirmError.None? {
        sent := Some(Payload(form));
        mutation := Pending(sent.value);
      }
    }

    /**
     * The pending mutation settles. On success the form is reset and the parent closes the
     * dialog through `onOpenChange(false)` directly, so the mutation state is not reset. A
     * mutation that is no longer the dialog's (it was reset while pending) reports nothing.
     */
    method Settle(outcome: Result<(), AppError>)
      modifies this
      ensures old(mutation).Pending? && outcome.Ok? ==>
                form == EmptyPasswordForm && confirmError == None && !open && mutation == Succeeded
      ensures old(mutation).Pending? && outcome.Err? ==>
                form == old(form) && confirmError == old(confirmError) && open == old(open) && mutation == Failed(outcome.error)
      ensures !old(mutation).Pending? ==>
                form == old(form) && confirmError == old(confirmError) && open == old(open) && mutation == old(mutation)
    {
      if mutation.Pending? {
        match outcome
        case Ok(_) =>
          form := EmptyPasswordForm;
          confirmError := None;
          open := false;
          mutation := Succeeded;
        case Err(e) =>
          mutation := Failed(e);
      }
    }

    /** `handleOpenChange`: closing resets the form and the mutation; opening changes neither. */
    method HandleOpenChange(newOpen: bool)
      modifies this
      ensures open == newOpen
      ensures !newOpen ==> form == EmptyPasswordForm && confirmError == None && mutation == Idle
      ensures newOpen ==> form == old(form) && confirmError == old(confirmError) && mutation == old(mutation)
    {
      if !newOpen {
        form := EmptyPasswordForm;
        confirmError := None;
        mutation := Idle;
      }
      open := newOpen;
    }
  }
}
