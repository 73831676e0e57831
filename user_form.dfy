/** The `UserForm` component: its form state, the per-field change handler and the submit rule
    that refuses mismatched passwords. */
module UserFormState {
  import opened JsValues
  import opened UserTypes

  /** The `name` attributes of the form's inputs. */
  datatype FieldName = Name | Email | Password | PasswordConfirmation | Role

  /** The `formData` state record. */
  datatype FormFields = FormFields(name: string, email: string, password: string,
                                   passwordConfirmation: string, role: string)

  /** The value the input named `f` shows. */
  function Get(fields: FormFields, f: FieldName): string
  {
    match f
    case Name => fields.name
    case Email => fields.email
    case Password => fields.password
    case PasswordConfirmation => fields.passwordConfirmation
    case Role => fields.role
  }

  /** `{...user, ...formData}`: the user with the form's fields laid over it. The object also
      carries the extra key `password_confirmation`, kept here beside the user. */
  datatype Submission = Submission(user: User, passwordConfirmation: string)

  class UserForm {
    const user: User
    var formData: FormFields

    /** `useState({...})`: name and email from the user (or `''`), the role from the user
        (or `'user'`), both passwords empty. */
    constructor(user: User)
      ensures this.user == user
      ensures formData.name == user.name && formData.email == user.email
      ensures formData.role == (if user.role != "" then user.role else "user")
      ensures formData.password == "" && formData.passwordConfirmation == ""
    {
      this.user := user;
      formData := FormFields(if user.name != "" then user.name else "",
                             if user.email != "" then user.email else "",
                             "", "",
                             if user.role != "" then user.role else "user");
    }

    /** `handleChange`: the named field takes the new value, every other field keeps its own. */
    method HandleChange(field: FieldName, value: string)
      modifies this
      ensures Get(formData, field) == value
      ensures forall f :: f != field ==> Get(formData, f) == Get(old(formData), f)
    {
      match field
      case Name => formData := formData.(name := value);
      case Email => formData := formData.(email := value);
      case Password => formData := formData.(password := value);
      case PasswordConfirmation => formData := formData.(passwordConfirmation := value);
      case Role => formData := formData.(role := value);
    }

    /** `onSubmit`: `None` when the passwords differ (the alert), otherwise what is handed to
        `handleSubmit`. */
    function Submit(): (r: Option<Submission>)
      reads this
      ensures r.None? <==> formData.password != formData.passwordConfirmation
    {
      if formData.password != formData.passwordConfirmation then None
      else Some(Submission(user.(name := formData.name, email := formData.email,
                                 password := Some(formData.password), role := formData.role),
                           formData.passwordConfirmation))
    }

    /** What is submitted: the form's name, email, password and role; the user's id, dates
        and `passwordVerify` unchanged. */
    lemma SubmitMerges()
      requires Submit().Some?
      ensures var s := Submit().value.user;
        s.name == formData.name && s.email == formData.email && s.role == formData.role &&
        s.password == Some(formData.password) && s.id == user.id &&
        s.createdAt == user.createdAt && s.updatedAt == user.updatedAt &&
        s.passwordVerify == user.passwordVerify
      ensures Submit().value.passwordConfirmation == formData.password
    {
    }
  }

  /** Typing the same value into the confirmation as into the password makes the form
      submittable, whatever was typed before. */
  method MatchingPasswordsSubmit(form: UserForm, secret: string)
    modifies form
    ensures form.Submit().Some? && form.Submit().value.user.password == Some(secret)
    ensures form.Submit().value.user.id == form.user.id
  {
    form.HandleChange(Password, secret);
    form.HandleChange(PasswordConfirmation, secret);
  }
}
