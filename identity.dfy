/** The account forms and the stored user: registration, login and the user record. */
module IdentityModels {
  import opened Wrappers
  import opened Text
  import opened Annotations

  /** The registration form. */
  datatype RegisterViewModel = RegisterViewModel(
    LastName: string,
    FirstName: string,
    MiddleName: Option<string>,
    Email: string,
    Phone: string,
    Password: string,
    ConfirmPassword: string)

  /**
   * The annotations of the registration form: every field but the middle
   * name required, the email in `[EmailAddress]` form, the phone in `[Phone]`
   * form and matching `^\+380\d{9}$`, the password 8 to 16 characters long
   * and the confirmation equal to it (`[Compare("Password")]`).
   */
  predicate RegisterIsValid(m: RegisterViewModel) {
    && RequiredText(m.LastName)
    && RequiredText(m.FirstName)
    && RequiredText(m.Email) && EmailFormat(Some(m.Email))
    && RequiredText(m.Phone) && PhoneFormat(Some(m.Phone)) && UaPhonePattern(Some(m.Phone))
    && RequiredText(m.Password) && LengthBetween(Some(m.Password), 8, 16)
    && RequiredText(m.ConfirmPassword) && SameAs(m.ConfirmPassword, m.Password)
  }

  /** Given an otherwise valid form, a phone is accepted exactly when it is "+380" and nine digits. */
  lemma RegisterPhoneRule(m: RegisterViewModel, phone: string)
    requires RegisterIsValid(m)
    ensures RegisterIsValid(m.(Phone := phone)) <==> IsUaPhone(phone)
  {
    UaPhoneRule(Some(phone));
  }

  /**
   * Given an otherwise valid form, a password (typed twice) is accepted
   * exactly when it is 8 to 16 UTF-16 code units long and not blank.
   */
  lemma RegisterPasswordRule(m: RegisterViewModel, password: string)
    requires RegisterIsValid(m)
    ensures RegisterIsValid(m.(Password := password, ConfirmPassword := password))
            <==> 8 <= Utf16Length(password) <= 16 && !AllWhiteSpace(password)
  {
  }

  /** The confirmation must equal the password, and the middle name may be absent. */
  lemma RegisterConfirmRule(m: RegisterViewModel, confirm: string)
    requires RegisterIsValid(m)
    ensures RegisterIsValid(m.(ConfirmPassword := confirm)) <==> confirm == m.Password
    ensures RegisterIsValid(m.(MiddleName := None))
  {
  }

  /** An empty last name, first name, email, phone, password or confirmation fails. */
  lemma RegisterRequiredFields(m: RegisterViewModel)
    ensures m.LastName == "" || m.FirstName == "" || m.Email == "" || m.Phone == "" || m.Password == "" || m.ConfirmPassword == ""
            ==> !RegisterIsValid(m)
  {
  }

  /** The stored user; its string properties have no initialiser, so they start out null. */
  datatype ApplicationUser = ApplicationUser(
    Id: int,
    Username: Option<string>,
    FullName: Option<string>,
    PasswordHash: Option<string>,
    Phone: Option<string>,
    Email: Option<string>,
    CreatedDate: int,
    LastLoginDate: Option<int>,
    IsActive: bool)

  /** `new ApplicationUser()` with the given creation date: no strings, never logged in, active. */
  function NewApplicationUser(created: int): ApplicationUser {
    ApplicationUser(0, None, None, None, None, None, created, None, true)
  }

  /**
   * The annotations of ApplicationUser: user name (at most 50 characters),
   * full name (at most 500), password hash, phone (`[Phone]` and the
   * +380 pattern) and email (`[EmailAddress]`) all required.
   */
  predicate UserIsValid(u: ApplicationUser) {
    && Required(u.Username) && MaxLength(u.Username, 50)
    && Required(u.FullName) && MaxLength(u.FullName, 500)
    && Required(u.PasswordHash)
    && Required(u.Phone) && PhoneFormat(u.Phone) && UaPhonePattern(u.Phone)
    && Required(u.Email) && EmailFormat(u.Email)
  }

  /** Given an otherwise valid user, the limits on user name, full name and phone, each in both directions. */
  lemma UserFieldRules(u: ApplicationUser, name: string, fullName: string, phone: string)
    requires UserIsValid(u)
    ensures UserIsValid(u.(Username := Some(name))) <==> !AllWhiteSpace(name) && Utf16Length(name) <= 50
    ensures UserIsValid(u.(FullName := Some(fullName))) <==> !AllWhiteSpace(fullName) && Utf16Length(fullName) <= 500
    ensures UserIsValid(u.(Phone := Some(phone))) <==> IsUaPhone(phone)
    ensures !UserIsValid(u.(Username := None)) && !UserIsValid(u.(FullName := None))
  {
    UaPhoneRule(Some(phone));
  }

  /** A new user is active, has never logged in, and is not valid until its required fields are set. */
  lemma NewUserDefaults(created: int)
    ensures NewApplicationUser(created).IsActive
    ensures NewApplicationUser(created).LastLoginDate.None?
    ensures !UserIsValid(NewApplicationUser(created))
  {
  }

  /** The login form. */
  datatype LoginViewModel = LoginViewModel(
    Email: string,
    Password: string,
    RememberMe: bool,
    ReturnUrl: Option<string>)

  /** `new LoginViewModel()`: empty credentials, not remembered, no return URL. */
  function NewLoginViewModel(): LoginViewModel {
    LoginViewModel("", "", false, None)
  }

  /** The annotations of the login form: email and password required. */
  predicate LoginIsValid(m: LoginViewModel) {
    RequiredText(m.Email) && RequiredText(m.Password)
  }

  /** Only the two credentials decide validity: an empty one fails, the return URL and "remember me" are free. */
  lemma LoginRules(m: LoginViewModel)
    ensures m.Email == "" || m.Password == "" ==> !LoginIsValid(m)
    ensures LoginIsValid(m) <==> LoginIsValid(m.(RememberMe := false, ReturnUrl := None))
    ensures !NewLoginViewModel().RememberMe && NewLoginViewModel().ReturnUrl.None?
  {
  }
}
