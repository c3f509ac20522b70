/** The registration rules: the form check of the registration page
    (assets/js/register.js) and the check `POST /api/register` repeats on
    the body it receives (server/server.js). */
module Registration {
  import opened JsString

  /** The five fields of the form, or of the request body ("" for a missing
      one). */
  datatype Form = Form(fullname: string, email: string, phone: string, password: string, confirmPassword: string)

  const MinPasswordLength := 6

  /** What the page does on submit: show an error, or send the body. */
  datatype ClientOutcome = ClientError(message: string) | Submit(body: Form)

  const FillInAllFields := "Please fill in all fields"
  const PasswordsDoNotMatch := "Passwords do not match"
  const PasswordTooShort := "Password must be at least 6 characters"

  /** The submit handler's checks, in order: every field filled (name,
      e-mail and phone after trimming, the passwords as typed), the two
      passwords equal, the password at least six characters long. The body
      sent carries the trimmed name, e-mail and phone. */
  function ValidateRegistration(f: Form): (r: ClientOutcome)
    ensures r == ClientError(FillInAllFields) <==>
      Blank(f.fullname) || Blank(f.email) || Blank(f.phone) || f.password == "" || f.confirmPassword == ""
    ensures r == ClientError(PasswordsDoNotMatch) <==>
      && !Blank(f.fullname) && !Blank(f.email) && !Blank(f.phone) && f.password != "" && f.confirmPassword != ""
      && f.password != f.confirmPassword
    ensures r == ClientError(PasswordTooShort) <==>
      && !Blank(f.fullname) && !Blank(f.email) && !Blank(f.phone) && f.confirmPassword != ""
      && f.password == f.confirmPassword && 0 < |f.password| < MinPasswordLength
    ensures r.Submit? ==>
      r.body == Form(Trim(f.fullname), Trim(f.email), Trim(f.phone), f.password, f.confirmPassword)
  {
    TrimEmptyIffBlank(f.fullname);
    TrimEmptyIffBlank(f.email);
    TrimEmptyIffBlank(f.phone);
    var fullname, email, phone := Trim(f.fullname), Trim(f.email), Trim(f.phone);
    var password, confirmPassword := f.password, f.confirmPassword;
    if fullname == "" || email == "" || phone == "" || password == "" || confirmPassword == "" then
      ClientError(FillInAllFields)
    else if password != confirmPassword then
      ClientError(PasswordsDoNotMatch)
    else if |password| < MinPasswordLength then
      ClientError(PasswordTooShort)
    else
      Submit(Form(fullname, email, phone, password, confirmPassword))
  }

  /** The server's answer to the validation step. */
  datatype ServerOutcome = Rejected(status: int, message: string) | Accepted

  const AllFieldsRequired := "All fields are required"

  /** The validation at the top of `POST /api/register`: the same three
      rules, in the same order, on the body as received (nothing is
      trimmed), each rejected with 400 and its own message. */
  function ServerValidate(body: Form): (r: ServerOutcome)
    ensures r.Rejected? ==> r.status == 400
    ensures r == Rejected(400, AllFieldsRequired) <==>
      body.fullname == "" || body.email == "" || body.phone == "" || body.password == "" || body.confirmPassword == ""
    ensures r == Rejected(400, PasswordsDoNotMatch) <==>
      && body.fullname != "" && body.email != "" && body.phone != "" && body.password != "" && body.confirmPassword != ""
      && body.password != body.confirmPassword
    ensures r == Rejected(400, PasswordTooShort) <==>
      && body.fullname != "" && body.email != "" && body.phone != "" && body.confirmPassword != ""
      && body.password == body.confirmPassword && 0 < |body.password| < MinPasswordLength
    ensures r.Accepted? <==>
      && body.fullname != "" && body.email != "" && body.phone != ""
      && body.password == body.confirmPassword && |body.password| >= MinPasswordLength
  {
    if body.fullname == "" || body.email == "" || body.phone == "" || body.password == "" || body.confirmPassword == "" then
      Rejected(400, AllFieldsRequired)
    else if body.password != body.confirmPassword then
      Rejected(400, PasswordsDoNotMatch)
    else if |body.password| < MinPasswordLength then
      Rejected(400, PasswordTooShort)
    else
      Accepted
  }

  /** The server's message for each client-side error. */
  function ServerMessage(clientMessage: string): string {
    if clientMessage == FillInAllFields then AllFieldsRequired else clientMessage
  }

  /** The page and the server apply the same rules: on the trimmed form the
      server rejects exactly what the page rejects, with the corresponding
      message, and accepts exactly what the page sends. */
  lemma ClientMirrorsServer(f: Form)
    ensures var trimmed := Form(Trim(f.fullname), Trim(f.email), Trim(f.phone), f.password, f.confirmPassword);
      match ValidateRegistration(f)
      case ClientError(m) => ServerValidate(trimmed) == Rejected(400, ServerMessage(m))
      case Submit(body) => body == trimmed && ServerValidate(body) == Accepted
  {
    TrimEmptyIffBlank(f.fullname);
    TrimEmptyIffBlank(f.email);
    TrimEmptyIffBlank(f.phone);
    var trimmed := Form(Trim(f.fullname), Trim(f.email), Trim(f.phone), f.password, f.confirmPassword);
    var r := ValidateRegistration(f);
    if Blank(f.fullname) || Blank(f.email) || Blank(f.phone) || f.password == "" || f.confirmPassword == "" {
      assert r == ClientError(FillInAllFields);
      assert ServerValidate(trimmed) == Rejected(400, AllFieldsRequired);
    } else if f.password != f.confirmPassword {
      assert r == ClientError(PasswordsDoNotMatch);
      assert ServerValidate(trimmed) == Rejected(400, PasswordsDoNotMatch);
    } else if |f.password| < MinPasswordLength {
      assert r == ClientError(PasswordTooShort);
      assert ServerValidate(trimmed) == Rejected(400, PasswordTooShort);
    } else {
      assert r == Submit(trimmed);
    }
  }

  /** Whatever the page sends passes the server's validation. */
  lemma SubmittedFormsAccepted(f: Form)
    requires ValidateRegistration(f).Submit?
    ensures ServerValidate(ValidateRegistration(f).body) == Accepted
  {
    ClientMirrorsServer(f);
  }
}
