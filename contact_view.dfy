/** The contact form of college-predictor-frontend/src/pages/Contact.jsx: the
    errors `validateForm` collects, the clearing of an error on edit, and
    what a submit sends and leaves in the form. */
module ContactView {
  import opened Wrappers
  import opened Js
  import opened Text
  import opened ContactRoute

  datatype Field = Name | Email | Message | Phone

  datatype ContactForm = ContactForm(name: string, email: string, message: string, phone: string)

  const EmptyForm := ContactForm("", "", "", "")

  function Get(form: ContactForm, f: Field): string {
    match f
    case Name => form.name
    case Email => form.email
    case Message => form.message
    case Phone => form.phone
  }

  /** `{ ...formData, [name]: value }`. */
  function Set(form: ContactForm, f: Field, value: string): (r: ContactForm)
    ensures Get(r, f) == value
    ensures forall g :: g != f ==> Get(r, g) == Get(form, g)
  {
    match f
    case Name => form.(name := value)
    case Email => form.(email := value)
    case Message => form.(message := value)
    case Phone => form.(phone := value)
  }

  const NameRequired := "Name is required"
  const EmailRequired := "Email is required"
  const EmailInvalid := "Please enter a valid email address"
  const MessageRequired := "Message is required"
  const MessageTooShort := "Message must be at least 10 characters"

  /** The error a field gets, if any: "required" before "invalid" and
      "too short"; the phone is never checked. */
  function FieldError(form: ContactForm, f: Field): (r: Option<string>)
    ensures f == Phone ==> r.None?
    ensures f != Phone && Trim(Get(form, f)) == "" ==>
      r == Some(if f == Name then NameRequired else if f == Email then EmailRequired else MessageRequired)
  {
    match f
    case Name => if Trim(form.name) == "" then Some(NameRequired) else None
    case Email =>
      if Trim(form.email) == "" then Some(EmailRequired)
      else if !ValidEmail(form.email) then Some(EmailInvalid)
      else None
    case Message =>
      if Trim(form.message) == "" then Some(MessageRequired)
      else if |Trim(form.message)| < 10 then Some(MessageTooShort)
      else None
    case Phone => None
  }

  /** The form passes: a name and an e-mail that are not blank, the e-mail
      (untrimmed) in the pattern, and a message of ten characters or more
      once trimmed. */
  predicate FormValid(form: ContactForm) {
    Trim(form.name) != "" && Trim(form.email) != "" && ValidEmail(form.email) && |Trim(form.message)| >= 10
  }

  /** `validateForm` (Contact.jsx:55-76): the error dictionary, filled field
      by field, and whether it is empty. */
  method ValidateForm(form: ContactForm) returns (errors: map<Field, string>, ok: bool)
    ensures forall f :: f in errors <==> FieldError(form, f).Some?
    ensures forall f :: f in errors ==> errors[f] == FieldError(form, f).value
    ensures ok <==> FormValid(form)
  {
    errors := map[];
    errors := CheckName(form, errors);
    errors := CheckEmail(form, errors);
    errors := CheckMessage(form, errors);
    ok := Name !in errors && Email !in errors && Message !in errors;
    ErrorsOfFields(form, errors);
    ValidIffNoFieldError(form);
  }

  /** A form is valid exactly when none of its fields has an error. */
  lemma {:induction false} ValidIffNoFieldError(form: ContactForm)
    ensures FormValid(form) <==> forall f :: FieldError(form, f).None?
  {
    if !FormValid(form) {
      if FieldError(form, Name).None? && FieldError(form, Email).None? {
        assert FieldError(form, Message).Some?;
      }
    } else {
      forall f ensures FieldError(form, f).None? {
        match f
        case Name =>
        case Email =>
        case Message =>
        case Phone =>
      }
    }
  }

  /** The name check (Contact.jsx:58-60): the name's entry is added when
      the name is blank, and nothing else changes. */
  method CheckName(form: ContactForm, errors: map<Field, string>) returns (r: map<Field, string>)
    requires Name !in errors
    ensures r == if FieldError(form, Name).Some? then errors[Name := FieldError(form, Name).value] else errors
  {
    r := errors;
    if Trim(form.name) == "" {
      r := r[Name := NameRequired];
    }
  }

  /** The e-mail check (Contact.jsx:62-66): "required" for a blank e-mail,
      otherwise "invalid" outside the pattern. */
  method CheckEmail(form: ContactForm, errors: map<Field, string>) returns (r: map<Field, string>)
    requires Email !in errors
    ensures r == if FieldError(form, Email).Some? then errors[Email := FieldError(form, Email).value] else errors
  {
    r := errors;
    if Trim(form.email) == "" {
      r := r[Email := EmailRequired];
    } else if !ValidEmail(form.email) {
      r := r[Email := EmailInvalid];
    }
  }

  /** The message check (Contact.jsx:68-72): "required" for a blank
      message, otherwise "too short" under ten trimmed characters. */
  method CheckMessage(form: ContactForm, errors: map<Field, string>) returns (r: map<Field, string>)
    requires Message !in errors
    ensures r == if FieldError(form, Message).Some? then errors[Message := FieldError(form, Message).value] else errors
  {
    r := errors;
    if Trim(form.message) == "" {
      r := r[Message := MessageRequired];
    } else if |Trim(form.message)| < 10 {
      r := r[Message := MessageTooShort];
    }
  }

  /** A dictionary that agrees with `FieldError` on the three checked
      fields, and leaves the phone out, agrees with it on every field. */
  lemma {:induction false} ErrorsOfFields(form: ContactForm, errors: map<Field, string>)
    requires Phone !in errors
    requires Name in errors <==> FieldError(form, Name).Some?
    requires Email in errors <==> FieldError(form, Email).Some?
    requires Message in errors <==> FieldError(form, Message).Some?
    requires Name in errors ==> errors[Name] == FieldError(form, Name).value
    requires Email in errors ==> errors[Email] == FieldError(form, Email).value
    requires Message in errors ==> errors[Message] == FieldError(form, Message).value
    ensures forall f :: f in errors <==> FieldError(form, f).Some?
    ensures forall f :: f in errors ==> errors[f] == FieldError(form, f).value
  {
    forall f ensures (f in errors <==> FieldError(form, f).Some?) && (f in errors ==> errors[f] == FieldError(form, f).value) {
      match f
      case Name =>
      case Email =>
      case Message =>
      case Phone =>
    }
  }

  /** The request body the page posts. */
  function RequestOf(form: ContactForm): ContactRequest {
    ContactRequest(Some(form.name), Some(form.email), Some(form.message), Some(form.phone))
  }

  /** A form the page lets through passes the server's checks too, with a
      phone row exactly when a phone was typed. */
  lemma {:induction false} ValidFormPassesServer(form: ContactForm)
    requires FormValid(form)
    ensures HandleContact(RequestOf(form), true).Sent?
    ensures HandleContact(RequestOf(form), true).mail.phoneRow <==> form.phone != ""
  {
    var req := RequestOf(form);
    assert Trim("") == "";
    assert TruthyStr(req.name) && TruthyStr(req.email) && TruthyStr(req.message);
    assert ValidEmail(req.email.value);
  }

  /** The server is more lenient than the page: a name and message of white
      space only are refused by the page and accepted by the server. */
  lemma {:induction false} ServerAcceptsBlankFields(email: string)
    requires ValidEmail(email)
    ensures !FormValid(ContactForm(" ", email, " ", ""))
    ensures HandleContact(RequestOf(ContactForm(" ", email, " ", "")), true).Sent?
  {
    SpaceTrimsAway(" ");
  }

  lemma {:induction false} SpaceTrimsAway(s: string)
    requires s == " "
    ensures Trim(s) == "" && s != ""
  {
    TrimEmptyIffBlank(s);
  }

  /** `handleChange` (Contact.jsx:46-53): the field takes the value, and an
      error shown for that field is blanked. */
  function HandleChange(form: ContactForm, errors: map<Field, string>, f: Field, value: string): (r: (ContactForm, map<Field, string>))
    ensures r.0 == Set(form, f, value)
  {
    (Set(form, f, value), if f in errors && errors[f] != "" then errors[f := ""] else errors)
  }

  /** Editing a field clears that field's error and no other. */
  lemma {:induction false} ChangeClearsOnlyThatField(form: ContactForm, errors: map<Field, string>, f: Field, value: string)
    ensures var e := HandleChange(form, errors, f, value).1;
      (f in e <==> f in errors) && (f in e ==> e[f] == "") &&
      forall g :: g != f ==> (g in e <==> g in errors) && (g in e ==> e[g] == errors[g])
  {
  }

  /** What a submit does: the body sent, if any, and the form and errors
      left on the page. */
  datatype Submit = Submit(sent: Option<ContactRequest>, form: ContactForm, errors: map<Field, string>)

  /** `handleSubmit` (Contact.jsx:78-101): an invalid form sends nothing and
      shows its errors; a valid one is posted, and once the server answers
      the form is emptied and the errors cleared; on failure both stay. */
  method HandleSubmit(form: ContactForm, errors: map<Field, string>, delivered: bool) returns (r: Submit)
    ensures r.sent.Some? <==> FormValid(form)
    ensures r.sent.Some? ==> r.sent.value == RequestOf(form)
    ensures !FormValid(form) ==> r.form == form && forall f :: f in r.errors <==> FieldError(form, f).Some?
    ensures FormValid(form) && delivered ==> r.form == EmptyForm && r.errors == map[]
    ensures FormValid(form) && !delivered ==> r.form == form
  {
    var newErrors, ok := ValidateForm(form);
    if !ok {
      return Submit(None, form, newErrors);
    }
    if delivered {
      r := Submit(Some(RequestOf(form)), EmptyForm, map[]);
    } else {
      r := Submit(Some(RequestOf(form)), form, newErrors);
    }
  }
}
