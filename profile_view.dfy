/** The profile page of college-predictor-frontend/src/pages/Profile.jsx: the
    phone input that keeps digits only, the checks on saving the details and
    the password-confirmation check. Neither form reaches the server; both
    only simulate a delay. */
module ProfileView {
  import opened Js
  import opened Text

  datatype UserDetails = UserDetails(name: string, email: string, phone: string)

  /** The editable fields (the e-mail input is disabled). */
  datatype DetailField = NameField | PhoneField

  /** `value.replace(/\D/g, '')`: the ASCII digits of `value`, in order. */
  function DigitsOnly(value: string): (r: string)
    ensures |r| <= |value|
    ensures forall i :: 0 <= i < |r| ==> IsDigit(r[i])
  {
    if value == [] then []
    else DigitsOnly(value[..|value| - 1]) + (if IsDigit(value[|value| - 1]) then [value[|value| - 1]] else [])
  }

  /** A string of digits is kept as it is. */
  lemma {:induction false} DigitsOnlyKeepsDigits(value: string)
    requires forall i :: 0 <= i < |value| ==> IsDigit(value[i])
    ensures DigitsOnly(value) == value
  {
    if value != [] {
      DigitsOnlyKeepsDigits(value[..|value| - 1]);
      assert value == value[..|value| - 1] + [value[|value| - 1]];
    }
  }

  /** The phone as the input leaves it: at most ten digits. */
  predicate PhoneShape(phone: string) {
    |phone| <= 10 && forall i :: 0 <= i < |phone| ==> IsDigit(phone[i])
  }

  /** `handleUserChange` (Profile.jsx:21-37). A phone edit keeps the digits
      of the value, and is taken only when at most ten remain, clearing the
      phone error; any other edit stores the value as typed. `phoneError`
      is "" when no error is shown. */
  function HandleUserChange(details: UserDetails, phoneError: string, field: DetailField, value: string): (r: (UserDetails, string))
    ensures field == NameField ==> r == (details.(name := value), phoneError)
    ensures field == PhoneField && |DigitsOnly(value)| <= 10 ==> r == (details.(phone := DigitsOnly(value)), "")
    ensures field == PhoneField && |DigitsOnly(value)| > 10 ==> r == (details, phoneError)
  {
    match field
    case NameField => (details.(name := value), phoneError)
    case PhoneField =>
      var digits := DigitsOnly(value);
      if |digits| <= 10 then (details.(phone := digits), if phoneError != "" then "" else phoneError)
      else (details, phoneError)
  }

  /** Every edit keeps the phone in shape, and typing a short digit string
      stores it verbatim. */
  lemma {:induction false} ChangeKeepsPhoneShape(details: UserDetails, phoneError: string, field: DetailField, value: string)
    requires PhoneShape(details.phone)
    ensures PhoneShape(HandleUserChange(details, phoneError, field, value).0.phone)
    ensures field == PhoneField && PhoneShape(value) ==> HandleUserChange(details, phoneError, field, value).0.phone == value
  {
    if field == PhoneField && PhoneShape(value) {
      DigitsOnlyKeepsDigits(value);
    }
  }

  const ExactlyTen := "Phone number must be exactly 10 digits"
  const OnlyDigits := "Phone number must contain only digits"

  /** `/^[0-9]{10}$/`. */
  predicate TenDigits(phone: string) {
    |phone| == 10 && forall i :: 0 <= i < 10 ==> IsDigit(phone[i])
  }

  /** The errors the checks of `handleUserSubmit` leave: an empty phone or
      ten digits passes; anything else is reported as "only digits". */
  function PhoneErrors(phone: string): (r: map<string, string>)
    ensures r.Keys <= {"phone"}
    ensures "phone" in r <==> phone != "" && !TenDigits(phone)
  {
    if phone == "" || TenDigits(phone) then map[] else map["phone" := OnlyDigits]
  }

  /** `handleUserSubmit`'s checks (Profile.jsx:43-61), run in order on a
      fresh dictionary: a phone that is not ten characters long is flagged
      "exactly 10 digits", then a phone outside `/^[0-9]{10}$/` is flagged
      "only digits", the second message replacing the first. */
  method ValidateUserDetails(details: UserDetails) returns (errors: map<string, string>)
    ensures errors == PhoneErrors(details.phone)
  {
    errors := map[];
    if details.phone != "" && |details.phone| != 10 {
      errors := errors["phone" := ExactlyTen];
    }
    if details.phone != "" && !TenDigits(details.phone) {
      errors := errors["phone" := OnlyDigits];
    }
  }

  /** The length message is never the one left: a phone of the wrong
      length also fails the pattern. A five-digit phone, which the input
      allows, is told it must contain only digits. */
  lemma {:induction false} ExactlyTenNeverShown(phone: string)
    ensures ExactlyTen !in PhoneErrors(phone).Values
    ensures PhoneShape("12345") && PhoneErrors("12345") == map["phone" := OnlyDigits]
  {
    assert !TenDigits("12345");
  }

  /** The checks as their messages intend: a character that is not a digit
      is reported as such, and otherwise a wrong length. */
  function IntendedPhoneErrors(phone: string): (r: map<string, string>)
    ensures r.Keys <= {"phone"}
  {
    if phone == "" || TenDigits(phone) then map[]
    else if exists i :: 0 <= i < |phone| && !IsDigit(phone[i]) then map["phone" := OnlyDigits]
    else map["phone" := ExactlyTen]
  }

  /** The intended checks refuse the same phones, and a phone the input
      produced gets the length message whenever it is refused. */
  lemma {:induction false} IntendedPhoneErrorsMessages(phone: string)
    ensures "phone" in IntendedPhoneErrors(phone) <==> "phone" in PhoneErrors(phone)
    ensures PhoneShape(phone) && phone != "" && |phone| != 10 ==> IntendedPhoneErrors(phone) == map["phone" := ExactlyTen]
    ensures (exists i :: 0 <= i < |phone| && !IsDigit(phone[i])) ==> IntendedPhoneErrors(phone) == map["phone" := OnlyDigits]
  {
    if phone != "" && !TenDigits(phone) && !(exists i :: 0 <= i < |phone| && !IsDigit(phone[i])) {
      assert |phone| != 10;
    }
  }

  /** A phone the input produced is refused exactly when it is neither
      empty nor ten digits long; an empty phone is allowed. */
  lemma {:induction false} ShapedPhoneCheck(phone: string)
    requires PhoneShape(phone)
    ensures "phone" in PhoneErrors(phone) <==> phone != "" && |phone| != 10
  {
  }

  datatype PasswordDetails = PasswordDetails(currentPassword: string, newPassword: string, confirmNewPassword: string)

  /** `handlePasswordSubmit` (Profile.jsx:73-86): a confirmation that differs
      from the new password is refused and the fields kept; otherwise the
      change goes through and the three fields are emptied. */
  function HandlePasswordSubmit(p: PasswordDetails): (r: (bool, PasswordDetails))
    ensures r.0 <==> p.newPassword == p.confirmNewPassword
    ensures !r.0 ==> r.1 == p
    ensures r.0 ==> r.1 == PasswordDetails("", "", "")
  {
    if p.newPassword != p.confirmNewPassword then (false, p)
    else (true, PasswordDetails("", "", ""))
  }
}
