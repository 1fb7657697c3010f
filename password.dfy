/** The two password rules of the system: the server's acceptance pattern
    (college-predictor-backend/routes/users.js:34-35) and the strength meter
    the sign-up pages show
    (college-predictor-frontend/src/components/PasswordStrengthIndicator.jsx). */
module Password {
  import opened Wrappers
  import opened Js
  import opened Text

  /** Some character of `s` passes `f` (`/[...]/.test(s)`). */
  predicate Has(s: string, f: char -> bool) {
    exists i :: 0 <= i < |s| && f(s[i])
  }

  /** The special characters of the server's pattern. */
  predicate IsSpecial(c: char) {
    c == '@' || c == '$' || c == '!' || c == '%' || c == '*' || c == '?' || c == '&'
  }

  /** The character class `[A-Za-z\d@$!%*?&]`. */
  predicate InPasswordAlphabet(c: char) {
    IsAlnum(c) || IsSpecial(c)
  }

  predicate NotAlnum(c: char) { !IsAlnum(c) }

  /** `/^(?=.*[A-Z])(?=.*\d)(?=.*[@$!%*?&])[A-Za-z\d@$!%*?&]{8,}$/`: at least
      eight characters, all from the alphabet, with an upper-case letter, a
      digit and a special character; lower-case letters are not required. */
  predicate PasswordPattern(s: string) {
    |s| >= 8 && (forall i :: 0 <= i < |s| ==> InPasswordAlphabet(s[i]))
    && Has(s, IsUpper) && Has(s, IsDigit) && Has(s, IsSpecial)
  }

  /** `passwordRegex.test(password)` on a request field: a missing field is
      tested as the text "undefined", which the pattern rejects. */
  predicate Acceptable(password: Option<string>) {
    PasswordPattern(if password.Some? then password.value else "undefined")
  }

  lemma {:induction false} MissingPasswordRejected()
    ensures !Acceptable(None)
  {
    assert !Has("undefined", IsUpper);
  }

  /** One character outside the alphabet (a space, '#', '-') is enough to be
      rejected, whatever else the password holds. */
  lemma {:induction false} ForeignCharacterRejected(s: string, i: nat)
    requires i < |s| && !InPasswordAlphabet(s[i])
    ensures !PasswordPattern(s)
  {
  }

  function Point(b: bool): nat { if b then 1 else 0 }

  /** The meter's score: nothing for an empty or missing password,
      otherwise one point each for eight or more characters, twelve or more,
      an upper-case letter, a digit, and a character that is neither a
      letter nor a digit. */
  function Strength(password: Option<string>): (r: nat)
    ensures r <= 5
    ensures !TruthyStr(password) ==> r == 0
  {
    if !TruthyStr(password) then 0
    else
      var p := password.value;
      Point(|p| >= 8) + Point(|p| >= 12) + Point(Has(p, IsUpper)) + Point(Has(p, IsDigit)) + Point(Has(p, NotAlnum))
  }

  /** `getStrength` (PasswordStrengthIndicator.jsx:4-16), five guarded
      increments of a local score. */
  method GetStrength(password: Option<string>) returns (score: nat)
    ensures score == Strength(password)
  {
    score := 0;
    if !TruthyStr(password) {
      return;
    }
    var p := password.value;
    if |p| >= 8 {
      score := score + 1;
    }
    if |p| >= 12 {
      score := score + 1;
    }
    if Has(p, IsUpper) {
      score := score + 1;
    }
    if Has(p, IsDigit) {
      score := score + 1;
    }
    if Has(p, NotAlnum) {
      score := score + 1;
    }
  }

  lemma {:induction false} HasExtends(p: string, q: string, f: char -> bool)
    requires Has(p, f)
    ensures Has(p + q, f)
  {
    var i :| 0 <= i < |p| && f(p[i]);
    assert (p + q)[i] == p[i];
  }

  /** Typing more characters never lowers the score. */
  lemma {:induction false} StrengthMonotone(p: string, q: string)
    ensures Strength(Some(p)) <= Strength(Some(p + q))
  {
    if p != [] {
      if Has(p, IsUpper) { HasExtends(p, q, IsUpper); }
      if Has(p, IsDigit) { HasExtends(p, q, IsDigit); }
      if Has(p, NotAlnum) { HasExtends(p, q, NotAlnum); }
    }
  }

  /** Every password the server accepts scores at least 4, and 5 once it has
      twelve characters. */
  lemma {:induction false} AcceptedIsStrong(s: string)
    requires PasswordPattern(s)
    ensures Strength(Some(s)) >= 4
    ensures |s| >= 12 ==> Strength(Some(s)) == 5
  {
    var i :| 0 <= i < |s| && IsSpecial(s[i]);
    assert NotAlnum(s[i]);
  }

  /** A full score does not make a password acceptable: a space is a
      non-alphanumeric character to the meter but outside the server's
      alphabet. */
  lemma {:induction false} FullScoreNotAccepted()
    ensures Strength(Some("Abcdefghij1 ")) == 5
    ensures !PasswordPattern("Abcdefghij1 ")
  {
    var s := "Abcdefghij1 ";
    assert IsUpper(s[0]) && IsDigit(s[10]) && NotAlnum(s[11]);
    assert !InPasswordAlphabet(s[11]);
  }

  /** One of the five bars under the field: coloured, or grey. */
  datatype Bar = Lit(color: string) | Unlit

  const BarColors: seq<string> := ["bg-red-500", "bg-orange-500", "bg-yellow-500", "bg-blue-500", "bg-green-500"]
  const StrengthLabels: seq<string> := ["Very Weak", "Weak", "Fair", "Good", "Strong"]

  /** The bars for a score (PasswordStrengthIndicator.jsx:30-37). */
  function Bars(strength: nat): (r: seq<Bar>)
    requires strength <= 5
    ensures |r| == 5
  {
    seq(5, i requires 0 <= i < 5 => if i < strength then Lit(BarColors[strength - 1]) else Unlit)
  }

  function LitCount(bars: seq<Bar>): nat {
    if bars == [] then 0 else LitCount(bars[..|bars| - 1]) + Point(bars[|bars| - 1].Lit?)
  }

  /** Exactly `strength` bars are coloured, the first ones, all in the
      colour of that score. */
  lemma {:induction false} BarsShowStrength(strength: nat)
    requires strength <= 5
    ensures LitCount(Bars(strength)) == strength
    ensures forall i :: 0 <= i < 5 ==> (Bars(strength)[i].Lit? <==> i < strength)
    ensures forall i :: 0 <= i < strength ==> Bars(strength)[i] == Lit(BarColors[strength - 1])
  {
    LitPrefix(Bars(strength), strength, 5);
    assert Bars(strength)[..5] == Bars(strength);
  }

  lemma {:induction false} LitPrefix(bars: seq<Bar>, strength: nat, n: nat)
    requires n <= |bars| && forall i :: 0 <= i < |bars| ==> (bars[i].Lit? <==> i < strength)
    ensures LitCount(bars[..n]) == if n < strength then n else strength
  {
    if n > 0 {
      assert bars[..n][..n - 1] == bars[..n - 1];
      LitPrefix(bars, strength, n - 1);
    }
  }

  /** The text under the bars (PasswordStrengthIndicator.jsx:38-40). */
  function Label(strength: nat): (r: string)
    requires strength <= 5
    ensures strength > 0 ==> r == StrengthLabels[strength - 1]
    ensures strength == 0 ==> r !in StrengthLabels
  {
    if strength > 0 then StrengthLabels[strength - 1] else "A strong password is required"
  }

  /** A password the server accepts is labelled "Good" or "Strong". */
  lemma {:induction false} AcceptedLabel(s: string)
    requires PasswordPattern(s)
    ensures Label(Strength(Some(s))) == "Good" || Label(Strength(Some(s))) == "Strong"
  {
    AcceptedIsStrong(s);
  }
}
