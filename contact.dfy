/** The contact route, `POST /api/contact` of
    college-predictor-backend/routes/contact.js: required fields, the e-mail
    pattern, and the parts of the mail it builds that depend on the input. */
module ContactRoute {
  import opened Wrappers
  import opened Js
  import opened Text

  /** `[^\s@]`. */
  predicate Plain(c: char) { !IsSpace(c) && c != '@' }

  predicate AllPlain(s: string) {
    forall i :: 0 <= i < |s| ==> Plain(s[i])
  }

  /** `[^\s@]+`. */
  predicate Run(s: string) { s != [] && AllPlain(s) }

  /** The strings `/^[^\s@]+@[^\s@]+\.[^\s@]+$/` matches. */
  ghost predicate EmailPattern(s: string) {
    exists l, d, t :: Run(l) && Run(d) && Run(t) && s == l + "@" + d + "." + t
  }

  /** The position of the first '@' in `s`, or -1. */
  function AtIndex(s: string): (r: int)
    ensures -1 <= r < |s|
    ensures r >= 0 ==> s[r] == '@' && '@' !in s[..r]
    ensures r == -1 ==> '@' !in s
  {
    if s == [] then -1
    else if s[0] == '@' then 0
    else
      var r := AtIndex(s[1..]);
      assert s == [s[0]] + s[1..];
      if r == -1 then -1 else assert s[..r + 1] == [s[0]] + s[1..][..r]; r + 1
  }

  /** `d` has a '.' with at least one character on each side. */
  predicate HasInnerDot(d: string) {
    exists k :: 0 < k < |d| - 1 && d[k] == '.'
  }

  /** The pattern as a left-to-right check: no white space anywhere, one
      '@' with text before it, and after it a '.' with text on both sides. */
  predicate ValidEmail(s: string) {
    var at := AtIndex(s);
    0 < at && AllPlain(s[..at]) && AllPlain(s[at + 1..]) && HasInnerDot(s[at + 1..])
  }

  /** The check accepts exactly the strings the pattern matches. */
  lemma {:induction false} ValidEmailIff(s: string)
    ensures ValidEmail(s) <==> EmailPattern(s)
  {
    if ValidEmail(s) {
      var at := AtIndex(s);
      var after := s[at + 1..];
      var k :| 0 < k < |after| - 1 && after[k] == '.';
      var l, d, t := s[..at], after[..k], after[k + 1..];
      assert after == d + "." + t;
      assert s == l + "@" + after;
      assert Run(l) && Run(d) && Run(t) && s == l + "@" + d + "." + t;
    }
    if EmailPattern(s) {
      var l, d, t :| Run(l) && Run(d) && Run(t) && s == l + "@" + d + "." + t;
      EmailSplit(s, l, d, t);
    }
  }

  lemma {:induction false} EmailSplit(s: string, l: string, d: string, t: string)
    requires Run(l) && Run(d) && Run(t) && s == l + "@" + d + "." + t
    ensures ValidEmail(s)
  {
    var at := AtIndex(s);
    assert s[|l|] == '@';
    assert forall k :: 0 <= k < |l| ==> s[k] == l[k];
    assert at == |l|;
    assert s[..at] == l;
    var after := s[at + 1..];
    assert after == d + "." + t;
    assert after[|d|] == '.';
    assert Plain('.');
  }

  /** The request body; `None` stands for a missing field. */
  datatype ContactRequest = ContactRequest(name: Option<string>, email: Option<string>,
                                           message: Option<string>, phone: Option<string>)

  /** The parts of the mail that depend on the input: the subject, whether
      the HTML has a phone row, the message as HTML, and the phone line of
      the text version. */
  datatype Mail = Mail(subject: string, phoneRow: bool, messageHtml: string, phoneLine: string)

  datatype ContactOutcome = MissingFields | InvalidEmail | SendFailed | Sent(mail: Mail)

  /** `message.replace(/\n/g, '<br>')`. */
  function NewlinesToBr(s: string): (r: string)
    ensures forall i :: 0 <= i < |r| ==> r[i] != '\n'
  {
    if s == [] then []
    else NewlinesToBr(s[..|s| - 1]) + (if s[|s| - 1] == '\n' then "<br>" else [s[|s| - 1]])
  }

  /** The replacement works piece by piece. */
  lemma {:induction false} NewlinesToBrAppend(a: string, b: string)
    ensures NewlinesToBr(a + b) == NewlinesToBr(a) + NewlinesToBr(b)
    decreases |b|
  {
    if b == [] {
      assert a + b == a;
    } else {
      var b' := b[..|b| - 1];
      assert (a + b)[..|a + b| - 1] == a + b';
      NewlinesToBrAppend(a, b');
    }
  }

  /** A message without a newline is sent as it is. */
  lemma {:induction false} NewlinesToBrKeepsLines(s: string)
    requires forall i :: 0 <= i < |s| ==> s[i] != '\n'
    ensures NewlinesToBr(s) == s
  {
    if s != [] {
      NewlinesToBrKeepsLines(s[..|s| - 1]);
      assert s == s[..|s| - 1] + [s[|s| - 1]];
    }
  }

  /** The mail for a request that passed the checks
      (contact.js:24-186): the phone row and line appear exactly when a
      phone was given, and the message body keeps no newline. */
  function MailFor(name: string, message: string, phone: Option<string>): (r: Mail)
    ensures r.phoneRow <==> TruthyStr(phone)
    ensures r.phoneLine != "" <==> TruthyStr(phone)
    ensures '\n' !in r.messageHtml
  {
    Mail("New Contact Form: " + name, TruthyStr(phone), NewlinesToBr(message),
         if TruthyStr(phone) then "Phone: " + phone.value else "")
  }

  /** The handler (contact.js:8-207): a missing or empty name, e-mail or
      message is refused first, then an e-mail outside the pattern; a mail
      that cannot be sent gives 500. White space alone counts as present. */
  function HandleContact(req: ContactRequest, delivered: bool): (r: ContactOutcome)
    ensures r == MissingFields <==> !TruthyStr(req.name) || !TruthyStr(req.email) || !TruthyStr(req.message)
    ensures r == InvalidEmail <==>
      TruthyStr(req.name) && TruthyStr(req.email) && TruthyStr(req.message) && !ValidEmail(req.email.value)
    ensures r.Sent? <==> delivered && TruthyStr(req.name) && TruthyStr(req.email) && TruthyStr(req.message)
                         && ValidEmail(req.email.value)
    ensures r.Sent? ==> (r.mail.phoneRow <==> TruthyStr(req.phone)) && (r.mail.phoneLine != "" <==> TruthyStr(req.phone))
    ensures r.Sent? ==> '\n' !in r.mail.messageHtml
  {
    if !TruthyStr(req.name) || !TruthyStr(req.email) || !TruthyStr(req.message) then MissingFields
    else if !ValidEmail(req.email.value) then InvalidEmail
    else if !delivered then SendFailed
    else Sent(MailFor(req.name.value, req.message.value, req.phone))
  }
}
