/** The partner-contact endpoint of app/api/contact-partner/route.ts: the
    validation chain, the e-mail shape test, the composed message and the
    status of the reply. Parsing the request body and sending the mail are
    inputs: the body is None when `request.json()` throws, and `send` says
    whether `sendMail` resolved for a given mail. */
module ContactPartner {
  import opened Js

  // ---------------------------------------------------------------------
  // The e-mail shape `^[^\s@]+@[^\s@]+\.[^\s@]+$`

  /** A run of `[^\s@]+`. */
  ghost predicate Run(t: string) {
    t != "" && forall c :: c in t ==> !IsSpace(c) && c != '@'
  }

  /** The pattern matches: the string is three runs joined by '@' and '.'. */
  ghost predicate MatchesEmailPattern(s: string) {
    exists a, b, c :: s == a + "@" + b + "." + c && Run(a) && Run(b) && Run(c)
  }

  predicate NoSpace(s: string) {
    forall k :: 0 <= k < |s| ==> !IsSpace(s[k])
  }

  /** A '.' that is neither the first nor the last character. */
  predicate HasInnerDot(d: string) {
    exists k :: 0 < k < |d| - 1 && d[k] == '.'
  }

  /** The test as a check: no whitespace, exactly one '@', something before
      it, and a '.' strictly inside what follows it. */
  predicate IsEmail(s: string) {
    var parts := Split(s, '@');
    NoSpace(s) && |parts| == 2 && parts[0] != "" && HasInnerDot(parts[1])
  }

  lemma {:induction false} PatternGivesCheck(s: string, a: string, b: string, c: string)
    requires s == a + "@" + b + "." + c && Run(a) && Run(b) && Run(c)
    ensures IsEmail(s)
  {
    var r := b + "." + c;
    assert s == a + ['@'] + r;
    assert '@' !in a by {
      assert forall x :: x in a ==> x != '@';
    }
    assert '@' !in r by {
      forall x | x in r ensures x != '@' {
        assert x in b || x == '.' || x in c;
      }
    }
    SplitAfterPiece(a, '@', r);
    SplitWithout(r, '@');
    assert Split(s, '@') == [a, r];
    assert r[|b|] == '.';
    forall k | 0 <= k < |s| ensures !IsSpace(s[k]) {
      assert s[k] in a || s[k] == '@' || s[k] in b || s[k] == '.' || s[k] in c;
    }
  }

  lemma {:induction false} CheckGivesPattern(s: string)
    requires IsEmail(s)
    ensures MatchesEmailPattern(s)
  {
    var parts := Split(s, '@');
    var a, r := parts[0], parts[1];
    assert s == a + "@" + r by {
      assert parts[1..] == [r];
      assert Join(parts[1..], ['@']) == r;
      assert Join(parts, ['@']) == a + ['@'] + r;
    }
    var k :| 0 < k < |r| - 1 && r[k] == '.';
    var b, c := r[..k], r[k + 1..];
    assert r == b + "." + c;
    assert s == a + "@" + b + "." + c;
    forall x | x in s ensures !IsSpace(x) {
      var i :| 0 <= i < |s| && s[i] == x;
    }
    assert '@' !in a && '@' !in r;
    assert Run(a) && Run(b) && Run(c) by {
      assert forall x :: x in a ==> x in s;
      assert forall x :: x in b ==> x in r && x in s;
      assert forall x :: x in c ==> x in r && x in s;
    }
  }

  /** The check accepts exactly the strings the pattern matches. */
  lemma EmailCheckIsPattern(s: string)
    ensures IsEmail(s) <==> MatchesEmailPattern(s)
  {
    if MatchesEmailPattern(s) {
      var a, b, c :| s == a + "@" + b + "." + c && Run(a) && Run(b) && Run(c);
      PatternGivesCheck(s, a, b, c);
    }
    if IsEmail(s) {
      CheckGivesPattern(s);
    }
  }

  lemma AcceptsPlainAddress()
    ensures IsEmail("jane@shop.com")
  {
    PatternGivesCheck("jane@shop.com", "jane", "shop", "com");
  }

  /** A string with a single '@' splits into what is before and after it. */
  lemma SplitAtSingleAt(a: string, d: string)
    requires '@' !in a && '@' !in d
    ensures Split(a + "@" + d, '@') == [a, d]
  {
    assert a + "@" + d == a + ['@'] + d;
    SplitTwo(a, '@', d);
  }

  /** The domain needs a dot that is neither its first nor its last character. */
  lemma DomainNeedsInnerDot(a: string, d: string)
    requires '@' !in a && '@' !in d && !HasInnerDot(d)
    ensures !IsEmail(a + "@" + d)
  {
    SplitAtSingleAt(a, d);
  }

  /** Something must come before the '@'. */
  lemma LocalPartNeeded(d: string)
    requires '@' !in d
    ensures !IsEmail("@" + d)
  {
    SplitAtSingleAt("", d);
    assert "" + "@" + d == "@" + d;
  }

  /** A second '@' is refused. */
  lemma OneAtOnly(a: string, b: string, c: string)
    requires '@' !in a && '@' !in b && '@' !in c
    ensures !IsEmail(a + "@" + b + "@" + c)
  {
    var s := a + "@" + b + "@" + c;
    assert s == a + ['@'] + (b + ['@'] + c);
    SplitThree(a, b, c, '@');
  }

  lemma RejectsDomainWithoutDot()
    ensures !IsEmail("jane@shop")
  {
    assert !HasInnerDot("shop");
    DomainNeedsInnerDot("jane", "shop");
    assert "jane" + "@" + "shop" == "jane@shop";
  }

  lemma RejectsLeadingDot()
    ensures !IsEmail("jane@.com")
  {
    assert !HasInnerDot(".com");
    DomainNeedsInnerDot("jane", ".com");
    assert "jane" + "@" + ".com" == "jane@.com";
  }

  lemma RejectsEmptyLocalPart()
    ensures !IsEmail("@shop.com")
  {
    LocalPartNeeded("shop.com");
    assert "@" + "shop.com" == "@shop.com";
  }

  lemma RejectsSecondAt()
    ensures !IsEmail("a@b@c.com")
  {
    OneAtOnly("a", "b", "c.com");
    assert "a" + "@" + "b" + "@" + "c.com" == "a@b@c.com";
  }

  lemma RejectsSpace()
    ensures !IsEmail("jane doe@shop.com")
  {
    assert IsSpace("jane doe@shop.com"[4]);
  }

  // ---------------------------------------------------------------------
  // The composed mail

  /** `message.replace(/\n/g, '<br>')` */
  function NewlinesToBr(m: string): string {
    if m == [] then []
    else (if m[0] == '\n' then "<br>" else [m[0]]) + NewlinesToBr(m[1..])
  }

  /** Every line break becomes `<br>` and nothing else changes: in
      particular markup in the message is not escaped. */
  lemma {:induction false} NewlinesToBrIsSplitJoin(m: string)
    ensures NewlinesToBr(m) == Join(Split(m, '\n'), "<br>")
    decreases |m|
  {
    if m != [] {
      NewlinesToBrIsSplitJoin(m[1..]);
      var rest := Split(m[1..], '\n');
      if m[0] != '\n' {
        var r := [[m[0]] + rest[0]] + rest[1..];
        assert Split(m, '\n') == r;
        if |rest| > 1 {
          assert r[1..] == rest[1..];
          assert Join(rest, "<br>") == rest[0] + "<br>" + Join(rest[1..], "<br>");
        }
      } else {
        assert Split(m, '\n') == [""] + rest;
        assert ([""] + rest)[1..] == rest;
      }
    }
  }

  lemma {:induction false} NoNewlineUnchanged(m: string)
    requires '\n' !in m
    ensures NewlinesToBr(m) == m
    decreases |m|
  {
    if m != [] {
      assert m[0] in m;
      assert forall x :: x in m[1..] ==> x in m;
      NoNewlineUnchanged(m[1..]);
      assert [m[0]] + m[1..] == m;
    }
  }

  /** The interpolated parts of the HTML template (its fixed markup is not
      modelled); `year` is `new Date().getFullYear()`. */
  datatype Html = Html(name: string, email: string, company: string, category: string, message: string, year: int)

  /** What is handed to `sendMail`; `replyTo` is the submitted value itself. */
  datatype Mail = Mail(from: string, to: string, subject: string, html: Html, replyTo: Json)

  const Recipients: string := "baaydaamley@gmail.com, baye.dame@smartdevafrica.com"

  function Subject(category: Json, company: Json): string {
    "Partnership Inquiry: " + JsonToString(category) + " - " + JsonToString(company)
  }

  /** The sender named after `SMTP_USERNAME`, which prints "undefined" when unset. */
  function From(smtpUser: Option<string>): string {
    "\"WheelX Partners\" <" + (if smtpUser.Some? then smtpUser.value else "undefined") + ">"
  }

  // ---------------------------------------------------------------------
  // The POST handler

  datatype Response = Response(status: int, body: Json)

  function ErrorReply(status: int, error: string): Response {
    Response(status, JObj(map["error" := JStr(error)]))
  }

  const Required: Response := ErrorReply(400, "All fields are required")
  const InvalidEmail: Response := ErrorReply(400, "Invalid email address")
  const Failed: Response := ErrorReply(500, "Failed to send email")
  const Sent: Response := Response(200, JObj(map["success" := JBool(true), "message" := JStr("Email sent successfully")]))

  /** The reply, and the mail given to `sendMail` when the handler got that far. */
  datatype Handled = Handled(response: Response, mail: Option<Mail>)

  /** Every one of the five fields is present and truthy. */
  predicate AllFields(body: Json) {
    && Truthy(Get(body, "name")) && Truthy(Get(body, "email")) && Truthy(Get(body, "company"))
    && Truthy(Get(body, "category")) && Truthy(Get(body, "message"))
  }

  /** A field of a body that passed the required-field check. */
  function Field(body: Json, key: string): Json
    requires AllFields(body) && key in {"name", "email", "company", "category", "message"}
  {
    Get(body, key).value
  }

  /** The mail composed from a body that passed validation. */
  function Compose(body: Json, smtpUser: Option<string>, year: int): Mail
    requires AllFields(body) && Field(body, "message").JStr?
  {
    Mail(From(smtpUser), Recipients, Subject(Field(body, "category"), Field(body, "company")),
         Html(JsonToString(Field(body, "name")), JsonToString(Field(body, "email")),
              JsonToString(Field(body, "company")), JsonToString(Field(body, "category")),
              NewlinesToBr(Field(body, "message").s), year),
         Field(body, "email"))
  }

  /** POST: a body that cannot be parsed, or a null body whose destructuring
      throws, gives 500; then the required-field check (400), then the
      e-mail test on the text of `email` (400); a message without `replace`
      (not a string) throws (500); otherwise the mail is sent and the reply
      is 200 when sending resolved and 500 when it threw. */
  function Post(body: Option<Json>, smtpUser: Option<string>, year: int, send: Mail -> bool): (h: Handled)
    ensures body.None? || body == Some(JNull) ==> h == Handled(Failed, None)
    ensures body.Some? && body.value != JNull && !AllFields(body.value) ==> h == Handled(Required, None)
    ensures body.Some? && AllFields(body.value) && !IsEmail(JsonToString(Field(body.value, "email"))) ==>
      h == Handled(InvalidEmail, None)
    ensures h.mail.Some? <==>
      && body.Some? && AllFields(body.value)
      && IsEmail(JsonToString(Field(body.value, "email")))
      && Field(body.value, "message").JStr?
    ensures h.mail.Some? ==> h.mail == Some(Compose(body.value, smtpUser, year))
    ensures h.response == Sent <==> h.mail.Some? && send(h.mail.value)
    ensures body.Some? && AllFields(body.value) && IsEmail(JsonToString(Field(body.value, "email"))) ==>
      h.response == (if h.mail.Some? && send(h.mail.value) then Sent else Failed)
  {
    match body
    case None => Handled(Failed, None)
    case Some(json) =>
      if json == JNull then Handled(Failed, None)
      else if !AllFields(json) then Handled(Required, None)
      else
        if !IsEmail(JsonToString(Field(json, "email"))) then Handled(InvalidEmail, None)
        else if !Field(json, "message").JStr? then Handled(Failed, None)
        else
          var mail := Compose(json, smtpUser, year);
          if send(mail) then Handled(Sent, Some(mail)) else Handled(Failed, Some(mail))
  }

  /** The required-field check comes first: with a field other than the
      e-mail missing, the reply does not depend on the e-mail, and nothing is sent. */
  lemma RequiredBeforeEmail(fields: map<string, Json>, key: string, email: Json,
                            smtpUser: Option<string>, year: int, send: Mail -> bool)
    requires key in {"name", "company", "category", "message"} && !Truthy(Get(JObj(fields), key))
    ensures Post(Some(JObj(fields["email" := email])), smtpUser, year, send) == Handled(Required, None)
  {
    assert Get(JObj(fields["email" := email]), key) == Get(JObj(fields), key);
  }

  /** The subject names category then company, replies go to the sender, and
      the message keeps its text with line breaks as `<br>`. */
  lemma ComposedMail(body: Json, smtpUser: Option<string>, year: int)
    requires AllFields(body) && Field(body, "message").JStr?
    ensures var m := Compose(body, smtpUser, year);
      && m.subject == "Partnership Inquiry: " + JsonToString(Field(body, "category")) + " - " + JsonToString(Field(body, "company"))
      && m.replyTo == Field(body, "email")
      && m.to == Recipients
      && m.html.message == Join(Split(Field(body, "message").s, '\n'), "<br>")
  {
    NewlinesToBrIsSplitJoin(Field(body, "message").s);
  }
}
