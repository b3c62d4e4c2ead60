/**
 * The contact-form handler (handleContactForm in src/index.js): an ordered
 * chain of early returns from a submission to a JSON response. What the
 * handler asks of the outside world (parsing the form body, the captcha
 * verdict, the e-mail send, the clock, the random boundary) is an input, and
 * the result records every outside call the handler issues, in order.
 */
module Contact {
  import opened Wrappers
  import Mime

  const Sender: string := "contact@dataat.work"
  const SenderName: string := "Data At Work Contact Form"
  const Recipient: string := "jakob@dalsgaard.net"
  const JsonType: string := "application/json"

  const MsgMissingFields: string := "Please fill in all required fields."
  const MsgMissingToken: string := "Please complete the captcha verification."
  const MsgCaptchaFailed: string := "Captcha verification failed. Please try again."
  const MsgThanks: string := "Thank you for your message. We will get back to you soon."
  const MsgGenericFailure: string := "An error occurred while sending your message. Please try again later."

  /** JavaScript truthiness of a `formData.get` or `headers.get` value: present and not empty. */
  predicate Truthy(v: Option<string>)
  {
    v.Some? && v.value != ""
  }

  /** The four form fields the handler reads; None is a field that is not in the body. */
  datatype Form = Form(name: Option<string>, email: Option<string>,
                       message: Option<string>, token: Option<string>)

  /** What the captcha service answered: its `success` flag, or a thrown network or JSON error. */
  datatype Verdict = Verdict(success: bool) | VerifyThrew

  /** What the e-mail binding did with the message. */
  datatype SendOutcome = Delivered | SendThrew

  /**
   * Everything the handler takes from outside: the parsed body (None when
   * `request.formData()` throws), the CF-Connecting-IP header, the captcha
   * secret, the outcomes of the two outside calls, and the clock readings
   * and random boundary.
   */
  datatype World = World(form: Option<Form>, clientIp: Option<string>, secret: string,
                         verdict: Verdict, send: SendOutcome,
                         utcDate: string, isoTime: string, boundary: string)

  datatype Json = ErrorJson(error: string) | MessageJson(message: string)
  datatype Response = Response(status: int, contentType: string, body: Json)

  /** One POST to the captcha service, given by the form fields it carries. */
  datatype VerifyCall = VerifyCall(fields: seq<(string, string)>)

  /**
   * One EmailMessage built for the send binding. It is recorded once the
   * handler gets that far, even when constructing or sending it throws.
   */
  datatype Email = Email(from: string, to: string, raw: string)

  /** The response, and the outside calls issued on the way to it, in order. */
  datatype Handled = Handled(response: Response, verifications: seq<VerifyCall>, sendAttempts: seq<Email>)

  /** The form fields verifyTurnstile posts: `remoteip` only when the IP is truthy. */
  function VerifyFields(token: string, ip: Option<string>, secret: string): (r: seq<(string, string)>)
    ensures |r| >= 2 && r[0] == ("secret", secret) && r[1] == ("response", token)
    ensures (exists k :: 0 <= k < |r| && r[k].0 == "remoteip") <==> Truthy(ip)
    ensures Truthy(ip) ==> r == [("secret", secret), ("response", token), ("remoteip", ip.value)]
    ensures !Truthy(ip) ==> r == [("secret", secret), ("response", token)]
  {
    var base := [("secret", secret), ("response", token)];
    if Truthy(ip) then
      var r := base + [("remoteip", ip.value)];
      assert r[2].0 == "remoteip";
      r
    else base
  }

  /** `ip || "unknown"`. */
  function IpText(ip: Option<string>): string
  {
    if Truthy(ip) then ip.value else "unknown"
  }

  /** Lines each followed by LF, as in a template literal that ends with a line break. */
  function LfTerminated(lines: seq<string>): string
  {
    if lines == [] then "" else lines[0] + "\n" + LfTerminated(lines[1..])
  }

  /** The lines of the e-mail body template, in order. */
  function BodyLines(name: string, email: string, message: string, ip: Option<string>, isoTime: string): seq<string>
  {
    [ "New contact form submission from dataat.work",
      "",
      "Name: " + name,
      "Email: " + email,
      "",
      "Message:",
      message,
      "",
      "---",
      "Submitted from IP: " + IpText(ip),
      "Time: " + isoTime ]
  }

  /** The plain-text e-mail body the handler writes (a template literal, so its line ends are LF). */
  function EmailBody(name: string, email: string, message: string, ip: Option<string>, isoTime: string): string
  {
    LfTerminated(BodyLines(name, email, message, ip, isoTime))
  }

  /** The subject line, which embeds the submitted name unchanged. */
  function Subject(name: string): string
  {
    "Contact form: " + name
  }

  /** The EmailMessage built for a submission. */
  function ComposeEmail(name: string, email: string, message: string, ip: Option<string>,
                        utcDate: string, isoTime: string, boundary: string): Email
  {
    Email(Sender, Recipient,
          Mime.BuildMimeMessage(Sender, SenderName, Recipient, Subject(name),
                                EmailBody(name, email, message, ip, isoTime), utcDate, boundary))
  }

  function Reply(status: int, body: Json, verifications: seq<VerifyCall>, sends: seq<Email>): Handled
  {
    Handled(Response(status, JsonType, body), verifications, sends)
  }

  /** True when the submission passes both local checks, so that the captcha service is asked. */
  predicate ReachesVerification(w: World)
  {
    w.form.Some? && Truthy(w.form.value.name) && Truthy(w.form.value.email)
    && Truthy(w.form.value.message) && Truthy(w.form.value.token)
  }

  /**
   * handleContactForm. Every path answers JSON; the captcha service is asked
   * at most once and only after both local checks pass; an e-mail is handed
   * to the binding at most once and only after a successful verdict.
   */
  function HandleContactForm(w: World): (h: Handled)
    ensures h.response.contentType == JsonType
    ensures h.response.status in {200, 400, 500}
    ensures h.response.status == 200 <==> h.response.body.MessageJson?
    ensures |h.verifications| <= 1 && |h.sendAttempts| <= 1
    ensures h.verifications != [] <==> ReachesVerification(w)
    ensures h.sendAttempts != [] <==> ReachesVerification(w) && w.verdict == Verdict(true)
    ensures h.verifications != [] ==>
      h.verifications == [VerifyCall(VerifyFields(w.form.value.token.value, w.clientIp, w.secret))]
    ensures h.response.status == 200 <==> ReachesVerification(w) && w.verdict == Verdict(true) && w.send == Delivered
    ensures h.response.status == 500 <==> h.response.body == ErrorJson(MsgGenericFailure)
    ensures w.form.None? ==> h.response.status == 500
  {
    match w.form
    case None => Reply(500, ErrorJson(MsgGenericFailure), [], [])
    case Some(f) =>
      if !Truthy(f.name) || !Truthy(f.email) || !Truthy(f.message) then
        Reply(400, ErrorJson(MsgMissingFields), [], [])
      else if !Truthy(f.token) then
        Reply(400, ErrorJson(MsgMissingToken), [], [])
      else
        var call := VerifyCall(VerifyFields(f.token.value, w.clientIp, w.secret));
        match w.verdict
        case VerifyThrew => Reply(500, ErrorJson(MsgGenericFailure), [call], [])
        case Verdict(ok) =>
          if !ok then Reply(400, ErrorJson(MsgCaptchaFailed), [call], [])
          else
            var e := ComposeEmail(f.name.value, f.email.value, f.message.value,
                                  w.clientIp, w.utcDate, w.isoTime, w.boundary);
            match w.send
            case SendThrew => Reply(500, ErrorJson(MsgGenericFailure), [call], [e])
            case Delivered => Reply(200, MessageJson(MsgThanks), [call], [e])
  }

  /** True when t occurs somewhere in s. */
  predicate IsInfix(t: string, s: string)
  {
    exists i :: 0 <= i <= |s| && t <= s[i..]
  }

  /** Two consecutive lines of an LF-terminated text occur in it together, each with its LF. */
  lemma {:induction false} AdjacentLines(lines: seq<string>, k: nat)
    requires k + 1 < |lines|
    ensures IsInfix(lines[k] + "\n" + lines[k + 1] + "\n", LfTerminated(lines))
  {
    var s := LfTerminated(lines);
    var t := lines[k] + "\n" + lines[k + 1] + "\n";
    if k == 0 {
      var rest := LfTerminated(lines[2..]);
      assert LfTerminated(lines[1..]) == lines[1] + "\n" + rest by {
        assert lines[1..][1..] == lines[2..];
      }
      assert s == t + rest;
      assert t <= s[0..];
    } else {
      AdjacentLines(lines[1..], k - 1);
      var s' := LfTerminated(lines[1..]);
      var i :| 0 <= i <= |s'| && t <= s'[i..];
      var head := lines[0] + "\n";
      assert s == head + s';
      assert s[|head| + i..] == s'[i..];
    }
  }

  lemma LfUnfold(lines: seq<string>)
    requires lines != []
    ensures LfTerminated(lines) == lines[0] + "\n" + LfTerminated(lines[1..])
  {
  }

  lemma RegroupThree(a: string, sep: string, c: string, e: string, rest: string)
    ensures a + sep + (c + sep + (e + sep + rest)) == (a + sep + c + sep + e + sep) + rest
  {
  }

  /** The first three lines of an LF-terminated text open it, each with its LF. */
  lemma LeadingThreeLines(lines: seq<string>)
    requires |lines| >= 3
    ensures lines[0] + "\n" + lines[1] + "\n" + lines[2] + "\n" <= LfTerminated(lines)
  {
    var l1, l2 := lines[1..], lines[2..];
    assert l1[1..] == l2;
    assert l2[1..] == lines[3..];
    LfUnfold(lines);
    LfUnfold(l1);
    LfUnfold(l2);
    RegroupThree(lines[0], "\n", lines[1], lines[2], LfTerminated(lines[3..]));
  }

  /**
   * The submitted name stands on its own line after the empty line that
   * follows the introduction, and the e-mail address on the next line.
   */
  lemma EmailBodyNamesSender(name: string, email: string, message: string, ip: Option<string>, isoTime: string)
    ensures IsInfix("\n\nName: " + name + "\n", EmailBody(name, email, message, ip, isoTime))
    ensures IsInfix("Name: " + name + "\nEmail: " + email + "\n", EmailBody(name, email, message, ip, isoTime))
  {
    var lines := BodyLines(name, email, message, ip, isoTime);
    var b := EmailBody(name, email, message, ip, isoTime);
    var intro := lines[0];
    LeadingThreeLines(lines);
    NameLineText(intro, name);
    var t := "\n\nName: " + name + "\n";
    assert intro + t <= b;
    assert t <= b[|intro|..];
    AdjacentLines(lines, 2);
    EmailLineText(name, email);
  }

  lemma NameLineText(intro: string, name: string)
    ensures intro + "\n" + "" + "\n" + ("Name: " + name) + "\n" == intro + ("\n\nName: " + name + "\n")
  {
    assert "\n" + "" + "\n" + "Name: " == "\n\nName: ";
  }

  lemma EmailLineText(name: string, email: string)
    ensures ("Name: " + name) + "\n" + ("Email: " + email) + "\n" == "Name: " + name + "\nEmail: " + email + "\n"
  {
    assert "\n" + "Email: " == "\nEmail: ";
  }

  /** The message stands right under its heading line. */
  lemma EmailBodyHoldsMessage(name: string, email: string, message: string, ip: Option<string>, isoTime: string)
    ensures IsInfix("Message:\n" + message + "\n", EmailBody(name, email, message, ip, isoTime))
  {
    AdjacentLines(BodyLines(name, email, message, ip, isoTime), 5);
    MessageLineText(message);
  }

  lemma MessageLineText(message: string)
    ensures "Message:" + "\n" + message + "\n" == "Message:\n" + message + "\n"
  {
    assert "Message:" + "\n" == "Message:\n";
  }

  /** After the separator the body gives the client IP, or "unknown" when the header is absent or empty, then the time. */
  lemma EmailBodyShowsOrigin(name: string, email: string, message: string, ip: Option<string>, isoTime: string)
    ensures var shownIp := if Truthy(ip) then ip.value else "unknown";
      && IsInfix("---\nSubmitted from IP: " + shownIp + "\n", EmailBody(name, email, message, ip, isoTime))
      && IsInfix("Submitted from IP: " + shownIp + "\nTime: " + isoTime + "\n", EmailBody(name, email, message, ip, isoTime))
  {
    var lines := BodyLines(name, email, message, ip, isoTime);
    AdjacentLines(lines, 8);
    IpLineText(IpText(ip));
    AdjacentLines(lines, 9);
    TimeLineText(IpText(ip), isoTime);
  }

  lemma IpLineText(shownIp: string)
    ensures "---" + "\n" + ("Submitted from IP: " + shownIp) + "\n" == "---\nSubmitted from IP: " + shownIp + "\n"
  {
    assert "---" + "\n" + "Submitted from IP: " == "---\nSubmitted from IP: ";
  }

  lemma TimeLineText(shownIp: string, isoTime: string)
    ensures ("Submitted from IP: " + shownIp) + "\n" + ("Time: " + isoTime) + "\n"
         == "Submitted from IP: " + shownIp + "\nTime: " + isoTime + "\n"
  {
    assert "\n" + "Time: " == "\nTime: ";
  }

  /** A missing or empty name, e-mail or message is answered first, before the token is looked at or any call is made. */
  lemma MissingFieldsAnsweredFirst(w: World)
    ensures HandleContactForm(w).response.body == ErrorJson(MsgMissingFields)
        <==> w.form.Some? && !(Truthy(w.form.value.name) && Truthy(w.form.value.email) && Truthy(w.form.value.message))
    ensures HandleContactForm(w).response.body == ErrorJson(MsgMissingFields)
        ==> HandleContactForm(w) == Reply(400, ErrorJson(MsgMissingFields), [], [])
  {
  }

  /** With all three fields present, a missing or empty token is answered next, and the captcha service is not asked. */
  lemma MissingTokenAnsweredSecond(w: World)
    ensures HandleContactForm(w).response.body == ErrorJson(MsgMissingToken)
        <==> w.form.Some? && Truthy(w.form.value.name) && Truthy(w.form.value.email)
             && Truthy(w.form.value.message) && !Truthy(w.form.value.token)
    ensures HandleContactForm(w).response.body == ErrorJson(MsgMissingToken)
        ==> HandleContactForm(w) == Reply(400, ErrorJson(MsgMissingToken), [], [])
  {
  }

  /**
   * A rejected token is answered after exactly one verification, which carries
   * the secret, the token and the client IP when there is one, and no e-mail is sent.
   */
  lemma CaptchaRejection(w: World)
    ensures HandleContactForm(w).response.body == ErrorJson(MsgCaptchaFailed)
        <==> ReachesVerification(w) && w.verdict == Verdict(false)
    ensures HandleContactForm(w).response.body == ErrorJson(MsgCaptchaFailed)
        ==> HandleContactForm(w) == Reply(400, ErrorJson(MsgCaptchaFailed),
              [VerifyCall(VerifyFields(w.form.value.token.value, w.clientIp, w.secret))], [])
  {
  }

  /**
   * The thank-you answer comes exactly when the token is accepted and the
   * send succeeds, after one verification and exactly one e-mail from the
   * fixed sender to the fixed recipient.
   */
  lemma SuccessfulSubmission(w: World)
    ensures HandleContactForm(w).response.status == 200
        <==> ReachesVerification(w) && w.verdict == Verdict(true) && w.send == Delivered
    ensures HandleContactForm(w).response.status == 200 ==>
      var f := w.form.value;
      HandleContactForm(w) == Reply(200, MessageJson(MsgThanks),
        [VerifyCall(VerifyFields(f.token.value, w.clientIp, w.secret))],
        [ComposeEmail(f.name.value, f.email.value, f.message.value, w.clientIp, w.utcDate, w.isoTime, w.boundary)])
  {
  }

  /**
   * Any thrown failure (unreadable body, failed verification call, failed
   * send) and nothing else gives the generic 500 answer.
   */
  lemma FailuresBecomeGeneric500(w: World)
    ensures HandleContactForm(w).response.status == 500
        <==> w.form.None?
             || (ReachesVerification(w) && w.verdict == VerifyThrew)
             || (ReachesVerification(w) && w.verdict == Verdict(true) && w.send == SendThrew)
    ensures HandleContactForm(w).response.status == 500
        <==> HandleContactForm(w).response.body == ErrorJson(MsgGenericFailure)
  {
  }

  /**
   * The outcomes of the outside calls cannot influence a submission that
   * stops before them: before verification neither outcome matters, and
   * after a verdict other than success the send outcome does not.
   */
  lemma UnreachedCallsIgnored(w: World, v: Verdict, d: SendOutcome)
    ensures !ReachesVerification(w) ==> HandleContactForm(w.(verdict := v, send := d)) == HandleContactForm(w)
    ensures w.verdict != Verdict(true) ==> HandleContactForm(w.(send := d)) == HandleContactForm(w)
  {
  }

  lemma FixedAddressesHaveNoCr()
    ensures '\r' !in Sender && '\r' !in SenderName && '\r' !in Recipient
  {
  }

  lemma PrefixedHasNoCr(prefix: string, s: string)
    requires '\r' !in prefix && '\r' !in s
    ensures '\r' !in prefix + s
  {
    assert forall i :: 0 <= i < |prefix + s| ==> (prefix + s)[i] != '\r' by {
      forall i | 0 <= i < |prefix + s| ensures (prefix + s)[i] != '\r' {
        if i >= |prefix| { assert (prefix + s)[i] == s[i - |prefix|]; }
      }
    }
  }

  /**
   * When the name and the date hold no CR, a mail reader splits the e-mail
   * that is sent into the seven fixed-order headers, the subject embedding the
   * name, and exactly the e-mail body.
   */
  lemma SentEmailReadsBack(w: World)
    requires ReachesVerification(w) && w.verdict == Verdict(true)
    requires '\r' !in w.form.value.name.value && '\r' !in w.utcDate
    ensures var f := w.form.value;
      var sent := HandleContactForm(w).sendAttempts;
      && |sent| == 1 && sent[0].from == Sender && sent[0].to == Recipient
      && Mime.ReadMessage(sent[0].raw) == Some((
           [ "From: " + SenderName + " <" + Sender + ">",
             "To: " + Recipient,
             "Subject: Contact form: " + f.name.value,
             "Date: " + w.utcDate,
             "MIME-Version: 1.0",
             "Content-Type: text/plain; charset=UTF-8",
             "Content-Transfer-Encoding: 8bit" ],
           EmailBody(f.name.value, f.email.value, f.message.value, w.clientIp, w.isoTime)))
  {
    var f := w.form.value;
    var name := f.name.value;
    FixedAddressesHaveNoCr();
    PrefixedHasNoCr("Contact form: ", name);
    assert "Subject: " + Subject(name) == "Subject: Contact form: " + name by {
      assert "Subject: " + "Contact form: " == "Subject: Contact form: ";
    }
    Mime.MimeRoundTrip(Sender, SenderName, Recipient, Subject(name),
                       EmailBody(name, f.email.value, f.message.value, w.clientIp, w.isoTime),
                       w.utcDate, w.boundary);
  }

  /**
   * The name reaches the Subject header unsanitised: a name holding an empty
   * line ends the header block early for a mail reader, which then drops the
   * Date and MIME headers into the body and starts the body with the text the
   * submitter chose.
   */
  lemma SubjectHeaderInjection(before: string, after: string, email: string, message: string,
                               ip: Option<string>, utcDate: string, isoTime: string, boundary: string)
    requires '\r' !in before
    ensures var name := before + "\r\n\r\n" + after;
      var r := Mime.ReadMessage(ComposeEmail(name, email, message, ip, utcDate, isoTime, boundary).raw);
      && r.Some?
      && r.value.0 == [ "From: " + SenderName + " <" + Sender + ">",
                        "To: " + Recipient,
                        "Subject: Contact form: " + before ]
      && after <= r.value.1
      && r.value.1 != EmailBody(name, email, message, ip, isoTime)
  {
    var name := before + "\r\n\r\n" + after;
    var body := EmailBody(name, email, message, ip, isoTime);
    var H := Mime.HeaderLines(Sender, SenderName, Recipient, Subject(name), utcDate);
    InjectedSubjectLine(before, after);
    FixedAddressesHaveNoCr();
    PrefixedHasNoCr("From: " + SenderName + " <", Sender + ">");
    PrefixedHasNoCr("To: ", Recipient);
    PrefixedHasNoCr("Subject: Contact form: ", before);
    ReadStopsAtBlankLineInThirdHeader(H, "Subject: Contact form: " + before, after, body);
    assert ComposeEmail(name, email, message, ip, utcDate, isoTime, boundary).raw
        == Mime.Terminated(H) + Mime.CRLF + body;
  }

  lemma InjectedSubjectLine(before: string, after: string)
    ensures "Subject: " + Subject(before + "\r\n\r\n" + after)
         == "Subject: Contact form: " + before + Mime.CRLF + Mime.CRLF + after
  {
    var CRLF := Mime.CRLF;
    assert "\r\n\r\n" == CRLF + CRLF;
    assert "Subject: " + "Contact form: " == "Subject: Contact form: ";
  }

  /**
   * A third header line that holds an empty line ends the header block for
   * the reader right there; what follows in it starts the body.
   */
  lemma ReadStopsAtBlankLineInThirdHeader(lines: seq<string>, line2: string, after: string, body: string)
    requires |lines| >= 3 && lines[2] == line2 + Mime.CRLF + Mime.CRLF + after
    requires lines[0] != "" && lines[1] != "" && line2 != ""
    requires '\r' !in lines[0] && '\r' !in lines[1] && '\r' !in line2
    ensures var r := Mime.ReadMessage(Mime.Terminated(lines) + Mime.CRLF + body);
      && r == Some(([lines[0], lines[1], line2], after + Mime.CRLF + Mime.Terminated(lines[3..]) + Mime.CRLF + body))
      && |r.value.1| > |body|
  {
    var CRLF := Mime.CRLF;
    var T3 := Mime.Terminated(lines[3..]);
    assert Mime.Terminated(lines) == lines[0] + CRLF + (lines[1] + CRLF + (lines[2] + CRLF + T3)) by {
      assert lines[1..][1..][1..] == lines[3..];
      assert Mime.Terminated(lines[1..][1..]) == lines[2] + CRLF + T3;
    }
    var short := [lines[0], lines[1], line2];
    assert Mime.Terminated(short) == lines[0] + CRLF + (lines[1] + CRLF + (line2 + CRLF)) by {
      assert short[1..][1..][1..] == [];
      assert Mime.Terminated(short[1..][1..]) == short[2] + CRLF;
    }
    var tail := after + CRLF + T3 + CRLF + body;
    assert Mime.Terminated(lines) + CRLF + body == Mime.Terminated(short) + CRLF + tail;
    Mime.ReadTerminated(short, tail);
  }
}
