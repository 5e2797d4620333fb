/** The email service layer of core/domain/email_services.py: address validation, the
    reply-to address, and the checks and request shaping of send_mail and send_bulk_mail.
    The regular expressions are written out as predicates over split positions. */
module EmailServices {
  import opened Wrappers
  import Strings
  import Mailgun

  /** The feconf and constants settings the functions read. */
  datatype Config = Config(canSendEmails: bool, devMode: bool, adminEmailAddress: string,
                           incomingEmailsDomainName: string)

  datatype SendError = CannotSendEmails | MalformedRecipient(recipient: Option<string>) | MalformedSender(sender: string)

  /** get_incoming_email_address: `'reply+%s@%s' % (reply_to_id, domain)`. */
  function IncomingEmailAddress(cfg: Config, replyToId: string): (r: string)
    ensures |r| == 7 + |replyToId| + |cfg.incomingEmailsDomainName|
    ensures Strings.StartsWith(r, "reply+")
    ensures r[6..|r| - |cfg.incomingEmailsDomainName|] == replyToId + "@"
    ensures Strings.EndsWith(r, "@" + cfg.incomingEmailsDomainName)
  {
    var r := "reply+" + replyToId + "@" + cfg.incomingEmailsDomainName;
    assert r[|r| - |cfg.incomingEmailsDomainName| - 1..] == "@" + cfg.incomingEmailsDomainName;
    r
  }

  /** The reply id can be read back from the address: distinct ids give distinct addresses. */
  lemma IncomingEmailAddressInjective(cfg: Config, a: string, b: string)
    requires IncomingEmailAddress(cfg, a) == IncomingEmailAddress(cfg, b)
    ensures a == b
  {
    var ra, rb := IncomingEmailAddress(cfg, a), IncomingEmailAddress(cfg, b);
    assert ra[6..|ra| - |cfg.incomingEmailsDomainName|] == rb[6..|rb| - |cfg.incomingEmailsDomainName|];
    assert (a + "@")[..|a|] == a && (b + "@")[..|b|] == b;
  }

  predicate IsLetter(c: char) {
    'a' <= c <= 'z' || 'A' <= c <= 'Z'
  }

  /** `[a-zA-Z0-9-.]` */
  predicate IsHostChar(c: char) {
    IsLetter(c) || Strings.IsDigit(c) || c == '-' || c == '.'
  }

  /** `[a-zA-Z._]` */
  predicate IsNameChar(c: char) {
    IsLetter(c) || c == '.' || c == '_'
  }

  /** `.`: any character but a newline. */
  predicate IsAny(c: char) {
    c != '\n'
  }

  /** `([a-zA-Z]{2,3}|[0-9]{1,3})` matching all of `s`. */
  predicate IsTopLevel(s: string) {
    (2 <= |s| <= 3 && forall i :: 0 <= i < |s| ==> IsLetter(s[i])) ||
    (1 <= |s| <= 3 && forall i :: 0 <= i < |s| ==> Strings.IsDigit(s[i]))
  }

  /** `[a-zA-Z0-9-.]+.([a-zA-Z]{2,3}|[0-9]{1,3})` matching all of `w`. */
  predicate HostMatches(w: string) {
    exists k :: 1 <= k < |w| && (forall i :: 0 <= i < k ==> IsHostChar(w[i])) && IsAny(w[k]) && IsTopLevel(w[k + 1..])
  }

  /** `host(]?)` */
  predicate ClosedHostMatches(v: string) {
    HostMatches(v) || (|v| >= 1 && v[|v| - 1] == ']' && HostMatches(v[..|v| - 1]))
  }

  /** `(\[?)host(]?)` */
  predicate DomainMatches(u: string) {
    ClosedHostMatches(u) || (|u| >= 1 && u[0] == '[' && ClosedHostMatches(u[1..]))
  }

  /** `.+@(\[?)[a-zA-Z0-9-.]+.([a-zA-Z]{2,3}|[0-9]{1,3})(]?)` matching all of `t`. */
  predicate AddressMatches(t: string) {
    exists at :: 0 < at < |t| && t[at] == '@' && (forall i :: 0 <= i < at ==> IsAny(t[i])) && DomainMatches(t[at + 1..])
  }

  /** `^address$` under re.search: `$` also matches just before a final newline. */
  predicate EmailPatternMatches(s: string) {
    AddressMatches(s) || (|s| >= 1 && s[|s| - 1] == '\n' && AddressMatches(s[..|s| - 1]))
  }

  /** `[a-zA-Z._]+ <address>` matching all of `u`. */
  predicate FirstNameForm(u: string) {
    exists p :: 1 <= p && p + 3 < |u| && (forall i :: 0 <= i < p ==> IsNameChar(u[i])) &&
      u[p] == ' ' && u[p + 1] == '<' && u[|u| - 1] == '>' && AddressMatches(u[p + 2..|u| - 1])
  }

  /** `[a-zA-Z._]+ [a-zA-Z._]+ <address>` matching all of `u`. */
  predicate FullNameForm(u: string) {
    exists p, q :: 1 <= p && p + 1 < q && q + 3 < |u| &&
      (forall i :: 0 <= i < p ==> IsNameChar(u[i])) && u[p] == ' ' &&
      (forall i :: p < i < q ==> IsNameChar(u[i])) && u[q] == ' ' && u[q + 1] == '<' &&
      u[|u| - 1] == '>' && AddressMatches(u[q + 2..|u| - 1])
  }

  predicate FirstNamePatternMatches(s: string) {
    FirstNameForm(s) || (|s| >= 1 && s[|s| - 1] == '\n' && FirstNameForm(s[..|s| - 1]))
  }

  predicate FullNamePatternMatches(s: string) {
    FullNameForm(s) || (|s| >= 1 && s[|s| - 1] == '\n' && FullNameForm(s[..|s| - 1]))
  }

  /** The characters str.strip removes (the ASCII ones). */
  predicate IsSpace(c: char) {
    c == ' ' || 9 <= c as int <= 13 || 28 <= c as int <= 31
  }

  /** `not email_address.strip()` */
  predicate StripsToEmpty(s: string) {
    forall i :: 0 <= i < |s| ==> IsSpace(s[i])
  }

  /** is_email_valid: None stands for a value that is not a string. The pattern is searched
      in the unstripped text. */
  function IsEmailValid(address: Option<string>): (r: bool)
    ensures r ==> address.Some? && Strings.Contains(address.value, '@')
  {
    if address.Some? && !Strings.Contains(address.value, '@') then
      NoAtNoAddress(address.value);
      false
    else address.Some? && !StripsToEmpty(address.value) && EmailPatternMatches(address.value)
  }

  /** is_sender_email_valid: a plain address, or one of the two named forms. */
  function IsSenderEmailValid(sender: string): (r: bool)
    ensures IsEmailValid(Some(sender)) ==> r
    ensures r ==> Strings.Contains(sender, '@')
  {
    if !Strings.Contains(sender, '@') then
      NoAtNoAddress(sender);
      NoAtNoName(sender);
      false
    else IsEmailValid(Some(sender)) || FirstNamePatternMatches(sender) || FullNamePatternMatches(sender)
  }

  /** Text without an `@` never matches the address pattern. */
  lemma NoAtNoAddress(t: string)
    requires forall i :: 0 <= i < |t| ==> t[i] != '@'
    ensures !AddressMatches(t) && !EmailPatternMatches(t)
  {
  }

  /** Text without an `@` never has a named sender form: the address inside it needs one. */
  lemma NoAtNoName(u: string)
    requires forall i :: 0 <= i < |u| ==> u[i] != '@'
    ensures !FirstNamePatternMatches(u) && !FullNamePatternMatches(u)
  {
  }

  /** The strip test is implied by the pattern, which needs an `@`: a string is valid iff
      the pattern matches it. */
  lemma EmailValidIffPattern(s: string)
    ensures IsEmailValid(Some(s)) <==> EmailPatternMatches(s)
  {
    if EmailPatternMatches(s) {
      var t := if AddressMatches(s) then s else s[..|s| - 1];
      assert AddressMatches(t);
      var at :| 0 < at < |t| && t[at] == '@' && (forall i :: 0 <= i < at ==> IsAny(t[i])) && DomainMatches(t[at + 1..]);
      assert s[at] == '@' && !IsSpace(s[at]);
    }
  }

  /** The address forms the tests reject and accept. */
  lemma EmailExamples()
    ensures !IsEmailValid(None) && !IsEmailValid(Some(""))
    ensures !IsEmailValid(Some("email.com"))
    ensures IsEmailValid(Some("a@a.com"))
  {
    NoAtNoAddress("email.com");
    ValidExample();
    var t := "a@a.com";
    assert t[1] == '@' && Strings.Contains(t, '@');
    assert !IsSpace(t[0]) && !StripsToEmpty(t);
  }

  /** A plain address with a two-part domain matches. */
  lemma ValidExample()
    ensures AddressMatches("a@a.com")
  {
    var t := "a@a.com";
    var w := t[2..];
    assert w == "a.com";
    assert w[2..] == "com";
    assert IsTopLevel(w[2..]);
    assert 1 <= 1 < |w| && (forall i :: 0 <= i < 1 ==> IsHostChar(w[i])) && IsAny(w[1]) && IsTopLevel(w[1 + 1..]);
    assert HostMatches(w);
    assert DomainMatches(t[1 + 1..]);
    assert 0 < 1 < |t| && t[1] == '@' && (forall i :: 0 <= i < 1 ==> IsAny(t[i])) && DomainMatches(t[1 + 1..]);
    assert AddressMatches(t);
  }

  /** `x` is too short for a host. */
  lemma NoHostInShort(w: string)
    requires w == "x"
    ensures !HostMatches(w)
  {
  }

  /** In `x@x`, the only positions a host match could take fail the top-level part or the
      host characters. */
  lemma NoHostInXAtX(w: string)
    requires w == "x@x"
    ensures !HostMatches(w)
  {
    forall k | 1 <= k < |w|
      ensures !((forall i :: 0 <= i < k ==> IsHostChar(w[i])) && IsAny(w[k]) && IsTopLevel(w[k + 1..]))
    {
      if k == 1 {
        assert w[k + 1..] == "x" && w[k + 1..][0] == 'x';
      } else {
        assert !IsHostChar(w[1]);
      }
    }
  }

  /** Text without a space never has a named sender form. */
  lemma NoSpaceNoName(u: string)
    requires forall i :: 0 <= i < |u| ==> u[i] != ' '
    ensures !FirstNamePatternMatches(u) && !FullNamePatternMatches(u)
  {
  }

  /** `x@x@x` does not match the address pattern: after either `@` too little is left. */
  lemma XAtXAtXNoAddress(t: string)
    requires t == "x@x@x"
    ensures !AddressMatches(t)
  {
    forall at | 0 < at < |t| && t[at] == '@' ensures !DomainMatches(t[at + 1..]) {
      var u := t[at + 1..];
      if at == 1 {
        assert u == "x@x";
        NoHostInXAtX(u);
      } else {
        assert at == 3 && u == "x";
        NoHostInShort(u);
      }
    }
  }

  /** `x@x@x` and `email` are rejected as senders, as the tests assert. */
  lemma SenderExamples()
    ensures !IsSenderEmailValid("x@x@x")
    ensures !IsSenderEmailValid("email")
  {
    NoSpaceNoName("x@x@x");
    NoSpaceNoName("email");
    NoAtNoAddress("email");
    XAtXAtXNoAddress("x@x@x");
  }

  /** What send_mail passes on: a Mailgun request in production, a log line in development. */
  function SendMail(cfg: Config, sender: string, recipient: Option<string>, subject: string, text: string,
                    html: string, bccAdmin: bool, replyToId: Option<string>): (r: Result<Mailgun.Delivery, SendError>)
    ensures !cfg.canSendEmails ==> r == Err(CannotSendEmails)
    ensures cfg.canSendEmails && !IsEmailValid(recipient) ==> r == Err(MalformedRecipient(recipient))
    ensures cfg.canSendEmails && IsEmailValid(recipient) && !IsSenderEmailValid(sender) ==>
      r == Err(MalformedSender(sender))
    ensures r.Ok? <==> cfg.canSendEmails && IsEmailValid(recipient) && IsSenderEmailValid(sender)
    ensures r.Ok? && cfg.devMode ==> r.value == Mailgun.Log(recipient.value)
    ensures r.Ok? && !cfg.devMode ==> r.value.Send?
    ensures r.Ok? && !cfg.devMode ==> var req := r.value.request;
      req.sender == sender && req.recipients == [recipient.value] &&
      req.subject == subject && req.text == text && req.html == html &&
      req.bcc == Some([if bccAdmin then cfg.adminEmailAddress else ""]) &&
      req.replyTo == Some(if Mailgun.Truthy(replyToId) then IncomingEmailAddress(cfg, replyToId.value) else "") &&
      req.recipientVariables == None
  {
    if !cfg.canSendEmails then Err(CannotSendEmails)
    else if !IsEmailValid(recipient) then Err(MalformedRecipient(recipient))
    else if !IsSenderEmailValid(sender) then Err(MalformedSender(sender))
    else
      var bcc := if bccAdmin then cfg.adminEmailAddress else "";
      var replyTo := if Mailgun.Truthy(replyToId) then IncomingEmailAddress(cfg, replyToId.value) else "";
      if cfg.devMode then Ok(Mailgun.Log(recipient.value))
      else Ok(Mailgun.Send(Mailgun.MailRequest(sender, [recipient.value], subject, text, html,
                                               Some([bcc]), Some(replyTo), None)))
  }

  predicate AllValid(recipients: seq<string>) {
    forall j :: 0 <= j < |recipients| ==> IsEmailValid(Some(recipients[j]))
  }

  /** Position `k` holds the first malformed address. */
  predicate FirstMalformedAt(recipients: seq<string>, k: int) {
    0 <= k < |recipients| && !IsEmailValid(Some(recipients[k])) &&
    forall j :: 0 <= j < k ==> IsEmailValid(Some(recipients[j]))
  }

  /** The recipient check of send_bulk_mail: the position of the first malformed address. */
  method FirstMalformedRecipient(recipients: seq<string>) returns (r: Option<nat>)
    ensures r.Some? ==> FirstMalformedAt(recipients, r.value)
    ensures r.None? <==> AllValid(recipients)
  {
    for i := 0 to |recipients|
      invariant AllValid(recipients[..i])
    {
      var valid := IsEmailValid(Some(recipients[i]));
      if !valid {
        assert FirstMalformedAt(recipients, i) by {
          assert forall j :: 0 <= j < i ==> recipients[..i][j] == recipients[j];
        }
        return Some(i);
      }
      assert forall j :: 0 <= j < i ==> recipients[..i + 1][j] == recipients[..i][j];
    }
    assert recipients[..|recipients|] == recipients;
    return None;
  }

  /** send_bulk_mail: permission, then every recipient in order, then the sender; then one
      delivery per batch of at most 1000 recipients. */
  method SendBulkMail(cfg: Config, sender: string, recipients: seq<string>, subject: string,
                      text: string, html: string) returns (r: Result<seq<Mailgun.Delivery>, SendError>)
    ensures !cfg.canSendEmails ==> r == Err(CannotSendEmails)
    ensures cfg.canSendEmails ==> forall k :: FirstMalformedAt(recipients, k) ==> r == Err(MalformedRecipient(Some(recipients[k])))
    ensures r.Ok? <==> (cfg.canSendEmails && IsSenderEmailValid(sender) && AllValid(recipients))
    ensures cfg.canSendEmails && AllValid(recipients) && !IsSenderEmailValid(sender) ==> r == Err(MalformedSender(sender))
    ensures r.Ok? ==> |r.value| == |Mailgun.Chunks(recipients)|
    ensures r.Ok? ==> forall i :: 0 <= i < |r.value| ==>
      r.value[i] == if cfg.devMode then Mailgun.Log(Mailgun.RecipientSummary(Mailgun.Chunks(recipients)[i]))
                    else Mailgun.Send(Mailgun.MailRequest(sender, Mailgun.Chunks(recipients)[i], subject, text, html,
                                                          None, None, Some(map[])))
  {
    if !cfg.canSendEmails {
      return Err(CannotSendEmails);
    }
    var bad := FirstMalformedRecipient(recipients);
    if bad.Some? {
      return Err(MalformedRecipient(Some(recipients[bad.value])));
    }
    if !IsSenderEmailValid(sender) {
      return Err(MalformedSender(sender));
    }
    var deliveries := Mailgun.DeliverBatches(sender, Mailgun.Chunks(recipients), subject, text, html, cfg.devMode);
    r := Ok(deliveries);
  }
}
