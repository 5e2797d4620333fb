/** The Mailgun platform layer of core/platform/email/mailgun_email_services.py: the POST
    request send_email_to_recipients builds, and the recipient batches of send_bulk_mail.
    The HTTP call itself is not modelled; the request is returned instead. */
module Mailgun {
  import opened Wrappers
  import Base64
  import Strings

  /** Mailgun accepts at most this many recipients per request. */
  const MaxRecipientsPerRequest: nat := 1000

  /** A value of the `data` dictionary: a string, a list of strings, or the
      recipient-variables dictionary (each recipient's variables kept as JSON text). */
  datatype Field = Text(s: string) | List(items: seq<string>) | Vars(vars: map<string, string>)

  /** The arguments of send_email_to_recipients. The bodies are already encoded by the caller
      and are kept as text. */
  datatype MailRequest = MailRequest(
    sender: string, recipients: seq<string>, subject: string, text: string, html: string,
    bcc: Option<seq<string>>, replyTo: Option<string>, recipientVariables: Option<map<string, string>>)

  /** MAILGUN_API_KEY (a byte string) and MAILGUN_DOMAIN_NAME; None when unset. */
  datatype Settings = Settings(apiKey: Option<seq<Base64.byte>>, domainName: Option<string>)

  datatype MailgunError = MissingApiKey | MissingDomainName

  /** What url_request is given: the server URL, the form data and the headers. */
  datatype Post = Post(url: string, data: map<string, Field>, headers: map<string, string>)

  /** Python truthiness of an optional string, list or dictionary. */
  predicate Truthy<T>(v: Option<seq<T>>) {
    v.Some? && v.value != []
  }

  predicate TruthyMap(v: Option<map<string, string>>) {
    v.Some? && v.value != map[]
  }

  const ApiBase := "https://api.mailgun.net/v3/"

  /** The messages endpoint of a domain: the domain sits between the API base and
      `/messages`, so it can be read back from the URL. */
  function MessagesUrl(domain: string): (r: string)
    ensures Strings.StartsWith(r, ApiBase) && Strings.EndsWith(r, "/messages")
    ensures |r| == |ApiBase| + |domain| + 9 && r[|ApiBase|..|r| - 9] == domain
  {
    var r := ApiBase + domain + "/messages";
    assert r[|r| - 9..] == "/messages" && r[|ApiBase|..|r| - 9] == domain;
    r
  }

  /** The bytes of `b'api:'`. */
  const ApiPrefix: seq<Base64.byte> := [97, 112, 105, 58]

  /** `'Basic %s' % base64.b64encode(b'api:%s' % key).strip()`. */
  function AuthHeader(key: seq<Base64.byte>): (r: string)
    ensures |r| >= 6 && r[..6] == "Basic "
    ensures Base64.Decode(r[6..]) == Some(ApiPrefix + key)
  {
    Base64.DecodeEncode(ApiPrefix + key);
    var r := "Basic " + Base64.Encode(ApiPrefix + key);
    assert r[6..] == Base64.Encode(ApiPrefix + key);
    r
  }

  /** The keys the request data may carry. */
  const FixedKeys: set<string> := {"from", "subject", "text", "html", "to"}

  /** The data dictionary of send_email_to_recipients: the four fixed fields, `to`, and
      `bcc`, `h:Reply-To` and `recipient_variables` only when their arguments are truthy. */
  predicate DataDescribes(data: map<string, Field>, req: MailRequest) {
    CommonFields(data, req) &&
    ("recipient_variables" in data <==> TruthyMap(req.recipientVariables)) &&
    ("recipient_variables" in data ==> data["recipient_variables"] == Vars(req.recipientVariables.value))
  }

  /** Every field but `recipient_variables`. */
  predicate CommonFields(data: map<string, Field>, req: MailRequest) {
    FixedKeys <= data.Keys &&
    data.Keys <= FixedKeys + {"bcc", "h:Reply-To", "recipient_variables"} &&
    data["from"] == Text(req.sender) && data["subject"] == Text(req.subject) &&
    data["text"] == Text(req.text) && data["html"] == Text(req.html) &&
    data["to"] == (if |req.recipients| == 1 then Text(req.recipients[0]) else List(req.recipients)) &&
    ("bcc" in data <==> Truthy(req.bcc)) &&
    ("bcc" in data ==> data["bcc"] == if |req.bcc.value| == 1 then Text(req.bcc.value[0]) else List(req.bcc.value)) &&
    ("h:Reply-To" in data <==> Truthy(req.replyTo)) &&
    ("h:Reply-To" in data ==> data["h:Reply-To"] == Text(req.replyTo.value))
  }

  /** The dictionary-building part of send_email_to_recipients, insertion by insertion. */
  method BuildData(req: MailRequest) returns (data: map<string, Field>)
    ensures DataDescribes(data, req)
  {
    data := map["from" := Text(req.sender), "subject" := Text(req.subject),
                "text" := Text(req.text), "html" := Text(req.html)];
    if |req.recipients| == 1 {
      data := data["to" := Text(req.recipients[0])];
    } else {
      data := data["to" := List(req.recipients)];
    }
    if Truthy(req.bcc) {
      if |req.bcc.value| == 1 {
        data := data["bcc" := Text(req.bcc.value[0])];
      } else {
        data := data["bcc" := List(req.bcc.value)];
      }
    }
    if Truthy(req.replyTo) {
      data := data["h:Reply-To" := Text(req.replyTo.value)];
    }
    if TruthyMap(req.recipientVariables) {
      data := data["recipient_variables" := Vars(req.recipientVariables.value)];
    }
  }

  /** send_email_to_recipients: checks the API key, then the domain name, then builds the
      data dictionary and the Authorization header. */
  method SendEmailToRecipients(settings: Settings, req: MailRequest) returns (r: Result<Post, MailgunError>)
    ensures !Truthy(settings.apiKey) ==> r == Err(MissingApiKey)
    ensures Truthy(settings.apiKey) && !Truthy(settings.domainName) ==> r == Err(MissingDomainName)
    ensures r.Ok? <==> Truthy(settings.apiKey) && Truthy(settings.domainName)
    ensures r.Ok? ==> r.value.url == MessagesUrl(settings.domainName.value)
    ensures r.Ok? ==> r.value.headers == map["Authorization" := AuthHeader(settings.apiKey.value)]
    ensures r.Ok? ==> DataDescribes(r.value.data, req)
  {
    if !Truthy(settings.apiKey) {
      return Err(MissingApiKey);
    }
    if !Truthy(settings.domainName) {
      return Err(MissingDomainName);
    }
    var data := BuildData(req);
    var auth := AuthHeader(settings.apiKey.value);
    r := Ok(Post(MessagesUrl(settings.domainName.value), data, map["Authorization" := auth]));
  }

  /** As written, the empty recipient-variables dictionary that bulk sending passes is
      falsy, so the field that should make Mailgun address each recipient separately is
      never sent. */
  lemma BulkDataOmitsRecipientVariables(data: map<string, Field>, req: MailRequest)
    requires req.recipientVariables == Some(map[]) && DataDescribes(data, req)
    ensures "recipient_variables" !in data
  {
  }

  /** The evident intent: the field is sent whenever recipient variables are given, as
      `is not None` would test, so bulk requests always carry it. */
  method BuildDataCorrected(req: MailRequest) returns (data: map<string, Field>)
    ensures CommonFields(data, req)
    ensures "recipient_variables" in data <==> req.recipientVariables.Some?
    ensures "recipient_variables" in data ==> data["recipient_variables"] == Vars(req.recipientVariables.value)
  {
    data := BuildData(req);
    if req.recipientVariables.Some? {
      data := data["recipient_variables" := Vars(req.recipientVariables.value)];
    }
  }

  /** The three groups of `api:key`. */
  lemma KeyGroups()
    ensures Base64.EncodeGroup(97, 112, 105) == "YXBp"
    ensures Base64.EncodeGroup(58, 107, 101) == "Omtl"
    ensures Base64.Encode([121]) == "eQ=="
  {
    assert Base64.EncodeGroup(97, 112, 105) == "YXBp";
    assert Base64.EncodeGroup(58, 107, 101) == "Omtl";
  }

  /** The header the tests expect for the key `key`. */
  lemma AuthHeaderForKey()
    ensures AuthHeader([107, 101, 121]) == "Basic YXBpOmtleQ=="
  {
    var b: seq<Base64.byte> := [97, 112, 105, 58, 107, 101, 121];
    assert ApiPrefix + [107, 101, 121] == b;
    assert b[3..] == [58, 107, 101, 121] && b[3..][3..] == [121];
    KeyGroups();
    assert Base64.Encode(b[3..]) == "Omtl" + "eQ==";
    assert Base64.Encode(b) == "YXBp" + ("Omtl" + "eQ==");
  }

  /** `[s[i:i + 1000] for i in range(0, len(s), 1000)]`. */
  function Chunks<T>(s: seq<T>): (r: seq<seq<T>>)
    ensures |r| == (|s| + MaxRecipientsPerRequest - 1) / MaxRecipientsPerRequest
  {
    seq((|s| + 999) / 1000, i requires 0 <= i < (|s| + 999) / 1000 =>
      s[i * 1000 .. if (i + 1) * 1000 <= |s| then (i + 1) * 1000 else |s|])
  }

  function Flatten<T>(ss: seq<seq<T>>): seq<T> {
    if ss == [] then [] else ss[0] + Flatten(ss[1..])
  }

  /** Every batch is non-empty and within Mailgun's limit. */
  lemma ChunkSizes<T>(s: seq<T>)
    ensures forall i :: 0 <= i < |Chunks(s)| ==> 0 < |Chunks(s)[i]| <= MaxRecipientsPerRequest
  {
  }

  /** Past the first batch, the batches are those of the rest of the list. */
  lemma ChunksUnfold<T>(s: seq<T>)
    requires |s| > 0
    ensures Chunks(s) == [s[..if |s| < 1000 then |s| else 1000]] + Chunks(s[if |s| < 1000 then |s| else 1000..])
  {
    var c := Chunks(s);
    var n := if |s| < 1000 then |s| else 1000;
    var d := Chunks(s[n..]);
    assert |c| == 1 + |d|;
    forall i | 0 <= i < |d| ensures c[i + 1] == d[i] {
      assert s[n..][i * 1000 .. if (i + 1) * 1000 <= |s| - n then (i + 1) * 1000 else |s| - n]
          == s[(i + 1) * 1000 .. if (i + 2) * 1000 <= |s| then (i + 2) * 1000 else |s|];
    }
  }

  /** The batches, concatenated, give back the recipient list in order. */
  lemma {:induction false} ChunksConcat<T>(s: seq<T>)
    ensures Flatten(Chunks(s)) == s
    decreases |s|
  {
    if |s| > 0 {
      var n := if |s| < 1000 then |s| else 1000;
      ChunksUnfold(s);
      ChunksConcat(s[n..]);
      assert s[..n] + s[n..] == s;
    }
  }

  /** The dev-mode recipient summary: the first three addresses, then the total when the
      batch is longer. */
  function RecipientSummary(batch: seq<string>): (r: string)
    ensures |batch| <= 3 ==> r == Strings.Join(batch, " ")
    ensures |batch| > 3 ==>
      Strings.StartsWith(r, Strings.Join(batch[..3], " ")) &&
      r[|Strings.Join(batch[..3], " ")|..] == "... Total: " + Strings.NatToString(|batch|) + " emails."
  {
    var shown := Strings.Join(if |batch| <= 3 then batch else batch[..3], " ");
    if |batch| > 3 then shown + "... Total: " + Strings.NatToString(|batch|) + " emails." else shown
  }

  /** The count in a summary reads back as the batch length. */
  lemma SummaryCount(batch: seq<string>)
    requires |batch| > 3
    ensures var r, start := RecipientSummary(batch), |Strings.Join(batch[..3], " ")| + 11;
      start + 8 <= |r| && Strings.ParseInt(r[start..|r| - 8]) == Some(|batch|)
  {
    var r, start := RecipientSummary(batch), |Strings.Join(batch[..3], " ")| + 11;
    var digits := Strings.NatToString(|batch|);
    assert r[start..] == digits + " emails.";
    assert r[start..|r| - 8] == digits;
    Strings.IntToStringRoundTrip(|batch|);
  }

  /** What happens to one batch: a request in production, a log line in development. */
  datatype Delivery = Send(request: MailRequest) | Log(to: string)

  datatype BulkError = CannotSendEmails

  /** The loop of send_bulk_mail over the batches. */
  method DeliverBatches(sender: string, batches: seq<seq<string>>, subject: string, text: string,
                        html: string, devMode: bool) returns (r: seq<Delivery>)
    ensures |r| == |batches|
    ensures forall i :: 0 <= i < |r| ==>
      r[i] == if devMode then Log(RecipientSummary(batches[i]))
              else Send(MailRequest(sender, batches[i], subject, text, html, None, None, Some(map[])))
  {
    r := [];
    for i := 0 to |batches|
      invariant |r| == i
      invariant forall j :: 0 <= j < i ==>
        r[j] == if devMode then Log(RecipientSummary(batches[j]))
                else Send(MailRequest(sender, batches[j], subject, text, html, None, None, Some(map[])))
    {
      if devMode {
        r := r + [Log(RecipientSummary(batches[i]))];
      } else {
        r := r + [Send(MailRequest(sender, batches[i], subject, text, html, None, None, Some(map[])))];
      }
    }
  }

  /** send_bulk_mail: refuses when sending is switched off, otherwise one delivery per batch. */
  method SendBulkMail(canSendEmails: bool, devMode: bool, sender: string, recipients: seq<string>,
                      subject: string, text: string, html: string) returns (r: Result<seq<Delivery>, BulkError>)
    ensures !canSendEmails <==> r == Err(CannotSendEmails)
    ensures r.Ok? ==> |r.value| == |Chunks(recipients)|
    ensures r.Ok? ==> forall i :: 0 <= i < |r.value| ==>
      r.value[i] == if devMode then Log(RecipientSummary(Chunks(recipients)[i]))
                    else Send(MailRequest(sender, Chunks(recipients)[i], subject, text, html, None, None, Some(map[])))
  {
    if !canSendEmails {
      return Err(CannotSendEmails);
    }
    var deliveries := DeliverBatches(sender, Chunks(recipients), subject, text, html, devMode);
    r := Ok(deliveries);
  }
}
