/** The provider payloads of the two `send_sparkpost_email` functions
    (services/api/shared/email_sender.py and
    services/campaign-runner/email_sender.py) and the campaign tag the API
    sender attaches, which the webhook router parses back. The HTTP call is
    a response given as input. */
module Sender {
  import opened Wrappers
  import opened Text
  import opened Webhooks

  const REPLY_TO: string := "communications@ozlistings.com"
  const MAX_NAME_LENGTH: nat := 25

  datatype Content = Content(
    from: string,
    subject: string,
    replyTo: Option<string>,
    html: Option<string>,
    text: Option<string>)

  datatype Transmission = Transmission(
    recipient: string,
    content: Content,
    clickTracking: bool,
    campaignTag: Option<string>,
    metadata: Option<map<string, string>>)

  /** The provider's answer: an HTTP status, or an exception. */
  datatype ProviderResponse = HttpStatus(code: int) | Raised

  /** What one call does: the request it sends, if any, and its result. */
  datatype Attempt = Attempt(request: Option<Transmission>, ok: bool)

  /** `"<" in body and ">" in body`. */
  predicate IsHtml(body: string) {
    '<' in body && '>' in body
  }

  /** The characters `[a-zA-Z0-9\s\-_]` keeps, with `\s` on ASCII. */
  predicate NameChar(c: char) {
    IsAsciiLetter(c) || IsAsciiDigit(c) || IsSpace(c) || c == '-' || c == '_'
  }

  /** `re.sub(r'[^a-zA-Z0-9\s\-_]', '', name)`. */
  function KeepNameChars(name: string): (r: string)
    ensures |r| <= |name|
    ensures forall c :: c in r ==> NameChar(c)
    ensures (forall c :: c in name ==> NameChar(c)) ==> r == name
  {
    if name == [] then []
    else
      var rest := KeepNameChars(name[1..]);
      assert forall c :: c in name[1..] ==> c in name;
      if NameChar(name[0]) then [name[0]] + rest else rest
  }

  /** The sanitised name, cut to 25 characters. */
  function SanitizeName(name: string): (r: string)
    ensures |r| <= MAX_NAME_LENGTH
    ensures forall c :: c in r ==> NameChar(c)
    ensures |r| == if |KeepNameChars(name)| > MAX_NAME_LENGTH then MAX_NAME_LENGTH else |KeepNameChars(name)|
    ensures r == KeepNameChars(name)[..|r|]
  {
    var kept := KeepNameChars(name);
    if |kept| > MAX_NAME_LENGTH then kept[..MAX_NAME_LENGTH] else kept
  }

  /** The provider `campaign_id`: "<name> - <id>" with a name, the raw id
      without one, and none for a falsy id. */
  function CampaignTag(campaignId: Option<string>, campaignName: Option<string>): Option<string> {
    if !Truthy(campaignId) then None
    else if Truthy(campaignName) then Some(SanitizeName(campaignName.value) + SEPARATOR + campaignId.value)
    else campaignId
  }

  function HtmlPart(body: string): Option<string> {
    if IsHtml(body) then Some(body) else None
  }

  function TextPart(body: string): Option<string> {
    if !IsHtml(body) && body != [] then Some(body) else None
  }

  function MetadataPart(metadata: Option<map<string, string>>): Option<map<string, string>> {
    if metadata.Some? && metadata.value != map[] then metadata else None
  }

  /** The payload of the API sender. */
  function ApiPayload(to: string, from: string, subject: string, body: string, campaignId: Option<string>,
                      campaignName: Option<string>, metadata: Option<map<string, string>>): Transmission
  {
    Transmission(to, Content(from, subject, Some(REPLY_TO), HtmlPart(body), TextPart(body)), false,
                 CampaignTag(campaignId, campaignName), MetadataPart(metadata))
  }

  /** The payload of the runner's sender: no reply-to and no tag. */
  function RunnerPayload(to: string, from: string, subject: string, body: string,
                         metadata: Option<map<string, string>>): Transmission
  {
    Transmission(to, Content(from, subject, None, HtmlPart(body), TextPart(body)), false, None, MetadataPart(metadata))
  }

  /** A missing key sends nothing and answers false; otherwise the answer
      is whether the status is 2xx, and an exception answers false. */
  function Send(apiKey: string, payload: Transmission, response: ProviderResponse): (r: Attempt)
    ensures apiKey == [] ==> r.request.None? && !r.ok
    ensures apiKey != [] ==> r.request == Some(payload)
    ensures r.ok <==> apiKey != [] && response.HttpStatus? && 200 <= response.code < 300
  {
    if apiKey == [] then Attempt(None, false)
    else Attempt(Some(payload), response.HttpStatus? && 200 <= response.code < 300)
  }

  // ---------------------------------------------------------------------
  // What the payloads guarantee

  /** A body with `<` and `>` goes out as HTML, any other non-empty body as
      text, an empty body as neither: never both. Both senders fix the
      click tracking off; only the API sender sets the reply-to. */
  lemma PayloadShape(to: string, from: string, subject: string, body: string, campaignId: Option<string>,
                     campaignName: Option<string>, metadata: Option<map<string, string>>)
    ensures var p := ApiPayload(to, from, subject, body, campaignId, campaignName, metadata);
      var q := RunnerPayload(to, from, subject, body, metadata);
      && (p.content.html.Some? <==> IsHtml(body)) && (p.content.text.Some? <==> !IsHtml(body) && body != [])
      && (body != [] <==> p.content.html.Some? || p.content.text.Some?)
      && !(p.content.html.Some? && p.content.text.Some?)
      && (p.content.html.Some? ==> p.content.html.value == body)
      && (p.content.text.Some? ==> p.content.text.value == body)
      && q.content.html == p.content.html && q.content.text == p.content.text
      && p.content.replyTo == Some(REPLY_TO) && q.content.replyTo.None?
      && !p.clickTracking && !q.clickTracking && q.campaignTag.None?
      && (p.metadata.Some? <==> metadata.Some? && metadata.value != map[])
      && q.metadata == p.metadata
  {
  }

  /** No " - " starts in the last two characters of `a` when `a` does not
      end in " -". */
  lemma NoSeparatorAcrossTheJoin(a: string, b: string)
    requires !EndsWith(a, " -")
    ensures var s := a + SEPARATOR + b;
      !OccursAt(s, SEPARATOR, |a| - 1) && !OccursAt(s, SEPARATOR, |a| - 2)
  {
    var s := a + SEPARATOR + b;
    assert s[|a|..|a| + 2] == " -";
    if |a| >= 2 {
      assert s[|a| - 2..|a|] == a[|a| - 2..] != " -";
      assert s[|a| - 2..|a| + 1][..2] == s[|a| - 2..|a|];
    }
  }

  /** The first " - " of the joined string is the joining one or ends
      inside `a`. */
  lemma FirstSeparator(a: string, b: string)
    requires !EndsWith(a, " -")
    ensures var i := FindFrom(a + SEPARATOR + b, SEPARATOR, 0);
      i != -1 && (i == |a| || i + 3 <= |a|)
  {
    var s := a + SEPARATOR + b;
    assert OccursAt(s, SEPARATOR, |a|) by {
      assert s[|a|..|a| + 3] == SEPARATOR;
    }
    NoSeparatorAcrossTheJoin(a, b);
    FindFromBefore(s, SEPARATOR, 0, |a|);
  }

  /** Dropping a prefix of `a` from the joined string. */
  lemma DropFromJoin(a: string, b: string, j: nat)
    requires j <= |a|
    ensures (a + SEPARATOR + b)[j..] == a[j..] + SEPARATOR + b
  {
  }

  /** The last " - " segment of `a + " - " + b` is `b` when `b` holds no
      " - " and `a` does not end in " -". */
  lemma {:induction false} LastSegmentAfter(a: string, b: string)
    requires !EndsWith(a, " -") && !Contains(b, SEPARATOR)
    decreases |a|
    ensures Last(Split(a + SEPARATOR + b, SEPARATOR)) == b
  {
    var s := a + SEPARATOR + b;
    FirstSeparator(a, b);
    var i := FindFrom(s, SEPARATOR, 0);
    var rest := s[i + 3..];
    assert Split(s, SEPARATOR) == [s[..i]] + Split(rest, SEPARATOR);
    if i == |a| {
      assert rest == b;
      assert FindFrom(b, SEPARATOR, 0) == -1;
    } else {
      var a' := a[i + 3..];
      DropFromJoin(a, b, i + 3);
      assert !EndsWith(a', " -") by {
        if |a'| >= 2 {
          assert a'[|a'| - 2..] == a[|a| - 2..];
        }
      }
      LastSegmentAfter(a', b);
    }
  }

  /** The webhook recovers the campaign id from the tag the API sender
      builds, whenever the id is non-empty and holds no " - " and the
      sanitised name does not end in " -". */
  lemma TagRoundTrip(campaignId: string, campaignName: Option<string>)
    requires campaignId != [] && !Contains(campaignId, SEPARATOR)
    requires Truthy(campaignName) ==> !EndsWith(SanitizeName(campaignName.value), " -")
    ensures ParseCampaignId(CampaignTag(Some(campaignId), campaignName)) == Some(campaignId)
  {
    if Truthy(campaignName) {
      var tag := SanitizeName(campaignName.value) + SEPARATOR + campaignId;
      LastSegmentAfter(SanitizeName(campaignName.value), campaignId);
      assert OccursAt(tag, SEPARATOR, |SanitizeName(campaignName.value)|) by {
        assert tag[|SanitizeName(campaignName.value)|..|SanitizeName(campaignName.value)| + 3] == SEPARATOR;
      }
      ContainsIff(tag, SEPARATOR);
    }
  }

  /** The guard on the name is needed: a name ending in " -" loses the
      recovery. */
  lemma TagRoundTripNeedsTheGuard()
    ensures ParseCampaignId(CampaignTag(Some("c1"), Some("a -"))) == Some("- c1")
  {
    var tag := "a -" + SEPARATOR + "c1";
    assert SanitizeName("a -") == "a -";
    assert tag == "a - - c1";
    assert tag[0..3] == "a -" != SEPARATOR;
    assert tag[1..4] == SEPARATOR;
    assert FindFrom(tag, SEPARATOR, 0) == 1;
    var rest := tag[4..];
    assert rest == "- c1";
    assert rest[0..3] == "- c" != SEPARATOR;
    assert rest[1..4] == " c1" != SEPARATOR;
    assert FindFrom(rest, SEPARATOR, 0) == -1;
    assert Split(rest, SEPARATOR) == [rest];
    assert tag[..1] == "a";
    assert Split(tag, SEPARATOR) == ["a", "- c1"];
    assert OccursAt(tag, SEPARATOR, 1);
    ContainsIff(tag, SEPARATOR);
  }
}
