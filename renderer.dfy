/** The two email renderers, services/campaign-runner/email_renderer.py
    and services/api/shared/email_renderer.py. They share their rules: the
    body of each section (static text with `{{variables}}` filled in, or
    generated content with a visible fallback), one paragraph per blank-line
    separated block, a text line or an HTML link per button, and an
    unsubscribe link signed with a 16-hex-digit token. They differ in the
    base of the unsubscribe link (a fixed URL in the runner, the configured
    frontend URL in the API) and in the line separator of the text body
    ("\n" in the runner, "\r\n" in the API).

    The HMAC is a function given as a parameter (`hmacHex` maps a message
    to its hex digest). The HTML page is modelled as its four variable
    parts; the constant boilerplate around them is not part of the model. */
module Renderer {
  import opened Wrappers
  import opened Text
  import opened Variables

  // ---------------------------------------------------------------------
  // The unsubscribe link

  const RUNNER_BASE_URL: string := "https://oz-dev-dash-ten.vercel.app"
  const UNSUBSCRIBE_PATH: string := "/api/unsubscribe?"
  const TOKEN_LENGTH: nat := 16

  /** Characters `quote_plus` leaves as they are. */
  predicate Unreserved(c: char) {
    IsAsciiLetter(c) || IsAsciiDigit(c) || c == '_' || c == '.' || c == '-' || c == '~'
  }

  const HEX_UPPER: string := "0123456789ABCDEF"

  /** `%XX` for each byte, with upper-case hex digits. */
  function PercentBytes(bytes: seq<int>): (r: string)
    requires forall k :: 0 <= k < |bytes| ==> 0 <= bytes[k] < 256
    ensures |r| == 3 * |bytes|
    ensures forall c :: c in r ==> c == '%' || Unreserved(c)
  {
    if bytes == [] then []
    else ['%', HEX_UPPER[bytes[0] / 16], HEX_UPPER[bytes[0] % 16]] + PercentBytes(bytes[1..])
  }

  /** One character as `quote_plus` writes it. */
  function QuoteChar(c: char): (r: string)
    ensures r != []
    ensures forall x :: x in r ==> Unreserved(x) || x == '+' || x == '%'
  {
    if Unreserved(c) then [c] else if c == ' ' then "+" else PercentBytes(Utf8Char(c))
  }

  /** `urllib.parse.quote_plus`. */
  function QuotePlus(s: string): (r: string)
    ensures forall x :: x in r ==> Unreserved(x) || x == '+' || x == '%'
    ensures |r| >= |s|
  {
    if s == [] then [] else QuoteChar(s[0]) + QuotePlus(s[1..])
  }

  /** The first 16 characters of the hex digest of the lower-cased email. */
  function Token(email: string, hmacHex: string -> string): (r: string)
    ensures |r| <= TOKEN_LENGTH
  {
    var digest := hmacHex(Lower(email));
    if |digest| <= TOKEN_LENGTH then digest else digest[..TOKEN_LENGTH]
  }

  /** generate_unsubscribe_url: `urlencode({'email': …, 'token': …})`
      after the base and the path. */
  function UnsubscribeUrl(baseUrl: string, email: string, hmacHex: string -> string): string {
    baseUrl + UNSUBSCRIBE_PATH + "email=" + QuotePlus(email) + "&token=" + QuotePlus(Token(email, hmacHex))
  }

  /** Splitting at the one `&` between two parts that hold none. */
  lemma SplitAtOnlyAmp(a: string, b: string)
    requires '&' !in a && '&' !in b
    ensures Split(a + "&" + b, "&") == [a, b]
  {
    var s := a + "&" + b;
    assert s[|a|] == '&';
    assert forall k :: 0 <= k < |a| ==> s[k] == a[k];
    FindCharFirst(s, '&', 0, |a|);
    assert s[..|a|] == a && s[|a| + 1..] == b;
    FindCharNone(b, '&', 0);
  }

  /** A character absent from both parts is absent from their sum. */
  lemma AbsentFromConcat(a: string, b: string, c: char)
    requires c !in a && c !in b
    ensures c !in a + b
  {
  }

  /** The query of two fields that hold no `&` splits back into them. */
  lemma QueryFields(head: string, qe: string, qt: string)
    requires '&' !in qe && '&' !in qt
    ensures var url := head + "email=" + qe + "&token=" + qt;
      && StartsWith(url, head)
      && Split(url[|head|..], "&") == ["email=" + qe, "token=" + qt]
  {
    var e := "email=" + qe;
    var t := "token=" + qt;
    AbsentFromConcat("email=", qe, '&');
    AbsentFromConcat("token=", qt, '&');
    SplitAtOnlyAmp(e, t);
    var url := head + "email=" + qe + "&token=" + qt;
    assert url == head + (e + "&" + t);
    assert url[..|head|] == head && url[|head|..] == e + "&" + t;
  }

  /** The link is the base, the path and a query of exactly two fields:
      the email as given and the token, which depends on the email only
      through its lower-case form and holds at most 16 characters. */
  lemma UnsubscribeUrlShape(baseUrl: string, email: string, hmacHex: string -> string)
    ensures var url := UnsubscribeUrl(baseUrl, email, hmacHex);
      && StartsWith(url, baseUrl + UNSUBSCRIBE_PATH)
      && Split(url[|baseUrl + UNSUBSCRIBE_PATH|..], "&")
         == ["email=" + QuotePlus(email), "token=" + QuotePlus(Token(email, hmacHex))]
    ensures |Token(email, hmacHex)| <= TOKEN_LENGTH
    ensures forall other :: Lower(other) == Lower(email) ==> Token(other, hmacHex) == Token(email, hmacHex)
  {
    QueryFields(baseUrl + UNSUBSCRIBE_PATH, QuotePlus(email), QuotePlus(Token(email, hmacHex)));
  }

  // ---------------------------------------------------------------------
  // Sections

  /** A section definition; a missing key is None and takes the default
      the renderers give it. */
  datatype Section = Section(
    kind: Option<string>,
    mode: Option<string>,
    id: Option<string>,
    name: Option<string>,
    content: Option<string>,
    buttonUrl: Option<string>)

  predicate IsButton(s: Section) { s.kind.GetOr("text") == "button" }
  predicate IsPersonalized(s: Section) { s.mode.GetOr("static") == "personalized" }

  /** The generated text for the section's id, if there is one. */
  function GeneratedFor(s: Section, generated: Option<map<string, string>>): Option<string> {
    if generated.Some? && s.id.GetOr("") in generated.value then Some(generated.value[s.id.GetOr("")]) else None
  }

  /** A personalised section's text, or the visible fallback. */
  function PersonalizedText(s: Section, generated: Option<map<string, string>>, fallback: string): string {
    var g := GeneratedFor(s, generated);
    if g.Some? then g.value else "[" + s.name.GetOr("") + " - " + fallback + "]"
  }

  /** The label of a button section. */
  function ButtonText(s: Section, data: map<string, string>, generated: Option<map<string, string>>): string {
    if IsPersonalized(s) then PersonalizedText(s, generated, "AI Generated")
    else ReplaceVariables(s.content.GetOr(""), Some(AsValues(data)))
  }

  /** The text of a text section. */
  function SectionText(s: Section, data: map<string, string>, generated: Option<map<string, string>>): string {
    if IsPersonalized(s) then PersonalizedText(s, generated, "Missing Content")
    else ReplaceVariables(s.content.GetOr(""), Some(AsValues(data)))
  }

  function Paragraphs(s: Section, data: map<string, string>, generated: Option<map<string, string>>): seq<string> {
    Split(SectionText(s, data, generated), "\n\n")
  }

  /** Personalised sections show their generated text, or a fallback that
      names the section; static sections have their variables filled in. */
  lemma SectionTextChoice(s: Section, data: map<string, string>, generated: Option<map<string, string>>)
    ensures IsPersonalized(s) && generated.Some? && s.id.GetOr("") in generated.value ==>
      SectionText(s, data, generated) == generated.value[s.id.GetOr("")]
      && ButtonText(s, data, generated) == generated.value[s.id.GetOr("")]
    ensures IsPersonalized(s) && !(generated.Some? && s.id.GetOr("") in generated.value) ==>
      SectionText(s, data, generated) == "[" + s.name.GetOr("") + " - Missing Content]"
      && ButtonText(s, data, generated) == "[" + s.name.GetOr("") + " - AI Generated]"
    ensures !IsPersonalized(s) ==>
      SectionText(s, data, generated) == ReplaceVariables(s.content.GetOr(""), Some(AsValues(data)))
      && ButtonText(s, data, generated) == SectionText(s, data, generated)
  {
  }

  // ---------------------------------------------------------------------
  // Tags in the text body

  /** Where the tag opened at the head of `s` closes: the first `>` after
      at least one other character (`<[^>]+>`), if any. */
  function TagEnd(s: string): (r: Option<nat>)
    ensures r.Some? ==> 2 <= r.value < |s| && s[0] == '<' && s[r.value] == '>'
    ensures r.Some? ==> forall k :: 1 <= k < r.value ==> s[k] != '>'
  {
    if s == [] || s[0] != '<' then None
    else
      var i := FindFrom(s, ">", 1);
      if i >= 2 then
        assert s[i..i + 1] == ">";
        assert forall k :: 1 <= k < i ==> s[k] != '>' by {
          forall k | 1 <= k < i ensures s[k] != '>' {
            assert !OccursAt(s, ">", k);
            assert s[k..k + 1] == [s[k]];
          }
        }
        Some(i)
      else None
  }

  /** `re.sub(r'<[^>]+>', '', p)`: every tag removed in one left-to-right
      pass. */
  function StripTags(s: string): (r: string)
    decreases |s|
    ensures |r| <= |s|
    ensures forall c :: c in r ==> c in s
  {
    if s == [] then []
    else
      var e := TagEnd(s);
      if e.Some? then
        var rest := StripTags(s[e.value + 1..]);
        assert forall c :: c in s[e.value + 1..] ==> c in s;
        rest
      else
        var rest := StripTags(s[1..]);
        assert forall c :: c in s[1..] ==> c in s;
        [s[0]] + rest
  }

  /** Text without `<` has no tag and is kept as it is. */
  lemma {:induction false} StripTagsNoTag(s: string)
    requires '<' !in s
    decreases |s|
    ensures StripTags(s) == s
  {
    if s != [] {
      assert '<' !in s[1..] by {
        assert forall k :: 0 <= k < |s[1..]| ==> s[1..][k] == s[k + 1];
      }
      StripTagsNoTag(s[1..]);
    }
  }

  /** A tag at the head goes whole, whatever it holds. */
  lemma StripTagsDropsTag(inner: string, rest: string)
    requires inner != [] && '>' !in inner
    ensures StripTags("<" + inner + ">" + rest) == StripTags(rest)
  {
    var s := "<" + inner + ">" + rest;
    var i := |inner| + 1;
    assert s[i] == '>';
    assert forall k :: 1 <= k < i ==> s[k] == inner[k - 1];
    FindCharFirst(s, '>', 1, i);
    assert s[i + 1..] == rest;
  }

  /** A `<` that no later `>` closes, or one closed at once (`<>`), is
      ordinary text. */
  lemma StripTagsKeepsOpen(rest: string)
    requires rest == [] || rest[0] == '>' || '>' !in rest
    ensures StripTags("<" + rest) == "<" + StripTags(rest)
  {
    var s := "<" + rest;
    assert s[1..] == rest;
    if rest != [] && rest[0] == '>' {
      assert s[1] == '>';
      FindCharFirst(s, '>', 1, 1);
    } else {
      assert forall k :: 1 <= k < |s| ==> s[k] == rest[k - 1];
      FindCharNone(s, '>', 1);
    }
  }

  // ---------------------------------------------------------------------
  // The text body

  /** The text line of a button: its label, an arrow and its URL, or
      `https://` when the URL is missing or empty. */
  function ButtonLine(s: Section, data: map<string, string>, generated: Option<map<string, string>>): string {
    ButtonText(s, data, generated) + " -> " + (if Truthy(s.buttonUrl) then s.buttonUrl.value else "https://")
  }

  /** Each paragraph with its tags removed. */
  function StripAll(ps: seq<string>): (r: seq<string>)
    ensures |r| == |ps|
    ensures forall k :: 0 <= k < |ps| ==> r[k] == StripTags(ps[k])
  {
    if ps == [] then [] else StripAll(ps[..|ps| - 1]) + [StripTags(ps[|ps| - 1])]
  }

  /** The lines one section contributes. */
  function SectionLines(s: Section, data: map<string, string>, generated: Option<map<string, string>>): seq<string> {
    if IsButton(s) then [ButtonLine(s, data, generated)]
    else StripAll(Paragraphs(s, data, generated)) + [""]
  }

  function AllSectionLines(sections: seq<Section>, data: map<string, string>, generated: Option<map<string, string>>): seq<string> {
    if sections == [] then []
    else AllSectionLines(sections[..|sections| - 1], data, generated) + SectionLines(sections[|sections| - 1], data, generated)
  }

  function UnsubscribeLine(url: string): string {
    "To unsubscribe, visit: " + url
  }

  function TextLines(sections: seq<Section>, data: map<string, string>, generated: Option<map<string, string>>,
                     url: string): seq<string>
  {
    AllSectionLines(sections, data, generated) + ["", "----", UnsubscribeLine(url)]
  }

  /** The list without its trailing empty lines. */
  function DropTrailingBlanks(lines: seq<string>): seq<string> {
    if lines != [] && lines[|lines| - 1] == "" then DropTrailingBlanks(lines[..|lines| - 1]) else lines
  }

  /** The recipient's `Email`, or the empty string. */
  function EmailOf(data: map<string, string>): string {
    if "Email" in data then data["Email"] else ""
  }

  /** The lines of one section, paragraph by paragraph. */
  method SectionTextLines(s: Section, data: map<string, string>, generated: Option<map<string, string>>)
    returns (lines: seq<string>)
    ensures lines == SectionLines(s, data, generated)
  {
    if IsButton(s) {
      return [ButtonLine(s, data, generated)];
    }
    var paragraphs := Paragraphs(s, data, generated);
    lines := [];
    var j := 0;
    while j < |paragraphs|
      invariant 0 <= j <= |paragraphs|
      invariant lines == StripAll(paragraphs[..j])
    {
      assert paragraphs[..j + 1][..j] == paragraphs[..j];
      lines := lines + [StripTags(paragraphs[j])];
      j := j + 1;
    }
    assert paragraphs[..j] == paragraphs;
    lines := lines + [""];
  }

  /** The loop that pops empty lines off the end. */
  method PopTrailingBlanks(full: seq<string>) returns (lines: seq<string>)
    ensures lines == DropTrailingBlanks(full)
  {
    lines := full;
    while lines != [] && lines[|lines| - 1] == ""
      invariant DropTrailingBlanks(lines) == DropTrailingBlanks(full)
      decreases |lines|
    {
      lines := lines[..|lines| - 1];
    }
  }

  /** generate_email_text, with the base of the unsubscribe link and the
      line separator as parameters. */
  method GenerateEmailText(sections: seq<Section>, data: map<string, string>, generated: Option<map<string, string>>,
                           baseUrl: string, hmacHex: string -> string, newline: string)
    returns (text: string)
    ensures text == Join(TextLines(sections, data, generated, UnsubscribeUrl(baseUrl, EmailOf(data), hmacHex)), newline)
  {
    var url := UnsubscribeUrl(baseUrl, EmailOf(data), hmacHex);
    var body: seq<string> := [];
    var i := 0;
    while i < |sections|
      invariant 0 <= i <= |sections|
      invariant body == AllSectionLines(sections[..i], data, generated)
    {
      assert sections[..i + 1][..i] == sections[..i];
      var more := SectionTextLines(sections[i], data, generated);
      body := body + more;
      i := i + 1;
    }
    assert sections[..i] == sections;
    var full := body + ["", "----", UnsubscribeLine(url)];
    var lines := PopTrailingBlanks(full);
    NoTrailingBlank(full);
    text := Join(lines, newline);
  }

  lemma NoTrailingBlank(lines: seq<string>)
    requires lines != [] && lines[|lines| - 1] != ""
    ensures DropTrailingBlanks(lines) == lines
  {
  }

  /** Joining a list with one more line at the end. */
  lemma {:induction false} JoinSnoc(lines: seq<string>, last: string, sep: string)
    requires lines != []
    decreases |lines|
    ensures Join(lines + [last], sep) == Join(lines, sep) + sep + last
  {
    if |lines| > 1 {
      JoinSnoc(lines[1..], last, sep);
      assert (lines + [last])[1..] == lines[1..] + [last];
    }
  }

  lemma EndsWithSum(a: string, b: string)
    ensures EndsWith(a + b, b)
  {
    assert (a + b)[|a|..] == b;
  }

  /** The text body ends with a blank line, the `----` rule and the
      unsubscribe line, so popping trailing empty lines leaves it as it is. */
  lemma TextEnding(sections: seq<Section>, data: map<string, string>, generated: Option<map<string, string>>,
                   url: string)
    ensures var lines := TextLines(sections, data, generated, url);
      && |lines| >= 3
      && lines[|lines| - 1] == UnsubscribeLine(url) && lines[|lines| - 2] == "----" && lines[|lines| - 3] == ""
      && DropTrailingBlanks(lines) == lines
  {
  }

  /** Joining a list that ends with `a, b` ends with the separator, `a`,
      the separator and `b`. */
  lemma JoinEndsWith(init: seq<string>, a: string, b: string, sep: string)
    requires init != []
    ensures EndsWith(Join(init + [a, b], sep), sep + a + sep + b)
  {
    JoinSnoc(init, a, sep);
    assert init + [a, b] == (init + [a]) + [b];
    JoinSnoc(init + [a], b, sep);
    var j := Join(init, sep);
    assert Join(init + [a, b], sep) == j + (sep + a + sep + b);
    EndsWithSum(j, sep + a + sep + b);
  }

  /** The text itself ends with the separator, `----`, the separator and
      the unsubscribe line. */
  lemma TextEndsWithFooter(sections: seq<Section>, data: map<string, string>, generated: Option<map<string, string>>,
                           url: string, newline: string)
    ensures EndsWith(Join(TextLines(sections, data, generated, url), newline),
                     newline + "----" + newline + UnsubscribeLine(url))
  {
    var init := AllSectionLines(sections, data, generated) + [""];
    assert TextLines(sections, data, generated, url) == init + ["----", UnsubscribeLine(url)];
    JoinEndsWith(init, "----", UnsubscribeLine(url), newline);
  }

  /** A text section gives one line per paragraph, with its tags removed,
      and then a blank line; a button gives exactly one line. */
  lemma SectionLinesShape(s: Section, data: map<string, string>, generated: Option<map<string, string>>)
    ensures IsButton(s) ==> |SectionLines(s, data, generated)| == 1
    ensures !IsButton(s) ==>
      var ps := Paragraphs(s, data, generated);
      var ls := SectionLines(s, data, generated);
      && |ls| == |ps| + 1 && ls[|ps|] == ""
      && (forall k :: 0 <= k < |ps| ==> ls[k] == StripTags(ps[k]))
  {
  }

  /** The text bodies of the two services. */
  method RunnerEmailText(sections: seq<Section>, data: map<string, string>, generated: Option<map<string, string>>,
                         hmacHex: string -> string)
    returns (text: string)
    ensures text == Join(TextLines(sections, data, generated, UnsubscribeUrl(RUNNER_BASE_URL, EmailOf(data), hmacHex)), "\n")
  {
    text := GenerateEmailText(sections, data, generated, RUNNER_BASE_URL, hmacHex, "\n");
  }

  method ApiEmailText(sections: seq<Section>, data: map<string, string>, generated: Option<map<string, string>>,
                      frontendUrl: string, hmacHex: string -> string)
    returns (text: string)
    ensures text == Join(TextLines(sections, data, generated, UnsubscribeUrl(frontendUrl, EmailOf(data), hmacHex)), "\r\n")
  {
    text := GenerateEmailText(sections, data, generated, frontendUrl, hmacHex, "\r\n");
  }

  // ---------------------------------------------------------------------
  // The HTML body

  /** The markup is written in short pieces, so that the verifier can read
      the characters at their heads. */
  const P_STYLE: string := "<p style=\""
  const P_OPEN: string := P_STYLE + "margin: 0 0 16px 0; " + "font-size: 15px; color: #4b5563; line-height: 1.6;\">"
  const P_CLOSE: string := "</p>"
  const NO_CONTENT: string := P_STYLE + "color: #9ca3af; " + "font-style: italic;\">No content available</p>"
  const BUTTON_OPEN: string :=
    "\n        <div style=\"" + "margin: 24px 0; text-align: center;\">" + "\n          <a href=\""
  const BUTTON_STYLE: string :=
    "\" style=\"\n            background-color: #1e88e5;\n            color: #ffffff;\n            padding: 14px 32px;\n"
    + "            border-radius: 8px;\n            text-decoration: none;\n            display: block;\n"
    + "            width: 100%;\n            box-sizing: border-box;\n            font-weight: 600;\n"
    + "            font-size: 16px;\n            text-align: center;\n          \">"
  const BUTTON_CLOSE: string := "</a>\n        </div>\n            "

  /** One paragraph: its line breaks become `<br>`. The `<strong>`
      rewrite of the source puts back what it matched, so it is left out. */
  function ParagraphHtml(p: string): string {
    P_OPEN + Replace(p, "\n", "<br>") + P_CLOSE
  }

  function ParagraphsHtml(ps: seq<string>): string {
    if ps == [] then [] else ParagraphsHtml(ps[..|ps| - 1]) + ParagraphHtml(ps[|ps| - 1])
  }

  function ButtonHtml(href: string, text: string): string {
    BUTTON_OPEN + href + BUTTON_STYLE + text + BUTTON_CLOSE
  }

  /** The HTML of one section; a button's link defaults to `#`. */
  function SectionHtml(s: Section, data: map<string, string>, generated: Option<map<string, string>>): string {
    if IsButton(s) then ButtonHtml(s.buttonUrl.GetOr("#"), ButtonText(s, data, generated))
    else ParagraphsHtml(Paragraphs(s, data, generated))
  }

  function SectionsHtml(sections: seq<Section>, data: map<string, string>, generated: Option<map<string, string>>): string {
    if sections == [] then []
    else SectionsHtml(sections[..|sections| - 1], data, generated) + SectionHtml(sections[|sections| - 1], data, generated)
  }

  /** The variable parts of the page: the title, the heading under the
      logo, the main content and the unsubscribe link of the footer. */
  datatype HtmlPage = HtmlPage(title: string, heading: string, content: string, unsubscribeUrl: string)

  function PageOf(subject: string, sectionsHtml: string, data: map<string, string>, url: string): HtmlPage {
    var title := ReplaceVariables(subject, Some(AsValues(data)));
    HtmlPage(title, if title != [] then title else "Email Preview",
             if sectionsHtml != [] then sectionsHtml else NO_CONTENT, url)
  }

  /** The HTML of one section, paragraph by paragraph. */
  method SectionHtmlOf(s: Section, data: map<string, string>, generated: Option<map<string, string>>)
    returns (html: string)
    ensures html == SectionHtml(s, data, generated)
  {
    if IsButton(s) {
      return ButtonHtml(s.buttonUrl.GetOr("#"), ButtonText(s, data, generated));
    }
    var paragraphs := Paragraphs(s, data, generated);
    html := "";
    var j := 0;
    while j < |paragraphs|
      invariant 0 <= j <= |paragraphs|
      invariant html == ParagraphsHtml(paragraphs[..j])
    {
      assert paragraphs[..j + 1][..j] == paragraphs[..j];
      html := html + ParagraphHtml(paragraphs[j]);
      j := j + 1;
    }
    assert paragraphs[..j] == paragraphs;
  }

  /** generate_email_html. */
  method GenerateEmailHtml(sections: seq<Section>, subject: string, data: map<string, string>,
                           generated: Option<map<string, string>>, baseUrl: string, hmacHex: string -> string)
    returns (page: HtmlPage)
    ensures page == PageOf(subject, SectionsHtml(sections, data, generated), data,
                           UnsubscribeUrl(baseUrl, EmailOf(data), hmacHex))
  {
    var url := UnsubscribeUrl(baseUrl, EmailOf(data), hmacHex);
    var parts := "";
    var i := 0;
    while i < |sections|
      invariant 0 <= i <= |sections|
      invariant parts == SectionsHtml(sections[..i], data, generated)
    {
      assert sections[..i + 1][..i] == sections[..i];
      var html := SectionHtmlOf(sections[i], data, generated);
      parts := parts + html;
      i := i + 1;
    }
    assert sections[..i] == sections;
    page := PageOf(subject, parts, data, url);
  }

  method RunnerEmailHtml(sections: seq<Section>, subject: string, data: map<string, string>,
                         generated: Option<map<string, string>>, hmacHex: string -> string)
    returns (page: HtmlPage)
    ensures page == PageOf(subject, SectionsHtml(sections, data, generated), data,
                           UnsubscribeUrl(RUNNER_BASE_URL, EmailOf(data), hmacHex))
  {
    page := GenerateEmailHtml(sections, subject, data, generated, RUNNER_BASE_URL, hmacHex);
  }

  method ApiEmailHtml(sections: seq<Section>, subject: string, data: map<string, string>,
                      generated: Option<map<string, string>>, frontendUrl: string, hmacHex: string -> string)
    returns (page: HtmlPage)
    ensures page == PageOf(subject, SectionsHtml(sections, data, generated), data,
                           UnsubscribeUrl(frontendUrl, EmailOf(data), hmacHex))
  {
    page := GenerateEmailHtml(sections, subject, data, generated, frontendUrl, hmacHex);
  }

  /** How the HTML of a section begins: with the `<p style="m…` of a
      paragraph or the newline before a button's `<div>`. The placeholder
      for no content begins `<p style="c…`. */
  predicate OpensSection(h: string) {
    |h| > 10 && ((h[0] == '<' && h[10] == 'm') || h[0] == '\n')
  }

  lemma OpenersDiffer()
    ensures OpensSection(P_OPEN) && P_OPEN[0] == '<'
    ensures OpensSection(BUTTON_OPEN)
    ensures !OpensSection(NO_CONTENT)
  {
  }

  /** A string that opens a section still does with more after it. */
  lemma OpensSectionExtends(h: string, more: string)
    requires OpensSection(h)
    ensures OpensSection(h + more)
  {
  }

  lemma {:induction false} ParagraphsHtmlOpens(ps: seq<string>)
    requires ps != []
    decreases |ps|
    ensures OpensSection(ParagraphsHtml(ps))
  {
    var last := ParagraphHtml(ps[|ps| - 1]);
    if |ps| > 1 {
      ParagraphsHtmlOpens(ps[..|ps| - 1]);
      OpensSectionExtends(ParagraphsHtml(ps[..|ps| - 1]), last);
    } else {
      assert ps[..0] == [];
      OpenersDiffer();
      OpensSectionExtends(P_OPEN, Replace(ps[0], "\n", "<br>") + P_CLOSE);
      assert last == P_OPEN + (Replace(ps[0], "\n", "<br>") + P_CLOSE);
    }
  }

  lemma SectionHtmlOpens(s: Section, data: map<string, string>, generated: Option<map<string, string>>)
    ensures OpensSection(SectionHtml(s, data, generated))
  {
    if IsButton(s) {
      OpenersDiffer();
      var href := s.buttonUrl.GetOr("#");
      var text := ButtonText(s, data, generated);
      OpensSectionExtends(BUTTON_OPEN, href + BUTTON_STYLE + text + BUTTON_CLOSE);
      assert ButtonHtml(href, text) == BUTTON_OPEN + (href + BUTTON_STYLE + text + BUTTON_CLOSE);
    } else {
      ParagraphsHtmlOpens(Paragraphs(s, data, generated));
    }
  }

  lemma {:induction false} SectionsHtmlOpens(sections: seq<Section>, data: map<string, string>,
                                             generated: Option<map<string, string>>)
    requires sections != []
    decreases |sections|
    ensures OpensSection(SectionsHtml(sections, data, generated))
  {
    var init := sections[..|sections| - 1];
    var last := SectionHtml(sections[|sections| - 1], data, generated);
    if |sections| > 1 {
      SectionsHtmlOpens(init, data, generated);
      OpensSectionExtends(SectionsHtml(init, data, generated), last);
    } else {
      assert init == [];
      SectionHtmlOpens(sections[0], data, generated);
    }
  }

  /** The "No content available" placeholder appears exactly when there
      are no sections: any section renders to at least one paragraph or a
      button. */
  lemma NoContentIff(sections: seq<Section>, subject: string, data: map<string, string>,
                     generated: Option<map<string, string>>, url: string)
    ensures var page := PageOf(subject, SectionsHtml(sections, data, generated), data, url);
      (page.content == NO_CONTENT <==> sections == [])
      && (sections != [] ==> page.content == SectionsHtml(sections, data, generated))
  {
    OpenersDiffer();
    if sections != [] {
      SectionsHtmlOpens(sections, data, generated);
    }
  }

  /** `s` holds the character `c` exactly when it holds the one-character
      string. */
  lemma ContainsChar(s: string, c: char)
    ensures Contains(s, [c]) <==> c in s
  {
    ContainsIff(s, [c]);
    if c in s {
      var k :| 0 <= k < |s| && s[k] == c;
      assert OccursAt(s, [c], k);
    }
    if Contains(s, [c]) {
      var k :| OccursAt(s, [c], k);
      assert s[k] == s[k..k + 1][0];
    }
  }

  lemma {:induction false} JoinAvoids(parts: seq<string>, sep: string, c: char)
    requires forall k :: 0 <= k < |parts| ==> c !in parts[k]
    requires c !in sep
    decreases |parts|
    ensures c !in Join(parts, sep)
  {
    if |parts| > 1 {
      JoinAvoids(parts[1..], sep, c);
    }
  }

  /** A paragraph's line breaks all become `<br>`: the paragraph HTML
      holds no newline of the paragraph and wraps the paragraph with the
      line breaks replaced. */
  lemma ParagraphHasNoNewline(p: string)
    ensures '\n' !in Replace(p, "\n", "<br>")
    ensures ParagraphHtml(p) == P_OPEN + Join(Split(p, "\n"), "<br>") + P_CLOSE
  {
    ReplaceIsSplitJoin(p, "\n", "<br>");
    SplitPartsFree(p, "\n");
    var parts := Split(p, "\n");
    forall k | 0 <= k < |parts| ensures '\n' !in parts[k] {
      ContainsChar(parts[k], '\n');
    }
    JoinAvoids(parts, "<br>", '\n');
  }

  /** The heading shows the subject with its variables filled in, or
      "Email Preview" when that is empty; the page carries the link of
      the recipient's email. */
  lemma PageHeading(subject: string, sectionsHtml: string, data: map<string, string>, url: string)
    ensures var page := PageOf(subject, sectionsHtml, data, url);
      && page.title == ReplaceVariables(subject, Some(AsValues(data)))
      && (page.title != [] ==> page.heading == page.title)
      && (page.title == [] ==> page.heading == "Email Preview")
      && page.unsubscribeUrl == url
  {
  }
}
