/** Prompt assembly and generation, services/campaign-runner/prompts.py and
    services/api/shared/prompts.py. Both build the same prompt: an outline
    of the email's sections in `order`, the list of sections to generate,
    and the recipient's fields without any email address. The runner asks
    one model once; the API asks a first model and falls back to a second
    one when the first is rate limited.

    The model call is a function given as a parameter; what it returns
    (already parsed and validated, or the text of the error it raised) is
    its whole effect. */
module Prompts {
  import opened Wrappers
  import opened Text
  import opened Variables

  /** A section definition as the prompt reads it; a missing key is None
      and takes the default the prompt gives it. */
  datatype PromptSection = PromptSection(
    kind: Option<string>,
    mode: Option<string>,
    id: Option<string>,
    name: Option<string>,
    content: Option<string>,
    buttonUrl: Option<string>,
    order: Option<int>,
    selectedFields: Option<seq<string>>)

  /** One generated section of the model's reply. */
  datatype GeneratedSection = GeneratedSection(sectionId: string, content: string)

  predicate IsPersonalized(s: PromptSection) { s.mode == Some("personalized") }

  // ---------------------------------------------------------------------
  // Stable ordering by `order`

  function OrderKey(secs: seq<PromptSection>, i: nat): int
    requires i < |secs|
  {
    secs[i].order.GetOr(0)
  }

  /** Section `i` comes before section `j` in the sorted outline: a smaller
      `order`, or the same `order` and an earlier position. */
  predicate Before(secs: seq<PromptSection>, i: nat, j: nat)
    requires i < |secs| && j < |secs|
  {
    OrderKey(secs, i) < OrderKey(secs, j) || (OrderKey(secs, i) == OrderKey(secs, j) && i < j)
  }

  predicate IndicesBelow(idx: seq<nat>, n: nat) {
    forall k :: 0 <= k < |idx| ==> idx[k] < n
  }

  predicate SortedIndices(secs: seq<PromptSection>, idx: seq<nat>)
    requires IndicesBelow(idx, |secs|)
  {
    forall i, j :: 0 <= i < j < |idx| ==> Before(secs, idx[i], idx[j])
  }

  /** Puts index `x` after every index whose section does not come after
      it. */
  function InsertIndex(secs: seq<PromptSection>, x: nat, idx: seq<nat>): (r: seq<nat>)
    requires x < |secs| && IndicesBelow(idx, |secs|)
    ensures |r| == |idx| + 1 && IndicesBelow(r, |secs|)
    ensures forall e :: e in r <==> e in idx || e == x
  {
    if idx == [] then [x]
    else if OrderKey(secs, x) < OrderKey(secs, idx[0]) then [x] + idx
    else [idx[0]] + InsertIndex(secs, x, idx[1..])
  }

  /** `sorted(sections, key=order)` as positions: an insertion sort of
      the first `n` positions. */
  function SortIndices(secs: seq<PromptSection>, n: nat): (r: seq<nat>)
    requires n <= |secs|
    ensures |r| == n && IndicesBelow(r, |secs|)
  {
    if n == 0 then [] else InsertIndex(secs, n - 1, SortIndices(secs, n - 1))
  }

  lemma {:induction false} InsertIndexSorted(secs: seq<PromptSection>, x: nat, idx: seq<nat>)
    requires x < |secs| && IndicesBelow(idx, |secs|)
    requires SortedIndices(secs, idx)
    requires forall k :: 0 <= k < |idx| ==> idx[k] < x
    decreases |idx|
    ensures SortedIndices(secs, InsertIndex(secs, x, idx))
  {
    var r := InsertIndex(secs, x, idx);
    if idx == [] {
    } else if OrderKey(secs, x) < OrderKey(secs, idx[0]) {
      forall j | 1 <= j < |r| ensures Before(secs, r[0], r[j]) {
        assert r[j] == idx[j - 1];
        if j > 1 {
          assert Before(secs, idx[0], idx[j - 1]);
        }
      }
      forall i, j | 1 <= i < j < |r| ensures Before(secs, r[i], r[j]) {
        assert r[i] == idx[i - 1] && r[j] == idx[j - 1];
      }
    } else {
      var tail := idx[1..];
      assert SortedIndices(secs, tail) by {
        forall i, j | 0 <= i < j < |tail| ensures Before(secs, tail[i], tail[j]) {
          assert tail[i] == idx[i + 1] && tail[j] == idx[j + 1];
        }
      }
      InsertIndexSorted(secs, x, tail);
      var rest := InsertIndex(secs, x, tail);
      assert r == [idx[0]] + rest;
      forall j | 0 <= j < |rest| ensures Before(secs, idx[0], rest[j]) {
        assert rest[j] in rest;
        if rest[j] != x {
          var m :| 0 <= m < |tail| && tail[m] == rest[j];
          assert Before(secs, idx[0], idx[m + 1]);
        }
      }
      forall i, j | 0 <= i < j < |r| ensures Before(secs, r[i], r[j]) {
        if i > 0 {
          assert r[i] == rest[i - 1] && r[j] == rest[j - 1];
        } else {
          assert r[j] == rest[j - 1];
        }
      }
    }
  }

  /** The outline order is a permutation of the sections, ordered by
      `order` and, among equal `order`s, by position: Python's sort is
      stable. Every position appears exactly once. */
  lemma {:induction false} SortIndicesSpec(secs: seq<PromptSection>, n: nat)
    requires n <= |secs|
    decreases n
    ensures var r := SortIndices(secs, n);
      && SortedIndices(secs, r)
      && (forall e: nat :: e in r <==> e < n)
  {
    if n > 0 {
      SortIndicesSpec(secs, n - 1);
      var prev := SortIndices(secs, n - 1);
      forall k | 0 <= k < |prev| ensures prev[k] < n - 1 {
        assert prev[k] in prev;
      }
      InsertIndexSorted(secs, n - 1, prev);
      assert SortIndices(secs, n) == InsertIndex(secs, n - 1, prev);
    }
  }

  /** A strictly ordered list of positions repeats none. */
  lemma SortedDistinct(secs: seq<PromptSection>, idx: seq<nat>)
    requires IndicesBelow(idx, |secs|) && SortedIndices(secs, idx)
    ensures forall i, j :: 0 <= i < j < |idx| ==> idx[i] != idx[j]
  {
    forall i, j | 0 <= i < j < |idx| ensures idx[i] != idx[j] {
      assert Before(secs, idx[i], idx[j]);
    }
  }

  function SortedSections(secs: seq<PromptSection>): (r: seq<PromptSection>)
    ensures |r| == |secs|
  {
    var idx := SortIndices(secs, |secs|);
    seq(|secs|, k requires 0 <= k < |secs| => secs[idx[k]])
  }

  // ---------------------------------------------------------------------
  // The outline of the email

  function FieldsToUse(s: PromptSection): string {
    var fields := s.selectedFields.GetOr([]);
    if fields != [] then Join(fields, ", ") else "any available"
  }

  /** The preview of a static section: line-break and paragraph tags
      turned into newlines, then cut to 150 characters and `...`. */
  function Preview(content: string): string {
    var plain := Replace(Replace(Replace(content, "<br>", "\n"), "<p>", ""), "</p>", "\n");
    if |plain| > 150 then plain[..150] + "..." else plain
  }

  /** The line of the outline for the section at position `number`
      (counted from 1). A personalised section is listed for generation
      whatever its type. */
  function OutlineLine(number: nat, s: PromptSection): string {
    IntToString(number) + ". " + OutlineEntry(s)
  }

  function OutlineEntry(s: PromptSection): string {
    var content := s.content.GetOr("");
    if s.mode.GetOr("static") == "personalized" then
      "[GENERATE - ID: \"" + (s.id.GetOr("") + "\"] \"" + s.name.GetOr("Section") + "\"\n"
      + "   Instructions: " + content + "\n"
      + "   Fields to use: " + FieldsToUse(s))
    else if s.kind.GetOr("text") == "button" then
      "[CTA BUTTON] \"" + (content + "\" -> " + s.buttonUrl.GetOr("booking link"))
    else
      "[STATIC] \"" + (s.name.GetOr("Section") + "\": \"" + Preview(content) + "\"")
  }

  function OutlineLines(sorted: seq<PromptSection>): (r: seq<string>)
    ensures |r| == |sorted|
  {
    seq(|sorted|, k requires 0 <= k < |sorted| => OutlineLine(k + 1, sorted[k]))
  }

  // ---------------------------------------------------------------------
  // The recipient's fields

  /** A key that names an email address in any letter case. */
  predicate MentionsEmail(key: string) { Contains(Lower(key), "email") }

  /** The recipient's fields without those that mention an email, in
      their order. */
  function RelevantFields(data: seq<(string, Value)>): (r: seq<(string, Value)>)
    ensures |r| <= |data|
    ensures forall e :: e in r <==> e in data && !MentionsEmail(e.0)
  {
    if data == [] then []
    else
      var rest := RelevantFields(data[..|data| - 1]);
      var last := data[|data| - 1];
      assert forall e :: e in data <==> e in data[..|data| - 1] || e == last;
      if MentionsEmail(last.0) then rest else rest + [last]
  }

  /** A field's value, or `(not provided)` when it is falsy. */
  function Shown(v: Value): string {
    if TruthyValue(v) then v.s else "(not provided)"
  }

  function FieldLine(field: (string, Value)): string {
    "  " + field.0 + ": " + Shown(field.1)
  }

  function FieldLines(fields: seq<(string, Value)>): (r: seq<string>)
    ensures |r| == |fields|
  {
    seq(|fields|, k requires 0 <= k < |fields| => FieldLine(fields[k]))
  }

  /** The list of sections to generate; a missing name or id prints as
      `None`. */
  function ToGenerateLine(s: PromptSection): string {
    "- \"" + s.name.GetOr("None") + "\" (ID: " + s.id.GetOr("None") + ")"
  }

  function ToGenerateLines(secs: seq<PromptSection>): (r: seq<string>)
    ensures |r| == |secs|
  {
    seq(|secs|, k requires 0 <= k < |secs| => ToGenerateLine(secs[k]))
  }

  const PROMPT_INTRO: string :=
    "You are generating personalized email content for a recipient.\n\nEMAIL STRUCTURE (for context):\n"
  const PROMPT_TO_GENERATE: string := "\n\n---\n\nSECTIONS TO GENERATE:\n"
  const PROMPT_RECIPIENT: string := "\n\n---\n\nRECIPIENT DATA:\n"
  const PROMPT_CLOSING: string :=
    "\n\n---\n\nGenerate the [GENERATE] sections for this recipient. Follow the instructions provided for each section.\n"
    + "Return content that flows naturally with the static sections around it.\n"
    + "Keep each section concise (1-3 sentences)."

  /** The prompt for one recipient. */
  function PromptText(all: seq<PromptSection>, personalized: seq<PromptSection>, data: seq<(string, Value)>): string {
    PROMPT_INTRO + Join(OutlineLines(SortedSections(all)), "\n\n")
    + PROMPT_TO_GENERATE + Join(ToGenerateLines(personalized), "\n")
    + PROMPT_RECIPIENT + Join(FieldLines(RelevantFields(data)), "\n")
    + PROMPT_CLOSING
  }

  lemma OutlineLinesSnoc(sorted: seq<PromptSection>, i: nat)
    requires i < |sorted|
    ensures OutlineLines(sorted[..i + 1]) == OutlineLines(sorted[..i]) + [OutlineLine(i + 1, sorted[i])]
  {
  }

  lemma FieldLinesSnoc(fields: seq<(string, Value)>, j: nat)
    requires j < |fields|
    ensures FieldLines(fields[..j + 1]) == FieldLines(fields[..j]) + [FieldLine(fields[j])]
  {
  }

  /** build_prompt: the outline and the field lines are built line by
      line. */
  method BuildPrompt(all: seq<PromptSection>, personalized: seq<PromptSection>, data: seq<(string, Value)>)
    returns (prompt: string)
    ensures prompt == PromptText(all, personalized, data)
  {
    var sorted := SortedSections(all);
    var outline: seq<string> := [];
    var i := 0;
    while i < |sorted|
      invariant 0 <= i <= |sorted|
      invariant outline == OutlineLines(sorted[..i])
    {
      OutlineLinesSnoc(sorted, i);
      outline := outline + [OutlineLine(i + 1, sorted[i])];
      i := i + 1;
    }
    assert sorted[..i] == sorted;
    var relevant := RelevantFields(data);
    var fieldLines: seq<string> := [];
    var j := 0;
    while j < |relevant|
      invariant 0 <= j <= |relevant|
      invariant fieldLines == FieldLines(relevant[..j])
    {
      FieldLinesSnoc(relevant, j);
      fieldLines := fieldLines + [FieldLine(relevant[j])];
      j := j + 1;
    }
    assert relevant[..j] == relevant;
    prompt := PROMPT_INTRO + Join(outline, "\n\n")
      + PROMPT_TO_GENERATE + Join(ToGenerateLines(personalized), "\n")
      + PROMPT_RECIPIENT + Join(fieldLines, "\n")
      + PROMPT_CLOSING;
  }

  // ---------------------------------------------------------------------
  // Properties of the prompt

  /** The outline lists every section once, in the stable order, numbered
      from 1. */
  lemma OutlineOrder(all: seq<PromptSection>)
    ensures var idx := SortIndices(all, |all|);
      && |OutlineLines(SortedSections(all))| == |all|
      && (forall e: nat :: e in idx <==> e < |all|)
      && (forall i, j :: 0 <= i < j < |idx| ==> idx[i] != idx[j])
      && (forall i, j :: 0 <= i < j < |idx| ==>
            all[idx[i]].order.GetOr(0) < all[idx[j]].order.GetOr(0)
            || (all[idx[i]].order.GetOr(0) == all[idx[j]].order.GetOr(0) && idx[i] < idx[j]))
      && (forall k :: 0 <= k < |all| ==>
            OutlineLines(SortedSections(all))[k] == OutlineLine(k + 1, all[idx[k]]))
  {
    SortIndicesSpec(all, |all|);
    var idx := SortIndices(all, |all|);
    SortedDistinct(all, idx);
    forall i, j | 0 <= i < j < |idx|
      ensures all[idx[i]].order.GetOr(0) < all[idx[j]].order.GetOr(0)
           || (all[idx[i]].order.GetOr(0) == all[idx[j]].order.GetOr(0) && idx[i] < idx[j])
    {
      assert Before(all, idx[i], idx[j]);
    }
  }

  /** Which kind of line a section gets: `personalized` decides before
      `button`, and anything else is shown as a static preview. Each line
      starts with its number. */
  lemma OutlineLineKind(number: nat, s: PromptSection)
    ensures StartsWith(OutlineLine(number, s), IntToString(number) + ". ")
    ensures s.mode == Some("personalized") ==> StartsWith(OutlineEntry(s), "[GENERATE - ID: \"")
    ensures s.mode != Some("personalized") && s.kind == Some("button") ==> StartsWith(OutlineEntry(s), "[CTA BUTTON] \"")
    ensures s.mode != Some("personalized") && s.kind != Some("button") ==> StartsWith(OutlineEntry(s), "[STATIC] \"")
  {
    PrefixOf(IntToString(number) + ". ", OutlineEntry(s), OutlineLine(number, s));
    var content := s.content.GetOr("");
    if s.mode.GetOr("static") == "personalized" {
      PrefixOf("[GENERATE - ID: \"", s.id.GetOr("") + "\"] \"" + s.name.GetOr("Section") + "\"\n"
        + "   Instructions: " + content + "\n" + "   Fields to use: " + FieldsToUse(s), OutlineEntry(s));
    } else if s.kind.GetOr("text") == "button" {
      PrefixOf("[CTA BUTTON] \"", content + "\" -> " + s.buttonUrl.GetOr("booking link"), OutlineEntry(s));
    } else {
      PrefixOf("[STATIC] \"", s.name.GetOr("Section") + "\": \"" + Preview(content) + "\"", OutlineEntry(s));
    }
  }

  lemma PrefixOf(head: string, rest: string, whole: string)
    requires whole == head + rest
    ensures StartsWith(whole, head)
  {
    assert whole[..|head|] == head;
  }

  /** The fields a personalised line asks for: the selected ones joined by
      a comma, or any when none is selected. */
  lemma FieldsToUseChoice(s: PromptSection)
    ensures s.selectedFields.None? || s.selectedFields == Some([]) ==> FieldsToUse(s) == "any available"
    ensures s.selectedFields.Some? && |s.selectedFields.value| == 1 ==> FieldsToUse(s) == s.selectedFields.value[0]
    ensures s.selectedFields.Some? && |s.selectedFields.value| >= 2 ==>
      FieldsToUse(s) == s.selectedFields.value[0] + ", " + Join(s.selectedFields.value[1..], ", ")
  {
  }

  /** A preview holds at most 153 characters. A text of at most 150
      characters after the tag rewrite is shown whole; a longer one shows
      its first 150 characters and `...`. */
  lemma PreviewBounds(content: string)
    ensures |Preview(content)| <= 153
    ensures var plain := Replace(Replace(Replace(content, "<br>", "\n"), "<p>", ""), "</p>", "\n");
      && (|plain| <= 150 ==> Preview(content) == plain)
      && (|plain| > 150 ==> Preview(content) == plain[..150] + "..." && |Preview(content)| == 153)
  {
  }

  /** A pattern that starts with `<` never occurs in text without `<`. */
  lemma NoOpenNoMatch(s: string, p: string)
    requires p != [] && p[0] == '<' && '<' !in s
    ensures !Contains(s, p)
  {
    NoCharNoMatch(s, p, 0);
  }

  /** A short text without tags is previewed exactly as written. */
  lemma PreviewPlainText(content: string)
    requires '<' !in content && |content| <= 150
    ensures Preview(content) == content
  {
    NoOpenNoMatch(content, "<br>");
    NoOpenNoMatch(content, "<p>");
    NoOpenNoMatch(content, "</p>");
  }

  /** Every listed field is one of the recipient's, none mentions an email
      in any letter case, and every other field is listed; a falsy value
      prints as `(not provided)`. */
  lemma FieldLinesSpec(data: seq<(string, Value)>)
    ensures var relevant := RelevantFields(data);
      && (forall e :: e in relevant <==> e in data && !MentionsEmail(e.0))
      && (forall k :: 0 <= k < |relevant| ==>
            FieldLines(relevant)[k] == "  " + relevant[k].0 + ": " + Shown(relevant[k].1))
    ensures forall v :: !TruthyValue(v) ==> Shown(v) == "(not provided)"
    ensures forall t :: t != [] ==> Shown(Str(t)) == t
  {
  }

  /** The fields keep the recipient's order. */
  lemma {:induction false} RelevantFieldsOrder(data: seq<(string, Value)>, i: nat, j: nat)
    requires i < j < |data|
    requires !MentionsEmail(data[i].0) && !MentionsEmail(data[j].0)
    requires forall a, b :: 0 <= a < b < |data| ==> data[a] != data[b]
    decreases |data|
    ensures exists p, q :: (0 <= p < q < |RelevantFields(data)|
      && RelevantFields(data)[p] == data[i] && RelevantFields(data)[q] == data[j])
  {
    var init := data[..|data| - 1];
    var rest := RelevantFields(init);
    assert data[i] in init && init[i] == data[i];
    if j < |data| - 1 {
      assert init[j] == data[j];
      RelevantFieldsOrder(init, i, j);
      var p, q :| 0 <= p < q < |rest| && rest[p] == data[i] && rest[q] == data[j];
      assert RelevantFields(data)[p] == data[i] && RelevantFields(data)[q] == data[j];
    } else {
      assert data[i] in rest;
      var p :| 0 <= p < |rest| && rest[p] == data[i];
      assert RelevantFields(data) == rest + [data[j]];
      assert RelevantFields(data)[|rest|] == data[j];
    }
  }

  // ---------------------------------------------------------------------
  // Generation

  /** The sections that need generated content, in their order. */
  function PersonalizedSections(all: seq<PromptSection>): (r: seq<PromptSection>)
    ensures |r| <= |all|
    ensures forall s :: s in r <==> s in all && IsPersonalized(s)
  {
    if all == [] then []
    else
      var rest := PersonalizedSections(all[..|all| - 1]);
      var last := all[|all| - 1];
      assert forall s :: s in all <==> s in all[..|all| - 1] || s == last;
      if IsPersonalized(last) then rest + [last] else rest
  }

  /** The reply as a map from section id to content; a later section with
      the same id replaces an earlier one. */
  function ResultMap(reply: seq<GeneratedSection>): map<string, string> {
    if reply == [] then map[]
    else ResultMap(reply[..|reply| - 1])[reply[|reply| - 1].sectionId := reply[|reply| - 1].content]
  }

  /** The loop that fills the result map. */
  method MapReply(reply: seq<GeneratedSection>) returns (m: map<string, string>)
    ensures m == ResultMap(reply)
  {
    m := map[];
    var i := 0;
    while i < |reply|
      invariant 0 <= i <= |reply|
      invariant m == ResultMap(reply[..i])
    {
      assert reply[..i + 1][..i] == reply[..i];
      m := m[reply[i].sectionId := reply[i].content];
      i := i + 1;
    }
    assert reply[..i] == reply;
  }

  /** The keys of the map are exactly the ids of the reply. */
  lemma {:induction false} ResultMapKeys(reply: seq<GeneratedSection>)
    decreases |reply|
    ensures forall id :: id in ResultMap(reply) <==> exists k :: 0 <= k < |reply| && reply[k].sectionId == id
  {
    if reply != [] {
      var init := reply[..|reply| - 1];
      ResultMapKeys(init);
      forall id ensures id in ResultMap(reply) <==> exists k :: 0 <= k < |reply| && reply[k].sectionId == id {
        if exists k :: 0 <= k < |reply| && reply[k].sectionId == id {
          var k :| 0 <= k < |reply| && reply[k].sectionId == id;
          if k < |init| {
            assert init[k].sectionId == id;
          }
        }
      }
    }
  }

  /** The content under an id is the one of the last section of the reply
      with that id. */
  lemma {:induction false} ResultMapLastWins(reply: seq<GeneratedSection>)
    decreases |reply|
    ensures forall id :: id in ResultMap(reply) ==>
      exists k :: (0 <= k < |reply| && reply[k].sectionId == id && ResultMap(reply)[id] == reply[k].content
        && forall m :: k < m < |reply| ==> reply[m].sectionId != id)
  {
    if reply != [] {
      var init := reply[..|reply| - 1];
      var last := reply[|reply| - 1];
      ResultMapLastWins(init);
      var m := ResultMap(reply);
      forall id | id in m
        ensures exists k :: (0 <= k < |reply| && reply[k].sectionId == id && m[id] == reply[k].content
          && forall n :: k < n < |reply| ==> reply[n].sectionId != id)
      {
        if id == last.sectionId {
          assert reply[|reply| - 1].sectionId == id;
        } else {
          var k :| 0 <= k < |init| && init[k].sectionId == id && ResultMap(init)[id] == init[k].content
            && forall n :: k < n < |init| ==> init[n].sectionId != id;
          assert reply[k] == init[k];
        }
      }
    }
  }

  /** What the runner's model call gives back: the parsed reply, which
      may be missing, or the error it raised. */
  datatype RunnerReply = RunnerRaised(error: string) | Parsed(sections: Option<seq<GeneratedSection>>)

  const EMPTY_RESPONSE: string := "Empty " + "response " + "from AI"

  /** The outcome of the runner's one call: its error raised again, the
      empty-reply error, or the reply as a map. */
  function RunnerOutcome(reply: RunnerReply): Result<map<string, string>, string> {
    match reply
    case RunnerRaised(e) => Err(e)
    case Parsed(None) => Err(EMPTY_RESPONSE)
    case Parsed(Some(sections)) => Ok(ResultMap(sections))
  }

  /** The runner's generate_content: no model call without a personalised
      section; otherwise one call, whose error is raised again. */
  method RunnerGenerateContent(all: seq<PromptSection>, data: seq<(string, Value)>, call: string -> RunnerReply)
    returns (r: Result<map<string, string>, string>, calls: nat)
    ensures PersonalizedSections(all) == [] ==> r == Ok(map[]) && calls == 0
    ensures PersonalizedSections(all) != [] ==> calls == 1 && r == RunnerOutcome(call(PromptText(all, PersonalizedSections(all), data)))
  {
    var personalized := PersonalizedSections(all);
    if personalized == [] {
      return Ok(map[]), 0;
    }
    var prompt := BuildPrompt(all, personalized, data);
    var reply := call(prompt);
    calls := 1;
    match reply {
      case RunnerRaised(e) =>
        r := Err(e);
      case Parsed(None) =>
        r := Err(EMPTY_RESPONSE);
      case Parsed(Some(sections)) =>
        var m := MapReply(sections);
        r := Ok(m);
    }
  }

  // ---------------------------------------------------------------------
  // The API's model fallback

  const MODELS: seq<string> := ["moonshotai/kimi-k2-instruct-0905", "moonshotai/kimi-k2-instruct"]

  /** What one model call gives back: the error it raised, or the reply
      text with the outcome of parsing and validating it. */
  datatype ApiReply = ApiRaised(error: string) | Replied(text: string, parsed: Result<seq<GeneratedSection>, string>)

  /** An error the API treats as a rate limit, judged on its lower-cased
      text. */
  predicate IsRateLimit(error: string) {
    var e := Lower(error);
    Contains(e, "429") || Contains(e, "rate limit") || Contains(e, "too many requests") || Contains(e, "quota exceeded")
  }

  /** One attempt: the result map, or the error that leaves the attempt. */
  function Attempt(reply: ApiReply): Result<map<string, string>, string> {
    match reply
    case ApiRaised(e) => Err(e)
    case Replied(text, parsed) =>
      if text == [] then Err(EMPTY_RESPONSE)
      else if parsed.Err? then Err(parsed.error)
      else Ok(ResultMap(parsed.value))
  }

  /** The outcome of the API's generation with two models: the second is
      asked only when the first one is rate limited. */
  function ApiOutcome(prompt: string, call: (string, string) -> ApiReply): (Result<map<string, string>, string>, seq<string>) {
    var first := Attempt(call(MODELS[0], prompt));
    if first.Err? && IsRateLimit(first.error) then (Attempt(call(MODELS[1], prompt)), MODELS)
    else (first, [MODELS[0]])
  }

  /** One call and what leaves it. */
  method TryModel(model: string, prompt: string, call: (string, string) -> ApiReply)
    returns (attempt: Result<map<string, string>, string>)
    ensures attempt == Attempt(call(model, prompt))
  {
    match call(model, prompt) {
      case ApiRaised(e) =>
        attempt := Err(e);
      case Replied(text, parsed) =>
        if text == [] {
          attempt := Err(EMPTY_RESPONSE);
        } else if parsed.Err? {
          attempt := Err(parsed.error);
        } else {
          var m := MapReply(parsed.value);
          attempt := Ok(m);
        }
    }
  }

  /** The API's generate_content: the models are tried in list order; a
      rate-limit error moves on to the next one unless it was the last,
      and any other error is raised again. `tried` lists the models
      called. */
  method ApiGenerateContent(all: seq<PromptSection>, data: seq<(string, Value)>, call: (string, string) -> ApiReply)
    returns (r: Result<map<string, string>, string>, tried: seq<string>)
    ensures PersonalizedSections(all) == [] ==> r == Ok(map[]) && tried == []
    ensures PersonalizedSections(all) != [] ==>
      (r, tried) == ApiOutcome(PromptText(all, PersonalizedSections(all), data), call)
  {
    var personalized := PersonalizedSections(all);
    if personalized == [] {
      return Ok(map[]), [];
    }
    var prompt := BuildPrompt(all, personalized, data);
    r, tried := TryModels(prompt, call);
  }

  /** The loop over the models, with `continue` on a rate limit and a
      raise otherwise. */
  method TryModels(prompt: string, call: (string, string) -> ApiReply)
    returns (r: Result<map<string, string>, string>, tried: seq<string>)
    ensures (r, tried) == ApiOutcome(prompt, call)
  {
    ghost var first := Attempt(call(MODELS[0], prompt));
    FallbackRule(prompt, call);
    tried := [];
    var i := 0;
    while i < |MODELS|
      invariant 0 <= i <= 1 && tried == MODELS[..i]
      invariant i == 1 ==> first.Err? && IsRateLimit(first.error)
      decreases |MODELS| - i
    {
      var model := MODELS[i];
      r := TryModel(model, prompt, call);
      tried := tried + [model];
      assert tried == MODELS[..i + 1];
      if r.Ok? {
        assert i == 0 ==> tried == [MODELS[0]];
        assert i == 1 ==> tried == MODELS;
        return;
      }
      if IsRateLimit(r.error) && model != MODELS[|MODELS| - 1] {
        ModelsDistinct();
        i := i + 1;
        continue;
      }
      ModelsDistinct();
      assert i == 0 ==> tried == [MODELS[0]];
      assert i == 1 ==> tried == MODELS;
      return;
    }
  }

  lemma ModelsDistinct()
    ensures MODELS[0] != MODELS[1]
  {
    assert |MODELS[0]| != |MODELS[1]|;
  }

  /** At most two models are asked, the first always first. An error that
      is not a rate limit, such as an empty reply, ends the generation
      with that error after one call. */
  lemma FallbackRule(prompt: string, call: (string, string) -> ApiReply)
    ensures var (r, tried) := ApiOutcome(prompt, call);
      && 1 <= |tried| <= 2 && tried[0] == MODELS[0]
      && (|tried| == 2 <==> Attempt(call(MODELS[0], prompt)).Err? && IsRateLimit(Attempt(call(MODELS[0], prompt)).error))
      && (|tried| == 2 ==> tried[1] == MODELS[1] && r == Attempt(call(MODELS[1], prompt)))
      && (|tried| == 1 ==> r == Attempt(call(MODELS[0], prompt)))
    ensures call(MODELS[0], prompt).Replied? && call(MODELS[0], prompt).text == [] ==>
      ApiOutcome(prompt, call) == (Err(EMPTY_RESPONSE), [MODELS[0]])
  {
    if call(MODELS[0], prompt).Replied? && call(MODELS[0], prompt).text == [] {
      EmptyIsNotRateLimit();
    }
  }

  /** The empty-reply error is not a rate limit. */
  lemma EmptyIsNotRateLimit()
    ensures !IsRateLimit(EMPTY_RESPONSE)
  {
    assert '4' !in EMPTY_RESPONSE && 'l' !in EMPTY_RESPONSE && 'L' !in EMPTY_RESPONSE;
    assert 'q' !in EMPTY_RESPONSE && 'Q' !in EMPTY_RESPONSE;
    NotRateLimitWithout(EMPTY_RESPONSE);
  }

  /** An error text without `4`, `l` or `q` in either case is no rate
      limit: each of the four markers holds one of them. */
  lemma NotRateLimitWithout(error: string)
    requires '4' !in error && 'l' !in error && 'L' !in error && 'q' !in error && 'Q' !in error
    ensures !IsRateLimit(error)
  {
    var e := Lower(error);
    LowerKeepsAbsent(error, '4');
    LowerKeepsAbsent(error, 'l');
    LowerKeepsAbsent(error, 'q');
    NoCharNoMatch(e, "429", 0);
    NoCharNoMatch(e, "rate limit", 5);
    NoCharNoMatch(e, "too many requests", 11);
    NoCharNoMatch(e, "quota exceeded", 0);
  }

  /** A character whose upper-case form is absent too stays absent after
      lower-casing. */
  lemma LowerKeepsAbsent(s: string, c: char)
    requires c !in s && UpperChar(c) !in s
    ensures c !in Lower(s)
  {
    forall k | 0 <= k < |s| ensures Lower(s)[k] != c {
      assert s[k] != c && s[k] != UpperChar(c);
    }
  }

  /** Text that lacks a character of the pattern does not contain it. */
  lemma NoCharNoMatch(s: string, p: string, i: nat)
    requires i < |p| && p[i] !in s
    ensures !Contains(s, p)
  {
    forall k | 0 <= k && k + |p| <= |s| ensures !OccursAt(s, p, k) {
      assert s[k..k + |p|][i] == s[k + i];
    }
    ContainsIff(s, p);
  }
}
