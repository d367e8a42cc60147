/** `{{variable}}` substitution, `replace_variables`, which exists twice
    with the same body (services/api/shared/email.py and
    services/campaign-runner/email_renderer.py). One definition models
    both. A placeholder is `{{`, one or more word characters (ASCII letters,
    digits, `_`) and `}}`; the text is scanned once, left to right. */
module Variables {
  import opened Wrappers
  import opened Text

  /** A value of the data dictionary: Python's None or a string. */
  datatype Value = Null | Str(s: string)

  /** A dictionary of strings as data for the substitution. */
  function AsValues(m: map<string, string>): (r: map<string, Value>)
    ensures forall k :: k in r <==> k in m
    ensures forall k :: k in r ==> r[k] == Str(m[k])
  {
    map k | k in m :: Str(m[k])
  }

  predicate TruthyValue(v: Value) {
    v.Str? && v.s != []
  }

  predicate WordChar(c: char) {
    IsAsciiLetter(c) || IsAsciiDigit(c) || c == '_'
  }

  predicate IsWord(w: string) {
    w != [] && forall k :: 0 <= k < |w| ==> WordChar(w[k])
  }

  /** Length of the run of word characters starting at `i`. */
  function WordRun(s: string, i: nat): (n: nat)
    requires i <= |s|
    decreases |s| - i
    ensures i + n <= |s|
    ensures forall k :: i <= k < i + n ==> WordChar(s[k])
    ensures i + n < |s| ==> !WordChar(s[i + n])
  {
    if i < |s| && WordChar(s[i]) then 1 + WordRun(s, i + 1) else 0
  }

  /** The length of the placeholder starting at the head of `s`, if one
      does: `{{`, the maximal word run, `}}`. */
  function PlaceholderLength(s: string): (r: Option<nat>)
    ensures r.Some? ==> 5 <= r.value <= |s|
  {
    if |s| >= 2 && s[..2] == "{{" then
      var n := WordRun(s, 2);
      if n >= 1 && 2 + n + 2 <= |s| && s[2 + n..2 + n + 2] == "}}" then Some(n + 4) else None
    else None
  }

  function Lookup(data: map<string, Value>, key: string): Value {
    if key in data then data[key] else Null
  }

  /** `data.get(v) or data.get(v.lower()) or data.get(v.upper())`. */
  function Resolve(data: map<string, Value>, name: string): Value {
    if TruthyValue(Lookup(data, name)) then Lookup(data, name)
    else if TruthyValue(Lookup(data, Lower(name))) then Lookup(data, Lower(name))
    else Lookup(data, Upper(name))
  }

  /** What replaces one placeholder: the resolved value, or the placeholder
      itself when the value is None. */
  function Replacement(data: map<string, Value>, name: string): string {
    match Resolve(data, name)
    case Null => "{{" + name + "}}"
    case Str(v) => v
  }

  /** The single left-to-right pass of `re.sub`. */
  function Substitute(s: string, data: map<string, Value>): string
    decreases |s|
  {
    if s == [] then []
    else
      var p := PlaceholderLength(s);
      if p.Some? then Replacement(data, s[2..p.value - 2]) + Substitute(s[p.value..], data)
      else [s[0]] + Substitute(s[1..], data)
  }

  /** replace_variables: falsy data (None or an empty dictionary) leaves
      the content as it is. */
  function ReplaceVariables(content: string, data: Option<map<string, Value>>): (r: string)
    ensures data.None? || data.value == map[] ==> r == content
    ensures data.Some? && data.value != map[] ==> r == Substitute(content, data.value)
  {
    if data.None? || data.value == map[] then content else Substitute(content, data.value)
  }

  // ---------------------------------------------------------------------
  // What the substitution guarantees

  /** A placeholder starts at position `i` of `s`. */
  predicate PlaceholderAt(s: string, i: nat)
    requires i <= |s|
  {
    PlaceholderLength(s[i..]).Some?
  }

  /** Where no placeholder starts, the scan copies one character. */
  lemma CopiesHead(s: string, data: map<string, Value>)
    requires s != [] && PlaceholderLength(s).None?
    ensures Substitute(s, data) == [s[0]] + Substitute(s[1..], data)
  {
  }

  /** Text in which no placeholder starts is copied verbatim, and the scan
      goes on with what follows it. */
  lemma {:induction false} CopyRange(s: string, i: nat, j: nat, data: map<string, Value>)
    requires i <= j <= |s|
    requires forall k :: i <= k < j ==> !PlaceholderAt(s, k)
    decreases j - i
    ensures Substitute(s[i..], data) == s[i..j] + Substitute(s[j..], data)
  {
    if i < j {
      CopyStep(s, i, data);
      CopyRange(s, i + 1, j, data);
      ConsSlice(s, i, j);
      calc {
        Substitute(s[i..], data);
        [s[i]] + Substitute(s[i + 1..], data);
        [s[i]] + (s[i + 1..j] + Substitute(s[j..], data));
        s[i..j] + Substitute(s[j..], data);
      }
    }
  }

  lemma CopyStep(s: string, i: nat, data: map<string, Value>)
    requires i < |s| && !PlaceholderAt(s, i)
    ensures Substitute(s[i..], data) == [s[i]] + Substitute(s[i + 1..], data)
  {
    CopiesHead(s[i..], data);
    assert s[i..][1..] == s[i + 1..];
  }

  lemma ConsSlice(s: string, i: nat, j: nat)
    requires i < j <= |s|
    ensures s[i..j] == [s[i]] + s[i + 1..j]
  {
  }

  lemma NoPlaceholderUnchanged(s: string, data: map<string, Value>)
    requires forall i :: 0 <= i < |s| ==> !PlaceholderAt(s, i)
    ensures Substitute(s, data) == s
  {
    CopyRange(s, 0, |s|, data);
    assert s[0..] == s && s[0..|s|] == s && s[|s|..] == [];
  }

  /** A prefix without placeholders is copied and the scan goes on after it. */
  lemma CopyPrefix(a: string, b: string, data: map<string, Value>)
    requires forall i :: 0 <= i < |a| ==> !PlaceholderAt(a + b, i)
    ensures Substitute(a + b, data) == a + Substitute(b, data)
  {
    var s := a + b;
    CopyRange(s, 0, |a|, data);
    assert s[0..] == s && s[0..|a|] == a && s[|a|..] == b;
  }

  /** A placeholder followed by any text: the value goes in once and the
      scan resumes after the closing braces, so the inserted value is never
      scanned again. */
  lemma PlaceholderThenRest(name: string, rest: string, data: map<string, Value>)
    requires IsWord(name)
    ensures Substitute("{{" + name + "}}" + rest, data) == Replacement(data, name) + Substitute(rest, data)
  {
    var s := "{{" + name + "}}" + rest;
    PlaceholderOfName(name, rest);
    assert s[2..|name| + 2] == name;
    assert s[|name| + 4..] == rest;
  }

  lemma PlaceholderOfName(name: string, rest: string)
    requires IsWord(name)
    ensures PlaceholderLength("{{" + name + "}}" + rest) == Some(|name| + 4)
  {
    var s := "{{" + name + "}}" + rest;
    assert s[..2] == "{{";
    WordRunOfName(s, name);
    assert s[2 + |name|..2 + |name| + 2] == "}}";
  }

  lemma WordRunOfName(s: string, name: string)
    requires IsWord(name) && |s| >= |name| + 4 && s[2..|name| + 2] == name && s[|name| + 2] == '}'
    ensures WordRun(s, 2) == |name|
  {
  }

  /** The lookups are tried exact, lower-case, upper-case; the first
      truthy value wins, otherwise the upper-case lookup decides, and the
      placeholder is kept exactly when that lookup is None. */
  lemma LookupOrder(data: map<string, Value>, name: string)
    ensures TruthyValue(Lookup(data, name)) ==> Replacement(data, name) == Lookup(data, name).s
    ensures !TruthyValue(Lookup(data, name)) && TruthyValue(Lookup(data, Lower(name))) ==>
      Replacement(data, name) == Lookup(data, Lower(name)).s
    ensures !TruthyValue(Lookup(data, name)) && !TruthyValue(Lookup(data, Lower(name))) ==>
      Resolve(data, name) == Lookup(data, Upper(name))
    ensures Resolve(data, name).Null? <==>
      !TruthyValue(Lookup(data, name)) && !TruthyValue(Lookup(data, Lower(name))) && Lookup(data, Upper(name)).Null?
    ensures Resolve(data, name).Null? ==> Replacement(data, name) == "{{" + name + "}}"
  {
  }
}
