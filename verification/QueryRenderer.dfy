/** Query templates: label escaping by successive replacements, and placeholders replaced in whatever
    order a map is iterated. QueryOrder says when that order matters. */
module QueryRenderer {
  import opened Collections
  import Digest

  predicate StartsWith(text: string, prefix: string) {
    |prefix| <= |text| && forall k :: 0 <= k < |prefix| ==> text[k] == prefix[k]
  }

  lemma Differs(text: string, prefix: string, k: nat)
    requires k < |prefix| && (k < |text| ==> text[k] != prefix[k])
    ensures !StartsWith(text, prefix)
  {
  }

  /** strings.ReplaceAll for a non-empty pattern: leftmost matches that do not overlap. */
  function ReplaceAll(text: string, pattern: string, fill: string): string
    requires pattern != ""
  {
    if text == "" then ""
    else if StartsWith(text, pattern) then fill + ReplaceAll(text[|pattern|..], pattern, fill)
    else [text[0]] + ReplaceAll(text[1..], pattern, fill)
  }

  // ----- Escaping

  /** escapeQueryLabel: four passes. */
  function EscapeQueryLabel(value: string): string {
    var slashes := ReplaceAll(value, "\\", "\\\\");
    var quotes := ReplaceAll(slashes, "\"", "\\\"");
    var newlines := ReplaceAll(quotes, "\n", "\\n");
    ReplaceAll(newlines, "\r", "\\r")
  }

  function EscapedChar(c: char): string {
    if c == '\\' then "\\\\"
    else if c == '"' then "\\\""
    else if c == '\n' then "\\n"
    else if c == '\r' then "\\r"
    else [c]
  }

  /** The same as one pass over the characters. */
  function Escaped(value: string): string {
    if value == "" then "" else EscapedChar(value[0]) + Escaped(value[1..])
  }

  lemma ReplaceCharCons(s: string, c: char, fill: string)
    requires s != ""
    ensures ReplaceAll(s, [c], fill) == (if s[0] == c then fill else [s[0]]) + ReplaceAll(s[1..], [c], fill)
  {
    assert StartsWith(s, [c]) <==> s[0] == c;
  }

  lemma {:induction false} ReplaceCharConcat(s: string, t: string, c: char, fill: string)
    ensures ReplaceAll(s + t, [c], fill) == ReplaceAll(s, [c], fill) + ReplaceAll(t, [c], fill)
  {
    if s == "" {
      assert s + t == t;
    } else {
      hide ReplaceAll;
      assert (s + t)[1..] == s[1..] + t && (s + t)[0] == s[0];
      ReplaceCharConcat(s[1..], t, c, fill);
      ReplaceCharCons(s, c, fill);
      ReplaceCharCons(s + t, c, fill);
    }
  }

  lemma ReplaceCharOne(x: char, c: char, fill: string)
    ensures ReplaceAll([x], [c], fill) == if x == c then fill else [x]
  {
    assert [x][1..] == "" && [x][0] == x && [c][0] == c;
    if x == c {
      assert StartsWith([x], [c]);
    }
  }

  lemma ReplaceCharTwo(x: char, y: char, c: char, fill: string)
    requires x != c && y != c
    ensures ReplaceAll([x, y], [c], fill) == [x, y]
  {
    assert [x, y] == [x] + [y];
    ReplaceCharConcat([x], [y], c, fill);
    ReplaceCharOne(x, c, fill);
    ReplaceCharOne(y, c, fill);
  }

  lemma EscapeOneChar(c: char)
    ensures EscapeQueryLabel([c]) == EscapedChar(c)
  {
    ReplaceCharOne(c, '\\', "\\\\");
    ReplaceCharOne(c, '"', "\\\"");
    ReplaceCharOne(c, '\n', "\\n");
    ReplaceCharOne(c, '\r', "\\r");
    ReplaceCharTwo('\\', '\\', '"', "\\\"");
    ReplaceCharTwo('\\', '\\', '\n', "\\n");
    ReplaceCharTwo('\\', '\\', '\r', "\\r");
    ReplaceCharTwo('\\', '"', '\n', "\\n");
    ReplaceCharTwo('\\', '"', '\r', "\\r");
    ReplaceCharTwo('\\', 'n', '\r', "\\r");
  }

  lemma EscapeConcat(s: string, t: string)
    ensures EscapeQueryLabel(s + t) == EscapeQueryLabel(s) + EscapeQueryLabel(t)
  {
    hide ReplaceAll;
    ReplaceCharConcat(s, t, '\\', "\\\\");
    var s1, t1 := ReplaceAll(s, "\\", "\\\\"), ReplaceAll(t, "\\", "\\\\");
    ReplaceCharConcat(s1, t1, '"', "\\\"");
    var s2, t2 := ReplaceAll(s1, "\"", "\\\""), ReplaceAll(t1, "\"", "\\\"");
    ReplaceCharConcat(s2, t2, '\n', "\\n");
    ReplaceCharConcat(ReplaceAll(s2, "\n", "\\n"), ReplaceAll(t2, "\n", "\\n"), '\r', "\\r");
  }

  /** The four passes together are one pass: no pass touches what an earlier one wrote. */
  lemma {:induction false} EscapeIsOnePass(value: string)
    ensures EscapeQueryLabel(value) == Escaped(value)
  {
    if value != "" {
      hide EscapeQueryLabel;
      assert value == [value[0]] + value[1..];
      EscapeConcat([value[0]], value[1..]);
      EscapeOneChar(value[0]);
      EscapeIsOnePass(value[1..]);
    }
  }

  /** Reading a label back. */
  function Unescape(text: string): string {
    if |text| >= 2 && text[0] == '\\' then
      var c := if text[1] == 'n' then '\n' else if text[1] == 'r' then '\r' else text[1];
      [c] + Unescape(text[2..])
    else if text == "" then ""
    else [text[0]] + Unescape(text[1..])
  }

  /** Text that can stand between quotes: no raw line break, every quote escaped, no half escape. */
  predicate InsideQuotes(text: string) {
    if text == "" then true
    else if text[0] == '\\' then |text| >= 2 && text[1] !in {'\n', '\r'} && InsideQuotes(text[2..])
    else text[0] !in {'"', '\n', '\r'} && InsideQuotes(text[1..])
  }

  lemma EscapedCharReads(c: char, rest: string)
    ensures Unescape(EscapedChar(c) + rest) == [c] + Unescape(rest)
    ensures InsideQuotes(EscapedChar(c) + rest) == InsideQuotes(rest)
  {
    var text := EscapedChar(c) + rest;
    assert text[|EscapedChar(c)|..] == rest;
    assert text[0] == EscapedChar(c)[0];
    assert |EscapedChar(c)| == 2 ==> text[1] == EscapedChar(c)[1];
  }

  /** Escaping can be undone for every string, so different labels stay different, and what it
      produces can neither leave its quotes nor break the line. */
  lemma {:induction false} EscapeRoundTrip(value: string)
    ensures Unescape(EscapeQueryLabel(value)) == value
    ensures InsideQuotes(EscapeQueryLabel(value))
  {
    hide EscapeQueryLabel, EscapedChar;
    EscapeIsOnePass(value);
    if value != "" {
      EscapeRoundTrip(value[1..]);
      EscapeIsOnePass(value[1..]);
      EscapedCharReads(value[0], Escaped(value[1..]));
    }
  }

  // ----- Rendering

  datatype Field = Service | Environment | Severity | Title

  const FIELDS: set<Field> := {Service, Environment, Severity, Title}

  function Name(field: Field): string {
    match field
    case Service => "service"
    case Environment => "environment"
    case Severity => "severity"
    case Title => "title"
  }

  function Placeholder(field: Field): string {
    "{{" + Name(field) + "}}"
  }

  /** The fields' values: their labels, escaped. */
  function Escaping(labels: Field -> string): Field -> string {
    field => EscapeQueryLabel(labels(field))
  }

  /** The placeholders replaced one field after the other. */
  function InOrder(text: string, values: Field -> string, order: seq<Field>): string
    decreases |order|
  {
    if order == [] then text
    else InOrder(ReplaceAll(text, Placeholder(order[0]), values(order[0])), values, order[1..])
  }

  lemma {:induction false} InOrderLast(text: string, values: Field -> string, order: seq<Field>, field: Field)
    ensures InOrder(text, values, order + [field]) == ReplaceAll(InOrder(text, values, order), Placeholder(field), values(field))
    decreases |order|
  {
    hide ReplaceAll;
    if order == [] {
      assert order + [field] == [field];
    } else {
      assert (order + [field])[1..] == order[1..] + [field];
      InOrderLast(ReplaceAll(text, Placeholder(order[0]), values(order[0])), values, order[1..], field);
    }
  }

  /** Every field exactly once. */
  ghost predicate IsOrder(order: seq<Field>) {
    (forall field :: field in FIELDS ==> field in order) && forall j, k :: 0 <= j < k < |order| ==> order[j] != order[k]
  }

  function Rendered(template: string, labels: Field -> string, order: seq<Field>): string {
    Digest.TrimSpace(InOrder(template, Escaping(labels), order))
  }

  /** Render: the map of placeholders is iterated in some order. */
  method Render(template: string, labels: Field -> string) returns (text: string)
    ensures exists order :: IsOrder(order) && text == Rendered(template, labels, order)
  {
    hide ReplaceAll, InOrder, Placeholder, EscapeQueryLabel;
    var result := template;
    var todo := FIELDS;
    ghost var order: seq<Field> := [];
    Nothing(template, Escaping(labels));
    while todo != {}
      invariant todo <= FIELDS && result == InOrder(template, Escaping(labels), order)
      invariant forall field :: field in FIELDS ==> (field in order <==> field !in todo)
      invariant forall j, k :: 0 <= j < k < |order| ==> order[j] != order[k]
      decreases |todo|
    {
      var field := Pick(todo);
      InOrderLast(template, Escaping(labels), order, field);
      PlaceholderNotEmpty(field);
      result := ReplaceAll(result, Placeholder(field), EscapeQueryLabel(labels(field)));
      order := order + [field];
      todo := todo - {field};
    }
    text := Digest.TrimSpace(result);
    assert IsOrder(order) && text == Rendered(template, labels, order);
  }

  lemma Nothing(text: string, values: Field -> string)
    ensures InOrder(text, values, []) == text
  {
  }

  lemma PlaceholderNotEmpty(field: Field)
    ensures Placeholder(field) != ""
  {
  }
}
