/** The conditions of QueryOrder are exact: a label that does not meet them has a template whose text
    depends on the order. */
module QueryOrderIff {
  import opened QueryRenderer
  import opened QueryOrder
  import Digest

  // ----- Escaping does not matter

  predicate Unescaped(text: string) {
    forall k :: 0 <= k < |text| ==> text[k] !in {'\\', '"', '\n', '\r'}
  }

  lemma MeetsCons(c: char, rest: string, text: string)
    requires text != ""
    ensures Meets([c] + rest, text) <==> text[0] == c && Meets(rest, text[1..])
  {
    if text[0] == c && StartsWith(rest, text[1..]) {
      OneMore(c, rest, text, 0);
      assert text[0..] == text;
    }
    if text[0] == c && StartsWith(text[1..], rest) {
      OneMore(c, text[1..], [c] + rest, 0);
      assert ([c] + rest)[0..] == [c] + rest && ([c] + rest)[1..] == rest && [c] + text[1..] == text;
    }
    if StartsWith([c] + rest, text) {
      StartsBehind([c] + rest, text, 1);
      assert ([c] + rest)[1..] == rest;
    }
    if StartsWith(text, [c] + rest) {
      StartsBehind(text, [c] + rest, 1);
      assert ([c] + rest)[1..] == rest && text[0] == ([c] + rest)[0];
    }
  }

  lemma {:induction false} EscapeMeets(value: string, text: string)
    requires Unescaped(text)
    ensures Meets(Escaped(value), text) <==> Meets(value, text)
  {
    hide Meets;
    if value != "" && text != "" {
      var c, escaped := value[0], EscapedChar(value[0]);
      EscapeMeets(value[1..], text[1..]);
      MeetsCons(c, value[1..], text);
      assert value == [c] + value[1..];
      assert Escaped(value) == [escaped[0]] + (escaped[1..] + Escaped(value[1..]));
      MeetsCons(escaped[0], escaped[1..] + Escaped(value[1..]), text);
      assert |escaped| == 1 ==> escaped[1..] + Escaped(value[1..]) == Escaped(value[1..]);
    } else {
      MeetsEmpty(value, text);
    }
  }

  lemma MeetsEmpty(value: string, text: string)
    requires value == "" || text == ""
    ensures Meets(value, text) && Meets(Escaped(value), text)
  {
  }

  lemma {:induction false} EscapeBegins(value: string, place: string)
    requires Unescaped(place) && place != "" && place[0] == '{'
    ensures Begins(Escaped(value), place) <==> Begins(value, place)
  {
    hide Meets;
    if value != "" {
      var escaped, rest := EscapedChar(value[0]), Escaped(value[1..]);
      EscapeBegins(value[1..], place);
      EscapeMeets(value, place);
      assert Escaped(value)[1..] == escaped[1..] + rest;
      if |escaped| == 2 {
        assert escaped[1..] + rest == [escaped[1]] + rest && ([escaped[1]] + rest)[1..] == rest;
        MeetsCons(escaped[1], rest, place);
      } else {
        assert escaped[1..] + rest == rest;
      }
    }
  }

  lemma NameChars(field: Field)
    ensures |Name(field)| >= 5 && forall k :: 0 <= k < |Name(field)| ==> Name(field)[k] !in {'{', '}', '\\', '"', '\n', '\r', 'x'}
  {
  }

  lemma PlaceChars(field: Field, k: nat)
    requires k < |Placeholder(field)|
    ensures Unescaped(Placeholder(field)) && |Placeholder(field)| >= 9
    ensures Placeholder(field)[k] == '{' <==> k < 2
    ensures Placeholder(field)[k] == '}' <==> k >= |Placeholder(field)| - 2
    ensures Placeholder(field)[k] != 'x'
  {
    NameChars(field);
    hide Name;
    var place, name := Placeholder(field), Name(field);
    assert forall i :: 0 <= i < |place| ==> place[i] == if i < 2 then '{' else if i < |name| + 2 then name[i - 2] else '}';
  }

  /** Escaping keeps labels harmless, or not, for any kind of template. */
  lemma EscapingKeeps(field: Field, raw: string)
    ensures Harmless(field, EscapeQueryLabel(raw)) <==> Harmless(field, raw)
    ensures Foreign(field, EscapeQueryLabel(raw)) <==> Foreign(field, raw)
  {
    hide Begins, Meets, Escaped, EscapeQueryLabel;
    EscapeIsOnePass(raw);
    forall g ensures Begins(Escaped(raw), Placeholder(g)) <==> Begins(raw, Placeholder(g)) {
      PlaceChars(g, 0);
      EscapeBegins(raw, Placeholder(g));
    }
    forall g, j | 1 <= j < |Placeholder(g)|
      ensures Meets(Escaped(raw), Placeholder(g)[j..]) <==> Meets(raw, Placeholder(g)[j..])
    {
      PlaceChars(g, j);
      EscapeMeets(raw, Placeholder(g)[j..]);
    }
    assert forall g :: |Placeholder(g)| > 1;
  }

  /** The usual label: not empty and without an opening brace. */
  lemma {:induction false} UsualIsHarmless(field: Field, raw: string)
    requires raw != "" && '{' !in raw
    ensures Harmless(field, raw)
  {
    forall g ensures !Begins(raw, Placeholder(g)) && !Meets(raw, Placeholder(g)[1..]) {
      UsualBegins(raw, g);
      assert Placeholder(g)[1..][0] == '{' != raw[0];
    }
  }

  lemma {:induction false} UsualBegins(raw: string, g: Field)
    requires '{' !in raw
    ensures !Begins(raw, Placeholder(g))
  {
    if raw != "" {
      UsualBegins(raw[1..], g);
      assert Placeholder(g)[0] == '{' != raw[0];
    }
  }

  // ----- A template for a label that does harm

  /** The text in front of the tokens, character by character. */
  function Before(text: string, tokens: seq<Token>): seq<Token> {
    if text == "" then tokens else [Char(text[0])] + Before(text[1..], tokens)
  }

  lemma {:induction false} BeforeText(text: string, tokens: seq<Token>, values: Field -> string, done: set<Field>)
    ensures Template(Before(text, tokens)) == text + Template(tokens)
    ensures Text(Before(text, tokens), values, done) == text + Text(tokens, values, done)
  {
    hide Template, Text;
    if text == "" {
      assert text + Template(tokens) == Template(tokens) && text + Text(tokens, values, done) == Text(tokens, values, done);
    } else {
      BeforeText(text[1..], tokens, values, done);
      CharText(text[0], Before(text[1..], tokens), values, done);
      FirstApart(text, Template(tokens));
      FirstApart(text, Text(tokens, values, done));
    }
  }

  lemma FirstApart(text: string, rest: string)
    requires text != ""
    ensures text + rest == [text[0]] + (text[1..] + rest)
  {
    assert text == [text[0]] + text[1..];
  }

  lemma CharText(c: char, tokens: seq<Token>, values: Field -> string, done: set<Field>)
    ensures Template([Char(c)] + tokens) == [c] + Template(tokens)
    ensures Text([Char(c)] + tokens, values, done) == [c] + Text(tokens, values, done)
  {
    assert ([Char(c)] + tokens)[1..] == tokens;
  }

  lemma {:induction false} BeforeParsed(text: string, tokens: seq<Token>)
    requires Parsed(tokens)
    requires forall k, g :: 0 <= k < |text| ==> !StartsWith(text[k..] + Template(tokens), Placeholder(g))
    ensures Parsed(Before(text, tokens))
  {
    if text != "" {
      forall k, g | 0 <= k < |text[1..]| ensures !StartsWith(text[1..][k..] + Template(tokens), Placeholder(g)) {
        assert text[1..][k..] == text[k + 1..];
      }
      BeforeParsed(text[1..], tokens);
      BeforeText(text, tokens, _ => "", {});
      assert text[0..] == text && Before(text, tokens)[1..] == Before(text[1..], tokens);
    }
  }

  lemma {:induction false} BeforeClean(text: string, tokens: seq<Token>)
    requires Clean(tokens) && (tokens != [] ==> tokens[0].Place?)
    requires forall k :: 0 < k < |text| && text[k - 1] == '{' ==> text[k] != '{'
    ensures Clean(Before(text, tokens))
  {
    if text != "" {
      BeforeClean(text[1..], tokens);
      assert Before(text, tokens)[1..] == Before(text[1..], tokens);
    }
  }

  /** The first part of a placeholder, a field, and the last part. */
  function Around(g: Field, j: nat, field: Field, m: nat): seq<Token>
    requires j < |Placeholder(g)| && 1 <= m <= |Placeholder(g)|
  {
    Before(Placeholder(g)[..j], [Place(field)] + Before(Placeholder(g)[m..], []))
  }

  lemma PrefixQuiet(g: Field, j: nat, k: nat, field: Field, rest: string, h: Field)
    requires k < j < |Placeholder(g)|
    ensures !StartsWith(Placeholder(g)[..j][k..] + (Placeholder(field) + rest), Placeholder(h))
  {
    var place, sought := Placeholder(g), Placeholder(h);
    var text := place[..j][k..] + (Placeholder(field) + rest);
    assert text[j - k] == Placeholder(field)[0] == '{' && text[j - k + 1] == Placeholder(field)[1] == '{';
    assert forall i :: 0 <= i < j - k ==> text[i] == place[k + i];
    PlaceChars(g, k);
    PlaceChars(h, 2);
    if k < 2 && j <= 2 {
      assert text[2] == '{';
      Differs(text, sought, 2);
    } else if k == 0 {
      if |sought| > j {
        PlaceChars(h, j);
        Differs(text, sought, j);
      } else {
        PlaceChars(h, |sought| - 2);
        PlaceChars(g, |sought| - 2);
        Differs(text, sought, |sought| - 2);
      }
    } else {
      PlaceChars(g, k + 1);
      PlaceChars(h, 0);
      PlaceChars(h, 1);
      Differs(text, sought, if k == 1 then 1 else 0);
    }
  }

  lemma SuffixQuiet(g: Field, m: nat, h: Field)
    requires 1 <= m < |Placeholder(g)|
    ensures !StartsWith(Placeholder(g)[m..], Placeholder(h))
  {
    PlaceChars(g, m);
    PlaceChars(h, 0);
    PlaceChars(h, 1);
    if m == 1 {
      PlaceChars(g, 2);
      Differs(Placeholder(g)[m..], Placeholder(h), 1);
    } else {
      Differs(Placeholder(g)[m..], Placeholder(h), 0);
    }
  }

  lemma AroundParsed(g: Field, j: nat, field: Field, m: nat)
    requires j < |Placeholder(g)| && 1 <= m <= |Placeholder(g)|
    ensures Parsed(Around(g, j, field, m))
    ensures j <= 1 ==> Clean(Around(g, j, field, m))
  {
    var last := Placeholder(g)[m..];
    forall k, h | 0 <= k < |last| ensures !StartsWith(last[k..] + Template([]), Placeholder(h)) {
      SuffixQuiet(g, m + k, h);
      assert last[k..] + Template([]) == Placeholder(g)[m + k..];
    }
    BeforeParsed(last, []);
    var tokens := [Place(field)] + Before(last, []);
    assert tokens[1..] == Before(last, []);
    var first := Placeholder(g)[..j];
    forall k, h | 0 <= k < |first| ensures !StartsWith(first[k..] + Template(tokens), Placeholder(h)) {
      PrefixQuiet(g, j, k, field, Template(tokens[1..]), h);
    }
    BeforeParsed(first, tokens);
    forall k | 0 < k < |last| && last[k - 1] == '{' ensures last[k] != '{' {
      PlaceChars(g, m + k);
    }
    BeforeClean(last, []);
    if j <= 1 {
      BeforeClean(first, tokens);
    }
  }

  lemma AroundText(g: Field, j: nat, field: Field, m: nat, values: Field -> string)
    requires j < |Placeholder(g)| && 1 <= m <= |Placeholder(g)|
    ensures Text(Around(g, j, field, m), values, {field}) == Placeholder(g)[..j] + (values(field) + Placeholder(g)[m..])
  {
    var last := Placeholder(g)[m..];
    BeforeText(last, [], values, {field});
    var tokens := [Place(field)] + Before(last, []);
    assert tokens[1..] == Before(last, []) && last + "" == last;
    BeforeText(Placeholder(g)[..j], tokens, values, {field});
  }

  // ----- Two orders

  /** No other field is placed. */
  ghost predicate Only(tokens: seq<Token>, field: Field) {
    tokens != [] ==> Only(tokens[1..], field) && (tokens[0].Place? ==> tokens[0].field == field)
  }

  lemma {:induction false} BeforeOnly(text: string, tokens: seq<Token>, field: Field)
    requires Only(tokens, field)
    ensures Only(Before(text, tokens), field)
  {
    if text != "" {
      BeforeOnly(text[1..], tokens, field);
      assert Before(text, tokens)[1..] == Before(text[1..], tokens);
    }
  }

  lemma {:induction false} OnlyText(tokens: seq<Token>, field: Field, values: Field -> string, done: set<Field>)
    requires Only(tokens, field)
    ensures Text(tokens, values, done) == if field in done then Text(tokens, values, {field}) else Template(tokens)
  {
    if tokens != [] {
      OnlyText(tokens[1..], field, values, done);
    }
  }

  /** In a template as it stands every placeholder is found. */
  lemma {:induction false} ParsedAtFirst(tokens: seq<Token>, values: Field -> string, field: Field)
    requires Parsed(tokens)
    ensures Found(tokens, values, {}, field)
  {
    if tokens != [] {
      ParsedAtFirst(tokens[1..], values, field);
      NothingDone(tokens, values);
    }
  }

  lemma FirstReplaced(tokens: seq<Token>, values: Field -> string, field: Field, g: Field)
    requires Parsed(tokens) && Only(tokens, field)
    ensures ReplaceAll(Template(tokens), Placeholder(g), values(g)) == if g == field then Text(tokens, values, {field}) else Template(tokens)
  {
    hide ReplaceAll, Placeholder, Found, Parsed;
    ParsedAtFirst(tokens, values, g);
    ReplaceOne(tokens, values, {}, g);
    NothingDone(tokens, values);
    OnlyText(tokens, field, values, {g});
    assert {} + {g} == {g};
  }

  function Braces(text: string): nat {
    multiset(text)['{']
  }

  lemma BracesCons(c: char, rest: string)
    ensures Braces([c] + rest) == Braces(rest) + if c == '{' then 1 else 0
  {
    assert multiset([c] + rest) == multiset([c]) + multiset(rest);
  }

  lemma BracesConcat(a: string, b: string)
    ensures Braces(a + b) == Braces(a) + Braces(b)
  {
    assert multiset(a + b) == multiset(a) + multiset(b);
  }

  lemma {:induction false} ReplacingShrinks(text: string, g: Field, k: nat)
    requires k <= |text|
    ensures var after := ReplaceAll(text, Placeholder(g), "x");
            Braces(after) <= Braces(text) && (StartsWith(text[k..], Placeholder(g)) ==> Braces(after) < Braces(text))
    decreases |text|
  {
    hide Braces;
    var place := Placeholder(g);
    PlaceChars(g, 0);
    if text != "" {
      if StartsWith(text, place) {
        var rest := text[|place|..];
        ReplacingShrinks(rest, g, 0);
        assert text == place + rest && place == [place[0]] + place[1..];
        BracesConcat(place, rest);
        BracesCons('{', place[1..]);
        BracesCons('x', ReplaceAll(rest, place, "x"));
      } else {
        var rest := text[1..];
        ReplacingShrinks(rest, g, if k > 0 then k - 1 else 0);
        assert k > 0 ==> rest[k - 1..] == text[k..];
        assert text[0..] == text && text == [text[0]] + rest;
        BracesCons(text[0], rest);
        BracesCons(text[0], ReplaceAll(rest, place, "x"));
      }
    }
  }

  lemma {:induction false} TrimLeftKeeps(text: string)
    ensures Braces(Digest.TrimLeft(text)) == Braces(text)
  {
    if text != [] && Digest.IsSpace(text[0]) {
      TrimLeftKeeps(text[1..]);
      assert text == [text[0]] + text[1..];
      BracesCons(text[0], text[1..]);
    }
  }

  lemma {:induction false} TrimRightKeeps(text: string)
    ensures Braces(Digest.TrimRight(text)) == Braces(text)
  {
    if text != [] && Digest.IsSpace(text[|text| - 1]) {
      var rest, c := text[..|text| - 1], text[|text| - 1];
      TrimRightKeeps(rest);
      assert text == rest + [c] && [c] + "" == [c];
      BracesConcat(rest, [c]);
      BracesCons(c, "");
    }
  }

  /** If replacing one field makes a placeholder of another one, the two do not commute. */
  lemma OrdersDiffer(tokens: seq<Token>, labels: Field -> string, field: Field, g: Field, k: nat) returns (p: seq<Field>, q: seq<Field>)
    requires field != g && EscapeQueryLabel(labels(g)) == "x" && Parsed(tokens) && Only(tokens, field)
    requires var text := Text(tokens, Escaping(labels), {field}); k <= |text| && StartsWith(text[k..], Placeholder(g))
    ensures IsOrder(p) && IsOrder(q) && Rendered(Template(tokens), labels, p) != Rendered(Template(tokens), labels, q)
  {
    hide ReplaceAll, Placeholder, Parsed, Only, Text, Template, Braces, EscapeQueryLabel, StartsWith, Digest.TrimLeft, Digest.TrimRight;
    var values, text := Escaping(labels), Text(tokens, Escaping(labels), {field});
    var h: Field :| h != field && h != g;
    var i: Field :| i != field && i != g && i != h;
    p, q := [h, i, field, g], [h, i, g, field];
    FirstReplaced(tokens, values, field, field);
    FirstReplaced(tokens, values, field, g);
    FirstReplaced(tokens, values, field, h);
    FirstReplaced(tokens, values, field, i);
    FourSteps(Template(tokens), values, h, i, field, g);
    FourSteps(Template(tokens), values, h, i, g, field);
    PlaceholderNotEmpty(g);
    var after := ReplaceAll(text, Placeholder(g), "x");
    ReplacingShrinks(text, g, k);
    TrimLeftKeeps(text);
    TrimRightKeeps(Digest.TrimLeft(text));
    TrimLeftKeeps(after);
    TrimRightKeeps(Digest.TrimLeft(after));
  }

  lemma FourSteps(text: string, values: Field -> string, a: Field, b: Field, c: Field, d: Field)
    ensures InOrder(text, values, [a, b, c, d])
            == ReplaceAll(ReplaceAll(ReplaceAll(ReplaceAll(text, Placeholder(a), values(a)), Placeholder(b), values(b)),
                                     Placeholder(c), values(c)), Placeholder(d), values(d))
  {
    hide ReplaceAll, InOrder, Placeholder;
    InOrderLast(text, values, [a, b, c], d);
    InOrderLast(text, values, [a, b], c);
    InOrderLast(text, values, [a], b);
    InOrderLast(text, values, [], a);
    Nothing(text, values);
    assert [a, b, c] + [d] == [a, b, c, d] && [a, b] + [c] == [a, b, c] && [a] + [b] == [a, b] && [] + [a] == [a];
  }

  // ----- The exact conditions

  ghost predicate Agree(template: string, labels: Field -> string, p: seq<Field>, q: seq<Field>) {
    Rendered(template, labels, p) == Rendered(template, labels, q)
  }

  ghost predicate OthersHarmless(field: Field, raw: string, labels: Field -> string) {
    labels(field) == raw && forall g :: g != field ==> Harmless(g, labels(g))
  }

  ghost predicate OthersForeign(field: Field, raw: string, labels: Field -> string) {
    labels(field) == raw && forall g :: g != field ==> Foreign(g, labels(g))
  }

  /** In templates without stray double braces the order never matters, whatever harmless labels the
      other fields have. */
  ghost predicate OrderFree(field: Field, raw: string) {
    forall tokens, labels, p, q :: Clean(tokens) && OthersHarmless(field, raw, labels) && IsOrder(p) && IsOrder(q)
                                   ==> Agree(Template(tokens), labels, p, q)
  }

  /** In no template it matters, whatever foreign labels the other fields have. */
  ghost predicate AlwaysOrderFree(field: Field, raw: string) {
    forall template, labels, p, q :: OthersForeign(field, raw, labels) && IsOrder(p) && IsOrder(q)
                                     ==> Agree(template, labels, p, q)
  }

  /** The other fields' label in the failing inputs. */
  lemma XIsForeign(field: Field)
    ensures Foreign(field, "x") && Harmless(field, "x") && EscapeQueryLabel("x") == "x"
  {
    hide EscapeQueryLabel;
    EscapeIsOnePass("x");
    assert Escaped("x") == "x" by {
      assert "x"[1..] == "" && "x" + "" == "x";
    }
    UsualIsHarmless(field, "x");
    forall g, j | 1 <= j < |Placeholder(g)| ensures !Meets("x", Placeholder(g)[j..]) {
      PlaceChars(g, j);
      assert Placeholder(g)[j..][0] == Placeholder(g)[j] && "x"[0] == 'x';
    }
  }

  lemma {:induction false} BeginsAt(value: string, place: string) returns (k: nat)
    requires Begins(value, place)
    ensures k < |value| && Meets(value[k..], place)
  {
    if Meets(value, place) {
      k := 0;
      assert value[0..] == value;
    } else {
      k := BeginsAt(value[1..], place);
      assert value[1..][k..] == value[k + 1..];
      k := k + 1;
    }
  }

  /** A value that meets a placeholder is completed to it by what comes before and after. */
  lemma Completed(value: string, place: string, j: nat, k: nat, m: nat)
    requires j < |place| && k <= |value| && (j == 0 || k == 0) && Meets(value[k..], place[j..])
    requires m == if j + |value[k..]| <= |place| then j + |value[k..]| else |place|
    ensures StartsWith((place[..j] + (value + place[m..]))[k..], place)
  {
    var text := place[..j] + (value + place[m..]);
    forall i | 0 <= i < |place| ensures k + i < |text| && text[k + i] == place[i] {
      if i >= j {
        assert i < m ==> value[k..][i - j] == place[j..][i - j];
        assert i >= m ==> place[m..][i - m] == place[i];
      }
    }
  }

  /** Such a value does harm. */
  lemma Collides(field: Field, raw: string, g: Field, j: nat, k: nat)
    returns (tokens: seq<Token>, labels: Field -> string, p: seq<Field>, q: seq<Field>)
    requires field != g && j < |Placeholder(g)| && k <= |EscapeQueryLabel(raw)| && (j == 0 || k == 0)
    requires (j == 0 ==> k < |EscapeQueryLabel(raw)|) && Meets(EscapeQueryLabel(raw)[k..], Placeholder(g)[j..])
    ensures Parsed(tokens) && (j <= 1 ==> Clean(tokens)) && IsOrder(p) && IsOrder(q)
    ensures labels(field) == raw && forall h :: h != field ==> labels(h) == "x"
    ensures !Agree(Template(tokens), labels, p, q)
  {
    hide EscapeQueryLabel, Placeholder, StartsWith, Meets, Parsed, Clean, Only, Rendered, IsOrder, Text, Template, Around;
    var value, place := EscapeQueryLabel(raw), Placeholder(g);
    var m := if j + |value[k..]| <= |place| then j + |value[k..]| else |place|;
    labels := h => if h == field then raw else "x";
    tokens := Around(g, j, field, m);
    AroundParsed(g, j, field, m);
    AroundText(g, j, field, m, Escaping(labels));
    AroundOnly(g, j, field, m);
    Completed(value, place, j, k, m);
    XIsForeign(g);
    p, q := OrdersDiffer(tokens, labels, field, g, k);
  }

  lemma AroundOnly(g: Field, j: nat, field: Field, m: nat)
    requires j < |Placeholder(g)| && 1 <= m <= |Placeholder(g)|
    ensures Only(Around(g, j, field, m), field)
  {
    var tokens := Before(Placeholder(g)[m..], []);
    BeforeOnly(Placeholder(g)[m..], [], field);
    assert ([Place(field)] + tokens)[1..] == tokens;
    BeforeOnly(Placeholder(g)[..j], [Place(field)] + tokens, field);
  }

  /** In templates without stray double braces the order of the map never matters exactly when the label
      is harmless. */
  lemma HarmlessIff(field: Field, raw: string)
    ensures Harmless(field, raw) <==> OrderFree(field, raw)
  {
    hide Begins, Meets, EscapeQueryLabel, Placeholder, Clean, IsOrder, Template, Rendered;
    if Harmless(field, raw) {
      hide Harmless;
      forall tokens, labels, p, q | Clean(tokens) && OthersHarmless(field, raw, labels) && IsOrder(p) && IsOrder(q)
        ensures Agree(Template(tokens), labels, p, q)
      {
        forall g ensures Harmless(g, EscapeQueryLabel(labels(g))) {
          EscapingKeeps(g, labels(g));
        }
        CleanTemplates(tokens, labels, p);
        CleanTemplates(tokens, labels, q);
      }
    } else {
      var g, j, k := HarmfulAt(field, raw);
      var tokens, labels, p, q := Collides(field, raw, g, j, k);
      forall h | h != field ensures Harmless(h, labels(h)) {
        XIsForeign(h);
      }
      assert OthersHarmless(field, raw, labels) && !Agree(Template(tokens), labels, p, q);
    }
  }

  lemma HarmfulAt(field: Field, raw: string) returns (g: Field, j: nat, k: nat)
    requires !Harmless(field, raw)
    ensures g != field && j <= 1 && j < |Placeholder(g)| && k <= |EscapeQueryLabel(raw)| && (j == 0 || k == 0)
    ensures (j == 0 ==> k < |EscapeQueryLabel(raw)|) && Meets(EscapeQueryLabel(raw)[k..], Placeholder(g)[j..])
  {
    hide Begins, Meets, EscapeQueryLabel, Name;
    var value := EscapeQueryLabel(raw);
    EscapingKeeps(field, raw);
    g :| g != field && (Begins(value, Placeholder(g)) || Meets(value, Placeholder(g)[1..]));
    if Begins(value, Placeholder(g)) {
      j := 0;
      k := BeginsAt(value, Placeholder(g));
      assert Placeholder(g)[0..] == Placeholder(g);
    } else {
      j, k := 1, 0;
      assert value[0..] == value;
    }
  }

  /** In no template at all it matters exactly when the label is foreign. */
  lemma ForeignIff(field: Field, raw: string)
    ensures Foreign(field, raw) <==> AlwaysOrderFree(field, raw)
  {
    hide Begins, Meets, EscapeQueryLabel, Placeholder, IsOrder, Template, Parse, Rendered;
    if Foreign(field, raw) {
      hide Foreign;
      forall template, labels, p, q | OthersForeign(field, raw, labels) && IsOrder(p) && IsOrder(q)
        ensures Agree(template, labels, p, q)
      {
        forall g ensures Foreign(g, EscapeQueryLabel(labels(g))) {
          EscapingKeeps(g, labels(g));
        }
        AllTemplates(template, labels, p);
        AllTemplates(template, labels, q);
      }
    } else {
      var g, j, k := NotForeignAt(field, raw);
      var tokens, labels, p, q := Collides(field, raw, g, j, k);
      forall h | h != field ensures Foreign(h, labels(h)) {
        XIsForeign(h);
      }
      assert OthersForeign(field, raw, labels) && !Agree(Template(tokens), labels, p, q);
    }
  }

  lemma NotForeignAt(field: Field, raw: string) returns (g: Field, j: nat, k: nat)
    requires !Foreign(field, raw)
    ensures g != field && j < |Placeholder(g)| && k <= |EscapeQueryLabel(raw)| && (j == 0 || k == 0)
    ensures (j == 0 ==> k < |EscapeQueryLabel(raw)|) && Meets(EscapeQueryLabel(raw)[k..], Placeholder(g)[j..])
  {
    hide Begins, Meets, EscapeQueryLabel, Placeholder;
    var value := EscapeQueryLabel(raw);
    EscapingKeeps(field, raw);
    if !Inert(field, value) {
      g :| g != field && Begins(value, Placeholder(g));
      j := 0;
      k := BeginsAt(value, Placeholder(g));
      assert Placeholder(g)[0..] == Placeholder(g);
      PlaceholderNotEmpty(g);
    } else {
      g, j :| g != field && 1 <= j < |Placeholder(g)| && Meets(value, Placeholder(g)[j..]);
      k := 0;
      assert value[0..] == value;
    }
  }

  // ----- Two failing inputs

  /** Removing the title first turns what is left into a placeholder ... */
  lemma TitleFirst()
    ensures ReplaceAll("{" + (Placeholder(Title) + "{service}}"), Placeholder(Title), "") == "{" + "{service}}"
    ensures ReplaceAll("{" + "{service}}", Placeholder(Service), "x") == "x"
  {
    hide ReplaceAll;
    assert '{' !in "service}}" && "{service}}" == "{" + "service}}" && "service}}" + "" == "service}}";
    assert StartsWith(Placeholder(Title) + "{service}}", "{{");
    SkipBrace(Placeholder(Title) + "{service}}", Title, "");
    ReplaceHere("{service}}", Title, "");
    SkipBrace("service}}", Title, "");
    SkipPlain("service}}", "", Title, "");
    ReplaceNothing(Title, "");
    assert "{" + "{service}}" == Placeholder(Service) + "";
    ReplaceHere("", Service, "x");
    ReplaceNothing(Service, "x");
  }

  /** ... which is missed when the service is replaced first. */
  lemma ServiceFirst()
    ensures ReplaceAll("{" + (Placeholder(Title) + "{service}}"), Placeholder(Service), "x") == "{" + (Placeholder(Title) + "{service}}")
  {
    hide ReplaceAll;
    assert '{' !in "service}}" && "{service}}" == "{" + "service}}" && "service}}" + "" == "service}}";
    assert StartsWith(Placeholder(Title) + "{service}}", "{{");
    SkipBrace(Placeholder(Title) + "{service}}", Service, "x");
    SkipOther(Title, "{service}}", Service, "x");
    SkipBrace("service}}", Service, "x");
    SkipPlain("service}}", "", Service, "x");
    ReplaceNothing(Service, "x");
  }

  /** With an empty value the text can depend on the order of the map. */
  lemma EmptyValueDependsOnOrder()
    ensures var template := "{" + (Placeholder(Title) + "{service}}");
            ReplaceAll(ReplaceAll(template, Placeholder(Title), ""), Placeholder(Service), "x")
            != ReplaceAll(ReplaceAll(template, Placeholder(Service), "x"), Placeholder(Title), "")
  {
    hide ReplaceAll, Placeholder;
    TitleFirst();
    ServiceFirst();
    assert |"{" + "{service}}"| == 11;
  }

  /** ... and so it can with a value that holds another placeholder. */
  lemma BracedValueDependsOnOrder()
    ensures var template, title := Placeholder(Title), Placeholder(Service);
            ReplaceAll(ReplaceAll(template, Placeholder(Title), title), Placeholder(Service), "x")
            != ReplaceAll(ReplaceAll(template, Placeholder(Service), "x"), Placeholder(Title), title)
  {
    hide ReplaceAll;
    assert forall field :: Placeholder(field) + "" == Placeholder(field);
    ReplaceHere("", Title, Placeholder(Service));
    ReplaceNothing(Title, Placeholder(Service));
    ReplaceHere("", Service, "x");
    ReplaceNothing(Service, "x");
    SkipOther(Title, "", Service, "x");
    assert Placeholder(Service) + "" == Placeholder(Service) && "x" + "" == "x";
    assert |Placeholder(Service)| == 11;
  }
}
