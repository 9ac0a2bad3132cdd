/** When the order in which a map is iterated does not matter to a rendered query: for templates without
    stray double braces, and for all templates. QueryOrderIff shows that the conditions are exact. */
module QueryOrder {
  import opened QueryRenderer
  import Digest

  /** A template, piece by piece. */
  datatype Token = Char(c: char) | Place(field: Field)

  function Template(tokens: seq<Token>): string {
    if tokens == [] then ""
    else (match tokens[0] case Char(c) => [c] case Place(field) => Placeholder(field)) + Template(tokens[1..])
  }

  /** Its text when the fields in done have been replaced, all at once. */
  function Text(tokens: seq<Token>, values: Field -> string, done: set<Field>): string {
    if tokens == [] then ""
    else
      var head := match tokens[0]
                  case Char(c) => [c]
                  case Place(field) => if field in done then values(field) else Placeholder(field);
      head + Text(tokens[1..], values, done)
  }

  lemma {:induction false} NothingDone(tokens: seq<Token>, values: Field -> string)
    ensures Text(tokens, values, {}) == Template(tokens)
  {
    if tokens != [] {
      NothingDone(tokens[1..], values);
    }
  }

  // ----- Values

  /** One of the two begins with the other. */
  predicate Meets(a: string, b: string) {
    StartsWith(a, b) || StartsWith(b, a)
  }

  /** The value holds the placeholder, or ends with a beginning of it. */
  predicate Begins(value: string, place: string) {
    value != "" && (Meets(value, place) || Begins(value[1..], place))
  }

  /** No placeholder of another field starts in the value. */
  ghost predicate Inert(field: Field, value: string) {
    forall g :: g != field ==> !Begins(value, Placeholder(g))
  }

  /** ... nor right before it: a brace in front does not make one. */
  ghost predicate Harmless(field: Field, value: string) {
    Inert(field, value) && forall g :: g != field ==> !Meets(value, Placeholder(g)[1..])
  }

  /** ... nor anywhere before it: no text in front makes one. */
  ghost predicate Foreign(field: Field, value: string) {
    Inert(field, value) && forall g, j :: g != field && 1 <= j < |Placeholder(g)| ==> !Meets(value, Placeholder(g)[j..])
  }

  // ----- One replacement

  lemma {:induction false} SkipPlain(plain: string, rest: string, field: Field, fill: string)
    requires '{' !in plain
    ensures ReplaceAll(plain + rest, Placeholder(field), fill) == plain + ReplaceAll(rest, Placeholder(field), fill)
  {
    if plain == "" {
      assert plain + rest == rest;
    } else {
      var text := plain + rest;
      assert text[0] == plain[0] && text[1..] == plain[1..] + rest;
      SkipPlain(plain[1..], rest, field, fill);
      assert Placeholder(field)[0] == '{';
      Differs(text, Placeholder(field), 0);
    }
  }

  /** A brace that does not open a placeholder is skipped. */
  lemma SkipBrace(rest: string, field: Field, fill: string)
    requires StartsWith(rest, "{{") || rest == "" || rest[0] != '{'
    ensures ReplaceAll("{" + rest, Placeholder(field), fill) == "{" + ReplaceAll(rest, Placeholder(field), fill)
  {
    var text, place := "{" + rest, Placeholder(field);
    assert text[1..] == rest;
    assert place[1] == '{' && place[2] == Name(field)[0] != '{';
    if StartsWith(rest, "{{") {
      assert text[2] == rest[1] == "{{"[1];
      Differs(text, place, 2);
    } else {
      Differs(text, place, 1);
    }
  }

  lemma NamesDiffer(a: Field, b: Field, rest: string)
    requires a != b
    ensures !StartsWith(Placeholder(a) + rest, Placeholder(b))
  {
    var text, place := Placeholder(a) + rest, Placeholder(b);
    var k := if a in {Service, Severity} && b in {Service, Severity} then 4 else 2;
    assert text[k] == Placeholder(a)[k] != place[k];
    Differs(text, place, k);
  }

  /** The rest of a placeholder behind its first brace. */
  function Behind(field: Field): string {
    "{" + (Name(field) + "}}")
  }

  lemma PlaceholderParts(field: Field, rest: string)
    ensures Placeholder(field) + rest == "{" + (Behind(field) + rest)
    ensures Behind(field) + rest == "{" + ((Name(field) + "}}") + rest)
    ensures '{' !in Name(field) + "}}" && ((Name(field) + "}}") + rest)[0] != '{'
  {
    var name := Name(field) + "}}";
    assert Placeholder(field) == "{" + ("{" + name);
    assert name[0] == Name(field)[0] && (name + rest)[0] == name[0];
  }

  /** Another placeholder is skipped as a whole. */
  lemma SkipOther(other: Field, rest: string, field: Field, fill: string)
    requires other != field
    ensures ReplaceAll(Placeholder(other) + rest, Placeholder(field), fill) == Placeholder(other) + ReplaceAll(rest, Placeholder(field), fill)
  {
    hide ReplaceAll, StartsWith, Name, Behind;
    NamesDiffer(other, field, rest);
    PlaceholderParts(other, rest);
    PlaceholderParts(other, ReplaceAll(rest, Placeholder(field), fill));
    SkipFirst(Behind(other) + rest, field, fill);
    SkipBrace((Name(other) + "}}") + rest, field, fill);
    SkipPlain(Name(other) + "}}", rest, field, fill);
  }

  lemma SkipFirst(rest: string, field: Field, fill: string)
    requires !StartsWith("{" + rest, Placeholder(field))
    ensures ReplaceAll("{" + rest, Placeholder(field), fill) == "{" + ReplaceAll(rest, Placeholder(field), fill)
  {
    assert ("{" + rest)[1..] == rest;
  }

  lemma ReplaceHere(rest: string, field: Field, fill: string)
    ensures ReplaceAll(Placeholder(field) + rest, Placeholder(field), fill) == fill + ReplaceAll(rest, Placeholder(field), fill)
  {
    var text, place := Placeholder(field) + rest, Placeholder(field);
    assert text[..|place|] == place && text[|place|..] == rest;
  }

  /** The placeholders of the field are found where they stand, and nowhere else. */
  ghost predicate Found(tokens: seq<Token>, values: Field -> string, done: set<Field>, field: Field) {
    tokens != [] ==>
      && Found(tokens[1..], values, done, field)
      && match tokens[0]
         case Char(_) => !StartsWith(Text(tokens, values, done), Placeholder(field))
         case Place(other) => other in done ==> !Begins(values(other), Placeholder(field))
  }

  lemma {:induction false} SkipValue(value: string, rest: string, field: Field, fill: string)
    requires !Begins(value, Placeholder(field))
    ensures ReplaceAll(value + rest, Placeholder(field), fill) == value + ReplaceAll(rest, Placeholder(field), fill)
  {
    hide Placeholder;
    if value == "" {
      assert value + rest == rest;
    } else {
      PlaceholderNotEmpty(field);
      SkipValue(value[1..], rest, field, fill);
      var text, place := value + rest, Placeholder(field);
      assert text[1..] == value[1..] + rest && text[0] == value[0];
      if StartsWith(text, place) {
        MeetsInFront(value, rest, place);
        assert false;
      }
    }
  }

  lemma MeetsInFront(value: string, rest: string, place: string)
    requires StartsWith(value + rest, place)
    ensures Meets(value, place)
  {
    assert forall k :: 0 <= k < |value| ==> (value + rest)[k] == value[k];
  }

  /** One replacement replaces exactly its own placeholders. */
  lemma {:induction false} ReplaceOne(tokens: seq<Token>, values: Field -> string, done: set<Field>, field: Field)
    requires Found(tokens, values, done, field) && field !in done
    ensures ReplaceAll(Text(tokens, values, done), Placeholder(field), values(field)) == Text(tokens, values, done + {field})
  {
    hide ReplaceAll, Placeholder, Begins, StartsWith;
    if tokens == [] {
      ReplaceNothing(field, values(field));
    } else {
      var rest := tokens[1..];
      ReplaceOne(rest, values, done, field);
      var tail := Text(rest, values, done);
      match tokens[0]
      case Char(c) =>
        SkipChar(c, tail, field, values(field));
      case Place(other) =>
        if other in done {
          SkipValue(values(other), tail, field, values(field));
        } else if other == field {
          ReplaceHere(tail, field, values(field));
        } else {
          SkipOther(other, tail, field, values(field));
        }
    }
  }

  lemma SkipChar(c: char, rest: string, field: Field, fill: string)
    requires !StartsWith([c] + rest, Placeholder(field))
    ensures ReplaceAll([c] + rest, Placeholder(field), fill) == [c] + ReplaceAll(rest, Placeholder(field), fill)
  {
    assert ([c] + rest)[1..] == rest;
  }

  lemma ReplaceNothing(field: Field, fill: string)
    ensures ReplaceAll("", Placeholder(field), fill) == ""
  {
  }

  // ----- All replacements

  /** In whatever order: the placeholders of fields that are still to come are found. */
  ghost predicate Tame(tokens: seq<Token>, values: Field -> string) {
    forall done, field :: field !in done ==> Found(tokens, values, done, field)
  }

  function Elements(order: seq<Field>): set<Field> {
    set field | field in order
  }

  lemma {:induction false} InOrderIsText(tokens: seq<Token>, values: Field -> string, done: set<Field>, order: seq<Field>)
    requires Tame(tokens, values) && Elements(order) !! done && forall j, k :: 0 <= j < k < |order| ==> order[j] != order[k]
    ensures InOrder(Text(tokens, values, done), values, order) == Text(tokens, values, done + Elements(order))
    decreases |order|
  {
    hide ReplaceAll, Placeholder, Found;
    if order == [] {
      assert done + Elements(order) == done;
    } else {
      var field := order[0];
      assert field in Elements(order) && order == [field] + order[1..];
      assert Elements(order) == {field} + Elements(order[1..]);
      ReplaceOne(tokens, values, done, field);
      InOrderIsText(tokens, values, done + {field}, order[1..]);
      assert done + {field} + Elements(order[1..]) == done + Elements(order);
    }
  }

  lemma TameIsOrderFree(tokens: seq<Token>, labels: Field -> string, order: seq<Field>)
    requires Tame(tokens, Escaping(labels)) && IsOrder(order)
    ensures Rendered(Template(tokens), labels, order) == Digest.TrimSpace(Text(tokens, Escaping(labels), FIELDS))
  {
    hide Tame, InOrder, Text, Template;
    NothingDone(tokens, Escaping(labels));
    InOrderIsText(tokens, Escaping(labels), {}, order);
    assert {} + Elements(order) == FIELDS;
  }

  // ----- Templates without stray double braces

  /** No two adjacent opening braces outside placeholders. */
  ghost predicate Clean(tokens: seq<Token>) {
    tokens != [] ==> Clean(tokens[1..]) && (tokens[0] == Char('{') && |tokens| > 1 ==> tokens[1] != Char('{'))
  }

  ghost predicate Placed(tokens: seq<Token>, field: Field) {
    Place(field) in tokens
  }

  ghost predicate HarmlessPlaces(tokens: seq<Token>, values: Field -> string) {
    forall field :: Placed(tokens, field) ==> Harmless(field, values(field))
  }

  lemma PlacedLater(tokens: seq<Token>)
    requires tokens != []
    ensures forall field :: Placed(tokens[1..], field) ==> Placed(tokens, field)
    ensures tokens[0].Place? ==> Placed(tokens, tokens[0].field)
  {
  }

  lemma {:induction false} CleanIsFound(tokens: seq<Token>, values: Field -> string, done: set<Field>, field: Field)
    requires Clean(tokens) && HarmlessPlaces(tokens, values) && field !in done
    ensures Found(tokens, values, done, field)
  {
    if tokens != [] {
      hide Placed, Begins, Meets;
      PlacedLater(tokens);
      var rest := tokens[1..];
      CleanIsFound(rest, values, done, field);
      if tokens[0].Char? {
        AfterChar(tokens, values, done, field);
      }
    }
  }

  lemma AfterChar(tokens: seq<Token>, values: Field -> string, done: set<Field>, field: Field)
    requires Clean(tokens) && HarmlessPlaces(tokens, values) && field !in done && tokens != [] && tokens[0].Char?
    ensures !StartsWith(Text(tokens, values, done), Placeholder(field))
  {
    hide Harmless, Placed;
    var text, place := Text(tokens, values, done), Placeholder(field);
    assert text[1..] == Text(tokens[1..], values, done) && text[0] == tokens[0].c && place[0] == '{';
    PlacedLater(tokens);
    if tokens[0] == Char('{') {
      BehindBrace(tokens[1..], values, done, field);
    }
    if StartsWith(text, place) {
      StartsBehind(text, place, 1);
    }
  }

  lemma BehindBrace(tokens: seq<Token>, values: Field -> string, done: set<Field>, field: Field)
    requires HarmlessPlaces(tokens, values) && field !in done && (tokens != [] ==> tokens[0] != Char('{'))
    ensures !StartsWith(Text(tokens, values, done), Placeholder(field)[1..])
  {
    hide Placed, Begins, Meets;
    var text, place := Text(tokens, values, done), Placeholder(field);
    assert place[1..][0] == place[1] == '{';
    if tokens != [] {
      PlacedLater(tokens);
      var rest := Text(tokens[1..], values, done);
      match tokens[0]
      case Char(c) => assert text[0] == c;
      case Place(other) =>
        if other !in done {
          BehindNotPlace(other, rest, field, 1);
        } else if StartsWith(values(other) + rest, place[1..]) {
          MeetsInFront(values(other), rest, place[1..]);
        }
    }
  }

  lemma StartsBehind(text: string, place: string, k: nat)
    requires StartsWith(text, place) && k <= |place|
    ensures StartsWith(text[k..], place[k..])
  {
  }

  /** Harmless labels: every order gives the template with all placeholders replaced at once. */
  lemma CleanTemplates(tokens: seq<Token>, labels: Field -> string, order: seq<Field>)
    requires Clean(tokens) && HarmlessPlaces(tokens, Escaping(labels)) && IsOrder(order)
    ensures Rendered(Template(tokens), labels, order) == Digest.TrimSpace(Text(tokens, Escaping(labels), FIELDS))
  {
    hide Clean, HarmlessPlaces, Found, Rendered;
    forall done, field | field !in done ensures Found(tokens, Escaping(labels), done, field) {
      CleanIsFound(tokens, Escaping(labels), done, field);
    }
    TameIsOrderFree(tokens, labels, order);
  }

  // ----- All templates

  /** The text up to here begins with no placeholder. */
  ghost predicate Parsed(tokens: seq<Token>) {
    tokens != [] ==> Parsed(tokens[1..]) && (tokens[0].Char? ==> forall field :: !StartsWith(Template(tokens), Placeholder(field)))
  }

  function FirstPlace(template: string): Token
    requires template != ""
  {
    if StartsWith(template, Placeholder(Service)) then Place(Service)
    else if StartsWith(template, Placeholder(Environment)) then Place(Environment)
    else if StartsWith(template, Placeholder(Severity)) then Place(Severity)
    else if StartsWith(template, Placeholder(Title)) then Place(Title)
    else Char(template[0])
  }

  /** Every template, read from the left. */
  function Parse(template: string): seq<Token> {
    if template == "" then []
    else
      var first := FirstPlace(template);
      [first] + Parse(template[if first.Place? then |Placeholder(first.field)| else 1..])
  }

  lemma {:induction false} ParseIsParsed(template: string)
    ensures Template(Parse(template)) == template && Parsed(Parse(template))
    decreases |template|
  {
    if template != "" {
      hide Placeholder;
      PlaceholderNotEmpty(Service);
      var first := FirstPlace(template);
      FirstFound(template);
      var rest := template[if first.Place? then |Placeholder(first.field)| else 1..];
      ParseIsParsed(rest);
      assert Parse(template)[1..] == Parse(rest);
    }
  }

  lemma FirstFound(template: string)
    requires template != ""
    ensures var first := FirstPlace(template);
            && (first.Place? ==> StartsWith(template, Placeholder(first.field)) && |Placeholder(first.field)| > 0
                                 && Placeholder(first.field) + template[|Placeholder(first.field)|..] == template)
            && (first.Char? ==> [first.c] + template[1..] == template && forall field :: !StartsWith(template, Placeholder(field)))
  {
  }

  ghost predicate ForeignPlaces(tokens: seq<Token>, values: Field -> string) {
    forall field :: Placed(tokens, field) ==> Foreign(field, values(field))
  }

  /** A text with foreign values goes on like a placeholder only where the template did. */
  lemma {:induction false} GoesOn(tokens: seq<Token>, values: Field -> string, done: set<Field>, field: Field, j: nat)
    requires ForeignPlaces(tokens, values) && field !in done && 1 <= j <= |Placeholder(field)|
    requires StartsWith(Text(tokens, values, done), Placeholder(field)[j..])
    ensures StartsWith(Template(tokens), Placeholder(field)[j..])
  {
    if j < |Placeholder(field)| && tokens != [] {
      PlacedLater(tokens);
      var text, place, tail := Text(tokens, values, done), Placeholder(field), Text(tokens[1..], values, done);
      match tokens[0]
      case Char(c) =>
        StartsBehind(text, place[j..], 1);
        assert text[1..] == tail && place[j..][1..] == place[j + 1..];
        GoesOn(tokens[1..], values, done, field, j + 1);
        OneMore(c, Template(tokens[1..]), place, j);
      case Place(other) =>
        if other in done {
          MeetsInFront(values(other), tail, place[j..]);
        } else {
          BehindNotPlace(other, tail, field, j);
        }
    }
  }

  lemma OneMore(c: char, rest: string, place: string, j: nat)
    requires j < |place| && place[j] == c && StartsWith(rest, place[j + 1..])
    ensures StartsWith([c] + rest, place[j..])
  {
  }

  lemma BehindNotPlace(other: Field, rest: string, field: Field, j: nat)
    requires 1 <= j < |Placeholder(field)|
    ensures !StartsWith(Placeholder(other) + rest, Placeholder(field)[j..])
  {
    var text, place := Placeholder(other) + rest, Placeholder(field);
    assert text[0] == text[1] == '{';
    if j == 1 {
      assert place[j..][1] == place[2] != '{';
    } else {
      assert place[j..][0] == place[j] != '{';
    }
  }

  lemma {:induction false} ParsedIsFound(tokens: seq<Token>, values: Field -> string, done: set<Field>, field: Field)
    requires Parsed(tokens) && ForeignPlaces(tokens, values) && field !in done
    ensures Found(tokens, values, done, field)
  {
    if tokens != [] {
      PlacedLater(tokens);
      ParsedIsFound(tokens[1..], values, done, field);
      if tokens[0].Char? {
        var text, place, tail := Text(tokens, values, done), Placeholder(field), Text(tokens[1..], values, done);
        assert place[0..] == place && text[1..] == tail;
        if StartsWith(text, place) {
          StartsBehind(text, place, 1);
          GoesOn(tokens[1..], values, done, field, 1);
          OneMore(tokens[0].c, Template(tokens[1..]), place, 0);
        }
      }
    }
  }

  /** Foreign labels: the same for every template. */
  lemma AllTemplates(template: string, labels: Field -> string, order: seq<Field>)
    requires ForeignPlaces(Parse(template), Escaping(labels)) && IsOrder(order)
    ensures Rendered(template, labels, order) == Digest.TrimSpace(Text(Parse(template), Escaping(labels), FIELDS))
  {
    hide Parsed, ForeignPlaces, Found, Rendered, Parse;
    ParseIsParsed(template);
    forall done, field | field !in done ensures Found(Parse(template), Escaping(labels), done, field) {
      ParsedIsFound(Parse(template), Escaping(labels), done, field);
    }
    TameIsOrderFree(Parse(template), labels, order);
  }
}
