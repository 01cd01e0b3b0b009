/**
  * The response templates: literal text and `{{.name}}` written out, any other body through an
  * abstract deterministic engine; and the uncached rendering that coap/coap.go:171-201 computes.
  */
module Templates {
  import opened Prelude
  import opened Numerals

  /** A parsed piece of a template in the documented fragment. */
  datatype Node = Text(s: string) | Field(name: string)

  /** A parsed template: fragment nodes, or any other accepted body under its own source text. */
  datatype Template = Fragment(nodes: seq<Node>) | Other(source: string)

  /** What the model does not open: which other bodies parse, and what executing them gives.
      `render` is `None` when execution fails. */
  datatype Engine = Engine(accepts: string -> bool, render: (string, map<string, Value>) -> Option<string>)

  // ----- lexing -----------------------------------------------------------------------------

  const OPEN := "{{"
  const CLOSE := "}}"
  const NO_VALUE := "<no value>"

  /** `strings.Contains(body, "{{")`. */
  predicate HasOpen(s: string) {
    s != "" && (OPEN <= s || HasOpen(s[1..]))
  }

  predicate IsLetter(c: char) { 'a' <= c <= 'z' || 'A' <= c <= 'Z' || c == '_' }

  predicate IsAlnum(c: char) { IsLetter(c) || IsDigit(c) }

  predicate IsName(s: string) {
    s != "" && IsLetter(s[0]) && forall i :: 0 <= i < |s| ==> IsAlnum(s[i])
  }

  /** The length of the literal text before the next `{{`. */
  function TextLength(s: string): (k: nat)
    ensures k <= |s| && (k > 0 <==> s != "" && !(OPEN <= s))
  {
    if s == "" || OPEN <= s then 0 else 1 + TextLength(s[1..])
  }

  function NameLength(s: string): (k: nat)
    ensures k <= |s| && forall i :: 0 <= i < k ==> IsAlnum(s[i])
    ensures k < |s| ==> !IsAlnum(s[k])
  {
    if s == "" || !IsAlnum(s[0]) then 0 else 1 + NameLength(s[1..])
  }

  /** A `{{.name}}` action at the front of `s`: the name, if it is one. */
  function FieldAt(s: string): Option<string> {
    if !("{{." <= s) then None
    else
      var rest := s[3..];
      var name := rest[..NameLength(rest)];
      if IsName(name) && CLOSE <= rest[|name|..] then Some(name) else None
  }

  function ActionText(name: string): string { "{{." + name + "}}" }

  /** Parse in the fragment; `None` when the body has any other action. */
  function ParseNodes(s: string): Option<seq<Node>>
    decreases |s|
  {
    if s == "" then Some([])
    else if OPEN <= s then
      match FieldAt(s)
      case None => None
      case Some(name) =>
        match ParseNodes(s[|name| + 5..])
        case None => None
        case Some(rest) => Some([Field(name)] + rest)
    else
      var k := TextLength(s);
      match ParseNodes(s[k..])
      case None => None
      case Some(rest) => Some([Text(s[..k])] + rest)
  }

  /** The source text of parsed nodes. */
  function Unparse(nodes: seq<Node>): string {
    if nodes == [] then ""
    else
      var head := match nodes[0] { case Text(t) => t case Field(name) => ActionText(name) };
      head + Unparse(nodes[1..])
  }

  /** The node lists the lexer can produce: no empty or adjacent texts, no delimiter inside a text,
      and no text ending in `{` right before an action. */
  predicate WellFormed(nodes: seq<Node>) {
    nodes != [] ==>
      && WellFormed(nodes[1..])
      && match nodes[0] {
           case Field(name) => IsName(name)
           case Text(t) =>
             && t != "" && !HasOpen(t)
             && (|nodes| > 1 ==> nodes[1].Field? && t[|t| - 1] != '{')
         }
  }

  /** Executing a fragment template: texts verbatim, fields looked up in the data map. */
  function RenderNodes(nodes: seq<Node>, data: map<string, Value>): string {
    if nodes == [] then ""
    else
      var head := match nodes[0] {
        case Text(t) => t
        case Field(name) => if name in data then Print(data[name]) else NO_VALUE
      };
      head + RenderNodes(nodes[1..], data)
  }

  function Fields(nodes: seq<Node>): set<string> {
    set i | 0 <= i < |nodes| && nodes[i].Field? :: nodes[i].name
  }

  // ----- the engine -------------------------------------------------------------------------

  function Parse(engine: Engine, body: string): Option<Template> {
    match ParseNodes(body)
    case Some(nodes) => Some(Fragment(nodes))
    case None => if engine.accepts(body) then Some(Other(body)) else None
  }

  function Execute(engine: Engine, t: Template, data: map<string, Value>): Option<string> {
    match t
    case Fragment(nodes) => Some(RenderNodes(nodes, data))
    case Other(source) => engine.render(source, data)
  }

  /** The data map of a request: converted variables, with `timestamp` always the clock's. */
  function DataFor(vars: map<string, string>, stamp: string): map<string, Value> {
    map k | k in vars.Keys + {"timestamp"} :: if k == "timestamp" then Str(stamp) else Convert(vars[k])
  }

  /** The uncached rendering of a response body. */
  function RenderBody(engine: Engine, body: string, vars: map<string, string>, stamp: string): string {
    if !HasOpen(body) then body
    else match Parse(engine, body)
      case None => body
      case Some(t) =>
        match Execute(engine, t, DataFor(vars, stamp))
        case None => body
        case Some(text) => text
  }

  // ----- facts about lexing -----------------------------------------------------------------

  lemma {:induction false} TextBeforeOpen(s: string)
    ensures var k := TextLength(s);
            && !HasOpen(s[..k])
            && (k < |s| ==> OPEN <= s[k..])
            && (0 < k < |s| ==> s[k - 1] != '{')
  {
    var k := TextLength(s);
    if k == 0 {
    } else {
      TextBeforeOpen(s[1..]);
      assert s[..k][1..] == s[1..][..k - 1];
      assert s[k..] == s[1..][k - 1..];
    }
  }

  /** Text without a delimiter, not ending in `{` if an action follows, is lexed as one piece. */
  lemma {:induction false} TextLengthOf(t: string, rest: string)
    requires t != "" && !HasOpen(t)
    requires rest != "" ==> OPEN <= rest && t[|t| - 1] != '{'
    ensures TextLength(t + rest) == |t|
  {
    var s := t + rest;
    assert s[1..] == t[1..] + rest;
    if |t| > 1 {
      TextLengthOf(t[1..], rest);
    } else {
      assert s[1..] == rest;
    }
  }

  lemma {:induction false} NameLengthOf(name: string, rest: string)
    requires forall i :: 0 <= i < |name| ==> IsAlnum(name[i])
    requires rest != "" && !IsAlnum(rest[0])
    ensures NameLength(name + rest) == |name|
  {
    if name == "" {
      assert name + rest == rest;
    } else {
      assert (name + rest)[1..] == name[1..] + rest;
      NameLengthOf(name[1..], rest);
    }
  }

  lemma FieldAtFront(name: string, rest: string)
    requires IsName(name)
    ensures FieldAt(ActionText(name) + rest) == Some(name)
    ensures (ActionText(name) + rest)[|name| + 5..] == rest
    ensures OPEN <= ActionText(name) + rest
  {
    var s := ActionText(name) + rest;
    assert s == "{{." + (name + ("}}" + rest));
    assert s[3..] == name + ("}}" + rest);
    NameLengthOf(name, "}}" + rest);
  }

  lemma FieldAtText(s: string)
    requires FieldAt(s).Some?
    ensures var name := FieldAt(s).value; IsName(name) && |name| + 5 <= |s| && s == ActionText(name) + s[|name| + 5..]
  {
    var name := FieldAt(s).value;
    assert s == s[..3] + s[3..][..|name|] + s[3..][|name|..][..2] + s[|name| + 5..];
  }

  // ----- theorems ---------------------------------------------------------------------------

  /** What parsing a body promises. */
  predicate ParsedWell(s: string)
    requires ParseNodes(s).Some?
  {
    var nodes := ParseNodes(s).value;
    Unparse(nodes) == s && WellFormed(nodes) && (OPEN <= s ==> nodes != [] && nodes[0].Field?)
  }

  lemma ActionParsedWell(s: string)
    requires OPEN <= s && ParseNodes(s).Some? && FieldAt(s).Some?
    requires var rest := s[|FieldAt(s).value| + 5..]; ParseNodes(rest).Some? && ParsedWell(rest)
    ensures ParsedWell(s)
  {
    FieldAtText(s);
    var name := FieldAt(s).value;
    UnparseCons(Field(name), ParseNodes(s[|name| + 5..]).value);
  }

  lemma TextParsedWell(s: string)
    requires s != "" && !(OPEN <= s) && ParseNodes(s).Some?
    requires var rest := s[TextLength(s)..]; ParseNodes(rest).Some? && ParsedWell(rest)
    ensures ParsedWell(s)
  {
    var k := TextLength(s);
    TextBeforeOpen(s);
    UnparseCons(Text(s[..k]), ParseNodes(s[k..]).value);
    assert s == s[..k] + s[k..];
  }

  /** Parsing loses nothing: the nodes print back to the body they came from. */
  lemma {:induction false} UnparseParse(s: string)
    requires ParseNodes(s).Some?
    ensures Unparse(ParseNodes(s).value) == s && WellFormed(ParseNodes(s).value)
    ensures OPEN <= s ==> ParseNodes(s).value[0].Field?
    decreases |s|
  {
    if s == "" {
    } else if OPEN <= s {
      FieldAtText(s);
      UnparseParse(s[|FieldAt(s).value| + 5..]);
      ActionParsedWell(s);
    } else {
      UnparseParse(s[TextLength(s)..]);
      TextParsedWell(s);
    }
  }

  lemma UnparseCons(node: Node, rest: seq<Node>)
    ensures Unparse([node] + rest) ==
            (match node { case Text(t) => t case Field(name) => ActionText(name) }) + Unparse(rest)
    ensures WellFormed(rest) && (node.Field? ==> IsName(node.name)) ==>
              (node.Text? ==> node.s != "" && !HasOpen(node.s)
                              && (rest != [] ==> rest[0].Field? && node.s[|node.s| - 1] != '{')) ==>
              WellFormed([node] + rest)
  {
    assert ([node] + rest)[1..] == rest;
  }

  lemma ParseField(name: string, rest: string)
    requires IsName(name)
    ensures ParseNodes(ActionText(name) + rest) ==
            match ParseNodes(rest) { case None => None case Some(nodes) => Some([Field(name)] + nodes) }
  {
    FieldAtFront(name, rest);
  }

  lemma ParseText(t: string, rest: string)
    requires t != "" && !HasOpen(t)
    requires rest != "" ==> OPEN <= rest && t[|t| - 1] != '{'
    ensures ParseNodes(t + rest) ==
            match ParseNodes(rest) { case None => None case Some(nodes) => Some([Text(t)] + nodes) }
  {
    TextLengthOf(t, rest);
    assert (t + rest)[..|t|] == t && (t + rest)[|t|..] == rest;
  }

  lemma UnparseStartsWithAction(nodes: seq<Node>)
    requires nodes != [] && nodes[0].Field?
    ensures OPEN <= Unparse(nodes)
  {
    assert Unparse(nodes) == ActionText(nodes[0].name) + Unparse(nodes[1..]);
  }

  /** One piece in front of text that parses back. */
  lemma ParseUnparseCons(node: Node, rest: seq<Node>)
    requires WellFormed([node] + rest) && WellFormed(rest) && ParseNodes(Unparse(rest)) == Some(rest)
    ensures ParseNodes(Unparse([node] + rest)) == Some([node] + rest)
  {
    UnparseCons(node, rest);
    assert ([node] + rest)[0] == node && (rest != [] ==> ([node] + rest)[1] == rest[0]);
    match node {
      case Field(name) => ParseField(name, Unparse(rest));
      case Text(t) =>
        if rest != [] { UnparseStartsWithAction(rest); }
        ParseText(t, Unparse(rest));
    }
  }

  /** Every well-formed template text parses back to exactly its nodes. */
  lemma {:induction false} ParseUnparse(nodes: seq<Node>)
    requires WellFormed(nodes)
    ensures ParseNodes(Unparse(nodes)) == Some(nodes)
  {
    if nodes == [] {
    } else {
      ParseUnparse(nodes[1..]);
      assert nodes == [nodes[0]] + nodes[1..];
      ParseUnparseCons(nodes[0], nodes[1..]);
    }
  }

  /** The fast path agrees with the engine: a body without `{{` parses, and executes to itself on
      any data. */
  lemma FastPathAgrees(engine: Engine, body: string, data: map<string, Value>)
    requires !HasOpen(body)
    ensures Parse(engine, body).Some?
    ensures Execute(engine, Parse(engine, body).value, data) == Some(body)
  {
    if body != "" {
      TextLengthOf(body, "");
      assert body + "" == body && body[..|body|] == body && body[|body|..] == "";
      assert ParseNodes("") == Some([]);
      assert ParseNodes(body).value == [Text(body)];
    }
  }

  /** In the fragment a response never falls back to the raw body, and printing the parsed template
      gives a body with the same rendering. */
  lemma FragmentRendering(engine: Engine, body: string, vars: map<string, string>, stamp: string)
    requires ParseNodes(body).Some?
    ensures RenderBody(engine, body, vars, stamp) == RenderNodes(ParseNodes(body).value, DataFor(vars, stamp))
    ensures RenderBody(engine, Unparse(ParseNodes(body).value), vars, stamp) == RenderBody(engine, body, vars, stamp)
  {
    UnparseParse(body);
    if !HasOpen(body) {
      FastPathAgrees(engine, body, DataFor(vars, stamp));
    }
  }

  /** The data a template sees: one entry for each path variable, converted, and the clock. */
  ghost predicate IsData(vars: map<string, string>, stamp: string, data: map<string, Value>) {
    && data.Keys == vars.Keys + {"timestamp"}
    && data["timestamp"] == Str(stamp)
    && forall k :: k in vars && k != "timestamp" ==> data[k] == Convert(vars[k])
  }

  /** Outside the fragment: a body the engine does not accept, or fails to execute, is given as it is; any
      other gets what the engine makes of it. The data is the one described by `IsData`. */
  lemma OtherRendering(engine: Engine, body: string, vars: map<string, string>, stamp: string, data: map<string, Value>)
    requires ParseNodes(body).None? && IsData(vars, stamp, data)
    ensures !engine.accepts(body) ==> RenderBody(engine, body, vars, stamp) == body
    ensures engine.accepts(body) && engine.render(body, data).None? ==> RenderBody(engine, body, vars, stamp) == body
    ensures engine.accepts(body) && engine.render(body, data).Some? ==>
              RenderBody(engine, body, vars, stamp) == engine.render(body, data).value
  {
    assert data == DataFor(vars, stamp);
    if !HasOpen(body) {
      FastPathAgrees(engine, body, data);
    }
  }

  /** The names of the fragment, character by character. */
  lemma NameCharacters(c: char)
    ensures IsLetter(c) <==> c in LOWER || c in UPPER || c == '_'
    ensures IsAlnum(c) <==> IsLetter(c) || c in DIGITS
  {
    if 'a' <= c <= 'z' {
      assert LOWER[c as int - 'a' as int] == c;
    } else if 'A' <= c <= 'Z' {
      assert UPPER[c as int - 'A' as int] == c;
    } else {
      assert forall k :: 0 <= k < 26 ==> LOWER[k] as int == 'a' as int + k;
      assert forall k :: 0 <= k < 26 ==> UPPER[k] as int == 'A' as int + k;
    }
    DigitCharacters(c);
  }

  lemma DigitCharacters(c: char)
    ensures IsDigit(c) <==> c in DIGITS
  {
    if IsDigit(c) {
      assert DIGITS[c as int - '0' as int] == c;
    }
  }

  /** A body has an opening delimiter when one stands at some position. */
  lemma {:induction false} HasOpenIff(s: string)
    ensures HasOpen(s) <==> exists i :: 0 <= i < |s| - 1 && s[i] == '{' && s[i + 1] == '{'
  {
    if s == "" {
    } else {
      HasOpenIff(s[1..]);
      assert OPEN <= s <==> |s| > 1 && s[0] == '{' && s[1] == '{';
      if i :| 0 <= i < |s| - 1 && s[i] == '{' && s[i + 1] == '{' && i > 0 {
        assert s[1..][i - 1] == '{' && s[1..][i - 1 + 1] == '{';
      }
    }
  }

  /** A rendering depends on the data only through the fields the template names. */
  lemma {:induction false} RenderingReadsFieldsOnly(nodes: seq<Node>, d1: map<string, Value>, d2: map<string, Value>)
    requires forall f :: f in Fields(nodes) ==> (f in d1 <==> f in d2) && (f in d1 ==> d1[f] == d2[f])
    ensures RenderNodes(nodes, d1) == RenderNodes(nodes, d2)
  {
    if nodes == [] {
    } else {
      forall f | f in Fields(nodes[1..]) ensures f in Fields(nodes) {
        var i :| 0 <= i < |nodes[1..]| && nodes[1..][i].Field? && nodes[1..][i].name == f;
        assert nodes[i + 1].Field? && nodes[i + 1].name == f;
      }
      if nodes[0].Field? {
        assert nodes[0].name in Fields(nodes);
      }
      RenderingReadsFieldsOnly(nodes[1..], d1, d2);
    }
  }

  /** What one node prints. */
  function PieceText(node: Node, data: map<string, Value>): string {
    match node
    case Text(t) => t
    case Field(name) => if name in data then Print(data[name]) else NO_VALUE
  }

  /** Rendering is substitution, piece by piece: any node prints its own text between what is rendered
      before and after it. */
  lemma {:induction false} RenderingSubstitutes(before: seq<Node>, node: Node, after: seq<Node>,
                                                data: map<string, Value>)
    ensures RenderNodes(before + [node] + after, data) ==
            RenderNodes(before, data) + PieceText(node, data) + RenderNodes(after, data)
  {
    var all := before + [node] + after;
    if before == [] {
      assert all == [node] + after && all[1..] == after;
    } else {
      assert all[0] == before[0] && all[1..] == before[1..] + [node] + after;
      RenderingSubstitutes(before[1..], node, after, data);
      var head, rest := PieceText(before[0], data), RenderNodes(before[1..], data);
      assert RenderNodes(before, data) == head + rest;
      Assoc(head, rest + PieceText(node, data), RenderNodes(after, data));
      Assoc(head, rest, PieceText(node, data));
    }
  }

  lemma {:induction false} UnparseAppend(a: seq<Node>, b: seq<Node>)
    ensures Unparse(a + b) == Unparse(a) + Unparse(b)
  {
    if a == [] {
      assert a + b == b;
    } else {
      assert (a + b)[1..] == a[1..] + b;
      UnparseAppend(a[1..], b);
    }
  }

  /** The nodes do not end in text whose last character is `{`. */
  predicate MayPrecedeAction(nodes: seq<Node>) {
    nodes != [] && nodes[|nodes| - 1].Text? ==>
      var t := nodes[|nodes| - 1].s; t != "" && t[|t| - 1] != '{'
  }

  lemma {:induction false} WellFormedAround(before: seq<Node>, name: string, after: seq<Node>)
    requires WellFormed(before) && IsName(name) && WellFormed(after) && MayPrecedeAction(before)
    ensures WellFormed(before + [Field(name)] + after)
  {
    var all := before + [Field(name)] + after;
    if before == [] {
      assert all[0] == Field(name) && all[1..] == after;
    } else {
      var rest := before[1..];
      assert all[0] == before[0] && all[1..] == rest + [Field(name)] + after;
      assert rest != [] ==> all[1] == before[1];
      WellFormedAround(rest, name, after);
    }
  }

  lemma {:induction false} LastTextNotEmpty(nodes: seq<Node>)
    requires WellFormed(nodes) && nodes != [] && nodes[|nodes| - 1].Text?
    ensures nodes[|nodes| - 1].s != ""
  {
    if |nodes| == 1 {
    } else {
      LastTextNotEmpty(nodes[1..]);
    }
  }

  lemma EndsInText(nodes: seq<Node>)
    requires nodes != [] && nodes[|nodes| - 1].Text?
    ensures Unparse(nodes) == Unparse(nodes[..|nodes| - 1]) + nodes[|nodes| - 1].s
  {
    var init, last := nodes[..|nodes| - 1], nodes[|nodes| - 1];
    assert nodes == init + [last];
    UnparseAppend(init, [last]);
    UnparseText(last.s);
  }

  lemma LastOfSum(a: string, b: string)
    requires b != ""
    ensures a + b != "" && (a + b)[|a + b| - 1] == b[|b| - 1]
  {
  }

  /** What the nodes print ends in their last text. */
  lemma PrecedesAction(nodes: seq<Node>)
    requires WellFormed(nodes)
    requires Unparse(nodes) != "" ==> Unparse(nodes)[|Unparse(nodes)| - 1] != '{'
    ensures MayPrecedeAction(nodes)
  {
    if nodes != [] && nodes[|nodes| - 1].Text? {
      LastTextNotEmpty(nodes);
      EndsInText(nodes);
      LastOfSum(Unparse(nodes[..|nodes| - 1]), nodes[|nodes| - 1].s);
    }
  }

  lemma UnparseText(t: string)
    ensures Unparse([Text(t)]) == t
  {
    assert [Text(t)][1..] == [] && t + "" == t;
  }

  /** Substitution in a response body: wherever an action stands in a documented body, its variable's
      value is printed there, the clock's for `timestamp`, and the text on either side renders as it
      would alone. Only a `{` right before the action would be read as part of the delimiter. */
  lemma BodySubstitutes(engine: Engine, before: string, name: string, after: string,
                        vars: map<string, string>, stamp: string)
    requires ParseNodes(before).Some? && ParseNodes(after).Some? && IsName(name)
    requires before != "" ==> before[|before| - 1] != '{'
    ensures RenderBody(engine, before + ("{{." + name + "}}") + after, vars, stamp) ==
            RenderBody(engine, before, vars, stamp)
            + (if name == "timestamp" then stamp else if name in vars then Print(Convert(vars[name])) else NO_VALUE)
            + RenderBody(engine, after, vars, stamp)
  {
    var a, b := ParseNodes(before).value, ParseNodes(after).value;
    var all, data := a + [Field(name)] + b, DataFor(vars, stamp);
    UnparseParse(before);
    UnparseParse(after);
    PrecedesAction(a);
    WellFormedAround(a, name, b);
    UnparseAround(a, name, b);
    ParseUnparse(all);
    RenderingSubstitutes(a, Field(name), b, data);
    FragmentRendering(engine, before, vars, stamp);
    FragmentRendering(engine, after, vars, stamp);
    FragmentRendering(engine, before + ActionText(name) + after, vars, stamp);
  }

  lemma UnparseAround(a: seq<Node>, name: string, b: seq<Node>)
    ensures Unparse(a + [Field(name)] + b) == Unparse(a) + ActionText(name) + Unparse(b)
  {
    UnparseAppend(a + [Field(name)], b);
    UnparseAppend(a, [Field(name)]);
    assert [Field(name)][1..] == [];
    assert ActionText(name) + "" == ActionText(name);
  }

  /** `timestamp` in a response is the clock's, whatever the path variables say. */
  lemma TimestampOverrides(engine: Engine, body: string, vars: map<string, string>, other: string, stamp: string)
    ensures RenderBody(engine, body, vars["timestamp" := other], stamp) == RenderBody(engine, body, vars, stamp)
  {
    assert DataFor(vars["timestamp" := other], stamp) == DataFor(vars, stamp);
  }

  // ----- the loops --------------------------------------------------------------------------

  /** The variable loop both servers share, visiting the map in an arbitrary order. */
  method FillData(vars: map<string, string>, stamp: string) returns (data: map<string, Value>)
    ensures data == DataFor(vars, stamp)
  {
    data := map[];
    var rest := vars.Keys;
    while rest != {}
      invariant rest <= vars.Keys
      invariant data == map k | k in vars.Keys - rest :: Convert(vars[k])
      decreases rest
    {
      var k :| k in rest;
      match Atoi(vars[k]) {
        case Some(id) => data := data[k := Num(id)];
        case None => data := data[k := Str(vars[k])];
      }
      rest := rest - {k};
    }
    data := data["timestamp" := Str(stamp)];
  }

  /** coap/coap.go:171-201: parse afresh, fill the data map, execute, fall back to the raw body. */
  method CoapProcessTemplate(engine: Engine, body: string, vars: map<string, string>, stamp: string)
    returns (text: string)
    ensures text == RenderBody(engine, body, vars, stamp)
  {
    if !HasOpen(body) {
      return body;
    }
    var tmpl := Parse(engine, body);
    if tmpl.None? {
      return body;
    }
    var data := FillData(vars, stamp);
    match Execute(engine, tmpl.value, data) {
      case None => return body;
      case Some(out) => return out;
    }
  }
}
