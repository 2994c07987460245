// Printing a request and parsing it back, in a fresh context and in one that parsed a request before.

module HttpRoundTrip {
  import opened Basics
  import opened HttpRequests
  import opened HttpContexts
  import opened HttpGrammar

  /** A request to be sent, before it becomes text. */
  datatype Outgoing = Outgoing(
    verb: Method,
    path: string,
    params: seq<Param>,
    version: Version,
    headers: seq<(string, string)>,
    body: string)

  ghost predicate WellFormed(o: Outgoing) {
    && o.verb in {Get, Post, Head, Put}
    && Word(o.path, ch => ch == '/', ch => ch != '?' && !IsBlank(ch))
    && (forall i :: 0 <= i < |o.params| ==> ValidParam(o.params[i]))
    && o.version != UnknownVersion
    && (forall i :: 0 <= i < |o.headers| ==> ValidName(o.headers[i].0) && All(o.headers[i].1, ch => ch != CR))
  }

  function VerbText(verb: Method): string {
    match verb
    case Get => "GET"
    case Post => "POST"
    case Head => "HEAD"
    case Put => "PUT"
    case _ => ""
  }

  function VersionText(version: Version): string {
    if version == Http10 then "1.0" else "1.1"
  }

  function QueryText(params: seq<Param>): string {
    if params == [] then ""
    else params[0].key + "=" + params[0].value + (if |params| == 1 then "" else "&" + QueryText(params[1..]))
  }

  function HeaderText(headers: seq<(string, string)>): string {
    if headers == [] then ""
    else headers[0].0 + ": " + headers[0].1 + "\r\n" + HeaderText(headers[1..])
  }

  /** The text of a request, as the message format lays it out. */
  function PrintRequest(o: Outgoing): string {
    VerbText(o.verb) + " " + o.path + (if o.params == [] then "" else "?" + QueryText(o.params))
    + " HTTP/" + FieldText(o)
  }

  /** From the version number on. */
  function FieldText(o: Outgoing): string {
    VersionText(o.version) + "\r\n" + HeaderText(o.headers) + "\r\n" + o.body
  }

  /** The last binding of a key wins. */
  function Bind(pairs: seq<(string, string)>): map<string, string> {
    if pairs == [] then map[] else Bind(pairs[..|pairs| - 1])[pairs[|pairs| - 1].0 := pairs[|pairs| - 1].1]
  }

  function ParamPairs(ps: seq<Param>): seq<(string, string)> {
    seq(|ps|, i requires 0 <= i < |ps| => (ps[i].key, ps[i].value))
  }

  function Expected(o: Outgoing): Request {
    Request(o.verb, o.version, Bind(ParamPairs(o.params)), o.path, "HTTP", Bind(o.headers), o.body)
  }

  // ---------- The maps ----------

  function HeaderLines(headers: seq<(string, string)>): seq<Header> {
    seq(|headers|, i requires 0 <= i < |headers| => Header(headers[i].0, " " + headers[i].1))
  }

  lemma {:induction false} StoreParamsBinds(ps: seq<Param>, into: map<string, string>)
    ensures StoreParams(ps, into) == into + Bind(ParamPairs(ps))
    decreases |ps|
  {
    if ps != [] {
      var init, last := ps[..|ps| - 1], ps[|ps| - 1];
      assert ParamPairs(ps)[..|ps| - 1] == ParamPairs(init);
      StoreParamsSnoc(ps, into);
      StoreParamsBinds(init, into);
    }
  }

  lemma {:induction false} StoreParamsSnoc(ps: seq<Param>, into: map<string, string>)
    requires ps != []
    ensures StoreParams(ps, into)
         == StoreParams(ps[..|ps| - 1], into)[ps[|ps| - 1].key := ps[|ps| - 1].value]
    decreases |ps|
  {
    if |ps| > 1 {
      StoreParamsSnoc(ps[1..], into[ps[0].key := ps[0].value]);
      assert ps[1..][..|ps| - 2] == ps[..|ps| - 1][1..];
    } else {
      assert ps[1..] == [] == ps[..|ps| - 1];
    }
  }

  /** A header as the request object keeps it. */
  function HeaderPairs(hs: seq<Header>): seq<(string, string)> {
    seq(|hs|, i requires 0 <= i < |hs| => (hs[i].name, ValueOf(hs[i])))
  }

  lemma {:induction false} StoreHeadersSnoc(hs: seq<Header>, into: map<string, string>)
    requires hs != []
    ensures StoreHeaders(hs, into)
         == StoreHeaders(hs[..|hs| - 1], into)[hs[|hs| - 1].name := ValueOf(hs[|hs| - 1])]
    decreases |hs|
  {
    if |hs| > 1 {
      StoreHeadersSnoc(hs[1..], into[hs[0].name := ValueOf(hs[0])]);
      assert hs[1..][..|hs| - 2] == hs[..|hs| - 1][1..];
    } else {
      assert hs[1..] == [] == hs[..|hs| - 1];
    }
  }

  lemma {:induction false} StoreHeadersBinds(hs: seq<Header>, into: map<string, string>)
    ensures StoreHeaders(hs, into) == into + Bind(HeaderPairs(hs))
    decreases |hs|
  {
    if hs != [] {
      var init := hs[..|hs| - 1];
      assert HeaderPairs(hs)[..|hs| - 1] == HeaderPairs(init);
      StoreHeadersSnoc(hs, into);
      StoreHeadersBinds(init, into);
    }
  }

  // ---------- The text is the text of a tree ----------

  function TreeOf(o: Outgoing): Message {
    Message("", VerbText(o.verb), ' ', "", o.path, o.params, ' ', "", "HTTP",
            Fields(VersionText(o.version), HeaderLines(o.headers), BlankLine(o.body)))
  }

  lemma LineBreak(rest: string)
    ensures [CR] + ([LF] + rest) == "\r\n" + rest
  {
  }

  lemma {:induction false} HeadersPrintAlike(headers: seq<(string, string)>, body: string)
    ensures PrintHeaders(HeaderLines(headers), BlankLine(body)) == HeaderText(headers) + ("\r\n" + body)
    decreases |headers|
  {
    if headers == [] {
      LineBreak(body);
    } else {
      var name, value, more := headers[0].0, headers[0].1, HeaderText(headers[1..]);
      var rest := PrintHeaders(HeaderLines(headers[1..]), BlankLine(body));
      HeadersPrintAlike(headers[1..], body);
      assert HeaderLines(headers)[1..] == HeaderLines(headers[1..]);
      LineBreak(rest);
      HeaderPrintsAlike(name, value, more, "\r\n" + body);
    }
  }

  lemma HeaderPrintsAlike(name: string, value: string, more: string, rest: string)
    ensures name + ([':'] + ((" " + value) + ("\r\n" + (more + rest))))
         == (name + ": " + value + "\r\n" + more) + rest
  {
    assert [':'] + ((" " + value) + ("\r\n" + (more + rest))) == ": " + (value + ("\r\n" + (more + rest)));
  }

  lemma {:induction false} ParamsPrintAlike(params: seq<Param>, rest: string)
    requires params != []
    ensures PrintParams(params, rest) == QueryText(params) + rest
    decreases |params|
  {
    if |params| > 1 {
      ParamsPrintAlike(params[1..], rest);
    }
  }

  lemma FieldsPrintAlike(o: Outgoing)
    ensures PrintFields(TreeOf(o).fields) == FieldText(o)
  {
    HeadersPrintAlike(o.headers, o.body);
    LineBreak(HeaderText(o.headers) + ("\r\n" + o.body));
  }

  lemma TargetPrintsAlike(o: Outgoing, rest: string)
    ensures o.path + (if o.params == [] then rest else ['?'] + PrintParams(o.params, rest))
         == o.path + (if o.params == [] then "" else "?" + QueryText(o.params)) + rest
    {
    if o.params != [] {
      ParamsPrintAlike(o.params, rest);
    }
  }

  lemma PrintAlike(o: Outgoing)
    ensures Print(TreeOf(o)) == PrintRequest(o)
  {
    var m := TreeOf(o);
    var fields := FieldText(o);
    var rest := [' '] + PrintProtocol(m);
    assert rest == " HTTP/" + fields by {
      FieldsPrintAlike(o);
      assert PrintProtocol(m) == "" + ("HTTP" + (['/'] + fields));
    }
    var target := o.path + (if o.params == [] then rest else ['?'] + PrintParams(o.params, rest));
    TargetPrintsAlike(o, rest);
    assert Print(m) == "" + (VerbText(o.verb) + ([' '] + ("" + target)));
    assert PrintRequest(o) == VerbText(o.verb) + " " + target;
  }

  lemma TreeOfIsValid(o: Outgoing)
    requires WellFormed(o)
    ensures Valid(TreeOf(o))
  {
    var m := TreeOf(o);
    assert Word(m.verb, IsUpper, IsUpper);
    assert Word(m.fields.version, IsDigit, ch => IsDigit(ch) || ch == '.');
    forall i | 0 <= i < |m.fields.headers| ensures ValidHeader(m.fields.headers[i]) {
      assert ValidName(o.headers[i].0) && All(o.headers[i].1, ch => ch != CR);
    }
  }

  lemma CodesRoundTrip(verb: Method, version: Version)
    requires verb in {Get, Post, Head, Put} && version != UnknownVersion
    ensures MethodOf(VerbText(verb)) == verb && VersionOf(VersionText(version)) == version
  {
  }

  lemma StoredIsExpected(o: Outgoing)
    requires WellFormed(o)
    ensures Store(TreeOf(o), FRESH)
         == Expected(o).(body := if KeepsBody(Bind(o.headers)) then o.body else "")
  {
    hide MethodOf, VersionOf, VerbText, VersionText, KeepsBody, Bind, StoreParams, StoreHeaders;
    var m := TreeOf(o);
    assert StoreParams(m.params, map[]) == Bind(ParamPairs(o.params)) by {
      StoreParamsBinds(o.params, map[]);
    }
    assert StoreHeaders(m.fields.headers, map[]) == Bind(o.headers) by {
      StoreHeadersBinds(m.fields.headers, map[]);
      assert HeaderPairs(m.fields.headers) == o.headers;
    }
    assert m.lead + m.verb == m.verb && m.gap + m.path == o.path && m.gap' + m.protocol == "HTTP";
    CodesRoundTrip(o.verb, o.version);
  }

  /** A printed request is accepted whole by a fresh context, and comes back field by field, the last of
      several equal names winning; only its body is lost when a header with the misspelt length name holds
      a number that is not positive. */
  lemma RoundTrip(o: Outgoing)
    requires WellFormed(o)
    ensures var last := Parse(PrintRequest(o), '\0', FRESH);
            && last.state == Complete && !last.illFormed
            && last.req.(body := o.body) == Expected(o)
            && (last.req == Expected(o) <==> KeepsBody(Bind(o.headers)) || o.body == "")
  {
    PrintAlike(o);
    TreeOfIsValid(o);
    TreeDecides(TreeOf(o), '\0', FRESH);
    StoredIsExpected(o);
  }

  function Names(pairs: seq<(string, string)>): set<string> { set p | p in pairs :: p.0 }

  lemma {:induction false} BindBindsNames(pairs: seq<(string, string)>)
    ensures Bind(pairs).Keys == Names(pairs)
    decreases |pairs|
  {
    if pairs != [] {
      var init, last := pairs[..|pairs| - 1], pairs[|pairs| - 1];
      BindBindsNames(init);
      assert pairs == init + [last];
    }
  }

  /** A context used again keeps the maps and the body of the last request: the next one is stored as if the
      context were fresh exactly when it names every old parameter and header again, and either its headers let
      its body be read or there was none before. */
  lemma ReuseIsFreshExactlyWhen(m: Message, before: Request)
    requires Valid(m) && m.fields.tail.BlankLine?
    ensures Parse(Print(m), '\0', before).req == Parse(Print(m), '\0', FRESH).req
       <==> && before.params.Keys <= Names(ParamPairs(m.params))
            && before.headers.Keys <= Names(HeaderPairs(m.fields.headers))
            && (KeepsBody(Bind(HeaderPairs(m.fields.headers))) || before.body == "")
  {
    TreeDecides(m, '\0', FRESH);
    TreeDecides(m, '\0', before);
    var params, headers := Bind(ParamPairs(m.params)), Bind(HeaderPairs(m.fields.headers));
    StoreParamsBinds(m.params, before.params);
    StoreParamsBinds(m.params, map[]);
    StoreHeadersBinds(m.fields.headers, before.headers);
    StoreHeadersBinds(m.fields.headers, map[]);
    BindBindsNames(ParamPairs(m.params));
    BindBindsNames(HeaderPairs(m.fields.headers));
    OverriddenExactlyWhen(before.params, params);
    OverriddenExactlyWhen(before.headers, headers);
  }

  lemma OverriddenExactlyWhen(before: map<string, string>, now: map<string, string>)
    ensures before + now == map[] + now <==> before.Keys <= now.Keys
    ensures map[] + now == now
  {
    assert (before + now).Keys == before.Keys + now.Keys;
    assert map[] + now == now;
  }

  // ---------- The failures at an input each ----------

  const ROOT := Outgoing(Get, "/", [], Http11, [], "")

  function HostOnly(): Message {
    Message("", "GET", ' ', "", "/", [], ' ', "", "HTTP", Fields("1.1", [], NoText("Host", "\n\r\n")))
  }

  lemma HostFieldsPrint()
    ensures PrintFields(HostOnly().fields) == "1.1\r\nHost:\r\n\r\n"
  {
    var t := HostOnly().fields.tail;
    assert PrintHeaders([], t) == "Host:\r\n\r\n";
  }

  lemma HostProtocolPrints()
    ensures PrintProtocol(HostOnly()) == "HTTP/1.1\r\nHost:\r\n\r\n"
  {
    HostFieldsPrint();
    hide PrintFields;
  }

  lemma HostOnlyPrints()
    ensures Print(HostOnly()) == "GET / HTTP/1.1\r\nHost:\r\n\r\n"
  {
    HostProtocolPrints();
    hide PrintProtocol, PrintFields;
    var m := HostOnly();
    var rest := [' '] + PrintProtocol(m);
    assert Print(m) == "" + ("GET" + ([' '] + ("" + ("/" + rest))));
  }

  /** A header with nothing after its colon makes the parser ask for a string that ends before it begins. */
  lemma EmptyHeaderText()
    ensures Parse("GET / HTTP/1.1\r\nHost:\r\n\r\n", '\0', FRESH).illFormed
  {
    HostOnlyPrints();
    TreeDecides(HostOnly(), '\0', FRESH) by {
      assert Valid(HostOnly());
    }
    hide Print, Parse, Store;
  }

  /** What a parse makes of the headers that the context had before. */
  lemma HeadersOverride(o: Outgoing, before: Request)
    requires WellFormed(o)
    ensures Parse(PrintRequest(o), '\0', before).req.headers == before.headers + Bind(o.headers)
  {
    PrintAlike(o);
    TreeOfIsValid(o);
    TreeDecides(TreeOf(o), '\0', before);
    hide Parse, Print, PrintRequest, Bind, StoreHeaders, StoreParams;
    StoreHeadersBinds(HeaderLines(o.headers), before.headers);
    assert HeaderPairs(HeaderLines(o.headers)) == o.headers;
  }

  lemma BindOne(name: string, value: string)
    ensures Bind([(name, value)]) == map[name := value]
  {
    assert [(name, value)][..0] == [];
  }

  /** A request without headers, parsed after one with a Host header, has that header. */
  lemma OldHeaderStays()
    ensures var first := Parse(PrintRequest(ROOT.(headers := [("Host", "a")])), '\0', FRESH).req;
      Parse(PrintRequest(ROOT), '\0', first).req.headers == map["Host" := "a"] && Expected(ROOT).headers == map[]
  {
    var o := ROOT.(headers := [("Host", "a")]);
    assert WellFormed(ROOT) && WellFormed(o);
    BindOne("Host", "a");
    hide Parse, PrintRequest, WellFormed;
    HeadersOverride(o, FRESH);
    HeadersOverride(ROOT, Parse(PrintRequest(o), '\0', FRESH).req);
  }

  /** A header that says "Content-Lenght: 0" costs a request its body. */
  lemma MisspeltLengthDropsBody()
    ensures var o := ROOT.(headers := [("Content-Lenght", "0")], body := "x");
      Parse(PrintRequest(o), '\0', FRESH).req.body == "" && Expected(o).body == "x"
  {
    var o := ROOT.(headers := [("Content-Lenght", "0")], body := "x");
    assert WellFormed(o);
    BindOne("Content-Lenght", "0");
    assert !KeepsBody(Bind(o.headers)) by {
      assert Digits("0", 0) == Digits("", 0);
    }
    hide Parse, PrintRequest, WellFormed, KeepsBody, Bind, Print, Store;
    PrintAlike(o);
    TreeOfIsValid(o);
    TreeDecides(TreeOf(o), '\0', FRESH);
    StoredIsExpected(o);
  }
}
