// What the request machine accepts, stated apart from it: a grammar given by printing its parse trees.
// The machine accepts a message exactly when some well-formed tree prints it, and stores that tree's parts.

module HttpGrammar {
  import opened Basics
  import opened HttpRequests
  import opened HttpContexts

  datatype Param = Param(key: string, value: string)

  /** `text` is everything between the colon and CR. */
  datatype Header = Header(name: string, text: string)

  /** A message ends with a blank line and a body, or goes wrong at a header with nothing between its
      colon and CR. */
  datatype Tail = BlankLine(body: string) | NoText(name: string, rest: string)

  datatype Fields = Fields(version: string, headers: seq<Header>, tail: Tail)

  datatype Message = Message(
    lead: string,       // white space skipped before the method, kept as part of it
    verb: string,
    blank: char,
    gap: string,        // further blanks, kept as part of the path
    path: string,
    params: seq<Param>,
    blank': char,
    gap': string,       // further blanks, kept as part of the protocol
    protocol: string,
    fields: Fields)

  // ---------- The grammar ----------

  ghost predicate All(s: string, p: char -> bool) { forall i :: 0 <= i < |s| ==> p(s[i]) }

  /** A first character in `first`, then only characters in `rest`. */
  ghost predicate Word(s: string, first: char -> bool, rest: char -> bool) {
    s != "" && first(s[0]) && All(s[1..], rest)
  }

  /** The characters that leave the machine in state `q`. */
  predicate Stays(q: State, ch: char) {
    match q
    case Start => ch == CR || ch == LF || IsBlank(ch)
    case InMethod => IsUpper(ch)
    case BeforeUrl => IsBlank(ch)
    case InUrl => ch != '?' && !IsBlank(ch)
    case ParamKey => ch != '=' && !IsBlank(ch)
    case ParamValue => ch != '&' && !IsBlank(ch)
    case BeforeProtocol => IsBlank(ch)
    case Protocol => ch != '/'
    case InVersion => IsDigit(ch) || ch == '.'
    case HeaderKey => ch != ':'
    case HeaderValue => ch != CR
    case _ => false
  }

  predicate StartsText(ch: char) { !IsBlank(ch) && ch != CR && ch != LF }

  ghost predicate ValidParam(p: Param) {
    && Word(p.key, StartsText, ch => ch != '=' && !IsBlank(ch))
    && Word(p.value, StartsText, ch => ch != '&' && !IsBlank(ch))
  }

  ghost predicate ValidName(name: string) {
    Word(name, ch => ch != CR && !IsBlank(ch), ch => ch != ':')
  }

  ghost predicate ValidHeader(h: Header) {
    ValidName(h.name) && h.text != "" && All(h.text, ch => ch != CR)
  }

  ghost predicate ValidFields(f: Fields) {
    && Word(f.version, IsDigit, ch => IsDigit(ch) || ch == '.')
    && (forall i :: 0 <= i < |f.headers| ==> ValidHeader(f.headers[i]))
    && (f.tail.NoText? ==> ValidName(f.tail.name))
  }

  ghost predicate Valid(m: Message) {
    && All(m.lead, ch => ch == CR || ch == LF || IsBlank(ch))
    && Word(m.verb, IsUpper, IsUpper)
    && IsBlank(m.blank) && All(m.gap, IsBlank)
    && Word(m.path, ch => ch == '/', ch => ch != '?' && !IsBlank(ch))
    && (forall i :: 0 <= i < |m.params| ==> ValidParam(m.params[i]))
    && IsBlank(m.blank') && All(m.gap', IsBlank)
    && Word(m.protocol, ch => !IsBlank(ch), ch => ch != '/')
    && ValidFields(m.fields)
  }

  function PrintTail(t: Tail): string {
    match t
    case BlankLine(body) => [CR] + ([LF] + body)
    case NoText(name, rest) => name + ([':'] + ([CR] + rest))
  }

  function PrintHeaders(hs: seq<Header>, t: Tail): string {
    if hs == [] then PrintTail(t)
    else hs[0].name + ([':'] + (hs[0].text + ([CR] + ([LF] + PrintHeaders(hs[1..], t)))))
  }

  function PrintFields(f: Fields): string {
    f.version + ([CR] + ([LF] + PrintHeaders(f.headers, f.tail)))
  }

  function PrintParams(ps: seq<Param>, rest: string): string
    requires ps != []
  {
    ps[0].key + (['='] + (ps[0].value +
      if |ps| == 1 then rest else ['&'] + PrintParams(ps[1..], rest)))
  }

  function PrintProtocol(m: Message): string {
    m.gap' + (m.protocol + (['/'] + PrintFields(m.fields)))
  }

  function Print(m: Message): string {
    var rest := [m.blank'] + PrintProtocol(m);
    m.lead + (m.verb + ([m.blank] + (m.gap + (m.path +
      if m.params == [] then rest else ['?'] + PrintParams(m.params, rest)))))
  }

  // ---------- What a parse tree makes of a request object ----------

  function StoreParams(ps: seq<Param>, into: map<string, string>): map<string, string> {
    if ps == [] then into else StoreParams(ps[1..], into[ps[0].key := ps[0].value])
  }

  /** The stored value: the header's text less its first character, whatever that is. */
  function ValueOf(h: Header): string {
    if h.text == "" then "" else h.text[1..]
  }

  function StoreHeaders(hs: seq<Header>, into: map<string, string>): map<string, string> {
    if hs == [] then into else StoreHeaders(hs[1..], into[hs[0].name := ValueOf(hs[0])])
  }

  /** Whether the rest of the message after the blank line is stored: always, but for a misspelt length header
      whose number is not positive. */
  predicate KeepsBody(headers: map<string, string>) {
    "Content-Lenght" in headers ==> Atoi(headers["Content-Lenght"]) > 0
  }

  function StoreFields(f: Fields, into: Request): Request {
    var headers := StoreHeaders(f.headers, into.headers);
    into.(version := VersionOf(f.version), headers := headers,
          body := if f.tail.BlankLine? && KeepsBody(headers) then f.tail.body else into.body)
  }

  function Store(m: Message, into: Request): Request {
    StoreFields(m.fields, into.(verb := MethodOf(m.lead + m.verb), url := m.gap + m.path,
                                params := StoreParams(m.params, into.params),
                                protocol := m.gap' + m.protocol))
  }

  // ---------- Runs through the characters of one part ----------

  lemma SplitAt(s: string, i: nat, w: string, r: string)
    requires i <= |s| && s[i..] == w + r
    ensures i + |w| <= |s| && s[i..i + |w|] == w && s[i + |w|..] == r
    ensures forall k :: i <= k < i + |w| ==> s[k] == w[k - i]
  {
    assert |s[i..]| == |w| + |r|;
    forall k | i <= k < i + |w| ensures s[k] == w[k - i] {
      assert s[k] == s[i..][k - i];
    }
    assert s[i + |w|..] == s[i..][|w|..];
  }

  lemma Join(s: string, i: nat, j: nat, k: nat)
    requires i <= j <= k <= |s|
    ensures s[i..k] == s[i..j] + s[j..k]
  {
  }

  /** The unread rest of the message. */
  ghost function Rest(c: Cursor, buf: string, size: nat): string
    requires c.end <= size < |buf|
  {
    buf[c.end..size]
  }

  ghost predicate At(c: Cursor, q: State, buf: string, size: nat) {
    c.state == q && !c.illFormed && c.start <= c.end <= size < |buf|
  }

  lemma StayingTurns(c: Cursor, buf: string, size: nat)
    requires At(c, c.state, buf, size) && c.end < size && Stays(c.state, buf[c.end])
    ensures Running(c) && Step(c, buf, size) == c.(end := c.end + 1)
  {
  }

  lemma Unroll(c: Cursor, buf: string, size: nat)
    requires At(c, c.state, buf, size) && Running(c)
    ensures Exec(c, buf, size) == Exec(Step(c, buf, size), buf, size)
  {
  }

  lemma {:induction false} StayingSkips(c: Cursor, n: nat, buf: string, size: nat)
    requires At(c, c.state, buf, size) && c.end + n <= size
    requires forall k :: c.end <= k < c.end + n ==> Stays(c.state, buf[k])
    ensures Exec(c, buf, size) == Exec(c.(end := c.end + n), buf, size)
    decreases n
  {
    if n > 0 {
      StayingTurns(c, buf, size);
      Unroll(c, buf, size);
      StayingSkips(c.(end := c.end + 1), n - 1, buf, size);
    }
  }

  lemma FrontOfRest(c: Cursor, w: string, r: string, buf: string, size: nat)
    requires c.end <= size < |buf| && Rest(c, buf, size) == w + r
    ensures c.end + |w| <= size && buf[c.end + |w|..size] == r && buf[c.end..c.end + |w|] == w
    ensures forall k :: c.end <= k < c.end + |w| ==> buf[k] == w[k - c.end]
  {
    var s := buf[..size];
    assert s[c.end..] == buf[c.end..size];
    SplitAt(s, c.end, w, r);
    assert forall k :: c.end <= k < size ==> s[k] == buf[k];
  }

  /** Reads the word `w` off the front of the rest without leaving the state. */
  lemma Skip(c: Cursor, w: string, r: string, buf: string, size: nat) returns (c': Cursor)
    requires At(c, c.state, buf, size) && Rest(c, buf, size) == w + r
    requires forall k :: 0 <= k < |w| ==> Stays(c.state, w[k])
    ensures c' == c.(end := c.end + |w|) && At(c', c.state, buf, size)
    ensures Rest(c', buf, size) == r && buf[c.end..c'.end] == w
    ensures Exec(c, buf, size) == Exec(c', buf, size)
  {
    hide Exec, Step;
    c' := c.(end := c.end + |w|);
    FrontOfRest(c, w, r, buf, size);
    StayingSkips(c, |w|, buf, size);
  }

  /** Reads one character off the front of the rest. */
  lemma Turn(c: Cursor, x: char, r: string, buf: string, size: nat) returns (c': Cursor)
    requires At(c, c.state, buf, size) && Running(c) && Rest(c, buf, size) == [x] + r
    ensures buf[c.end] == x && c.end < size && c' == Step(c, buf, size)
    ensures Exec(c, buf, size) == Exec(c', buf, size)
    ensures !c'.illFormed ==> c'.end == c.end + 1 && Rest(c', buf, size) == r
  {
    assert c.end < size && buf[c.end] == x && buf[c.end + 1..size] == r by {
      assert Rest(c, buf, size)[0] == x && |Rest(c, buf, size)| == 1 + |r|;
      assert buf[c.end + 1..size] == Rest(c, buf, size)[1..];
    }
    c' := Step(c, buf, size);
    Unroll(c, buf, size);
  }

  /** Reads to the first character that leaves the state, or to the end of the message. */
  lemma SkipAll(c: Cursor, buf: string, size: nat) returns (c': Cursor, w: string, r: string)
    requires At(c, c.state, buf, size)
    ensures c' == c.(end := c.end + |w|) && At(c', c.state, buf, size)
    ensures Rest(c, buf, size) == w + r && Rest(c', buf, size) == r && buf[c.end..c'.end] == w
    ensures forall k :: 0 <= k < |w| ==> Stays(c.state, w[k])
    ensures r == "" || !Stays(c.state, r[0])
    ensures Exec(c, buf, size) == Exec(c', buf, size)
  {
    var n := 0;
    while c.end + n < size && Stays(c.state, buf[c.end + n])
      invariant c.end + n <= size
      invariant forall k :: c.end <= k < c.end + n ==> Stays(c.state, buf[k])
    {
      n := n + 1;
    }
    c', w, r := c.(end := c.end + n), buf[c.end..c.end + n], buf[c.end + n..size];
    assert Rest(c, buf, size) == w + r;
    StayingSkips(c, n, buf, size);
  }

  /** The characters that take the machine from state `q` into the body of a word, state `q'`. */
  predicate Opens(q: State, q': State, ch: char) {
    match q
    case Start => q' == InMethod && IsUpper(ch)
    case BeforeUrl => q' == InUrl && ch == '/'
    case BeforeParamKey => q' == ParamKey && StartsText(ch)
    case BeforeParamValue => q' == ParamValue && StartsText(ch)
    case BeforeProtocol => q' == Protocol && !IsBlank(ch)
    case BeforeVersion => q' == InVersion && IsDigit(ch)
    case CrLf => q' == HeaderKey && ch != CR && !IsBlank(ch)
    case _ => false
  }

  lemma OpeningTurns(c: Cursor, q: State, buf: string, size: nat)
    requires At(c, c.state, buf, size) && c.end < size && Opens(c.state, q, buf[c.end])
    ensures Running(c) && Step(c, buf, size) == c.(state := q, end := c.end + 1)
  {
  }

  /** Reads the word `w` off the front of the rest. */
  lemma ReadWord(c: Cursor, q: State, w: string, r: string, buf: string, size: nat) returns (c': Cursor)
    requires At(c, c.state, buf, size) && Rest(c, buf, size) == w + r
    requires w != "" && Opens(c.state, q, w[0]) && forall k :: 1 <= k < |w| ==> Stays(q, w[k])
    ensures c' == c.(state := q, end := c.end + |w|) && At(c', q, buf, size)
    ensures Rest(c', buf, size) == r && buf[c.end..c'.end] == w
    ensures Exec(c, buf, size) == Exec(c', buf, size)
  {
    hide Exec, Step;
    c' := c.(state := q, end := c.end + |w|);
    var c1 := c.(state := q, end := c.end + 1);
    FrontOfRest(c, w, r, buf, size);
    OpeningTurns(c, q, buf, size);
    Unroll(c, buf, size);
    StayingSkips(c1, |w| - 1, buf, size);
  }

  // ---------- Every tree is read back ----------

  lemma ReadVerb(c: Cursor, lead: string, verb: string, blank: char, r: string, buf: string, size: nat)
    returns (c': Cursor)
    requires At(c, Start, buf, size) && c.start == c.end && Rest(c, buf, size) == lead + (verb + ([blank] + r))
    requires All(lead, ch => ch == CR || ch == LF || IsBlank(ch)) && Word(verb, IsUpper, IsUpper) && IsBlank(blank)
    ensures At(c', BeforeUrl, buf, size) && c'.start == c'.end && Rest(c', buf, size) == r
    ensures c'.req == c.req.(verb := MethodOf(lead + verb))
    ensures Exec(c, buf, size) == Exec(c', buf, size)
  {
    var c1 := Skip(c, lead, verb + ([blank] + r), buf, size);
    var c2 := ReadWord(c1, InMethod, verb, [blank] + r, buf, size);
    Join(buf, c.end, c1.end, c2.end);
    c' := Turn(c2, blank, r, buf, size);
  }

  lemma ReadPath(c: Cursor, gap: string, path: string, end: char, r: string, buf: string, size: nat)
    returns (c': Cursor)
    requires At(c, BeforeUrl, buf, size) && c.start == c.end && Rest(c, buf, size) == gap + (path + ([end] + r))
    requires All(gap, IsBlank) && Word(path, ch => ch == '/', ch => ch != '?' && !IsBlank(ch))
    requires end == '?' || IsBlank(end)
    ensures At(c', if end == '?' then BeforeParamKey else BeforeProtocol, buf, size)
    ensures c'.start == c'.end && Rest(c', buf, size) == r
    ensures c'.req == c.req.(url := gap + path)
    ensures Exec(c, buf, size) == Exec(c', buf, size)
  {
    var c1 := Skip(c, gap, path + ([end] + r), buf, size);
    var c2 := ReadWord(c1, InUrl, path, [end] + r, buf, size);
    Join(buf, c.end, c1.end, c2.end);
    c' := Turn(c2, end, r, buf, size);
  }

  lemma ReadKey(c: Cursor, key: string, r: string, buf: string, size: nat) returns (c': Cursor)
    requires At(c, BeforeParamKey, buf, size) && c.start == c.end
    requires Rest(c, buf, size) == key + (['='] + r) && Word(key, StartsText, ch => ch != '=' && !IsBlank(ch))
    ensures At(c', BeforeParamValue, buf, size) && c'.start == c.start && c'.end == c'.colon + 1
    ensures c'.start < c'.colon && buf[c'.start..c'.colon] == key
    ensures Rest(c', buf, size) == r && c'.req == c.req
    ensures Exec(c, buf, size) == Exec(c', buf, size)
  {
    var c1 := ReadWord(c, ParamKey, key, ['='] + r, buf, size);
    c' := Turn(c1, '=', r, buf, size);
  }

  lemma CloseValue(c: Cursor, value: string, end: char, r: string, buf: string, size: nat) returns (c': Cursor)
    requires At(c, ParamValue, buf, size) && c.start <= c.colon < c.end && buf[c.colon + 1..c.end] == value
    requires Rest(c, buf, size) == [end] + r && (end == '&' || IsBlank(end))
    ensures At(c', if end == '&' then BeforeParamKey else BeforeProtocol, buf, size)
    ensures c'.start == c'.end && Rest(c', buf, size) == r
    ensures c'.req == c.req.(params := c.req.params[buf[c.start..c.colon] := value])
    ensures Exec(c, buf, size) == Exec(c', buf, size)
  {
    hide Exec;
    c' := Turn(c, end, r, buf, size);
  }

  lemma ReadValue(c: Cursor, value: string, end: char, r: string, buf: string, size: nat) returns (c': Cursor)
    requires At(c, BeforeParamValue, buf, size) && c.start <= c.colon && c.end == c.colon + 1
    requires Rest(c, buf, size) == value + ([end] + r) && Word(value, StartsText, ch => ch != '&' && !IsBlank(ch))
    requires end == '&' || IsBlank(end)
    ensures At(c', if end == '&' then BeforeParamKey else BeforeProtocol, buf, size)
    ensures c'.start == c'.end && Rest(c', buf, size) == r
    ensures c'.req == c.req.(params := c.req.params[buf[c.start..c.colon] := value])
    ensures Exec(c, buf, size) == Exec(c', buf, size)
  {
    hide Exec, Step;
    var c1 := ReadWord(c, ParamValue, value, [end] + r, buf, size);
    c' := CloseValue(c1, value, end, r, buf, size);
  }

  lemma ReadParam(c: Cursor, p: Param, end: char, r: string, buf: string, size: nat) returns (c': Cursor)
    requires At(c, BeforeParamKey, buf, size) && c.start == c.end
    requires Rest(c, buf, size) == p.key + (['='] + (p.value + ([end] + r)))
    requires ValidParam(p) && (end == '&' || IsBlank(end))
    ensures At(c', if end == '&' then BeforeParamKey else BeforeProtocol, buf, size)
    ensures c'.start == c'.end && Rest(c', buf, size) == r
    ensures c'.req == c.req.(params := c.req.params[p.key := p.value])
    ensures Exec(c, buf, size) == Exec(c', buf, size)
  {
    var c1 := ReadKey(c, p.key, p.value + ([end] + r), buf, size);
    c' := ReadValue(c1, p.value, end, r, buf, size);
  }

  lemma {:induction false} ReadParams(c: Cursor, ps: seq<Param>, blank: char, r: string, buf: string, size: nat)
    returns (c': Cursor)
    requires At(c, BeforeParamKey, buf, size) && c.start == c.end
    requires ps != [] && Rest(c, buf, size) == PrintParams(ps, [blank] + r)
    requires (forall i :: 0 <= i < |ps| ==> ValidParam(ps[i])) && IsBlank(blank)
    ensures At(c', BeforeProtocol, buf, size) && c'.start == c'.end && Rest(c', buf, size) == r
    ensures c'.req == c.req.(params := StoreParams(ps, c.req.params))
    ensures Exec(c, buf, size) == Exec(c', buf, size)
    decreases |ps|
  {
    if |ps| == 1 {
      c' := ReadParam(c, ps[0], blank, r, buf, size);
      assert StoreParams(ps[1..], c'.req.params) == c'.req.params;
    } else {
      var c1 := ReadParam(c, ps[0], '&', PrintParams(ps[1..], [blank] + r), buf, size);
      c' := ReadParams(c1, ps[1..], blank, r, buf, size);
    }
  }

  lemma ReadProtocol(c: Cursor, gap: string, protocol: string, r: string, buf: string, size: nat)
    returns (c': Cursor)
    requires At(c, BeforeProtocol, buf, size) && c.start == c.end
    requires Rest(c, buf, size) == gap + (protocol + (['/'] + r))
    requires All(gap, IsBlank) && Word(protocol, ch => !IsBlank(ch), ch => ch != '/')
    ensures At(c', BeforeVersion, buf, size) && c'.start == c'.end && Rest(c', buf, size) == r
    ensures c'.req == c.req.(protocol := gap + protocol)
    ensures Exec(c, buf, size) == Exec(c', buf, size)
  {
    var c1 := Skip(c, gap, protocol + (['/'] + r), buf, size);
    var c2 := ReadWord(c1, Protocol, protocol, ['/'] + r, buf, size);
    Join(buf, c.end, c1.end, c2.end);
    c' := Turn(c2, '/', r, buf, size);
  }

  /** The line feed after a line's CR. */
  lemma ReadLineFeed(c: Cursor, r: string, buf: string, size: nat) returns (c': Cursor)
    requires At(c, WhenCr, buf, size) && Rest(c, buf, size) == [LF] + r
    ensures At(c', CrLf, buf, size) && c'.start == c'.end && Rest(c', buf, size) == r && c'.req == c.req
    ensures Exec(c, buf, size) == Exec(c', buf, size)
  {
    c' := Turn(c, LF, r, buf, size);
  }

  lemma ReadVersion(c: Cursor, version: string, r: string, buf: string, size: nat) returns (c': Cursor)
    requires At(c, BeforeVersion, buf, size) && c.start == c.end
    requires Rest(c, buf, size) == version + ([CR] + ([LF] + r))
    requires Word(version, IsDigit, ch => IsDigit(ch) || ch == '.')
    ensures At(c', CrLf, buf, size) && c'.start == c'.end && Rest(c', buf, size) == r
    ensures c'.req == c.req.(version := VersionOf(version))
    ensures Exec(c, buf, size) == Exec(c', buf, size)
  {
    var c1 := ReadWord(c, InVersion, version, [CR] + ([LF] + r), buf, size);
    var c2 := Turn(c1, CR, [LF] + r, buf, size);
    c' := ReadLineFeed(c2, r, buf, size);
  }

  lemma ReadName(c: Cursor, name: string, r: string, buf: string, size: nat) returns (c': Cursor)
    requires At(c, CrLf, buf, size) && c.start == c.end
    requires Rest(c, buf, size) == name + ([':'] + r) && ValidName(name)
    ensures At(c', HeaderValue, buf, size) && c'.start == c.start && c'.end == c'.colon + 1
    ensures c'.start < c'.colon && buf[c'.start..c'.colon] == name
    ensures Rest(c', buf, size) == r && c'.req == c.req
    ensures Exec(c, buf, size) == Exec(c', buf, size)
  {
    var c1 := ReadWord(c, HeaderKey, name, [':'] + r, buf, size);
    c' := Turn(c1, ':', r, buf, size);
  }

  lemma ReadText(c: Cursor, text: string, r: string, buf: string, size: nat) returns (c': Cursor)
    requires At(c, HeaderValue, buf, size) && c.start <= c.colon && c.end == c.colon + 1
    requires Rest(c, buf, size) == text + ([CR] + r) && text != "" && All(text, ch => ch != CR)
    ensures At(c', WhenCr, buf, size) && Rest(c', buf, size) == r
    ensures c'.req == c.req.(headers := c.req.headers[buf[c.start..c.colon] := text[1..]])
    ensures Exec(c, buf, size) == Exec(c', buf, size)
  {
    hide Exec;
    var c1 := Skip(c, text, [CR] + r, buf, size);
    assert buf[c1.colon + 2..c1.end] == text[1..] by {
      assert buf[c.end..c1.end][1..] == buf[c1.colon + 2..c1.end];
    }
    c' := Turn(c1, CR, r, buf, size);
  }

  lemma ReadHeader(c: Cursor, h: Header, r: string, buf: string, size: nat) returns (c': Cursor)
    requires At(c, CrLf, buf, size) && c.start == c.end && ValidHeader(h)
    requires Rest(c, buf, size) == h.name + ([':'] + (h.text + ([CR] + ([LF] + r))))
    ensures At(c', CrLf, buf, size) && c'.start == c'.end && Rest(c', buf, size) == r
    ensures c'.req == c.req.(headers := c.req.headers[h.name := ValueOf(h)])
    ensures Exec(c, buf, size) == Exec(c', buf, size)
  {
    var c1 := ReadName(c, h.name, h.text + ([CR] + ([LF] + r)), buf, size);
    var c2 := ReadText(c1, h.text, [LF] + r, buf, size);
    c' := ReadLineFeed(c2, r, buf, size);
  }

  /** The end of the loop on a tail. */
  ghost predicate Ends(last: Cursor, t: Tail, req: Request) {
    match t
    case BlankLine(body) =>
      && last.state == Complete && !last.illFormed
      && last.req == req.(body := if KeepsBody(req.headers) then body else req.body)
    case NoText(_, _) => last.illFormed && last.req == req
  }

  lemma ReadBody(c: Cursor, body: string, buf: string, size: nat)
    requires At(c, Body, buf, size) && c.start == c.end && Rest(c, buf, size) == body
    ensures Exec(c, buf, size) == c.(state := Complete, end := c.end + 1, req := c.req.(body := body))
  {
    Unroll(c, buf, size);
    assert body == buf[c.start..c.start + (size - c.end)];
  }

  lemma ReadBlankLine(c: Cursor, body: string, buf: string, size: nat)
    requires At(c, CrLf, buf, size) && Rest(c, buf, size) == [CR] + ([LF] + body)
    ensures Ends(Exec(c, buf, size), BlankLine(body), c.req)
  {
    var c1 := Turn(c, CR, [LF] + body, buf, size);
    var c2 := Turn(c1, LF, body, buf, size);
    if c2.state == Body {
      ReadBody(c2, body, buf, size);
    }
  }

  lemma ReadNoText(c: Cursor, r: string, buf: string, size: nat)
    requires At(c, HeaderValue, buf, size) && c.end == c.colon + 1 && Rest(c, buf, size) == [CR] + r
    ensures Exec(c, buf, size) == c.(illFormed := true)
  {
    var c1 := Turn(c, CR, r, buf, size);
  }

  lemma ReadTail(c: Cursor, t: Tail, buf: string, size: nat)
    requires At(c, CrLf, buf, size) && c.start == c.end && Rest(c, buf, size) == PrintTail(t)
    requires t.NoText? ==> ValidName(t.name)
    ensures Ends(Exec(c, buf, size), t, c.req)
  {
    match t
    case BlankLine(body) =>
      ReadBlankLine(c, body, buf, size);
    case NoText(name, rest) =>
      var c1 := ReadName(c, name, [CR] + rest, buf, size);
      ReadNoText(c1, rest, buf, size);
  }

  lemma {:induction false} ReadHeaders(c: Cursor, hs: seq<Header>, t: Tail, buf: string, size: nat)
    requires At(c, CrLf, buf, size) && c.start == c.end && Rest(c, buf, size) == PrintHeaders(hs, t)
    requires forall i :: 0 <= i < |hs| ==> ValidHeader(hs[i])
    requires t.NoText? ==> ValidName(t.name)
    ensures Ends(Exec(c, buf, size), t, c.req.(headers := StoreHeaders(hs, c.req.headers)))
    decreases |hs|
  {
    if hs == [] {
      ReadTail(c, t, buf, size);
    } else {
      var c1 := ReadHeader(c, hs[0], PrintHeaders(hs[1..], t), buf, size);
      ReadHeaders(c1, hs[1..], t, buf, size);
    }
  }

  /** Every well-formed tree is read back, whatever the character after the message: with a blank line the
      parts are stored and the parse completes, with an empty header text it leaves by an exception. */
  lemma TreesAreRead(m: Message, req: Request, buf: string, size: nat)
    requires Valid(m) && size < |buf| && buf[..size] == Print(m)
    ensures var last := Exec(Entry(Start, req), buf, size);
            && last.req == Store(m, req)
            && last.illFormed == m.fields.tail.NoText?
            && (!last.illFormed ==> last.state == Complete)
  {
    var c := Entry(Start, req);
    assert Rest(c, buf, size) == buf[..size];
    var afterPath := [m.blank'] + PrintProtocol(m);
    var query := if m.params == [] then afterPath else ['?'] + PrintParams(m.params, afterPath);
    var c1 := ReadVerb(c, m.lead, m.verb, m.blank, m.gap + (m.path + query), buf, size);
    var c3;
    if m.params == [] {
      c3 := ReadPath(c1, m.gap, m.path, m.blank', PrintProtocol(m), buf, size);
    } else {
      var c2 := ReadPath(c1, m.gap, m.path, '?', PrintParams(m.params, afterPath), buf, size);
      c3 := ReadParams(c2, m.params, m.blank', PrintProtocol(m), buf, size);
    }
    var c4 := ReadProtocol(c3, m.gap', m.protocol, PrintFields(m.fields), buf, size);
    var c5 := ReadVersion(c4, m.fields.version, PrintHeaders(m.fields.headers, m.fields.tail), buf, size);
    ReadHeaders(c5, m.fields.headers, m.fields.tail, buf, size);
  }

  // ---------- Nothing else is accepted ----------

  ghost predicate Good(last: Cursor) { last.state == Complete || last.illFormed }

  /** A place from which the loop still accepts the message or leaves by an exception, at the start of a
      part. The character after the message is neither CR nor LF, as the terminating NUL is. */
  ghost predicate Live(c: Cursor, q: State, buf: string, size: nat) {
    At(c, q, buf, size) && buf[size] != CR && buf[size] != LF && Good(Exec(c, buf, size))
  }

  lemma NotYetOver(c: Cursor, buf: string, size: nat)
    requires Live(c, c.state, buf, size) && Running(c) && c.state != Body
    requires c.state == ParamValue ==> c.start <= c.colon < c.end
    ensures c.end < size
  {
    if c.end == size {
      Unroll(c, buf, size);
    }
  }

  /** One turn from a live place. */
  lemma Proceed(c: Cursor, buf: string, size: nat) returns (x: char, r: string, c': Cursor)
    requires Live(c, c.state, buf, size) && Running(c) && c.state != Body
    requires c.state == ParamValue ==> c.start <= c.colon < c.end
    ensures c.end < size && x == buf[c.end] && Rest(c, buf, size) == [x] + r
    ensures c' == Step(c, buf, size) && c'.state != Invalid && Good(Exec(c', buf, size))
    ensures !c'.illFormed ==> Live(c', c'.state, buf, size) && Rest(c', buf, size) == r
  {
    NotYetOver(c, buf, size);
    x, r := buf[c.end], buf[c.end + 1..size];
    assert Rest(c, buf, size) == [x] + r;
    c' := Turn(c, x, r, buf, size);
  }

  /** The opening character of a word, then everything that stays in it. */
  lemma ScanWord(c: Cursor, q: State, buf: string, size: nat) returns (w: string, r: string, c': Cursor)
    requires Live(c, c.state, buf, size) && c.end < size && Opens(c.state, q, buf[c.end])
    ensures w != "" && w[0] == buf[c.end] && forall k :: 1 <= k < |w| ==> Stays(q, w[k])
    ensures c' == c.(state := q, end := c.end + |w|) && Live(c', q, buf, size)
    ensures Rest(c, buf, size) == w + r && Rest(c', buf, size) == r
    ensures r == "" || !Stays(q, r[0])
  {
    hide Exec, Step;
    OpeningTurns(c, q, buf, size);
    var x, r1, c1 := Proceed(c, buf, size);
    var v;
    c', v, r := SkipAll(c1, buf, size);
    w := [x] + v;
    assert [x] + (v + r) == w + r;
  }

  lemma ScanVerb(c: Cursor, buf: string, size: nat)
    returns (lead: string, verb: string, blank: char, r: string, c': Cursor)
    requires Live(c, Start, buf, size) && c.start == c.end
    ensures Live(c', BeforeUrl, buf, size) && c'.start == c'.end
    ensures Rest(c, buf, size) == lead + (verb + ([blank] + r)) && Rest(c', buf, size) == r
    ensures All(lead, ch => ch == CR || ch == LF || IsBlank(ch)) && Word(verb, IsUpper, IsUpper) && IsBlank(blank)
  {
    var c1, r1, c2, r2;
    c1, lead, r1 := SkipAll(c, buf, size);
    NotYetOver(c1, buf, size);
    assert r1[0] == buf[c1.end];
    if !IsUpper(buf[c1.end]) {
      var _, _, _ := Proceed(c1, buf, size);
    }
    verb, r2, c2 := ScanWord(c1, InMethod, buf, size);
    blank, r, c' := Proceed(c2, buf, size);
  }

  lemma ScanPath(c: Cursor, buf: string, size: nat)
    returns (gap: string, path: string, end: char, r: string, c': Cursor)
    requires Live(c, BeforeUrl, buf, size) && c.start == c.end
    ensures end == '?' || IsBlank(end)
    ensures Live(c', if end == '?' then BeforeParamKey else BeforeProtocol, buf, size) && c'.start == c'.end
    ensures Rest(c, buf, size) == gap + (path + ([end] + r)) && Rest(c', buf, size) == r
    ensures All(gap, IsBlank) && Word(path, ch => ch == '/', ch => ch != '?' && !IsBlank(ch))
  {
    var c1, r1, c2, r2;
    c1, gap, r1 := SkipAll(c, buf, size);
    NotYetOver(c1, buf, size);
    assert r1[0] == buf[c1.end];
    if buf[c1.end] != '/' {
      var _, _, _ := Proceed(c1, buf, size);
    }
    path, r2, c2 := ScanWord(c1, InUrl, buf, size);
    end, r, c' := Proceed(c2, buf, size);
  }

  lemma ScanKey(c: Cursor, buf: string, size: nat) returns (key: string, r: string, c': Cursor)
    requires Live(c, BeforeParamKey, buf, size) && c.start == c.end
    ensures Live(c', BeforeParamValue, buf, size) && c'.start < c'.colon && c'.end == c'.colon + 1
    ensures Rest(c, buf, size) == key + (['='] + r) && Rest(c', buf, size) == r
    ensures Word(key, StartsText, ch => ch != '=' && !IsBlank(ch))
  {
    NotYetOver(c, buf, size);
    if !StartsText(buf[c.end]) {
      var _, _, _ := Proceed(c, buf, size);
    }
    var r1, c1, x;
    key, r1, c1 := ScanWord(c, ParamKey, buf, size);
    x, r, c' := Proceed(c1, buf, size);
  }

  lemma ScanValue(c: Cursor, buf: string, size: nat) returns (value: string, end: char, r: string, c': Cursor)
    requires Live(c, BeforeParamValue, buf, size) && c.start <= c.colon && c.end == c.colon + 1
    ensures end == '&' || IsBlank(end)
    ensures Live(c', if end == '&' then BeforeParamKey else BeforeProtocol, buf, size) && c'.start == c'.end
    ensures Rest(c, buf, size) == value + ([end] + r) && Rest(c', buf, size) == r
    ensures Word(value, StartsText, ch => ch != '&' && !IsBlank(ch))
  {
    NotYetOver(c, buf, size);
    if !StartsText(buf[c.end]) {
      var _, _, _ := Proceed(c, buf, size);
    }
    var r1, c1;
    value, r1, c1 := ScanWord(c, ParamValue, buf, size);
    end, r, c' := Proceed(c1, buf, size);
  }

  lemma ScanParam(c: Cursor, buf: string, size: nat) returns (p: Param, end: char, r: string, c': Cursor)
    requires Live(c, BeforeParamKey, buf, size) && c.start == c.end
    ensures end == '&' || IsBlank(end)
    ensures Live(c', if end == '&' then BeforeParamKey else BeforeProtocol, buf, size) && c'.start == c'.end
    ensures Rest(c, buf, size) == p.key + (['='] + (p.value + ([end] + r))) && Rest(c', buf, size) == r
    ensures ValidParam(p) && |r| < |Rest(c, buf, size)|
  {
    var key, r1, c1 := ScanKey(c, buf, size);
    var value;
    value, end, r, c' := ScanValue(c1, buf, size);
    p := Param(key, value);
  }

  lemma {:induction false} ScanParams(c: Cursor, buf: string, size: nat)
    returns (ps: seq<Param>, blank: char, r: string, c': Cursor)
    requires Live(c, BeforeParamKey, buf, size) && c.start == c.end
    ensures Live(c', BeforeProtocol, buf, size) && c'.start == c'.end && Rest(c', buf, size) == r
    ensures ps != [] && Rest(c, buf, size) == PrintParams(ps, [blank] + r)
    ensures (forall i :: 0 <= i < |ps| ==> ValidParam(ps[i])) && IsBlank(blank)
    decreases |Rest(c, buf, size)|
  {
    var p, end, r1, c1 := ScanParam(c, buf, size);
    if end == '&' {
      var qs;
      qs, blank, r, c' := ScanParams(c1, buf, size);
      ps := [p] + qs;
      assert ps[1..] == qs;
    } else {
      ps, blank, r, c' := [p], end, r1, c1;
    }
  }

  lemma ScanProtocol(c: Cursor, buf: string, size: nat)
    returns (gap: string, protocol: string, r: string, c': Cursor)
    requires Live(c, BeforeProtocol, buf, size) && c.start == c.end
    ensures Live(c', BeforeVersion, buf, size) && c'.start == c'.end && Rest(c', buf, size) == r
    ensures Rest(c, buf, size) == gap + (protocol + (['/'] + r))
    ensures All(gap, IsBlank) && Word(protocol, ch => !IsBlank(ch), ch => ch != '/')
  {
    var c1, r1, c2, r2, x;
    c1, gap, r1 := SkipAll(c, buf, size);
    NotYetOver(c1, buf, size);
    assert r1[0] == buf[c1.end];
    protocol, r2, c2 := ScanWord(c1, Protocol, buf, size);
    x, r, c' := Proceed(c2, buf, size);
  }

  lemma ScanLineFeed(c: Cursor, buf: string, size: nat) returns (r: string, c': Cursor)
    requires Live(c, WhenCr, buf, size)
    ensures Live(c', CrLf, buf, size) && c'.start == c'.end
    ensures Rest(c, buf, size) == [LF] + r && Rest(c', buf, size) == r
  {
    var x;
    x, r, c' := Proceed(c, buf, size);
  }

  lemma ScanVersion(c: Cursor, buf: string, size: nat) returns (version: string, r: string, c': Cursor)
    requires Live(c, BeforeVersion, buf, size) && c.start == c.end
    ensures Live(c', CrLf, buf, size) && c'.start == c'.end && Rest(c', buf, size) == r
    ensures Rest(c, buf, size) == version + ([CR] + ([LF] + r))
    ensures Word(version, IsDigit, ch => IsDigit(ch) || ch == '.')
  {
    hide Exec;
    NotYetOver(c, buf, size);
    if !IsDigit(buf[c.end]) {
      var _, _, _ := Proceed(c, buf, size);
    }
    var r1, c1, x2, r2, c2;
    version, r1, c1 := ScanWord(c, InVersion, buf, size);
    x2, r2, c2 := Proceed(c1, buf, size);
    r, c' := ScanLineFeed(c2, buf, size);
  }

  lemma ScanBlankLine(c: Cursor, buf: string, size: nat) returns (body: string)
    requires Live(c, CrLf, buf, size) && c.end < size && buf[c.end] == CR
    ensures Rest(c, buf, size) == [CR] + ([LF] + body)
  {
    var x1, r1, c1 := Proceed(c, buf, size);
    var x2, r2, c2 := Proceed(c1, buf, size);
    body := r2;
  }

  lemma ScanName(c: Cursor, buf: string, size: nat) returns (name: string, r: string, c': Cursor)
    requires Live(c, CrLf, buf, size) && c.start == c.end < size && buf[c.end] != CR
    ensures Live(c', HeaderValue, buf, size) && c'.start < c'.colon && c'.end == c'.colon + 1
    ensures Rest(c, buf, size) == name + ([':'] + r) && Rest(c', buf, size) == r && ValidName(name)
  {
    hide Exec;
    if IsBlank(buf[c.end]) {
      var _, _, _ := Proceed(c, buf, size);
    }
    var r1, c1, x;
    name, r1, c1 := ScanWord(c, HeaderKey, buf, size);
    x, r, c' := Proceed(c1, buf, size);
  }

  /** A header, unless the blank line or an empty text ends the message here. */
  lemma ScanLine(c: Cursor, buf: string, size: nat)
    returns (over: bool, t: Tail, h: Header, r: string, c': Cursor)
    requires Live(c, CrLf, buf, size) && c.start == c.end
    ensures over ==> Rest(c, buf, size) == PrintTail(t) && (t.NoText? ==> ValidName(t.name))
    ensures !over ==>
      && Live(c', CrLf, buf, size) && c'.start == c'.end && Rest(c', buf, size) == r
      && Rest(c, buf, size) == h.name + ([':'] + (h.text + ([CR] + ([LF] + r)))) && ValidHeader(h)
      && |r| < |Rest(c, buf, size)|
  {
    t, h, r, c' := BlankLine(""), Header("", ""), "", c;
    NotYetOver(c, buf, size);
    if buf[c.end] == CR {
      var body := ScanBlankLine(c, buf, size);
      over, t := true, BlankLine(body);
    } else {
      var name, r1, c1 := ScanName(c, buf, size);
      over, t, h, r, c' := ScanText(c1, buf, size);
      if over {
        t := NoText(name, t.rest);
      } else {
        h := Header(name, h.text);
      }
    }
  }

  /** What follows a header's colon. */
  lemma ScanText(c: Cursor, buf: string, size: nat)
    returns (over: bool, t: Tail, h: Header, r: string, c': Cursor)
    requires Live(c, HeaderValue, buf, size) && c.start <= c.colon && c.end == c.colon + 1
    ensures over ==> t.NoText? && Rest(c, buf, size) == [CR] + t.rest
    ensures !over ==>
      && Live(c', CrLf, buf, size) && c'.start == c'.end && Rest(c', buf, size) == r
      && Rest(c, buf, size) == h.text + ([CR] + ([LF] + r))
      && h.text != "" && All(h.text, ch => ch != CR)
  {
    hide Exec;
    var c1, text, r1 := SkipAll(c, buf, size);
    var x2, r2, c2 := Proceed(c1, buf, size);
    over, t, h, r, c' := text == "", NoText("", r2), Header("", text), "", c;
    if !over {
      r, c' := ScanLineFeed(c2, buf, size);
    }
  }

  lemma {:induction false} ScanHeaders(c: Cursor, buf: string, size: nat) returns (hs: seq<Header>, t: Tail)
    requires Live(c, CrLf, buf, size) && c.start == c.end
    ensures Rest(c, buf, size) == PrintHeaders(hs, t)
    ensures (forall i :: 0 <= i < |hs| ==> ValidHeader(hs[i])) && (t.NoText? ==> ValidName(t.name))
    decreases |Rest(c, buf, size)|
  {
    var over, t1, h, r, c1 := ScanLine(c, buf, size);
    if over {
      hs, t := [], t1;
    } else {
      var hs1;
      hs1, t := ScanHeaders(c1, buf, size);
      hs := [h] + hs1;
      assert hs[1..] == hs1;
    }
  }

  /** A message that is accepted, or on which the parse leaves by an exception, is printed by a tree. */
  lemma AcceptedIsPrinted(req: Request, buf: string, size: nat) returns (m: Message)
    requires size < |buf| && buf[size] != CR && buf[size] != LF
    requires Good(Exec(Entry(Start, req), buf, size))
    ensures Valid(m) && Print(m) == buf[..size]
  {
    var c := Entry(Start, req);
    assert Rest(c, buf, size) == buf[..size];
    var lead, verb, blank, r1, c1 := ScanVerb(c, buf, size);
    var gap, path, end, r2, c2 := ScanPath(c1, buf, size);
    var ps, blank', r3, c3 := [], end, r2, c2;
    if end == '?' {
      ps, blank', r3, c3 := ScanParams(c2, buf, size);
    }
    var gap', protocol, r4, c4 := ScanProtocol(c3, buf, size);
    var version, r5, c5 := ScanVersion(c4, buf, size);
    var hs, t := ScanHeaders(c5, buf, size);
    m := Message(lead, verb, blank, gap, path, ps, blank', gap', protocol, Fields(version, hs, t));
    assert PrintProtocol(m) == r3;
  }

  // ---------- The characterisation ----------

  /** What the parse of `msg` in a context whose request holds `req` comes to, `after` being the character
      stored behind the message. */
  ghost function Parse(msg: string, after: char, req: Request): Cursor {
    Exec(Entry(Start, req), msg + [after], |msg|)
  }

  lemma TreeDecides(m: Message, after: char, req: Request)
    requires Valid(m)
    ensures var last := Parse(Print(m), after, req);
            && last.req == Store(m, req)
            && last.illFormed == m.fields.tail.NoText?
            && (!last.illFormed ==> last.state == Complete)
  {
    var msg := Print(m);
    assert (msg + [after])[..|msg|] == msg;
    TreesAreRead(m, req, msg + [after], |msg|);
  }

  lemma ParseFindsTree(msg: string, after: char, req: Request) returns (m: Message)
    requires after != CR && after != LF && Good(Parse(msg, after, req))
    ensures Valid(m) && Print(m) == msg
  {
    assert (msg + [after])[..|msg|] == msg;
    m := AcceptedIsPrinted(req, msg + [after], |msg|);
  }

  /** The machine accepts exactly the messages that a tree ending in a blank line prints, and leaves by an
      exception exactly on those that a tree ending in an empty header text prints. The character behind
      the message has no say, as long as it is not CR or LF. */
  lemma AcceptsExactlyTheGrammar(msg: string, after: char, req: Request)
    requires after != CR && after != LF
    ensures Parse(msg, after, req).state == Complete && !Parse(msg, after, req).illFormed
       <==> exists m :: Valid(m) && Print(m) == msg && m.fields.tail.BlankLine?
    ensures Parse(msg, after, req).illFormed
       <==> exists m :: Valid(m) && Print(m) == msg && m.fields.tail.NoText?
  {
    if Good(Parse(msg, after, req)) {
      var m := ParseFindsTree(msg, after, req);
      TreeDecides(m, after, req);
    }
    forall m | Valid(m) && Print(m) == msg
      ensures Parse(msg, after, req).illFormed == m.fields.tail.NoText?
      ensures m.fields.tail.BlankLine? ==> Parse(msg, after, req).state == Complete
    {
      TreeDecides(m, after, req);
    }
  }

  /** The parse of a whole string, whose storage ends with a NUL, by a context at the start of a message: it
      says yes to the messages of the grammar and no others, and the request then holds what the message's
      tree makes of it. */
  method ParaseMessage(context: HttpContext, msg: string) returns (r: Outcome)
    requires context.state == Start
    modifies context, context.request
    ensures r == Returned(true) <==> exists m :: Valid(m) && Print(m) == msg && m.fields.tail.BlankLine?
    ensures r == IllFormedRange <==> exists m :: Valid(m) && Print(m) == msg && m.fields.tail.NoText?
    ensures r == Returned(true) ==> context.GetCompleteRequest()
    ensures forall m :: Valid(m) && Print(m) == msg ==>
      context.request.Value() == Store(m, old(context.request.Value()))
  {
    ghost var req := context.request.Value();
    r := context.ParaseRequest(msg + ['\0'], |msg|);
    hide Exec;
    AcceptsExactlyTheGrammar(msg, '\0', req);
    forall m | Valid(m) && Print(m) == msg ensures context.request.Value() == Store(m, req) {
      TreeDecides(m, '\0', req);
    }
  }
}
