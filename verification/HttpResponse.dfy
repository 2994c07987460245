// HttpResponse: the printer of responses, against a reader of response streams written from RFC 9112: section 4
// (status line), section 5 (field lines) and section 6.3 (message body length).

module HttpResponses {
  import opened Basics
  import opened Decimals

  datatype Option<T> = None | Some(value: T)

  datatype StatusCode = Unkonwn | Continue | OK | BadRequest | Forbidden | NotFound | InternalServerError {
    function Number(): nat {
      match this
      case Unkonwn => 1
      case Continue => 100
      case OK => 200
      case BadRequest => 400
      case Forbidden => 403
      case NotFound => 404
      case InternalServerError => 500
    }
  }

  datatype Field = Field(name: string, value: string)

  /** A response as its setters leave it. */
  datatype Response = Response(code: StatusCode, reason: string, headers: seq<Field>, body: string, close: bool)

  const CRLF := "\r\n"

  /** The fields that message() prints, in order. */
  function Fields(r: Response): seq<Field> { OwnHeaders(r.close, |r.body|) + r.headers }

  function OwnHeaders(close: bool, length: nat): seq<Field> {
    if close then [Field("Connection", "close")]
    else [Field("Content-Length", Decimal(length)), Field("Connection", "Keep-Alive")]
  }

  function PrintField(f: Field): string { f.name + ": " + f.value }

  function PrintFields(fs: seq<Field>): string {
    if fs == [] then "" else PrintField(fs[0]) + CRLF + PrintFields(fs[1..])
  }

  function StatusLine(code: nat, reason: string): string { "HTTP/1.1 " + Decimal(code) + " " + reason }

  function Print(r: Response): string {
    StatusLine(r.code.Number(), r.reason) + CRLF + PrintFields(Fields(r)) + CRLF + r.body
  }

  // What a client reads.

  datatype Reply = Reply(code: nat, reason: string, fields: seq<Field>, body: string)

  datatype Read<T> = Read(value: T, rest: string)

  /** Up to the first CR or LF, which must be a CR LF. */
  function ReadLine(s: string): Option<Read<string>> {
    if s == "" || s[0] == '\n' then None
    else if s[0] == '\r' then if |s| > 1 && s[1] == '\n' then Some(Read("", s[2..])) else None
    else match ReadLine(s[1..])
      case None => None
      case Some(line) => Some(Read([s[0]] + line.value, line.rest))
  }

  predicate Clean(text: string) { '\r' !in text && '\n' !in text }

  lemma {:induction false} ReadsLine(text: string, rest: string)
    requires Clean(text)
    ensures ReadLine(text + CRLF + rest) == Some(Read(text, rest))
  {
    var s := text + CRLF + rest;
    if text == "" {
      assert s == CRLF + rest && s[2..] == rest;
    } else {
      ReadsLine(text[1..], rest);
      assert s[1..] == text[1..] + CRLF + rest && s[0] == text[0] && text[0] in text;
      assert [text[0]] + text[1..] == text;
    }
  }

  lemma {:induction false} LineIsPrefix(s: string)
    requires ReadLine(s).Some?
    ensures var line := ReadLine(s).value; Clean(line.value) && s == line.value + CRLF + line.rest
  {
    if s[0] != '\r' {
      LineIsPrefix(s[1..]);
    }
  }

  predicate IsTokenChar(c: char) {
    'a' <= c <= 'z' || 'A' <= c <= 'Z' || '0' <= c <= '9' || c in "!#$%&'*+-.^_`|~"
  }

  /** As section 5.6.2 of RFC 9110 puts it: any visible character except the delimiters. */
  lemma TokensHaveNoDelimiters(c: char)
    ensures IsTokenChar(c) <==> 33 <= c as int <= 126 && c !in "\"(),/:;<=>?@[\\]{}"
  {
    assert '\"' as int == 34 && '\\' as int == 92;
  }

  predicate IsToken(name: string) { name != "" && forall c :: c in name ==> IsTokenChar(c) }

  function TrimLeft(s: string): string { if s != "" && IsBlank(s[0]) then TrimLeft(s[1..]) else s }

  function TrimRight(s: string): string { if s != "" && IsBlank(s[|s| - 1]) then TrimRight(s[..|s| - 1]) else s }

  predicate IsValue(v: string) {
    Clean(v) && '\0' !in v && (v != "" ==> !IsBlank(v[0]) && !IsBlank(v[|v| - 1]))
  }

  function Colon(s: string): (i: nat)
    ensures i <= |s| && ':' !in s[..i] && (i < |s| ==> s[i] == ':')
  {
    if s == "" || s[0] == ':' then 0 else 1 + Colon(s[1..])
  }

  function ReadField(line: string): Option<Field> {
    var c := Colon(line);
    if c < |line| && IsToken(line[..c]) && '\0' !in line then Some(Field(line[..c], TrimRight(TrimLeft(line[c + 1..]))))
    else None
  }

  predicate IsField(f: Field) { IsToken(f.name) && IsValue(f.value) }

  lemma {:induction false} ColonAfter(name: string, rest: string)
    requires ':' !in name
    ensures Colon(name + ":" + rest) == |name|
  {
    var s := name + ":" + rest;
    if name != "" {
      ColonAfter(name[1..], rest);
      assert s[1..] == name[1..] + ":" + rest && s[0] == name[0] && name[0] in name;
    }
  }

  lemma TrimsOwnBlank(v: string)
    requires IsValue(v)
    ensures TrimRight(TrimLeft(" " + v)) == v
  {
    assert (" " + v)[1..] == v;
    assert TrimLeft(" " + v) == TrimLeft(v);
    assert TrimLeft(v) == v;
    assert TrimRight(v) == v;
  }

  lemma TokenIsPlain(name: string)
    requires IsToken(name)
    ensures ':' !in name && '\r' !in name && '\n' !in name && '\0' !in name
  {}

  lemma InFieldText(f: Field, c: char)
    ensures c in PrintField(f) <==> c in f.name || c == ':' || c == ' ' || c in f.value
    ensures PrintField(f) == f.name + ":" + (" " + f.value)
  {
    assert PrintField(f) == f.name + ":" + (" " + f.value);
  }

  lemma FieldText(f: Field)
    requires IsField(f)
    ensures Clean(PrintField(f)) && '\0' !in PrintField(f) && ':' !in f.name && PrintField(f) != ""
    ensures PrintField(f) == f.name + ":" + (" " + f.value)
  {
    TokenIsPlain(f.name);
    InFieldText(f, '\r');
    InFieldText(f, '\n');
    InFieldText(f, '\0');
    hide IsTokenChar;
  }

  lemma ReadsField(f: Field)
    requires IsField(f)
    ensures ReadField(PrintField(f)) == Some(f) && Clean(PrintField(f)) && PrintField(f) != ""
  {
    var line, after := PrintField(f), " " + f.value;
    FieldText(f);
    ColonAfter(f.name, after);
    TrimsOwnBlank(f.value);
    hide PrintField, TrimLeft, TrimRight, IsTokenChar, Clean;
    var n := |f.name|;
    assert line[..n] == f.name && line[n + 1..] == after;
  }

  lemma {:induction false} TrimmedLeft(s: string)
    ensures var t := TrimLeft(s); (t != "" ==> !IsBlank(t[0])) && forall c :: c in t ==> c in s
  {
    if s != "" && IsBlank(s[0]) { TrimmedLeft(s[1..]); }
  }

  lemma {:induction false} TrimmedRight(s: string)
    ensures var t := TrimRight(s);
      && (t != "" ==> !IsBlank(t[|t| - 1]) && t[0] == s[0]) && |t| <= |s| && forall c :: c in t ==> c in s
  {
    if s != "" && IsBlank(s[|s| - 1]) { TrimmedRight(s[..|s| - 1]); }
  }

  lemma FieldIsField(line: string)
    requires Clean(line) && ReadField(line).Some?
    ensures IsField(ReadField(line).value)
  {
    var v := line[Colon(line) + 1..];
    TrimmedLeft(v);
    TrimmedRight(TrimLeft(v));
  }

  /** Field lines up to the empty line. */
  function ReadFields(s: string): Option<Read<seq<Field>>>
    decreases |s|
  {
    match ReadLine(s)
    case None => None
    case Some(line) =>
      if line.value == "" then Some(Read([], line.rest))
      else
        LineIsPrefix(s);
        match ReadField(line.value)
        case None => None
        case Some(field) =>
          match ReadFields(line.rest)
          case None => None
          case Some(more) => Some(Read([field] + more.value, more.rest))
  }

  lemma Regroup(line: string, more: string, rest: string)
    ensures line + CRLF + more + CRLF + rest == line + CRLF + (more + CRLF + rest)
  {}

  /** One field line in front. */
  lemma ReadsFirstField(f: Field, fs: seq<Field>, tail: string, rest: string)
    requires IsField(f) && ReadFields(tail) == Some(Read(fs, rest))
    ensures ReadFields(PrintField(f) + CRLF + tail) == Some(Read([f] + fs, rest))
  {
    ReadsField(f);
    ReadsLine(PrintField(f), tail);
    hide ReadLine, ReadField, PrintField, IsField;
  }

  lemma {:induction false} ReadsFields(fs: seq<Field>, rest: string)
    requires forall f :: f in fs ==> IsField(f)
    ensures ReadFields(PrintFields(fs) + CRLF + rest) == Some(Read(fs, rest))
  {
    if fs == [] {
      ReadsLine("", rest);
      assert PrintFields(fs) + CRLF + rest == "" + CRLF + rest;
      hide ReadLine;
    } else {
      hide ReadLine, ReadFields, PrintField, IsField;
      var more := PrintFields(fs[1..]);
      ReadsFields(fs[1..], rest);
      ReadsFirstField(fs[0], fs[1..], more + CRLF + rest, rest);
      Regroup(PrintField(fs[0]), more, rest);
      assert [fs[0]] + fs[1..] == fs;
    }
  }

  lemma {:induction false} FieldsAreFields(s: string)
    requires ReadFields(s).Some?
    ensures forall f :: f in ReadFields(s).value.value ==> IsField(f)
    decreases |s|
  {
    LineIsPrefix(s);
    var line := ReadLine(s).value;
    if line.value != "" {
      FieldIsField(line.value);
      FieldsAreFields(line.rest);
    }
  }

  /** HTTP-version SP status-code SP reason-phrase; the code has three digits and is 100 at least. */
  function ReadStatus(line: string): Option<Read<nat>> {
    if |line| >= 13 && line[..5] == "HTTP/" && IsDigit(line[5]) && line[6] == '.' && IsDigit(line[7]) && line[8] == ' '
      && IsDigits(line[9..12]) && line[9] != '0' && line[12] == ' '
    then Some(Read(ValueOf(line[9..12]), line[13..]))
    else None
  }

  /** Letters compare without case. */
  function Lower(s: string): string {
    seq(|s|, i requires 0 <= i < |s| => if 'A' <= s[i] <= 'Z' then 'a' + (s[i] - 'A') else s[i])
  }

  predicate IsLength(f: Field) { Lower(f.name) == "content-length" }

  predicate IsCoding(f: Field) { Lower(f.name) == "transfer-encoding" }

  /** These have no body, whatever their fields say. */
  predicate Bodiless(code: nat) { 100 <= code < 200 || code == 204 || code == 304 }

  predicate Declares(fs: seq<Field>, n: nat) {
    forall f :: f in fs && IsLength(f) ==> f.value != "" && IsDigits(f.value) && ValueOf(f.value) == n
  }

  function FirstLength(fs: seq<Field>): Option<string> {
    if fs == [] then None else if IsLength(fs[0]) then Some(fs[0].value) else FirstLength(fs[1..])
  }

  /** The body, by section 6.3: none, as long as declared, or up to the end of the stream. Transfer codings are
      not read. */
  function ReadBody(code: nat, fs: seq<Field>, s: string): Option<Read<string>> {
    if Bodiless(code) then Some(Read("", s))
    else if exists f :: f in fs && IsCoding(f) then None
    else match FirstLength(fs)
      case None => Some(Read(s, ""))
      case Some(text) =>
        if text != "" && IsDigits(text) && Declares(fs, ValueOf(text)) && ValueOf(text) <= |s|
        then Some(Read(s[..ValueOf(text)], s[ValueOf(text)..]))
        else None
  }

  function ReadReply(s: string): Option<Read<Reply>> {
    match ReadLine(s)
    case None => None
    case Some(line) =>
      match ReadStatus(line.value)
      case None => None
      case Some(status) =>
        match ReadFields(line.rest)
        case None => None
        case Some(fields) =>
          match ReadBody(status.value, fields.value, fields.rest)
          case None => None
          case Some(body) => Some(Read(Reply(status.value, status.rest, fields.value, body.value), body.rest))
  }

  /** What any reply that can be read at all satisfies. */
  predicate Sound(reply: Reply) {
    && reply.code >= 100 && Clean(reply.reason) && (forall f :: f in reply.fields ==> IsField(f))
    && (if Bodiless(reply.code) then reply.body == ""
        else (forall f :: f in reply.fields ==> !IsCoding(f)) && Declares(reply.fields, |reply.body|))
  }

  function Printed(r: Response): Reply { Reply(r.code.Number(), r.reason, Fields(r), r.body) }

  /** What the response stands for: the codes are those of RFC 9110, section 15; a status never set is 1. */
  function Meant(r: Response): Reply {
    var code :=
      if r.code == OK then 200
      else if r.code == Continue then 100
      else if r.code == BadRequest then 400
      else if r.code == Forbidden then 403
      else if r.code == NotFound then 404
      else if r.code == InternalServerError then 500
      else 1;
    var own :=
      if r.close then [Field("Connection", "close")]
      else [Field("Content-Length", Decimal(|r.body|)), Field("Connection", "Keep-Alive")];
    Reply(code, r.reason, own + r.headers, r.body)
  }

  lemma PrintedIsMeant(r: Response)
    ensures Printed(r) == Meant(r)
  {}

  lemma OwnFieldIsLength(text: string)
    ensures IsLength(Field("Content-Length", text))
  {
    assert Lower("Content-Length") == "content-length";
  }

  lemma ReadsDeclaredBody(code: nat, fs: seq<Field>, body: string, rest: string)
    requires fs != [] && IsLength(fs[0]) && Declares(fs, |body|)
    requires !Bodiless(code) && forall f :: f in fs ==> !IsCoding(f)
    ensures ReadBody(code, fs, body + rest) == Some(Read(body, rest))
  {
    assert fs[0] in fs && FirstLength(fs) == Some(fs[0].value);
    assert (body + rest)[..|body|] == body && (body + rest)[|body|..] == rest;
  }

  lemma ReadsLastBody(code: nat, fs: seq<Field>, body: string)
    requires Declares(fs, |body|) && !Bodiless(code) && forall f :: f in fs ==> !IsCoding(f)
    ensures ReadBody(code, fs, body) == Some(Read(body, ""))
  {
    FirstLengthIsLength(fs);
    assert body[..|body|] == body && body[|body|..] == "";
  }

  /** The length is declared by the printer, so whatever follows stays apart. */
  lemma ReadsBody(r: Response, rest: string)
    requires Sound(Printed(r)) && (!r.close || rest == "")
    ensures ReadBody(r.code.Number(), Fields(r), r.body + rest) == Some(Read(r.body, rest))
  {
    hide Declares, IsLength;
    var code, fs := r.code.Number(), Fields(r);
    if Bodiless(code) {
      assert r.body + rest == rest;
    } else if r.close {
      ReadsLastBody(code, fs, r.body);
      assert r.body + rest == r.body;
    } else {
      OwnFieldIsLength(Decimal(|r.body|));
      ReadsDeclaredBody(code, fs, r.body, rest);
    }
  }

  lemma {:induction false} FirstLengthIsLength(fs: seq<Field>)
    ensures FirstLength(fs).Some? ==> exists f :: f in fs && IsLength(f) && f.value == FirstLength(fs).value
    ensures FirstLength(fs).None? ==> forall f :: f in fs ==> !IsLength(f)
  {
    if fs != [] && !IsLength(fs[0]) {
      FirstLengthIsLength(fs[1..]);
    }
  }

  lemma BodyIsSound(code: nat, fs: seq<Field>, s: string)
    requires ReadBody(code, fs, s).Some?
    ensures var body := ReadBody(code, fs, s).value.value;
      if Bodiless(code) then body == "" else (forall f :: f in fs ==> !IsCoding(f)) && Declares(fs, |body|)
  {
    FirstLengthIsLength(fs);
  }

  lemma ThreeDigits(d: string)
    requires |d| == 3 && IsDigits(d)
    ensures ValueOf(d)
         == 100 * (d[0] as int - '0' as int) + 10 * (d[1] as int - '0' as int) + (d[2] as int - '0' as int)
  {
    assert d[..2][..1][..0] == "" && ValueOf("") == 0;
    assert ValueOf(d[..2][..1]) == 10 * ValueOf(d[..2][..1][..0]) + (d[0] as int - '0' as int);
    assert ValueOf(d[..2]) == 10 * ValueOf(d[..2][..1]) + (d[1] as int - '0' as int);
  }

  lemma CodeIsLarge(line: string)
    requires ReadStatus(line).Some? && Clean(line)
    ensures ReadStatus(line).value.value >= 100 && Clean(ReadStatus(line).value.rest)
  {
    ThreeDigits(line[9..12]);
    assert line[9..12][0] == line[9];
  }

  lemma ReplyIsSound(s: string)
    requires ReadReply(s).Some?
    ensures Sound(ReadReply(s).value.value)
  {
    var line := ReadLine(s).value;
    var status, fields := ReadStatus(line.value).value, ReadFields(line.rest).value;
    LineIsPrefix(s);
    CodeIsLarge(line.value);
    FieldsAreFields(line.rest);
    BodyIsSound(status.value, fields.value, fields.rest);
    hide ReadLine, ReadFields, ReadBody, Declares, IsField;
  }

  lemma ReadsStatus(code: nat, reason: string)
    requires 100 <= code < 1000
    ensures ReadStatus(StatusLine(code, reason)) == Some(Read(code, reason))
  {
    var d := Decimal(code);
    var line := "HTTP/1.1 " + d + " " + reason;
    DecimalReadsBack(code);
    assert |Decimal(code / 10 / 10)| == 1 && |Decimal(code / 10)| == 2;
    assert line[9..12] == d && line[13..] == reason && line[..5] == "HTTP/";
    assert line[9] == d[0];
  }

  /** The parts of a message. */
  lemma MessageParts(r: Response, rest: string)
    ensures Print(r) + rest
         == StatusLine(r.code.Number(), r.reason) + CRLF + (PrintFields(Fields(r)) + CRLF + (r.body + rest))
  {
    hide StatusLine;
    var status := StatusLine(r.code.Number(), r.reason);
    var fields := PrintFields(Fields(r));
    assert Print(r) == status + CRLF + fields + CRLF + r.body;
    Join(status, fields, r.body, rest);
  }

  lemma Join(status: string, fields: string, body: string, rest: string)
    ensures status + CRLF + fields + CRLF + body + rest == status + CRLF + (fields + CRLF + (body + rest))
  {}

  /** What the server must see to: a real status, no line breaks in the reason, proper header names and values
      without outer blanks, no body after 100, and otherwise no transfer coding and no other length. */
  predicate Fit(r: Response) {
    && r.code != Unkonwn && Clean(r.reason) && (forall f :: f in r.headers ==> IsField(f))
    && (if r.code == Continue then r.body == ""
        else (forall f :: f in r.headers ==> !IsCoding(f)) && Declares(r.headers, |r.body|))
  }

  lemma LengthField(n: nat)
    ensures var f := Field("Content-Length", Decimal(n));
      IsField(f) && !IsCoding(f) && f.value != "" && IsDigits(f.value) && ValueOf(f.value) == n
  {
    var d := Decimal(n);
    DecimalReadsBack(n);
    OwnFieldIsLength(d);
    assert forall c :: c in d ==> '0' <= c <= '9';
    hide Lower, Decimal;
  }

  lemma ConnectionField(value: string)
    requires IsValue(value)
    ensures var f := Field("Connection", value); IsField(f) && !IsCoding(f) && !IsLength(f)
  {
    var name := "Connection";
    assert Lower(name)[0] == 'c' && Lower(name)[2] == 'n';
    assert "transfer-encoding"[0] == 't' && "content-length"[3] == 't' && Lower(name)[3] == 'n';
  }

  lemma OwnFields(close: bool, n: nat)
    ensures forall f :: f in OwnHeaders(close, n) ==> IsField(f) && !IsCoding(f)
    ensures Declares(OwnHeaders(close, n), n)
  {
    LengthField(n);
    ConnectionField("close");
    ConnectionField("Keep-Alive");
    hide IsField, IsCoding, IsLength, Decimal;
  }

  lemma FitIsSound(r: Response)
    ensures Fit(r) <==> Sound(Printed(r))
  {
    OwnFields(r.close, |r.body|);
    hide IsField, IsCoding, IsLength, OwnHeaders;
  }

  /** A message in front of any stream is read as what it stands for exactly when it is fit. With no length of its
      own, a closing message must be the last. */
  lemma MessageIsReadExactlyWhen(r: Response, rest: string)
    requires !r.close || rest == ""
    ensures ReadReply(Print(r) + rest) == Some(Read(Meant(r), rest)) <==> Fit(r)
  {
    hide Fit, Sound, Meant, Printed;
    FitIsSound(r);
    PrintedIsMeant(r);
    if Sound(Meant(r)) {
      MessageIsRead(r, rest);
    }
    if ReadReply(Print(r) + rest) == Some(Read(Meant(r), rest)) {
      ReplyIsSound(Print(r) + rest);
    }
  }

  /** What a client finds in a fit message. */
  lemma MessageCarries(r: Response, rest: string)
    requires Fit(r) && (!r.close || rest == "")
    ensures ReadReply(Print(r) + rest).Some? && ReadReply(Print(r) + rest).value.rest == rest
    ensures var reply := ReadReply(Print(r) + rest).value.value;
      && reply.reason == r.reason && reply.body == r.body
      && (r.code == Continue <==> reply.code == 100)
      && (r.code == OK <==> reply.code == 200)
      && (r.code == BadRequest <==> reply.code == 400)
      && (r.code == Forbidden <==> reply.code == 403)
      && (r.code == NotFound <==> reply.code == 404)
      && (r.code == InternalServerError <==> reply.code == 500)
    ensures var reply := ReadReply(Print(r) + rest).value.value;
      if r.close then reply.fields == [Field("Connection", "close")] + r.headers
      else
        && |reply.fields| >= 2 && reply.fields[2..] == r.headers
        && reply.fields[0].name == "Content-Length" && IsDigits(reply.fields[0].value)
        && ValueOf(reply.fields[0].value) == |r.body|
        && reply.fields[1] == Field("Connection", "Keep-Alive")
  {
    MessageIsReadExactlyWhen(r, rest);
    DecimalReadsBack(|r.body|);
    hide ReadReply, Print, Decimal, IsField, Declares, IsCoding;
  }

  lemma StatusLineIsClean(code: nat, reason: string)
    requires Clean(reason)
    ensures Clean(StatusLine(code, reason))
  {
    DecimalReadsBack(code);
  }

  lemma PartsAreRead(line: string, code: nat, reason: string, fs: seq<Field>, fields: string, body: string,
                     text: string, rest: string)
    requires ReadLine(line + CRLF + fields) == Some(Read(line, fields))
    requires ReadStatus(line) == Some(Read(code, reason))
    requires ReadFields(fields) == Some(Read(fs, text))
    requires ReadBody(code, fs, text) == Some(Read(body, rest))
    ensures ReadReply(line + CRLF + fields) == Some(Read(Reply(code, reason, fs, body), rest))
  {
    hide ReadLine, ReadFields, ReadBody, ReadStatus;
  }

  lemma MessageIsRead(r: Response, rest: string)
    requires (!r.close || rest == "") && Sound(Printed(r))
    ensures ReadReply(Print(r) + rest) == Some(Read(Printed(r), rest))
  {
    var code := r.code.Number();
    var status := StatusLine(code, r.reason);
    var fields := PrintFields(Fields(r)) + CRLF + (r.body + rest);
    MessageParts(r, rest);
    StatusLineIsClean(code, r.reason);
    ReadsLine(status, fields);
    ReadsStatus(code, r.reason);
    ReadsFields(Fields(r), r.body + rest);
    ReadsBody(r, rest);
    PartsAreRead(status, code, r.reason, Fields(r), fields, r.body, r.body + rest, rest);
    hide ReadReply, ReadLine, ReadFields, ReadBody, ReadStatus, Print, PrintFields, Sound, Fields, Clean, Decimal;
  }

  /** A status never set, which is 1, makes a message that no reader of the format takes. */
  lemma UnsetStatusIsUnreadable(r: Response, rest: string)
    requires r.code == Unkonwn && Clean(r.reason)
    ensures ReadReply(Print(r) + rest).None?
  {
    var line := StatusLine(1, r.reason);
    var fields := PrintFields(Fields(r)) + CRLF + (r.body + rest);
    MessageParts(r, rest);
    StatusLineIsClean(1, r.reason);
    ReadsLine(line, fields);
    OneIsNoStatus(r.reason);
    hide ReadLine, ReadStatus, ReadFields, ReadBody, Print, PrintFields, Fields, Clean;
  }

  lemma OneIsNoStatus(reason: string)
    ensures ReadStatus(StatusLine(1, reason)).None?
  {
    var line := StatusLine(1, reason);
    assert line[10] == ' ';
    assert |line| >= 13 ==> line[9..12][1] == line[10];
  }

  /** Neither a transfer coding nor another length may be among the headers, however the names are spelt. */
  lemma HeadersThatSpoil(r: Response, f: Field)
    requires r.code != Continue && f in r.headers
    requires Lower(f.name) == "transfer-encoding"
      || (Lower(f.name) == "content-length" && !(f.value != "" && IsDigits(f.value) && ValueOf(f.value) == |r.body|))
    ensures !Fit(r)
  {}

  lemma LettersOfEitherCase(s: string)
    ensures |Lower(s)| == |s|
    ensures forall i :: 0 <= i < |s| ==>
      Lower(s)[i] as int == s[i] as int + if 65 <= s[i] as int <= 90 then 32 else 0
  {}

  /** A reply takes at least its status line. */
  lemma ReplyTakesBytes(s: string)
    requires ReadReply(s).Some?
    ensures |ReadReply(s).value.rest| < |s|
  {
    LineIsPrefix(s);
    FieldsTakeBytes(ReadLine(s).value.rest);
    hide ReadLine, ReadStatus, ReadFields, Declares, FirstLength;
  }

  lemma {:induction false} FieldsTakeBytes(s: string)
    requires ReadFields(s).Some?
    ensures |ReadFields(s).value.rest| < |s|
    decreases |s|
  {
    LineIsPrefix(s);
    if ReadLine(s).value.value != "" {
      FieldsTakeBytes(ReadLine(s).value.rest);
    }
  }

  /** All the replies of a stream. */
  function ReadAll(s: string): Option<seq<Reply>>
    decreases |s|
  {
    if s == "" then Some([])
    else match ReadReply(s)
      case None => None
      case Some(reply) =>
        ReplyTakesBytes(s);
        match ReadAll(reply.rest)
        case None => None
        case Some(more) => Some([reply.value] + more)
  }

  function PrintAll(rs: seq<Response>): string { if rs == [] then "" else Print(rs[0]) + PrintAll(rs[1..]) }

  function MeantAll(rs: seq<Response>): seq<Reply> { if rs == [] then [] else [Meant(rs[0])] + MeantAll(rs[1..]) }

  lemma {:induction false} RepliesAreSound(s: string)
    requires ReadAll(s).Some?
    ensures forall reply :: reply in ReadAll(s).value ==> Sound(reply)
    decreases |s|
  {
    hide ReadReply, Sound;
    if s != "" {
      ReplyIsSound(s);
      ReplyTakesBytes(s);
      RepliesAreSound(ReadReply(s).value.rest);
    }
  }

  lemma {:induction false} FitStreamIsRead(rs: seq<Response>)
    requires forall i :: 0 <= i < |rs| - 1 ==> !rs[i].close
    requires forall r :: r in rs ==> Fit(r)
    ensures ReadAll(PrintAll(rs)) == Some(MeantAll(rs))
  {
    hide ReadReply, Fit, Print;
    if rs != [] {
      MessageIsReadExactlyWhen(rs[0], PrintAll(rs[1..]));
      PrintIsNotEmpty(rs[0]);
      FitStreamIsRead(rs[1..]);
      ReplyTakesBytes(PrintAll(rs));
    }
  }

  lemma PrintIsNotEmpty(r: Response)
    ensures Print(r) != ""
  {}

  /** A whole connection: any number of responses that keep it open, then perhaps one that closes it, are told
      apart and read back, whatever the bodies hold, exactly when each of them is fit. */
  lemma {:induction false} StreamIsReadExactlyWhen(rs: seq<Response>)
    requires forall i :: 0 <= i < |rs| - 1 ==> !rs[i].close
    ensures ReadAll(PrintAll(rs)) == Some(MeantAll(rs)) <==> forall r :: r in rs ==> Fit(r)
  {
    hide Fit, ReadAll, PrintAll, Sound;
    if ReadAll(PrintAll(rs)) == Some(MeantAll(rs)) {
      RepliesAreSound(PrintAll(rs));
      forall r | r in rs ensures Fit(r) {
        MeantIsAmong(rs, r);
        FitIsSound(r);
        PrintedIsMeant(r);
      }
    } else if forall r :: r in rs ==> Fit(r) {
      FitStreamIsRead(rs);
    }
  }

  lemma {:induction false} MeantIsAmong(rs: seq<Response>, r: Response)
    requires r in rs
    ensures Meant(r) in MeantAll(rs)
  {
    if r != rs[0] {
      MeantIsAmong(rs[1..], r);
    }
  }

  // std::map keeps the headers in the order of their names.

  predicate Before(a: string, b: string) {
    b != "" && (a == "" || a[0] < b[0] || (a[0] == b[0] && Before(a[1..], b[1..])))
  }

  /** Strings differ first at a smaller character, or the first is a proper beginning of the second. */
  lemma {:induction false} BeforeByFirstDifference(a: string, b: string)
    ensures Before(a, b) <==>
      exists i :: 0 <= i <= |a| && i < |b| && a[..i] == b[..i] && (i == |a| || a[i] < b[i])
  {
    if a != "" && b != "" && a[0] == b[0] {
      var a', b' := a[1..], b[1..];
      BeforeByFirstDifference(a', b');
      if Before(a, b) {
        var i :| 0 <= i <= |a'| && i < |b'| && a'[..i] == b'[..i] && (i == |a'| || a'[i] < b'[i]);
        assert a[..i + 1] == [a[0]] + a'[..i] && b[..i + 1] == [b[0]] + b'[..i];
      }
      if i :| 0 <= i <= |a| && i < |b| && a[..i] == b[..i] && (i == |a| || a[i] < b[i]) {
        assert i > 0;
        assert a'[..i - 1] == a[..i][1..] && b'[..i - 1] == b[..i][1..];
      }
    } else if b != "" && (a == "" || a[0] < b[0]) {
      assert a[..0] == b[..0];
    } else {
      assert forall i :: 0 < i <= |a| && i < |b| ==> a[..i][0] == a[0] && b[..i][0] == b[0];
    }
  }

  lemma {:induction false} NotBeforeItself(a: string)
    ensures !Before(a, a)
  {
    if a != "" { NotBeforeItself(a[1..]); }
  }

  lemma {:induction false} BeforeIsTransitive(a: string, b: string, c: string)
    requires Before(a, b) && Before(b, c)
    ensures Before(a, c)
  {
    if a != "" && a[0] == b[0] == c[0] { BeforeIsTransitive(a[1..], b[1..], c[1..]); }
  }

  lemma {:induction false} BeforeIsTotal(a: string, b: string)
    ensures a == b || Before(a, b) || Before(b, a)
  {
    if a != "" && b != "" && a[0] == b[0] {
      BeforeIsTotal(a[1..], b[1..]);
      assert a == [a[0]] + a[1..] && b == [b[0]] + b[1..];
    }
  }

  ghost predicate Ordered(fs: seq<Field>) { forall i, j :: 0 <= i < j < |fs| ==> Before(fs[i].name, fs[j].name) }

  /** headers_[key] = value. */
  function Put(fs: seq<Field>, f: Field): seq<Field> {
    if fs == [] || Before(f.name, fs[0].name) then [f] + fs
    else if fs[0].name == f.name then [f] + fs[1..]
    else [fs[0]] + Put(fs[1..], f)
  }

  /** Only the field of that name changes, and there is one of it. */
  lemma {:induction false} PutReplaces(fs: seq<Field>, f: Field)
    requires Ordered(fs)
    ensures Ordered(Put(fs, f))
    ensures forall g :: g in Put(fs, f) <==> g == f || (g in fs && g.name != f.name)
  {
    if fs == [] {
    } else if Before(f.name, fs[0].name) {
      forall g | g in fs ensures Before(f.name, g.name) && g.name != f.name {
        if g != fs[0] { BeforeIsTransitive(f.name, fs[0].name, g.name); }
        NotBeforeItself(f.name);
      }
    } else if fs[0].name == f.name {
      NotBeforeItself(f.name);
      assert fs == [fs[0]] + fs[1..];
    } else {
      BeforeIsTotal(f.name, fs[0].name);
      PutReplaces(fs[1..], f);
      var more := Put(fs[1..], f);
      assert fs == [fs[0]] + fs[1..];
      assert forall g :: g in more ==> Before(fs[0].name, g.name);
    }
  }

  class HttpResponse {
    var headers: seq<Field>
    var statusCode: StatusCode
    var statusMessage: string
    var body: string
    var closeConnection: bool

    ghost function Value(): Response
      reads this
    {
      Response(statusCode, statusMessage, headers, body, closeConnection)
    }

    ghost predicate Valid()
      reads this
    {
      Ordered(headers)
    }

    constructor (close: bool)
      ensures Valid() && Value() == Response(Unkonwn, "", [], "", close)
    {
      headers, statusCode, statusMessage, body, closeConnection := [], Unkonwn, "", "", close;
    }

    method SetStatusCode(code: StatusCode)
      modifies this
      ensures Value() == old(Value()).(code := code)
    {
      statusCode := code;
    }

    method SetStatusMessage(message: string)
      modifies this
      ensures Value() == old(Value()).(reason := message)
    {
      statusMessage := message;
    }

    method SetCloseConnection(close: bool)
      modifies this
      ensures Value() == old(Value()).(close := close)
    {
      closeConnection := close;
    }

    method SetBody(text: string)
      modifies this
      ensures Value() == old(Value()).(body := text)
    {
      body := text;
    }

    method AddHeader(key: string, value: string)
      requires Valid()
      modifies this
      ensures Valid() && Value() == old(Value()).(headers := headers)
      ensures forall g :: g in headers <==> g == Field(key, value) || (g in old(headers) && g.name != key)
    {
      PutReplaces(headers, Field(key, value));
      headers := Put(headers, Field(key, value));
    }

    method SetContentType(contentType: string)
      requires Valid()
      modifies this
      ensures Valid() && Value() == old(Value()).(headers := headers)
      ensures forall g :: g in headers <==>
        g == Field("Content-Type", contentType) || (g in old(headers) && g.name != "Content-Type")
    {
      AddHeader("Content-Type", contentType);
    }

    method Message() returns (message: string)
      ensures message == Print(Value())
    {
      message := "HTTP/1.1 " + Decimal(statusCode.Number()) + " " + statusMessage + "\r\n";
      ghost var status := message;
      if closeConnection {
        message := message + "Connection: close\r\n";
      } else {
        message := message + ("Content-Length: " + Decimal(|body|) + "\r\n");
        message := message + "Connection: Keep-Alive\r\n";
      }
      ghost var text := message + PrintFields(headers);
      MessageStart(Value(), status, message);
      hide Decimal, Print, PrintFields;
      assert headers[0..] == headers;
      for i := 0 to |headers|
        invariant message + PrintFields(headers[i..]) == text
      {
        PrintFirst(message, headers[i..], headers[i + 1..], headers[i]);
        message := message + headers[i].name + ": " + headers[i].value + "\r\n";
      }
      NoMore(message, headers[|headers|..]);
      message := message + "\r\n";
      message := message + body;
    }
  }

  lemma NoMore(printed: string, fs: seq<Field>)
    requires fs == []
    ensures printed + PrintFields(fs) == printed
  {}

  lemma MessageStart(r: Response, status: string, message: string)
    requires status == "HTTP/1.1 " + Decimal(r.code.Number()) + " " + r.reason + "\r\n"
    requires message == if r.close then status + "Connection: close\r\n"
      else status + ("Content-Length: " + Decimal(|r.body|) + "\r\n") + "Connection: Keep-Alive\r\n"
    ensures Print(r) == message + PrintFields(r.headers) + "\r\n" + r.body
  {
    PrintIs(r);
    assert status == StatusLine(r.code.Number(), r.reason) + CRLF;
    hide Decimal, Print, PrintFields, StatusLine;
    var all, n := Fields(r), Decimal(|r.body|);
    if r.close {
      StartClosing(status, all, r.headers);
    } else {
      StartKeeping(status, all, r.headers, n);
    }
  }

  lemma StartClosing(status: string, all: seq<Field>, headers: seq<Field>)
    requires all == [Field("Connection", "close")] + headers
    ensures status + PrintFields(all) == status + "Connection: close\r\n" + PrintFields(headers)
  {
    PrintFirst(status, all, headers, Field("Connection", "close"));
    hide PrintFields;
    assert "Connection" + ": " + "close" + "\r\n" == "Connection: close\r\n";
  }

  lemma StartKeeping(status: string, all: seq<Field>, headers: seq<Field>, n: string)
    requires all == [Field("Content-Length", n), Field("Connection", "Keep-Alive")] + headers
    ensures status + PrintFields(all)
         == status + ("Content-Length: " + n + "\r\n") + "Connection: Keep-Alive\r\n" + PrintFields(headers)
  {
    var second := [Field("Connection", "Keep-Alive")] + headers;
    PrintFirst(status, all, second, Field("Content-Length", n));
    PrintFirst(status + ("Content-Length: " + n + "\r\n"), second, headers, Field("Connection", "Keep-Alive"));
    hide PrintFields;
    assert "Content-Length" + ": " + n + "\r\n" == "Content-Length: " + n + "\r\n";
    assert "Connection" + ": " + "Keep-Alive" + "\r\n" == "Connection: Keep-Alive\r\n";
  }

  lemma PrintIs(r: Response)
    ensures Print(r) == StatusLine(r.code.Number(), r.reason) + CRLF + PrintFields(Fields(r)) + CRLF + r.body
  {}

  /** Taking the first field out of what is still to be printed. */
  lemma PrintFirst(printed: string, fs: seq<Field>, more: seq<Field>, f: Field)
    requires fs == [f] + more
    ensures printed + PrintFields(fs) == printed + f.name + ": " + f.value + "\r\n" + PrintFields(more)
    ensures printed + f.name + ": " + f.value + "\r\n" == printed + (f.name + ": " + f.value + "\r\n")
  {
    assert fs[0] == f && fs[1..] == more;
    assert PrintFields(fs) == PrintField(f) + CRLF + PrintFields(more);
  }
}
