// HttpContext: the hand-written request state machine. A char stands for one byte, classified as in
// the C locale. `Step` is one turn of the parsing loop, `Exec` the whole loop; the class runs the loop
// over its own fields and is proved to do what `Exec` says.

module HttpContexts {
  import opened Basics
  import opened HttpRequests

  const CR: char := '\r'
  const LF: char := '\n'

  datatype State =
    | Invalid
    | Start
    | InMethod
    | BeforeUrl
    | InUrl
    | BeforeParamKey
    | ParamKey
    | BeforeParamValue
    | ParamValue
    | BeforeProtocol
    | Protocol
    | BeforeVersion
    | InVersion
    | HeaderKey
    | HeaderValue
    | WhenCr
    | CrLf
    | CrLfCr
    | Body
    | Complete

  /** The loop's variables. `illFormed` records that a string was asked for from a range that ends before
      it begins, which leaves the function by an exception. */
  datatype Cursor = Cursor(state: State, start: nat, colon: nat, end: nat, req: Request, illFormed: bool)

  /** The states up to the end of the version. */
  predicate InLine(q: State) {
    !(q.HeaderKey? || q.HeaderValue? || q.WhenCr? || q.CrLf? || q.CrLfCr? || q.Body? || q.Complete?)
  }

  datatype Outcome = Returned(complete: bool) | IllFormedRange

  /** The value of the digits at the front of `s`, continuing from `acc`. */
  function Digits(s: string, acc: nat): nat {
    if s == "" || !IsDigit(s[0]) then acc
    else Digits(s[1..], 10 * acc + (s[0] as int - '0' as int))
  }

  /** atoi on a 64-bit GNU system: strtol saturates at 64 bits, then the low 32 bits are taken. */
  function Atoi(s: string): int {
    if s == "" then 0
    else if IsSpace(s[0]) then Atoi(s[1..])
    else
      var negative := s[0] == '-';
      var magnitude: int := Digits(if s[0] == '-' || s[0] == '+' then s[1..] else s, 0);
      var value: int := if negative then 0 - magnitude else magnitude;
      var wide := if value < -0x8000_0000_0000_0000 then -0x8000_0000_0000_0000
                  else if value > 0x7FFF_FFFF_FFFF_FFFF then 0x7FFF_FFFF_FFFF_FFFF
                  else value;
      var low := wide % 0x1_0000_0000;
      if low >= 0x8000_0000 then low - 0x1_0000_0000 else low
  }

  const LENGTH_FIELD := "Content-Lenght"

  /** Whether the machine reads a body after the blank line, `more` telling if the line feed lies before
      the end of the message. */
  predicate ReadsBody(headers: map<string, string>, more: bool) {
    if LENGTH_FIELD in headers then Atoi(headers[LENGTH_FIELD]) > 0 else more
  }

  predicate Running(c: Cursor) {
    c.state != Invalid && c.state != Complete && !c.illFormed
  }

  /** One turn of the loop on `buf[c.end]`. */
  function Step(c: Cursor, buf: string, size: nat): Cursor
    requires Running(c) && c.start <= c.end <= size < |buf|
  {
    var ch := buf[c.end];
    var next := c.(end := c.end + 1);
    var mark := next.(start := c.end + 1);
    var invalid := next.(state := Invalid);
    match c.state
    case Start =>
      if ch == CR || ch == LF || IsBlank(ch) then next
      else if IsUpper(ch) then next.(state := InMethod)
      else invalid
    case InMethod =>
      if IsUpper(ch) then next
      else if IsBlank(ch) then
        mark.(state := BeforeUrl, req := c.req.(verb := MethodOf(buf[c.start..c.end])))
      else invalid
    case BeforeUrl =>
      if ch == '/' then next.(state := InUrl)
      else if IsBlank(ch) then next
      else invalid
    case InUrl =>
      if ch == '?' then mark.(state := BeforeParamKey, req := c.req.(url := buf[c.start..c.end]))
      else if IsBlank(ch) then mark.(state := BeforeProtocol, req := c.req.(url := buf[c.start..c.end]))
      else next
    case BeforeParamKey =>
      if IsBlank(ch) || ch == CR || ch == LF then invalid else next.(state := ParamKey)
    case ParamKey =>
      if ch == '=' then next.(state := BeforeParamValue, colon := c.end)
      else if IsBlank(ch) then invalid
      else next
    case BeforeParamValue =>
      if IsBlank(ch) || ch == LF || ch == CR then invalid else next.(state := ParamValue)
    case ParamValue =>
      if ch != '&' && !IsBlank(ch) then next
      else if c.start <= c.colon < c.end then
        mark.(state := if ch == '&' then BeforeParamKey else BeforeProtocol,
              req := c.req.(params := c.req.params[buf[c.start..c.colon] := buf[c.colon + 1..c.end]]))
      else c.(illFormed := true, state := if ch == '&' then BeforeParamKey else ParamValue)
    case BeforeProtocol =>
      if IsBlank(ch) then next else next.(state := Protocol)
    case Protocol =>
      if ch == '/' then mark.(state := BeforeVersion, req := c.req.(protocol := buf[c.start..c.end]))
      else next
    case BeforeVersion =>
      if IsDigit(ch) then next.(state := InVersion) else invalid
    case InVersion =>
      if ch == CR then mark.(state := WhenCr, req := c.req.(version := VersionOf(buf[c.start..c.end])))
      else if IsDigit(ch) || ch == '.' then next
      else invalid
    case HeaderKey =>
      if ch == ':' then next.(state := HeaderValue, colon := c.end) else next
    case HeaderValue =>
      if ch != CR then next
      else if c.start <= c.colon && c.colon + 2 <= c.end then
        mark.(state := WhenCr,
              req := c.req.(headers := c.req.headers[buf[c.start..c.colon] := buf[c.colon + 2..c.end]]))
      else c.(illFormed := true)
    case WhenCr =>
      if ch == LF then mark.(state := CrLf) else invalid
    case CrLf =>
      if ch == CR then next.(state := CrLfCr)
      else if IsBlank(ch) then invalid
      else next.(state := HeaderKey)
    case CrLfCr =>
      if ch == LF then mark.(state := if ReadsBody(c.req.headers, c.end < size) then Body else Complete)
      else invalid
    case Body =>
      if c.start + (size - c.end) <= |buf|
      then next.(state := Complete, req := c.req.(body := buf[c.start..c.start + (size - c.end)]))
      else c.(illFormed := true)
  }

  /** The whole loop. */
  function Exec(c: Cursor, buf: string, size: nat): Cursor
    requires c.start <= c.end && size < |buf|
    decreases size + 1 - c.end, !c.illFormed
  {
    if Running(c) && c.end <= size then Exec(Step(c, buf, size), buf, size) else c
  }

  function Entry(state: State, req: Request): Cursor {
    Cursor(state, 0, 0, 0, req, false)
  }

  /** How the cursors lie in each state, whatever the message. */
  ghost predicate Ordered(c: Cursor, size: nat) {
    && c.start <= c.end <= size + 1
    && c.colon <= c.end
    && (c.state == ParamKey ==> c.start < c.end)
    && (c.state == BeforeParamValue ==> c.start < c.colon && c.end == c.colon + 1)
    && (c.state == ParamValue ==> c.start < c.colon && c.colon + 2 <= c.end)
    && (c.state == HeaderKey ==> c.start < c.end)
    && (c.state == HeaderValue ==> c.start < c.colon < c.end)
    && (c.state == Body ==> c.start == c.end)
    && (c.illFormed ==> c.state == HeaderValue && c.end == c.colon + 1 <= size)
  }

  lemma StepKeepsOrdered(c: Cursor, buf: string, size: nat)
    requires Ordered(c, size) && Running(c) && c.end <= size < |buf|
    ensures Ordered(Step(c, buf, size), size)
  {
  }

  /** The cursors after the first `n` turns of the loop, or after its last one. */
  function Turns(c: Cursor, buf: string, size: nat, n: nat): Cursor
    requires c.start <= c.end && size < |buf|
    decreases n
  {
    if n > 0 && Running(c) && c.end <= size then Turns(Step(c, buf, size), buf, size, n - 1) else c
  }

  /** From the start state the cursors stay ordered at every turn. */
  lemma {:induction false} EveryTurnIsOrdered(c: Cursor, buf: string, size: nat, n: nat)
    requires Ordered(c, size) && size < |buf|
    ensures Ordered(Turns(c, buf, size, n), size)
    decreases n
  {
    if n > 0 && Running(c) && c.end <= size {
      StepKeepsOrdered(c, buf, size);
      EveryTurnIsOrdered(Step(c, buf, size), buf, size, n - 1);
    }
  }

  /** They end as Exec says, after size + 1 turns at most. */
  lemma {:induction false} TurnsEnd(c: Cursor, buf: string, size: nat, n: nat)
    requires Ordered(c, size) && size < |buf| && (!Running(c) || n + c.end >= size + 1)
    ensures Turns(c, buf, size, n) == Exec(c, buf, size)
    decreases n
  {
    if Running(c) && c.end <= size {
      StepKeepsOrdered(c, buf, size);
      TurnsEnd(Step(c, buf, size), buf, size, n - 1);
    }
  }

  lemma CursorsStayOrdered(c: Cursor, buf: string, size: nat)
    requires Ordered(c, size) && size < |buf|
    ensures Ordered(Exec(c, buf, size), size)
  {
    EveryTurnIsOrdered(c, buf, size, size + 1);
    TurnsEnd(c, buf, size, size + 1);
  }

  /** The ranges that a turn takes its strings from all lie inside the message. Names and values of parameters are
      not empty, nor are names of headers; only the value of a header whose colon is followed at once by CR has no
      range. */
  ghost predicate TakesRangesInside(c: Cursor, buf: string, size: nat)
    requires Running(c) && c.start <= c.end <= size < |buf|
  {
    var req, next := c.req, Step(c, buf, size);
    && (next.req.params != req.params ==>
          && c.start < c.colon && c.colon + 2 <= c.end
          && next.req.params == req.params[buf[c.start..c.colon] := buf[c.colon + 1..c.end]])
    && (next.req.headers != req.headers ==>
          && c.start < c.colon && c.colon + 2 <= c.end
          && next.req.headers == req.headers[buf[c.start..c.colon] := buf[c.colon + 2..c.end]])
    && (next.req.body != req.body ==> next.req.body == buf[c.end..size])
    && (next.illFormed <==> c.state == HeaderValue && buf[c.end] == CR && c.end == c.colon + 1)
  }

  lemma OrderedTakesInside(c: Cursor, buf: string, size: nat)
    requires Ordered(c, size) && Running(c) && c.end <= size < |buf|
    ensures TakesRangesInside(c, buf, size)
  {
    assert c.state == Body ==> c.start + (size - c.end) == size;
  }

  /** So it is at every turn of a parse from the start state. */
  lemma RangesAreInside(req: Request, buf: string, size: nat, n: nat)
    requires size < |buf|
    ensures var c := Turns(Entry(Start, req), buf, size, n);
      && Ordered(c, size)
      && (Running(c) && c.end <= size ==> TakesRangesInside(c, buf, size))
  {
    EveryTurnIsOrdered(Entry(Start, req), buf, size, n);
    var c := Turns(Entry(Start, req), buf, size, n);
    hide Turns, TakesRangesInside;
    if Running(c) && c.end <= size {
      OrderedTakesInside(c, buf, size);
    }
  }

  /** What the loop needs of its cursors, in whatever state it was entered. */
  ghost predicate Bounded(c: Cursor) {
    && c.colon <= c.end && c.start <= c.end
    && (c.state in {BeforeParamValue, ParamValue, HeaderValue} ==> c.start <= c.colon)
  }

  lemma StepKeepsBounds(c: Cursor, buf: string, size: nat)
    requires Running(c) && c.end <= size < |buf| && Bounded(c)
    ensures Bounded(Step(c, buf, size))
    ensures Step(c, buf, size).illFormed || Step(c, buf, size).end == c.end + 1
  {
  }

  class HttpContext {
    var state: State
    const request: HttpRequest

    constructor ()
      ensures state == Start && fresh(request) && request.Value() == FRESH
    {
      state := Start;
      request := new HttpRequest();
    }

    predicate GetCompleteRequest()
      reads this
    {
      state == Complete
    }

    /** Only the state goes back: the maps filled by the last request stay. */
    method ResetContextStatus()
      modifies this
      ensures state == Start
    {
      state := Start;
    }

    /** The switch inside the loop, on the character `buf[end]`: the cases of the request line. */
    method TurnInLine(buf: string, size: nat, start: nat, colon: nat, end: nat, ghost c: Cursor)
      returns (start': nat, colon': nat, illFormed: bool)
      requires c == Cursor(state, start, colon, end, request.Value(), false)
      requires end <= size < |buf| && Bounded(c)
      requires state != Invalid && InLine(state)
      modifies this`state, request
      ensures var next := Step(c, buf, size);
              if illFormed then next.illFormed && next.req == request.Value() && next.state == state
              else next == Cursor(state, start', colon', end + 1, request.Value(), false)
    {
      hide MethodOf, VersionOf, Atoi;
      start', colon', illFormed := start, colon, false;
      var ch := buf[end];
      match state {
        case Start =>
          if ch == CR || ch == LF || IsBlank(ch) {
          } else if IsUpper(ch) {
            state := InMethod;
          } else {
            state := Invalid;
          }
        case InMethod =>
          if IsUpper(ch) {
          } else if IsBlank(ch) {
            var _ := request.SetMethod(buf[start..end]);
            state := BeforeUrl;
            start' := end + 1;
          } else {
            state := Invalid;
          }
        case BeforeUrl =>
          if ch == '/' {
            state := InUrl;
          } else if IsBlank(ch) {
          } else {
            state := Invalid;
          }
        case InUrl =>
          if ch == '?' {
            request.SetUrl(buf[start..end]);
            start' := end + 1;
            state := BeforeParamKey;
          } else if IsBlank(ch) {
            request.SetUrl(buf[start..end]);
            start' := end + 1;
            state := BeforeProtocol;
          }
        case BeforeParamKey =>
          if IsBlank(ch) || ch == CR || ch == LF {
            state := Invalid;
          } else {
            state := ParamKey;
          }
        case ParamKey =>
          if ch == '=' {
            colon' := end;
            state := BeforeParamValue;
          } else if IsBlank(ch) {
            state := Invalid;
          }
        case BeforeParamValue =>
          if IsBlank(ch) || ch == LF || ch == CR {
            state := Invalid;
          } else {
            state := ParamValue;
          }
        case ParamValue =>
          if ch == '&' {
            state := BeforeParamKey;
            if end < colon + 1 { return start, colon, true; }
            request.SetRequestParams(buf[start..colon], buf[colon + 1..end]);
            start' := end + 1;
          }
          if IsBlank(ch) {
            if end < colon + 1 { return start, colon, true; }
            request.SetRequestParams(buf[start..colon], buf[colon + 1..end]);
            start' := end + 1;
            state := BeforeProtocol;
          }
        case BeforeProtocol =>
          if !IsBlank(ch) {
            state := Protocol;
          }
        case Protocol =>
          if ch == '/' {
            request.SetProtocol(buf[start..end]);
            start' := end + 1;
            state := BeforeVersion;
          }
        case BeforeVersion =>
          if IsDigit(ch) {
            state := InVersion;
          } else {
            state := Invalid;
          }
        case InVersion =>
          if ch == CR {
            request.SetVersion(buf[start..end]);
            start' := end + 1;
            state := WhenCr;
          } else if IsDigit(ch) || ch == '.' {
          } else {
            state := Invalid;
          }
      }
    }

    /** Its other cases. */
    method TurnInFields(buf: string, size: nat, start: nat, colon: nat, end: nat, ghost c: Cursor)
      returns (start': nat, colon': nat, illFormed: bool)
      requires c == Cursor(state, start, colon, end, request.Value(), false)
      requires end <= size < |buf| && Bounded(c)
      requires !InLine(state) && state != Complete
      modifies this`state, request
      ensures var next := Step(c, buf, size);
              if illFormed then next.illFormed && next.req == request.Value() && next.state == state
              else next == Cursor(state, start', colon', end + 1, request.Value(), false)
    {
      hide MethodOf, VersionOf, Atoi;
      start', colon', illFormed := start, colon, false;
      var ch := buf[end];
      match state {
        case HeaderKey =>
          if ch == ':' {
            colon' := end;
            state := HeaderValue;
          }
        case HeaderValue =>
          if IsBlank(ch) {
          } else if ch == CR {
            if end < colon + 2 { return start, colon, true; }
            request.AddHeader(buf[start..colon], buf[colon + 2..end]);
            start' := end + 1;
            state := WhenCr;
          }
        case WhenCr =>
          if ch == LF {
            start' := end + 1;
            state := CrLf;
          } else {
            state := Invalid;
          }
        case CrLf =>
          if ch == CR {
            state := CrLfCr;
          } else if IsBlank(ch) {
            state := Invalid;
          } else {
            state := HeaderKey;
          }
        case CrLfCr =>
          if ch == LF {
            if LENGTH_FIELD in request.headers {
              var text := request.GetHeader(LENGTH_FIELD);
              if Atoi(text) > 0 {
                state := Body;
              } else {
                state := Complete;
              }
            } else if end < size {
              state := Body;
            } else {
              state := Complete;
            }
            start' := end + 1;
          } else {
            state := Invalid;
          }
        case Body =>
          var bodyLength := size - end;
          request.SetBody(buf[start..start + bodyLength]);
          state := Complete;
      }
    }

    method Turn(buf: string, size: nat, start: nat, colon: nat, end: nat, ghost c: Cursor)
      returns (start': nat, colon': nat, illFormed: bool)
      requires c == Cursor(state, start, colon, end, request.Value(), false)
      requires end <= size < |buf| && Bounded(c)
      requires state != Invalid && state != Complete
      modifies this`state, request
      ensures var next := Step(c, buf, size);
              if illFormed then next.illFormed && next.req == request.Value() && next.state == state
              else next == Cursor(state, start', colon', end + 1, request.Value(), false)
    {
      if InLine(state) {
        start', colon', illFormed := TurnInLine(buf, size, start, colon, end, c);
      } else {
        start', colon', illFormed := TurnInFields(buf, size, start, colon, end, c);
      }
    }

    /** Parses `buf[..size]`; the loop also looks at `buf[size]`. */
    method ParaseRequest(buf: string, size: nat) returns (r: Outcome)
      requires size < |buf|
      modifies this`state, request
      ensures var last := Exec(old(Entry(state, request.Value())), buf, size);
              && request.Value() == last.req
              && r == (if last.illFormed then IllFormedRange else Returned(last.state == Complete))
              && state == last.state
    {
      var start: nat, end: nat, colon: nat := 0, 0, 0;
      ghost var last := Exec(Entry(state, request.Value()), buf, size);
      while state != Invalid && state != Complete && end <= size
        invariant Bounded(Cursor(state, start, colon, end, request.Value(), false)) && end <= size + 1
        invariant last == Exec(Cursor(state, start, colon, end, request.Value(), false), buf, size)
      {
        ghost var c := Cursor(state, start, colon, end, request.Value(), false);
        var illFormed;
        start, colon, illFormed := Turn(buf, size, start, colon, end, c);
        ghost var c' := Step(c, buf, size);
        StepKeepsBounds(c, buf, size);
        assert last == Exec(c', buf, size);
        if illFormed { return IllFormedRange; }
        end := end + 1;
      }
      r := Returned(state == Complete);
    }
  }
}
