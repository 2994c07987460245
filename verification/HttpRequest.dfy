// HttpRequest: the record the parser fills in.

module HttpRequests {

  datatype Method = InvalidMethod | Get | Post | Head | Put | Delete

  datatype Version = UnknownVersion | Http10 | Http11

  /** The value of a request object: what its fields hold at one moment. */
  datatype Request = Request(
    verb: Method,
    version: Version,
    params: map<string, string>,
    url: string,
    protocol: string,
    headers: map<string, string>,
    body: string)

  const FRESH := Request(InvalidMethod, UnknownVersion, map[], "", "", map[], "")

  function MethodOf(text: string): Method {
    if text == "GET" then Get
    else if text == "POST" then Post
    else if text == "HEAD" then Head
    else if text == "PUT" then Put
    else if text == "Delete" then Delete
    else InvalidMethod
  }

  function VersionOf(text: string): Version {
    if text == "1.0" then Http10
    else if text == "1.1" then Http11
    else UnknownVersion
  }

  /** Five texts are methods, and no other; letters in the other case are not taken for them. */
  lemma MethodTexts(text: string)
    ensures MethodOf(text) == Get <==> text == "GET"
    ensures MethodOf(text) == Post <==> text == "POST"
    ensures MethodOf(text) == Head <==> text == "HEAD"
    ensures MethodOf(text) == Put <==> text == "PUT"
    ensures MethodOf(text) == Delete <==> text == "Delete"
    ensures MethodOf(text) == InvalidMethod <==> text !in {"GET", "POST", "HEAD", "PUT", "Delete"}
  {}

  lemma VersionTexts(text: string)
    ensures VersionOf(text) == Http10 <==> text == "1.0"
    ensures VersionOf(text) == Http11 <==> text == "1.1"
    ensures VersionOf(text) == UnknownVersion <==> text !in {"1.0", "1.1"}
  {}

  class HttpRequest {
    var verb: Method
    var version: Version
    var requestParams: map<string, string>
    var url: string
    var protocol: string
    var headers: map<string, string>
    var body: string

    constructor ()
      ensures Value() == FRESH == Request(InvalidMethod, UnknownVersion, map[], "", "", map[], "")
    {
      verb, version := InvalidMethod, UnknownVersion;
      requestParams, headers := map[], map[];
      url, protocol, body := "", "", "";
    }

    function Value(): Request
      reads this
    {
      Request(verb, version, requestParams, url, protocol, headers, body)
    }

    method SetVersion(ver: string)
      modifies `version
      ensures Value() == old(Value()).(version := VersionOf(ver))
    {
      if ver == "1.0" {
        version := Http10;
      } else if ver == "1.1" {
        version := Http11;
      } else {
        version := UnknownVersion;
      }
    }

    method SetMethod(text: string) returns (known: bool)
      modifies `verb
      ensures Value() == old(Value()).(verb := MethodOf(text))
      ensures known <==> MethodOf(text) != InvalidMethod
    {
      if text == "GET" {
        verb := Get;
      } else if text == "POST" {
        verb := Post;
      } else if text == "HEAD" {
        verb := Head;
      } else if text == "PUT" {
        verb := Put;
      } else if text == "Delete" {
        verb := Delete;
      } else {
        verb := InvalidMethod;
      }
      known := verb != InvalidMethod;
    }

    method SetUrl(text: string)
      modifies `url
      ensures Value() == old(Value()).(url := text)
    {
      url := text;
    }

    method SetRequestParams(key: string, value: string)
      modifies `requestParams
      ensures Value() == old(Value()).(params := old(requestParams)[key := value])
    {
      requestParams := requestParams[key := value];
    }

    method SetProtocol(text: string)
      modifies `protocol
      ensures Value() == old(Value()).(protocol := text)
    {
      protocol := text;
    }

    method AddHeader(field: string, value: string)
      modifies `headers
      ensures Value() == old(Value()).(headers := old(headers)[field := value])
    {
      headers := headers[field := value];
    }

    method GetHeader(field: string) returns (value: string)
      ensures value == if field in headers then headers[field] else ""
    {
      value := "";
      if field in headers {
        value := headers[field];
      }
    }

    method SetBody(text: string)
      modifies `body
      ensures Value() == old(Value()).(body := text)
    {
      body := text;
    }
  }
}
