/**
  The http4js `Request` message object: method, target URI, headers and body,
  with a fluent mutation API. Every mutator changes the request in place and
  hands back the same instance; `setUri` is the exception (see `SetUri`).
 */
module Core {
  import opened HeaderState

  /** A body's raw payload: the byte buffer it was built with, or a string
      written over it by `setBodystring`. */
  datatype Payload = Buffer(data: seq<bv8>) | Text(text: string)

  /** The body held by a request. Its decoding to a string lives outside
      this model and is passed in where it is needed. */
  datatype Body = Body(bytes: Payload)

  /** The body a request gets when none is given: an empty byte buffer. */
  const EmptyBody: Body := Body(Buffer([]))

  class Request {
    var httpMethod: string
    var uri: string
    var headers: Headers
    var body: Body

    /** The headers the request was built with, and the header mutator calls since. */
    ghost var initial: Headers
    ghost var log: seq<HeaderOp>

    /** The header map is what the logged calls make of the initial one. */
    ghost predicate Valid()
      reads this
    {
      headers == Run(initial, log)
    }

    /** Builds a request; a missing headers argument means no headers. */
    constructor (httpMethod: string, uri: string, body: Body := EmptyBody,
                 headers: Option<Headers> := None)
      ensures Valid() && log == [] && initial == this.headers
      ensures this.httpMethod == httpMethod && this.uri == uri && this.body == body
      ensures headers.None? ==> this.headers == map[]
      ensures headers.Some? ==> this.headers == headers.value
    {
      this.httpMethod := httpMethod;
      this.uri := uri;
      this.body := body;
      this.headers := if headers.Some? then headers.value else map[];
      initial := this.headers;
      log := [];
    }

    /** As written: the argument is ignored, nothing changes and no request
        is returned. */
    method SetUri(uri: string) returns (r: Request?)
      ensures r == null
    {
      r := null;
    }

    /** What `setUri` is evidently meant to do: set the URI and return this
        request. */
    method SetUriCorrected(uri: string) returns (r: Request)
      requires Valid()
      modifies this
      ensures r == this && Valid()
      ensures this.uri == uri
      ensures httpMethod == old(httpMethod) && headers == old(headers) && body == old(body)
      ensures initial == old(initial) && log == old(log)
    {
      this.uri := uri;
      r := this;
    }

    /** Exact-name lookup, with no default. */
    function GetHeader(name: string): (r: Option<HeaderValue>)
      reads this
      ensures r.Some? <==> name in headers
      ensures r.Some? ==> r.value == headers[name]
    {
      Lookup(headers, name)
    }

    /** Additive write: absent becomes a single string, a single string
        becomes the two-element list, a list gets `value` at its end. */
    method SetHeader(name: string, value: string) returns (r: Request)
      requires Valid()
      modifies this
      ensures r == this && Valid()
      ensures headers == Step(old(headers), Set(name, value))
      ensures log == old(log) + [Set(name, value)] && initial == old(initial)
      ensures name !in old(headers) ==> GetHeader(name) == Some(Single(value))
      ensures name in old(headers) && old(headers[name]).Single? ==>
                GetHeader(name) == Some(Multi([old(headers[name]).value, value]))
      ensures name in old(headers) && old(headers[name]).Multi? ==>
                GetHeader(name) == Some(Multi(old(headers[name]).values + [value]))
      ensures headers - {name} == old(headers) - {name}
      ensures httpMethod == old(httpMethod) && uri == old(uri) && body == old(body)
    {
      if name !in headers {
        headers := headers[name := Single(value)];
      } else if headers[name].Single? {
        headers := headers[name := Multi([headers[name].value, value])];
      } else {
        headers := headers[name := Multi(headers[name].values + [value])];
      }
      RunSnoc(initial, log, Set(name, value));
      log := log + [Set(name, value)];
      r := this;
    }

    /** Destructive write: whatever the name held, it now holds `value` alone. */
    method ReplaceHeader(name: string, value: string) returns (r: Request)
      requires Valid()
      modifies this
      ensures r == this && Valid()
      ensures headers == Step(old(headers), Replace(name, value))
      ensures log == old(log) + [Replace(name, value)] && initial == old(initial)
      ensures GetHeader(name) == Some(Single(value))
      ensures headers - {name} == old(headers) - {name}
      ensures httpMethod == old(httpMethod) && uri == old(uri) && body == old(body)
    {
      headers := headers[name := Single(value)];
      RunSnoc(initial, log, Replace(name, value));
      log := log + [Replace(name, value)];
      r := this;
    }

    /** Deletes the name; deleting an absent name changes nothing. */
    method RemoveHeader(name: string) returns (r: Request)
      requires Valid()
      modifies this
      ensures r == this && Valid()
      ensures headers == Step(old(headers), Remove(name))
      ensures log == old(log) + [Remove(name)] && initial == old(initial)
      ensures GetHeader(name) == None
      ensures name !in old(headers) ==> headers == old(headers)
      ensures headers - {name} == old(headers) - {name}
      ensures httpMethod == old(httpMethod) && uri == old(uri) && body == old(body)
    {
      headers := headers - {name};
      RunSnoc(initial, log, Remove(name));
      log := log + [Remove(name)];
      r := this;
    }

    /** Replaces the body wholesale. */
    method SetBody(body: Body) returns (r: Request)
      requires Valid()
      modifies this
      ensures r == this && Valid()
      ensures this.body == body
      ensures httpMethod == old(httpMethod) && uri == old(uri) && headers == old(headers)
      ensures initial == old(initial) && log == old(log)
    {
      this.body := body;
      r := this;
    }

    /** Overwrites the body's raw payload with a string, undecoded. */
    method SetBodyString(s: string) returns (r: Request)
      requires Valid()
      modifies this
      ensures r == this && Valid()
      ensures body == old(body).(bytes := Text(s))
      ensures httpMethod == old(httpMethod) && uri == old(uri) && headers == old(headers)
      ensures initial == old(initial) && log == old(log)
    {
      body := body.(bytes := Text(s));
      r := this;
    }

    /** The body's string view; `view` is the body's own decoding. */
    function BodyString(view: Payload -> string): (s: string)
      reads this
      ensures s == view(body.bytes)
    {
      view(body.bytes)
    }
  }

  /** A request built without a headers argument only ever holds lists of
      two strings or more, whatever header calls were made on it. */
  lemma BuiltWithoutHeaders(r: Request)
    requires r.Valid() && r.initial == map[]
    ensures WellFormed(r.headers)
  {
    RunWellFormed(map[], r.log);
  }

  /** The header calls of a typical client, with what each lookup sees. */
  method HeaderScenario()
    returns (one: Option<HeaderValue>, two: Option<HeaderValue>, three: Option<HeaderValue>,
             replaced: Option<HeaderValue>, removed: Option<HeaderValue>, removedTwice: Option<HeaderValue>)
    ensures one == Some(Single("a"))
    ensures two == Some(Multi(["a", "b"]))
    ensures three == Some(Multi(["a", "b", "d"]))
    ensures replaced == Some(Single("c"))
    ensures removed == None && removedTwice == None
  {
    var req := new Request("POST", "/x");
    var r1 := req.SetHeader("Accept", "a");
    one := r1.GetHeader("Accept");
    var r2 := r1.SetHeader("Accept", "b");
    two := r2.GetHeader("Accept");
    var r3 := r2.SetHeader("Accept", "d");
    three := r3.GetHeader("Accept");
    assert ["a", "b"] + ["d"] == ["a", "b", "d"];
    var r4 := r3.ReplaceHeader("Accept", "c");
    replaced := r4.GetHeader("Accept");
    var r5 := r4.RemoveHeader("Accept");
    removed := r5.GetHeader("Accept");
    var r6 := r5.RemoveHeader("Accept");
    removedTwice := r6.GetHeader("Accept");
  }

  /** `setUri` as written: the URI stays what it was and nothing comes back
      to chain on. */
  method SetUriScenario() returns (returned: Request?, uriAfter: string)
    ensures returned == null
    ensures uriAfter == "/a" && uriAfter != "/b"
  {
    var req := new Request("GET", "/a");
    returned := req.SetUri("/b");
    uriAfter := req.uri;
  }
}
