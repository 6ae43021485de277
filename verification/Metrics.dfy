/**
 The HTTP metrics middleware: an up-down counter of active requests, kept per attribute list while
 any number of requests start and finish in any order.
 */
module Metrics {
  import opened Machine

  datatype KeyValue = KeyValue(key: string, value: string)

  type Attributes = seq<KeyValue>

  datatype Request = Request(
    httpMethod: string, host: Option<string>, port: Option<string>,
    version: Option<string>, route: Option<string>, size: Option<nat>)

  datatype Response = Response(status: string, size: Option<nat>)

  datatype Reply = Ok(response: Response) | Err(message: string)

  function Optional(key: string, value: Option<string>): Attributes {
    if value.Some? then [KeyValue(key, value.value)] else []
  }

  /** The attributes by which active requests are counted. */
  function CountedBy(req: Request): Attributes {
    [KeyValue("http.request.method", req.httpMethod)]
    + Optional("server.address", req.host) + Optional("server.port", req.port)
  }

  function RequestAttributes(req: Request): Attributes {
    CountedBy(req) + [KeyValue("network.protocol.name", "http")]
    + Optional("network.protocol.version", req.version) + Optional("http.route", req.route)
  }

  function ReplyAttribute(reply: Reply): KeyValue {
    match reply
    case Ok(response) => KeyValue("http.response.status_code", response.status)
    case Err(message) => KeyValue("error.type", message)
  }

  /** The values given under a key, in order. */
  function ValuesOf(attrs: Attributes, key: string): seq<string> {
    if attrs == [] then []
    else (if attrs[0].key == key then [attrs[0].value] else []) + ValuesOf(attrs[1..], key)
  }

  function Listed(value: Option<string>): seq<string> {
    match value
    case None => []
    case Some(v) => [v]
  }

  lemma {:induction false} ValuesConcat(a: Attributes, b: Attributes, key: string)
    ensures ValuesOf(a + b, key) == ValuesOf(a, key) + ValuesOf(b, key)
  {
    if a == [] {
      assert a + b == b;
    } else {
      ValuesConcat(a[1..], b, key);
      assert (a + b)[1..] == a[1..] + b;
    }
  }

  lemma OneValue(key: string, value: string, asked: string)
    ensures ValuesOf([KeyValue(key, value)], asked) == if key == asked then [value] else []
  {
  }

  lemma OptionalValue(key: string, value: Option<string>, asked: string)
    ensures ValuesOf(Optional(key, value), asked) == if key == asked then Listed(value) else []
  {
    if value.Some? {
      OneValue(key, value.value, asked);
    }
  }

  lemma CountedValues(req: Request, key: string)
    ensures ValuesOf(CountedBy(req), key) ==
      (if key == "http.request.method" then [req.httpMethod] else [])
      + (if key == "server.address" then Listed(req.host) else [])
      + (if key == "server.port" then Listed(req.port) else [])
  {
    var m, h := [KeyValue("http.request.method", req.httpMethod)], Optional("server.address", req.host);
    OneValue("http.request.method", req.httpMethod, key);
    OptionalValue("server.address", req.host, key);
    OptionalValue("server.port", req.port, key);
    ValuesConcat(m, h, key);
    ValuesConcat(m + h, Optional("server.port", req.port), key);
  }

  /** Each attribute of a request says what its key promises, and active requests are told apart by method, host
      and port alone. */
  lemma AttributesSay(req: Request)
    ensures ValuesOf(RequestAttributes(req), "http.request.method") == [req.httpMethod]
    ensures ValuesOf(RequestAttributes(req), "server.address") == Listed(req.host)
    ensures ValuesOf(RequestAttributes(req), "server.port") == Listed(req.port)
    ensures ValuesOf(RequestAttributes(req), "network.protocol.name") == ["http"]
    ensures ValuesOf(RequestAttributes(req), "network.protocol.version") == Listed(req.version)
    ensures ValuesOf(RequestAttributes(req), "http.route") == Listed(req.route)
  {
    RequestValues(req, "http.request.method");
    RequestValues(req, "server.address");
    RequestValues(req, "server.port");
    RequestValues(req, "network.protocol.name");
    RequestValues(req, "network.protocol.version");
    RequestValues(req, "http.route");
  }

  lemma RequestValues(req: Request, key: string)
    ensures ValuesOf(RequestAttributes(req), key) ==
      ValuesOf(CountedBy(req), key)
      + (if key == "network.protocol.name" then ["http"] else [])
      + (if key == "network.protocol.version" then Listed(req.version) else [])
      + (if key == "http.route" then Listed(req.route) else [])
    ensures ValuesOf(CountedBy(req), key) ==
      (if key == "http.request.method" then [req.httpMethod] else [])
      + (if key == "server.address" then Listed(req.host) else [])
      + (if key == "server.port" then Listed(req.port) else [])
  {
    CountedValues(req, key);
    var c, p, v := CountedBy(req), [KeyValue("network.protocol.name", "http")],
                   Optional("network.protocol.version", req.version);
    OneValue("network.protocol.name", "http", key);
    OptionalValue("network.protocol.version", req.version, key);
    OptionalValue("http.route", req.route, key);
    ValuesConcat(c, p, key);
    ValuesConcat(c + p, v, key);
    ValuesConcat(c + p + v, Optional("http.route", req.route), key);
  }

  lemma CountedTogetherIff(a: Request, b: Request)
    ensures CountedBy(a) == CountedBy(b) <==> a.httpMethod == b.httpMethod && a.host == b.host && a.port == b.port
  {
    if CountedBy(a) == CountedBy(b) {
      RequestValues(a, "http.request.method");
      RequestValues(b, "http.request.method");
      RequestValues(a, "server.address");
      RequestValues(b, "server.address");
      RequestValues(a, "server.port");
      RequestValues(b, "server.port");
    }
  }

  /** `ResponseMetricState`: the first `active` attributes are those of the active-requests counter. */
  class MetricState {
    var attributes: Attributes
    var active: nat
    const requestBodySize: Option<nat>
    ghost const request: Request

    constructor (req: Request)
      ensures request == req && requestBodySize == req.size
      ensures attributes == RequestAttributes(req) && Valid()
    {
      var attrs := [KeyValue("http.request.method", req.httpMethod)];
      if req.host.Some? {
        attrs := attrs + [KeyValue("server.address", req.host.value)];
      }
      if req.port.Some? {
        attrs := attrs + [KeyValue("server.port", req.port.value)];
      }
      assert attrs == CountedBy(req);
      active := |attrs|;
      attrs := attrs + [KeyValue("network.protocol.name", "http")];
      if req.version.Some? {
        attrs := attrs + [KeyValue("network.protocol.version", req.version.value)];
      }
      if req.route.Some? {
        attrs := attrs + [KeyValue("http.route", req.route.value)];
      }
      attributes := attrs;
      requestBodySize := req.size;
      request := req;
    }

    /** Whatever has been pushed since, the counted prefix is still that of the request. */
    ghost predicate Valid()
      reads this
    {
      active <= |attributes| && attributes[..active] == CountedBy(request)
    }

    method PushResponseAttributes(reply: Reply)
      requires Valid()
      modifies this`attributes
      ensures Valid() && attributes == old(attributes) + [ReplyAttribute(reply)]
      ensures attributes[|attributes| - 1].key == if reply.Ok? then "http.response.status_code" else "error.type"
      ensures attributes[|attributes| - 1].value == if reply.Ok? then reply.response.status else reply.message
    {
      match reply
      case Ok(response) => attributes := attributes + [KeyValue("http.response.status_code", response.status)];
      case Err(message) => attributes := attributes + [KeyValue("error.type", message)];
    }
  }

  function Count(counters: map<Attributes, int>, attrs: Attributes): int {
    if attrs in counters then counters[attrs] else 0
  }

  function Add(counters: map<Attributes, int>, attrs: Attributes, delta: int): map<Attributes, int> {
    counters[attrs := Count(counters, attrs) + delta]
  }

  /** Those of `states` that are counted under `attrs`. */
  ghost function Under(states: set<MetricState>, attrs: Attributes): set<MetricState> {
    set s | s in states && CountedBy(s.request) == attrs
  }

  lemma UnderAdd(states: set<MetricState>, s: MetricState)
    requires s !in states
    ensures forall attrs ::
      |Under(states + {s}, attrs)| == |Under(states, attrs)| + if attrs == CountedBy(s.request) then 1 else 0
  {
    forall attrs
      ensures |Under(states + {s}, attrs)| == |Under(states, attrs)| + if attrs == CountedBy(s.request) then 1 else 0
    {
      if attrs == CountedBy(s.request) {
        assert Under(states + {s}, attrs) == Under(states, attrs) + {s};
      } else {
        assert Under(states + {s}, attrs) == Under(states, attrs);
      }
    }
  }

  /** The shared record, and the requests whose response futures have not completed. */
  class Http {
    var activeRequests: map<Attributes, int>
    var requestDurations: seq<Attributes>
    var requestBodySizes: seq<(nat, Attributes)>
    var responseBodySizes: seq<(nat, Attributes)>
    ghost var unfinished: set<MetricState>

    constructor ()
      ensures Valid() && unfinished == {}
    {
      activeRequests, requestDurations, requestBodySizes, responseBodySizes, unfinished := map[], [], [], [], {};
    }

    /** Under every attribute list, the counter is the number of unfinished requests with that list. */
    ghost predicate Valid()
      reads this, unfinished
    {
      && (forall s :: s in unfinished ==> s.Valid())
      && forall attrs :: Count(activeRequests, attrs) == |Under(unfinished, attrs)|
    }

    /** `call`: one more active request. */
    method Call(req: Request) returns (future: MetricState)
      requires Valid()
      modifies this`activeRequests, this`unfinished
      ensures Valid() && fresh(future) && future.request == req
      ensures future.attributes == RequestAttributes(req)
      ensures unfinished == old(unfinished) + {future}
      ensures activeRequests == Add(old(activeRequests), CountedBy(req), 1)
    {
      future := new MetricState(req);
      activeRequests := Add(activeRequests, future.attributes[..future.active], 1);
      UnderAdd(unfinished, future);
      unfinished := unfinished + {future};
    }

    /** `poll`, when the inner future is ready. */
    method Complete(future: MetricState, reply: Reply)
      requires Valid() && future in unfinished
      modifies this, future`attributes
      ensures Valid() && unfinished == old(unfinished) - {future}
      ensures activeRequests == Add(old(activeRequests), CountedBy(future.request), -1)
      ensures future.attributes == old(future.attributes) + [ReplyAttribute(reply)]
      ensures requestDurations == old(requestDurations) + [future.attributes]
      ensures requestBodySizes == old(requestBodySizes) +
        if future.requestBodySize.Some? then [(future.requestBodySize.value, future.attributes)] else []
      ensures responseBodySizes == old(responseBodySizes) +
        if reply.Ok? && reply.response.size.Some? then [(reply.response.size.value, future.attributes)] else []
    {
      UnderAdd(unfinished - {future}, future);
      assert unfinished - {future} + {future} == unfinished;
      future.PushResponseAttributes(reply);
      requestDurations := requestDurations + [future.attributes];
      activeRequests := Add(activeRequests, future.attributes[..future.active], -1);
      unfinished := unfinished - {future};
      if future.requestBodySize.Some? {
        requestBodySizes := requestBodySizes + [(future.requestBodySize.value, future.attributes)];
      }
      if reply.Ok? && reply.response.size.Some? {
        responseBodySizes := responseBodySizes + [(reply.response.size.value, future.attributes)];
      }
    }
  }

  /** When every request has finished, every counter is back at zero. */
  lemma IdleCountersAreZero(http: Http, attrs: Attributes)
    requires http.Valid() && http.unfinished == {}
    ensures Count(http.activeRequests, attrs) == 0
  {
    assert Under(http.unfinished, attrs) == {};
  }
}
