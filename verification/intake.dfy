/** The HTTP gateway of intake/intake.go: the endpoint constants, the router's
    first-match dispatch in registration order, and what each handler does
    with the result of reading and inflating the request body. The HTTP
    server, its timeouts and signal handling are not modelled; reading and
    inflating the body is an input (`BodyRead`). */
module Intake {
  import opened Optional
  import opened PubSub

  const IntakeEndpointV1: string := "/intake/"

  const SeriesEndpointV1: string := "/api/v1/series"
  const CheckRunsEndpointV1: string := "/api/v1/check_run"
  const SketchSeriesEndpointV1: string := "/api/v1/sketches"
  const ValidateEndpointV1: string := "/api/v1/validate"
  const ProcessesEndpointV1: string := "/api/v1/collector"
  const ContainerEndpointV1: string := "/api/v1/container"
  const OrchestratorEndpointV1: string := "/api/v1/orchestrator"

  const SeriesEndpointV2: string := "/api/v2/series"
  const EventsEndpointV2: string := "/api/v2/events"
  const ServiceChecksEndpointV2: string := "/api/v2/service_checks"
  const SketchSeriesEndpointV2: string := "/api/beta/sketches"
  const HostMetadataEndpointV2: string := "/api/v2/host_metadata"
  const MetadataEndpointV2: string := "/api/v2/metadata"

  const V1PathPrefix: string := "/api/v1"

  const StatusOK: int := 200
  const StatusBadRequest: int := 400
  const StatusNotFound: int := 404

  /** The four handlers the router knows. */
  datatype HandlerKind = ValidateStub | V1Handler | IntakeHandler | DefaultHandler

  /** A route matches a path exactly, or any path that starts with a raw
      string prefix. */
  datatype Matcher = Exact(path: string) | PathPrefix(prefix: string)

  datatype Route = Route(matcher: Matcher, handler: HandlerKind)

  predicate Matches(mt: Matcher, path: string) {
    match mt
    case Exact(p) => path == p
    case PathPrefix(p) => p <= path
  }

  /** The routes in the order `init` registers them. */
  const Routes: seq<Route> := [
    Route(Exact(ValidateEndpointV1), ValidateStub),
    Route(PathPrefix(V1PathPrefix), V1Handler),
    Route(Exact(IntakeEndpointV1), IntakeHandler),
    Route(PathPrefix("/"), DefaultHandler)
  ]

  /** The router tries routes in registration order and uses the first that
      matches; no match is a 404. */
  function FirstMatch(routes: seq<Route>, path: string): (r: Option<HandlerKind>)
    ensures r.None? <==> forall i :: 0 <= i < |routes| ==> !Matches(routes[i].matcher, path)
    ensures r.Some? ==> exists i :: (0 <= i < |routes| && Matches(routes[i].matcher, path)
      && routes[i].handler == r.value
      && forall j :: 0 <= j < i ==> !Matches(routes[j].matcher, path))
  {
    if |routes| == 0 then None
    else if Matches(routes[0].matcher, path) then Some(routes[0].handler)
    else
      var r := FirstMatch(routes[1..], path);
      assert forall i :: 1 <= i < |routes| ==> routes[i] == routes[1..][i - 1];
      r
  }

  /** The handler the router picks for a path. */
  function Dispatch(path: string): Option<HandlerKind> {
    FirstMatch(Routes, path)
  }

  /** Dispatch in closed form: the exact validate route shadows the v1 prefix,
      the v1 prefix is a raw string prefix, and everything else that starts
      with "/" reaches the default handler. */
  lemma DispatchCharacterization(path: string)
    ensures Dispatch(path) == Some(ValidateStub) <==> path == ValidateEndpointV1
    ensures Dispatch(path) == Some(V1Handler) <==> V1PathPrefix <= path && path != ValidateEndpointV1
    ensures Dispatch(path) == Some(IntakeHandler) <==> path == IntakeEndpointV1
    ensures Dispatch(path) == Some(DefaultHandler) <==>
      "/" <= path && !(V1PathPrefix <= path) && path != IntakeEndpointV1
    ensures Dispatch(path) == None <==> !("/" <= path)
  {
    var r3 := FirstMatch(Routes[3..], path);
    assert r3 == if "/" <= path then Some(DefaultHandler) else None;
    var r2 := FirstMatch(Routes[2..], path);
    assert Routes[2..][1..] == Routes[3..];
    assert r2 == if path == IntakeEndpointV1 then Some(IntakeHandler) else r3;
    var r1 := FirstMatch(Routes[1..], path);
    assert Routes[1..][1..] == Routes[2..];
    assert r1 == if V1PathPrefix <= path then Some(V1Handler) else r2;
    assert Dispatch(path) == if path == ValidateEndpointV1 then Some(ValidateStub) else r1;
    assert ValidateEndpointV1[..|V1PathPrefix|] == V1PathPrefix;
    assert IntakeEndpointV1[1] != V1PathPrefix[1];
    assert "/" <= IntakeEndpointV1 && "/" <= V1PathPrefix;
  }

  /** What `readRequestBody` returns: the inflated body, or an error from
      reading or from zlib. */
  datatype BodyRead = BodyOk(body: Message) | BodyErr

  /** The status written and the message handed to `Publish`, if any. */
  datatype Response = Response(status: int, published: Option<(Topic, Message)>)

  /** v1Handler and intakeHandler read the body; on an error they answer 400
      and publish nothing, otherwise they publish the inflated body under the
      full request path and leave the default status 200. */
  function ReadAndPublish(path: string, read: BodyRead): (r: Response)
    ensures r.status == StatusBadRequest <==> read.BodyErr?
    ensures r.status == StatusOK <==> read.BodyOk?
    ensures r.published.Some? <==> read.BodyOk?
    ensures read.BodyOk? ==> r.published == Some((path, read.body))
  {
    match read
    case BodyErr => Response(StatusBadRequest, None)
    case BodyOk(body) => Response(StatusOK, Some((path, body)))
  }

  /** The handler's decision. The validate stub and the default handler do not
      read the body; the default handler only logs the URL. */
  function Respond(h: HandlerKind, path: string, read: BodyRead): (r: Response)
    ensures r.status in {StatusOK, StatusBadRequest}
    ensures r.published.Some? <==> h in {V1Handler, IntakeHandler} && read.BodyOk?
    ensures r.status == StatusBadRequest <==> h in {V1Handler, IntakeHandler} && read.BodyErr?
    ensures r.published.Some? ==> r.published.value == (path, read.body)
  {
    match h
    case ValidateStub => Response(StatusOK, None)
    case DefaultHandler => Response(StatusOK, None)
    case V1Handler => ReadAndPublish(path, read)
    case IntakeHandler => ReadAndPublish(path, read)
  }

  /** One request end to end: route, handle, and apply the publish to the
      broker. */
  function Serve(b: Broker, path: string, read: BodyRead): (r: (Broker, int))
    ensures Dispatch(path).None? ==> r == (b, StatusNotFound)
    ensures Dispatch(path) == Some(ValidateStub) ==> r == (b, StatusOK)
    ensures Dispatch(path) == Some(DefaultHandler) ==> r == (b, StatusOK)
    ensures read.BodyErr? ==> r.0 == b
    ensures r.1 == StatusBadRequest <==>
      read.BodyErr? && Dispatch(path) in {Some(V1Handler), Some(IntakeHandler)}
    ensures read.BodyOk? && Dispatch(path) in {Some(V1Handler), Some(IntakeHandler)} ==>
      r == (Publish(b, path, read.body), StatusOK)
  {
    match Dispatch(path)
    case None => (b, StatusNotFound)
    case Some(h) =>
      var resp := Respond(h, path, read);
      match resp.published
      case None => (b, resp.status)
      case Some(p) => (Publish(b, p.0, p.1), resp.status)
  }

  /** `/api/v1/validate` matches the v1 prefix too, but its exact route is
      registered first, so it never publishes whatever the body. */
  lemma ValidateNeverPublishes(b: Broker, read: BodyRead)
    ensures Serve(b, ValidateEndpointV1, read) == (b, StatusOK)
  {
    DispatchCharacterization(ValidateEndpointV1);
  }

  /** Any path with the raw prefix "/api/v1", listed or not, is published
      under the full path. */
  lemma V1PrefixPublishesFullPath(b: Broker, path: string, body: Message)
    requires V1PathPrefix <= path && path != ValidateEndpointV1
    ensures Serve(b, path, BodyOk(body)) == (Publish(b, path, body), StatusOK)
  {
    DispatchCharacterization(path);
  }

  /** The legacy intake path is published under "/intake/". */
  lemma IntakePublishes(b: Broker, body: Message)
    ensures Serve(b, IntakeEndpointV1, BodyOk(body)) == (Publish(b, IntakeEndpointV1, body), StatusOK)
  {
    DispatchCharacterization(IntakeEndpointV1);
  }

  /** The v2 and beta endpoints fall through to the default handler and are
      never published. */
  lemma V2EndpointsNeverPublish(b: Broker, read: BodyRead)
    ensures forall p :: p in [SeriesEndpointV2, EventsEndpointV2, ServiceChecksEndpointV2,
                             SketchSeriesEndpointV2, HostMetadataEndpointV2, MetadataEndpointV2] ==>
      Dispatch(p) == Some(DefaultHandler) && Serve(b, p, read) == (b, StatusOK)
  {
    forall p | p in [SeriesEndpointV2, EventsEndpointV2, ServiceChecksEndpointV2,
                     SketchSeriesEndpointV2, HostMetadataEndpointV2, MetadataEndpointV2]
      ensures Dispatch(p) == Some(DefaultHandler)
    {
      DispatchCharacterization(p);
      assert p[5] != V1PathPrefix[5] || p[6] != V1PathPrefix[6];
    }
  }

  /** The v1 endpoints a plugin can subscribe to, in a fixed order. */
  function GetV1Endpoints(): (r: seq<string>)
    ensures |r| == 7
    ensures forall i, j :: 0 <= i < j < |r| ==> r[i] != r[j]
    ensures forall i :: 0 <= i < |r| ==> V1PathPrefix <= r[i]
    ensures forall e :: e in r <==>
      e in {SeriesEndpointV1, CheckRunsEndpointV1, SketchSeriesEndpointV1, ValidateEndpointV1,
            ProcessesEndpointV1, ContainerEndpointV1, OrchestratorEndpointV1}
    ensures r[0] == SeriesEndpointV1
    ensures IntakeEndpointV1 !in r
  {
    [SeriesEndpointV1, CheckRunsEndpointV1, SketchSeriesEndpointV1, ValidateEndpointV1,
     ProcessesEndpointV1, ContainerEndpointV1, OrchestratorEndpointV1]
  }

  /** Every listed v1 endpoint except validate reaches the v1 handler, so a
      plugin subscribed to it receives that endpoint's bodies; validate is
      listed but never published. */
  lemma V1EndpointsRouting()
    ensures forall p :: p in GetV1Endpoints() && p != ValidateEndpointV1 ==> Dispatch(p) == Some(V1Handler)
    ensures Dispatch(ValidateEndpointV1) == Some(ValidateStub)
  {
    forall p | p in GetV1Endpoints() && p != ValidateEndpointV1
      ensures Dispatch(p) == Some(V1Handler)
    {
      DispatchCharacterization(p);
    }
    DispatchCharacterization(ValidateEndpointV1);
  }
}
