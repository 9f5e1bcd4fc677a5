/** The topo server's request dispatcher: the response envelope, the
    per-request closure that every registered action is bound to, the
    materialisation of the action list and the verb filter that turns it
    into routes. Everything the closure touches outside itself (the body
    reader, the JSON codec, the error catalogue, the handler) is a value
    handed in, so one request is one pure function evaluation. */
module Service {
  import opened Values

  /** The response codes and the success marker of the repository's common
      package. That package is not part of this model, so they are a
      parameter: every property below holds whatever their values are. */
  datatype Codes = Codes(
    success: int,
    successStr: string,
    readBodyFailed: int,
    jsonUnmarshalFailed: int,
    systemBusy: int)

  /** `api.BKAPIRsp`, the JSON envelope of every response. */
  datatype Envelope = Envelope(result: bool, code: int, message: Value, data: Value)

  /** What a client reads back from an envelope: the code the server meant
      and the value it attached (the payload on success, the message on
      failure). */
  function Interpret(codes: Codes, e: Envelope): (int, Value)
  {
    if e.result then (codes.success, e.data) else (e.code, e.message)
  }

  /** The envelope `createAPIRspStr` builds before marshalling. Only the
      comparison with `CCSuccess` decides the success flag; the code of a
      success envelope stays 0 whatever `CCSuccess` is, and nothing is lost:
      the client recovers exactly the code and value it was given. */
  function CreateEnvelope(codes: Codes, errcode: int, info: Value): (e: Envelope)
    ensures e.result <==> errcode == codes.success
    ensures e.result ==> e.code == 0 && e.message == Str(codes.successStr)
    ensures !e.result ==> e.data == Null
    ensures Interpret(codes, e) == (errcode, info)
  {
    if codes.success != errcode then
      Envelope(false, errcode, info, Null)
    else
      Envelope(true, 0, Str(codes.successStr), info)
  }

  /** Everything outside the closure that it consults: the codes, the error
      catalogue bound to a language (`CreateDefaultCCErrorIf(lang).Error`,
      represented by its message text), and the JSON codec as oracles. */
  datatype Env = Env(
    codes: Codes,
    translate: (string, int) -> string,
    unmarshal: seq<byte> -> Option<MapStr>,
    marshal: Envelope -> Option<string>)

  /** Go's `json.Unmarshal` rejects empty input ("unexpected end of JSON
      input"); a codec oracle that behaves the same way. */
  predicate RejectsEmpty(env: Env)
  {
    env.unmarshal([]).None?
  }

  /** The outcome of reading the request body. */
  datatype Body = ReadFailed | Read(bytes: seq<byte>)

  /** One inbound request: the caller identity and language taken from the
      request, its path and query parameters, and its body. */
  datatype Request = Request(
    owner: string,
    language: string,
    path: Params,
    query: Params,
    body: Body)

  /** `types.ContextParams`, reduced to what handlers read: the owner
      identity, and the language that selects the error catalogue. */
  datatype Context = Context(owner: string, language: string)

  /** The arguments one handler call receives. */
  datatype Invocation = Invocation(ctx: Context, path: Params, query: Params, body: MapStr)

  /** What one request does that can be observed: the handler being called,
      `sendResponse` being called with an envelope, and the serialised
      envelope being written to the response stream. */
  datatype Event =
    | Invoked(call: Invocation)
    | Responded(envelope: Envelope)
    | Written(text: string)

  function Invocations(t: seq<Event>): seq<Invocation>
  {
    if |t| == 0 then []
    else (if t[0].Invoked? then [t[0].call] else []) + Invocations(t[1..])
  }

  function Responses(t: seq<Event>): seq<Envelope>
  {
    if |t| == 0 then []
    else (if t[0].Responded? then [t[0].envelope] else []) + Responses(t[1..])
  }

  function Writes(t: seq<Event>): seq<string>
  {
    if |t| == 0 then []
    else (if t[0].Written? then [t[0].text] else []) + Writes(t[1..])
  }

  /** The handler calls of two traces in sequence are those of each, in order. */
  lemma {:induction false} InvocationsConcat(a: seq<Event>, b: seq<Event>)
    ensures Invocations(a + b) == Invocations(a) + Invocations(b)
  {
    if |a| == 0 {
      assert a + b == b;
    } else {
      var ab := a + b;
      assert ab[0] == a[0];
      assert ab[1..] == a[1..] + b;
      InvocationsConcat(a[1..], b);
      if a[0].Invoked? {
        calc {
          Invocations(ab);
          [a[0].call] + Invocations(a[1..] + b);
          [a[0].call] + (Invocations(a[1..]) + Invocations(b));
          ([a[0].call] + Invocations(a[1..])) + Invocations(b);
        }
      } else {
        calc {
          Invocations(ab);
          [] + Invocations(a[1..] + b);
          Invocations(a[1..]) + Invocations(b);
        }
        assert Invocations(a) == [] + Invocations(a[1..]);
      }
    }
  }

  /** The responses of two traces in sequence are those of each, in order. */
  lemma {:induction false} ResponsesConcat(a: seq<Event>, b: seq<Event>)
    ensures Responses(a + b) == Responses(a) + Responses(b)
  {
    if |a| == 0 {
      assert a + b == b;
    } else {
      var ab := a + b;
      assert ab[0] == a[0];
      assert ab[1..] == a[1..] + b;
      ResponsesConcat(a[1..], b);
      if a[0].Responded? {
        calc {
          Responses(ab);
          [a[0].envelope] + Responses(a[1..] + b);
          [a[0].envelope] + (Responses(a[1..]) + Responses(b));
          ([a[0].envelope] + Responses(a[1..])) + Responses(b);
        }
      } else {
        calc {
          Responses(ab);
          [] + Responses(a[1..] + b);
          Responses(a[1..]) + Responses(b);
        }
        assert Responses(a) == [] + Responses(a[1..]);
      }
    }
  }


  /** The writes of two traces in sequence are those of each, in order. */
  lemma {:induction false} WritesConcat(a: seq<Event>, b: seq<Event>)
    ensures Writes(a + b) == Writes(a) + Writes(b)
  {
    if |a| == 0 {
      assert a + b == b;
    } else {
      var ab := a + b;
      assert ab[0] == a[0];
      assert ab[1..] == a[1..] + b;
      WritesConcat(a[1..], b);
      if a[0].Written? {
        calc {
          Writes(ab);
          [a[0].text] + Writes(a[1..] + b);
          [a[0].text] + (Writes(a[1..]) + Writes(b));
          ([a[0].text] + Writes(a[1..])) + Writes(b);
        }
      } else {
        calc {
          Writes(ab);
          [] + Writes(a[1..] + b);
          Writes(a[1..]) + Writes(b);
        }
        assert Writes(a) == [] + Writes(a[1..]);
      }
    }
  }


  /** All three views of a trace distribute over concatenation. */
  lemma ViewsConcat(a: seq<Event>, b: seq<Event>)
    ensures Invocations(a + b) == Invocations(a) + Invocations(b)
    ensures Responses(a + b) == Responses(a) + Responses(b)
    ensures Writes(a + b) == Writes(a) + Writes(b)
  {
    InvocationsConcat(a, b);
    ResponsesConcat(a, b);
    WritesConcat(a, b);
  }

  /** `sendResponse`: builds the envelope and writes its serialisation, or
      writes nothing when marshalling fails. */
  function SendResponse(env: Env, errcode: int, info: Value): (t: seq<Event>)
    ensures Invocations(t) == []
    ensures Responses(t) == [CreateEnvelope(env.codes, errcode, info)]
    ensures env.marshal(Responses(t)[0]).Some? ==> Writes(t) == [env.marshal(Responses(t)[0]).value]
    ensures env.marshal(Responses(t)[0]).None? ==> Writes(t) == []
  {
    var e := CreateEnvelope(env.codes, errcode, info);
    var sent := [Responded(e)];
    match env.marshal(e)
    case Some(s) =>
      ViewsConcat(sent, [Written(s)]);
      sent + [Written(s)]
    case None => sent
  }

  /** `t` responds once, with `e`, and writes the serialised envelope
      once when marshalling succeeds and never otherwise. */
  predicate AnsweredWith(env: Env, t: seq<Event>, e: Envelope)
  {
    && Responses(t) == [e]
    && (env.marshal(e).Some? ==> Writes(t) == [env.marshal(e).value])
    && (env.marshal(e).None? ==> Writes(t) == [])
  }

  /** The code the dispatcher answers a handler error with. */
  function ErrorCode(codes: Codes, err: Error): int
  {
    match err
    case Coded(c, _) => c
    case Generic(_) => codes.systemBusy
  }

  /** Classifying the handler's reply and responding: a `nil` error answers
      `CCSuccess` with the payload; a coded error answers its own code and
      any other error `CCSystemBusy`, both with the error's text and without
      the payload. */
  function Respond(env: Env, reply: Reply): (t: seq<Event>)
    ensures Invocations(t) == []
    ensures reply.err.None? ==>
      AnsweredWith(env, t, CreateEnvelope(env.codes, env.codes.success, reply.data))
    ensures reply.err.Some? && reply.err.value.Coded? ==>
      AnsweredWith(env, t, CreateEnvelope(env.codes, reply.err.value.code, Str(reply.err.value.text)))
    ensures reply.err.Some? && reply.err.value.Generic? ==>
      AnsweredWith(env, t, CreateEnvelope(env.codes, env.codes.systemBusy, Str(reply.err.value.text)))
  {
    match reply.err
    case Some(e) => SendResponse(env, ErrorCode(env.codes, e), Str(e.text))
    case None => SendResponse(env, env.codes.success, reply.data)
  }

  /** The handler closure `Actions` binds to one action: read the body, run
      the decode gate, call the handler once, classify its error, respond.
      `invoke` applies a handler reference to the arguments of one call. */
  function Serve<H>(env: Env, invoke: (H, Invocation) -> Reply, handler: H, req: Request): (t: seq<Event>)
    // sendResponse runs exactly once on every path and writes at most once
    ensures |Responses(t)| == 1 && AnsweredWith(env, t, Responses(t)[0])
    // the handler runs at most once, and before the response
    ensures |Invocations(t)| <= 1
    ensures |Invocations(t)| == 1 ==> t[0].Invoked?
    // a read failure short-circuits decoding and the handler
    ensures req.body.ReadFailed? ==>
      && Invocations(t) == []
      && var c := env.codes.readBodyFailed;
         Responses(t)[0] == CreateEnvelope(env.codes, c, Str(env.translate(req.language, c)))
    // the decode gate: only a non-empty body that fails to parse stops the request
    ensures req.body.Read? ==>
      (|Invocations(t)| == 1 <==> |req.body.bytes| == 0 || env.unmarshal(req.body.bytes).Some?)
    ensures req.body.Read? && |Invocations(t)| == 0 ==>
      var c := env.codes.jsonUnmarshalFailed;
      Responses(t)[0] == CreateEnvelope(env.codes, c, Str(env.translate(req.language, c)))
    // what the handler receives
    ensures |Invocations(t)| == 1 ==>
      && req.body.Read?
      && Invocations(t)[0].ctx == Context(req.owner, req.language)
      && Invocations(t)[0].path == req.path
      && Invocations(t)[0].query == req.query
      && (env.unmarshal(req.body.bytes).Some? ==> Invocations(t)[0].body == env.unmarshal(req.body.bytes).value)
      && (env.unmarshal(req.body.bytes).None? ==> Invocations(t)[0].body == map[])
    // with Go's codec an empty body reaches the handler as the empty map
    ensures RejectsEmpty(env) && req.body == Read([]) ==>
      |Invocations(t)| == 1 && Invocations(t)[0].body == map[]
    // what the client is answered once the handler ran
    ensures |Invocations(t)| == 1 ==>
      t[1..] == Respond(env, invoke(handler, Invocations(t)[0]))
  {
    match req.body
    case ReadFailed =>
      var c := env.codes.readBodyFailed;
      SendResponse(env, c, Str(env.translate(req.language, c)))
    case Read(bytes) =>
      var parsed := env.unmarshal(bytes);
      if parsed.None? && |bytes| != 0 then
        var c := env.codes.jsonUnmarshalFailed;
        SendResponse(env, c, Str(env.translate(req.language, c)))
      else
        var body := if parsed.Some? then parsed.value else map[];
        var call := Invocation(Context(req.owner, req.language), req.path, req.query, body);
        var sent := Respond(env, invoke(handler, call));
        ViewsConcat([Invoked(call)], sent);
        [Invoked(call)] + sent
  }

  /** A coded handler error whose code happens to equal `CCSuccess` is
      answered exactly like a successful call that returned the error's
      text as its payload: the success flag looks only at the code. */
  lemma CodedSuccessLooksLikeSuccess<H>(env: Env, invoke: (H, Invocation) -> Reply, handler: H, req: Request, text: string)
    requires req.body.Read? && |req.body.bytes| == 0
    requires forall call :: invoke(handler, call) == Reply(Null, Some(Coded(env.codes.success, text)))
    ensures Responses(Serve(env, invoke, handler, req))
         == [Envelope(true, 0, Str(env.codes.successStr), Str(text))]
  {
    var t := Serve(env, invoke, handler, req);
    assert invoke(handler, Invocations(t)[0]) == Reply(Null, Some(Coded(env.codes.success, text)));
  }

  /** An entry of the action list a resource module registers. */
  datatype Action<H> = Action(verb: string, path: string, handler: H)

  /** `httpserver.Action`: a verb, a path, and the handler closure, which
      captures exactly one action's handler reference. */
  datatype HttpAction<H> = HttpAction(verb: string, path: string, handler: H)

  /** `Actions`: one materialised action per registered action, appended in
      order, each closure bound to its own action's handler. */
  function Actions<H>(acts: seq<Action<H>>): (r: seq<HttpAction<H>>)
    ensures |r| == |acts|
    ensures forall i :: 0 <= i < |acts| ==>
      r[i].verb == acts[i].verb && r[i].path == acts[i].path && r[i].handler == acts[i].handler
  {
    if |acts| == 0 then []
    else
      var last := acts[|acts| - 1];
      Actions(acts[..|acts| - 1]) + [HttpAction(last.verb, last.path, last.handler)]
  }

  /** Materialising two action lists in sequence materialises each. */
  lemma {:induction false} ActionsConcat<H>(a: seq<Action<H>>, b: seq<Action<H>>)
    ensures Actions(a + b) == Actions(a) + Actions(b)
  {
    if |b| > 0 {
      assert (a + b)[..|a + b| - 1] == a + b[..|b| - 1];
      ActionsConcat(a, b[..|b| - 1]);
    } else {
      assert a + b == a;
    }
  }

  /** The four verbs `WebService` routes. */
  datatype Method = POST | DELETE | PUT | GET

  /** The `net/http` name of a verb. */
  function VerbName(m: Method): (s: string)
    ensures MethodOf(s) == Some(m)
  {
    match m
    case POST => "POST"
    case DELETE => "DELETE"
    case PUT => "PUT"
    case GET => "GET"
  }

  /** The verb strings `WebService` accepts. */
  const SupportedVerbs: set<string> := {"POST", "DELETE", "PUT", "GET"}

  /** The `switch` on the verb in `WebService`: one of the four supported
      verbs, or none for any other string. */
  function MethodOf(verb: string): (r: Option<Method>)
    ensures r.Some? <==> verb in SupportedVerbs
  {
    if verb == "POST" then Some(POST)
    else if verb == "DELETE" then Some(DELETE)
    else if verb == "PUT" then Some(PUT)
    else if verb == "GET" then Some(GET)
    else None
  }

  /** `MethodOf` and `VerbName` are inverse: a recognised verb is exactly
      the name of the method it is recognised as. */
  lemma MethodOfInvertsVerbName(verb: string, m: Method)
    ensures MethodOf(verb) == Some(m) <==> VerbName(m) == verb
  {
  }

  /** A route added to the web service. */
  datatype Route<H> = Route(verb: Method, path: string, handler: H)

  /** The route one action becomes, if its verb is supported. */
  function RouteOf<H>(a: HttpAction<H>): (r: Option<Route<H>>)
    ensures r.Some? <==> MethodOf(a.verb).Some?
    ensures r.Some? ==>
      MethodOf(a.verb) == Some(r.value.verb) && r.value.path == a.path && r.value.handler == a.handler
  {
    match MethodOf(a.verb)
    case Some(m) => Some(Route(m, a.path, a.handler))
    case None => None
  }

  /** The loop in `WebService`: a route for every action whose verb is
      supported, in order; an action with any other verb is skipped. */
  function Routes<H>(actions: seq<HttpAction<H>>): (r: seq<Route<H>>)
    ensures |r| <= |actions|
  {
    if |actions| == 0 then []
    else
      (match RouteOf(actions[0]) case Some(route) => [route] case None => []) + Routes(actions[1..])
  }

  /** A route is served exactly when some action turns into it. */
  lemma {:induction false} RoutesExactly<H>(actions: seq<HttpAction<H>>, route: Route<H>)
    ensures route in Routes(actions) <==> exists i :: 0 <= i < |actions| && RouteOf(actions[i]) == Some(route)
  {
    if |actions| > 0 {
      var tail := actions[1..];
      RoutesExactly(tail, route);
      if route in Routes(actions) && RouteOf(actions[0]) != Some(route) {
        var j :| 0 <= j < |tail| && RouteOf(tail[j]) == Some(route);
        assert actions[j + 1] == tail[j];
      }
      if exists i :: 0 <= i < |actions| && RouteOf(actions[i]) == Some(route) {
        var i :| 0 <= i < |actions| && RouteOf(actions[i]) == Some(route);
        if i > 0 {
          assert tail[i - 1] == actions[i];
        }
      }
    }
  }

  /** Filtering preserves order: the routes of two action lists in sequence
      are the routes of the first followed by those of the second. */
  lemma {:induction false} RoutesConcat<H>(a: seq<HttpAction<H>>, b: seq<HttpAction<H>>)
    ensures Routes(a + b) == Routes(a) + Routes(b)
  {
    if |a| == 0 {
      assert a + b == b;
    } else {
      assert (a + b)[1..] == a[1..] + b;
      RoutesConcat(a[1..], b);
    }
  }

  /** When every verb is supported, no action is dropped. */
  lemma {:induction false} RoutesKeepAllSupported<H>(actions: seq<HttpAction<H>>)
    requires forall i :: 0 <= i < |actions| ==> MethodOf(actions[i].verb).Some?
    ensures |Routes(actions)| == |actions|
  {
    if |actions| > 0 {
      assert forall i :: 0 <= i < |actions| - 1 ==> actions[1..][i] == actions[i + 1];
      RoutesKeepAllSupported(actions[1..]);
    }
  }

  /** `WebService`: the routes of the materialised action list. A route is
      served exactly when some registered action has a supported verb, and
      that route's path and handler. */
  function WebService<H>(acts: seq<Action<H>>): (r: seq<Route<H>>)
    ensures forall k :: 0 <= k < |r| ==>
      exists i :: 0 <= i < |acts| && MethodOf(acts[i].verb) == Some(r[k].verb)
                  && acts[i].path == r[k].path && acts[i].handler == r[k].handler
    ensures forall i :: 0 <= i < |acts| && MethodOf(acts[i].verb).Some? ==>
      Route(MethodOf(acts[i].verb).value, acts[i].path, acts[i].handler) in r
  {
    var materialised := Actions(acts);
    RoutesExactlyAll(materialised);
    RoutesFromActions(materialised);
    Routes(materialised)
  }

  /** Every route comes from some action. */
  lemma RoutesFromActions<H>(actions: seq<HttpAction<H>>)
    ensures forall k :: 0 <= k < |Routes(actions)| ==>
      exists i :: 0 <= i < |actions| && RouteOf(actions[i]) == Some(Routes(actions)[k])
  {
    var routes := Routes(actions);
    forall k | 0 <= k < |routes|
      ensures exists i :: 0 <= i < |actions| && RouteOf(actions[i]) == Some(routes[k])
    {
      RoutesExactly(actions, routes[k]);
    }
  }

  /** `RoutesExactly` for every route of an action list at once. */
  lemma RoutesExactlyAll<H>(actions: seq<HttpAction<H>>)
    ensures forall route :: route in Routes(actions) <==>
      exists i :: 0 <= i < |actions| && RouteOf(actions[i]) == Some(route)
  {
    forall route {
      RoutesExactly(actions, route);
    }
  }
}
