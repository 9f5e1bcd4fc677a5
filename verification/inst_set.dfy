/** The Set resource of the topo server: the four actions `initSet`
    registers and their handlers. The object/instance façade is an oracle:
    each of its operations answers from its arguments, and every handler
    reports the façade calls it made, in order, together with its reply and
    the body map as the handler leaves it. */
module InstSet {
  import opened Values
  import opened Service

  // Field names and the Set object id, as the repository's common package
  // defines them; the proofs only rely on their being distinct.
  const OwnerIdField := "bk_supplier_account"
  const ObjIdField := "bk_obj_id"
  const AppIdField := "bk_biz_id"
  const SetIdField := "bk_set_id"
  const InnerObjIdSet := "set"

  /** One equality predicate of a condition: `Field(field).Eq(value)`. */
  datatype Eq = Eq(field: string, value: string)

  /** A condition built with the condition builder: a conjunction of
      equality predicates, in the order they were added. */
  type Cond = seq<Eq>

  /** `rec` has `field` set to the string `value`. */
  predicate Holds(rec: MapStr, field: string, value: string)
  {
    field in rec && rec[field] == Str(value)
  }

  /** A record satisfies a condition when it satisfies every predicate. */
  predicate Matches(cond: Cond, rec: MapStr)
  {
    forall i :: 0 <= i < |cond| ==> Holds(rec, cond[i].field, cond[i].value)
  }

  /** Adding a predicate to a condition narrows it by exactly that
      predicate. */
  lemma MatchesSnoc(c: Cond, e: Eq)
    ensures forall rec :: Matches(c + [e], rec) <==> Matches(c, rec) && Holds(rec, e.field, e.value)
  {
    forall rec | Matches(c + [e], rec)
      ensures Matches(c, rec) && Holds(rec, e.field, e.value)
    {
      assert (c + [e])[|c|] == e;
      forall i | 0 <= i < |c|
        ensures Holds(rec, c[i].field, c[i].value)
      {
        assert (c + [e])[i] == c[i];
      }
    }
  }

  /** The condition `CreateSet` resolves the Set model with: the caller's
      owner and the Set object id. */
  function SetObjectScope(owner: string): (c: Cond)
    ensures forall rec :: Matches(c, rec) <==>
      Holds(rec, OwnerIdField, owner) && Holds(rec, ObjIdField, InnerObjIdSet)
  {
    var none: Cond := [];
    MatchesSnoc(none, Eq(OwnerIdField, owner));
    var byOwner := none + [Eq(OwnerIdField, owner)];
    MatchesSnoc(byOwner, Eq(ObjIdField, InnerObjIdSet));
    byOwner + [Eq(ObjIdField, InnerObjIdSet)]
  }

  /** The condition `SearchSet` builds: owner, Set object id and business. */
  function SetScope(owner: string, app: string): (c: Cond)
    ensures forall rec :: Matches(c, rec) <==>
      && Holds(rec, OwnerIdField, owner) && Holds(rec, ObjIdField, InnerObjIdSet)
      && Holds(rec, AppIdField, app)
  {
    MatchesSnoc(SetObjectScope(owner), Eq(AppIdField, app));
    SetObjectScope(owner) + [Eq(AppIdField, app)]
  }

  /** The condition `DeleteSet` and `UpdateSet` build: the search scope
      narrowed to one set id. */
  function SetInstScope(owner: string, app: string, setId: string): (c: Cond)
    ensures forall rec :: Matches(c, rec) <==>
      && Holds(rec, OwnerIdField, owner) && Holds(rec, ObjIdField, InnerObjIdSet)
      && Holds(rec, AppIdField, app) && Holds(rec, SetIdField, setId)
    ensures forall rec :: Matches(c, rec) ==> Matches(SetScope(owner, app), rec)
  {
    MatchesSnoc(SetScope(owner, app), Eq(SetIdField, setId));
    SetScope(owner, app) + [Eq(SetIdField, setId)]
  }

  /** What `FindInst` returns for one model: a match count and instances. */
  datatype Found = Found(count: int, info: seq<Value>)

  /** The façade operations the Set handlers call, as oracles over their
      arguments. Models are of type `D`; a created instance is a `Value`. */
  datatype Facade<!D> = Facade(
    findObject: Cond -> Result<seq<D>>,
    createInst: (D, MapStr) -> Result<Value>,
    save: Value -> Option<Error>,
    toMapStr: Value -> Reply,
    deleteInst: (D, Cond) -> Option<Error>,
    updateInst: (MapStr, D, Cond) -> Option<Error>,
    findInst: D -> Result<Found>)

  /** A façade call a handler made, with its arguments. */
  datatype Call<D> =
    | FindObject(cond: Cond)
    | CreateInst(model: D, data: MapStr)
    | Save(inst: Value)
    | ToMapStr(inst: Value)
    | DeleteInst(model: D, cond: Cond)
    | UpdateInst(data: MapStr, model: D, cond: Cond)
    | FindInst(model: D)

  /** A handler run: its reply, the façade calls in order, and the body. */
  datatype Outcome<D> = Outcome(reply: Reply, calls: seq<Call<D>>, body: MapStr)

  /** `after` is `before` with exactly the keys of `fields` overwritten. */
  predicate Overwrites(before: MapStr, after: MapStr, fields: MapStr)
  {
    && after.Keys == before.Keys + fields.Keys
    && forall k :: k in after ==> after[k] == (if k in fields then fields[k] else before[k])
  }

  /** `data.Set(k, v)` for every entry of `fields`. */
  function SetAll(data: MapStr, fields: MapStr): (r: MapStr)
    ensures Overwrites(data, r, fields)
  {
    data + fields
  }

  /** The per-model step of the loops in `DeleteSet` and `UpdateSet`. */
  datatype Step<D> = Deleting(cond: Cond) | Updating(data: MapStr, cond: Cond)

  /** The façade's answer to one step on one model. */
  function Apply<D>(f: Facade<D>, step: Step<D>, model: D): Option<Error>
  {
    match step
    case Deleting(cond) => f.deleteInst(model, cond)
    case Updating(data, cond) => f.updateInst(data, model, cond)
  }

  /** The façade call one step on one model makes. */
  function CallOf<D>(step: Step<D>, model: D): Call<D>
  {
    match step
    case Deleting(cond) => DeleteInst(model, cond)
    case Updating(data, cond) => UpdateInst(data, model, cond)
  }

  /** `calls` and `err` are what a loop that stops at the first error
      leaves behind: the calls are for a prefix of the models, in order;
      every call but the last succeeded; there is no error exactly when every
      model succeeds, and then every model was called; otherwise the error
      is the answer to the last call. */
  ghost predicate StoppedAtFirstError<D>(f: Facade<D>, step: Step<D>, models: seq<D>, err: Option<Error>, calls: seq<Call<D>>)
  {
    && |calls| <= |models|
    && (forall i :: 0 <= i < |calls| ==> calls[i] == CallOf(step, models[i]))
    && (forall i :: 0 <= i < |calls| - 1 ==> Apply(f, step, models[i]).None?)
    && (err.None? <==> forall i :: 0 <= i < |models| ==> Apply(f, step, models[i]).None?)
    && (err.None? ==> |calls| == |models|)
    && (err.Some? ==> |calls| > 0 && err == Apply(f, step, models[|calls| - 1]))
  }

  /** The loop shared by `DeleteSet` and `UpdateSet`: apply the step to each
      model in order and return the first error at once, leaving the
      remaining models untouched. Returns the error (if any) and the calls
      made. */
  function UntilError<D>(f: Facade<D>, step: Step<D>, models: seq<D>): (r: (Option<Error>, seq<Call<D>>))
    ensures StoppedAtFirstError(f, step, models, r.0, r.1)
  {
    if |models| == 0 then (None, [])
    else
      var first := CallOf(step, models[0]);
      match Apply(f, step, models[0])
      case Some(e) => (Some(e), [first])
      case None =>
        var rest := UntilError(f, step, models[1..]);
        assert forall i :: 1 <= i < |models| ==> models[1..][i - 1] == models[i];
        (rest.0, [first] + rest.1)
  }

  /** When the k-th model is the first to fail, the loop reports its error
      after exactly the calls for models 0..k: whatever follows is never
      reached. */
  lemma UntilErrorFirstFailure<D>(f: Facade<D>, step: Step<D>, models: seq<D>, k: nat)
    requires k < |models|
    requires Apply(f, step, models[k]).Some?
    requires forall j :: 0 <= j < k ==> Apply(f, step, models[j]).None?
    ensures var r := UntilError(f, step, models);
      && r.0 == Apply(f, step, models[k])
      && |r.1| == k + 1
      && forall i :: 0 <= i <= k ==> r.1[i] == CallOf(step, models[i])
  {
  }

  /** Per-model counts summed, the reference for `SearchSet`'s total. */
  function TotalCount<D>(find: D -> Result<Found>, models: seq<D>): int
  {
    if |models| == 0 then 0
    else (if find(models[0]).Ok? then find(models[0]).value.count else 0) + TotalCount(find, models[1..])
  }

  /** Per-model instance lists concatenated in order, the reference for
      `SearchSet`'s instance list. */
  function AllInfo<D>(find: D -> Result<Found>, models: seq<D>): seq<Value>
  {
    if |models| == 0 then []
    else (if find(models[0]).Ok? then find(models[0]).value.info else []) + AllInfo(find, models[1..])
  }

  /** Both references split over consecutive runs of models. */
  lemma {:induction false} SearchTotalsSplit<D>(find: D -> Result<Found>, a: seq<D>, b: seq<D>)
    ensures TotalCount(find, a + b) == TotalCount(find, a) + TotalCount(find, b)
    ensures AllInfo(find, a + b) == AllInfo(find, a) + AllInfo(find, b)
  {
    if |a| == 0 {
      assert a + b == b;
    } else {
      assert (a + b)[1..] == a[1..] + b;
      SearchTotalsSplit(find, a[1..], b);
    }
  }

  /** The loop in `SearchSet` as written: a running count and a growing
      instance list, aborted by the first `FindInst` error. */
  function FindLoop<D>(find: D -> Result<Found>, models: seq<D>, count: int, acc: seq<Value>): (r: (Result<Found>, seq<Call<D>>))
    ensures 0 < |r.1| <= |models| || (|models| == 0 && r.1 == [])
    ensures forall i :: 0 <= i < |r.1| ==> r.1[i] == FindInst(models[i])
    ensures forall i :: 0 <= i < |r.1| - 1 ==> find(models[i]).Ok?
    ensures r.0.Ok? <==> forall i :: 0 <= i < |models| ==> find(models[i]).Ok?
    ensures r.0.Ok? ==>
      && |r.1| == |models|
      && r.0.value == Found(count + TotalCount(find, models), acc + AllInfo(find, models))
    ensures r.0.Err? ==> |r.1| > 0 && find(models[|r.1| - 1]) == Err(r.0.error)
  {
    if |models| == 0 then (Ok(Found(count, acc)), [])
    else
      assert forall i :: 1 <= i < |models| ==> models[1..][i - 1] == models[i];
      match find(models[0])
      case Err(e) => (Err(e), [FindInst(models[0])])
      case Ok(found) =>
        var rest := FindLoop(find, models[1..], count + found.count, acc + found.info);
        assert acc + found.info + AllInfo(find, models[1..]) == acc + AllInfo(find, models);
        (rest.0, [FindInst(models[0])] + rest.1)
  }

  /** `CreateSet`: resolve the Set model, put the `app_id` path parameter
      into the body, then create and save an instance of the FIRST model
      only and return its map form. */
  function CreateSet<D>(f: Facade<D>, owner: string, path: Params, body: MapStr): (o: Outcome<D>)
    ensures |o.calls| >= 1 && o.calls[0] == FindObject(SetObjectScope(owner))
    ensures
      var found := f.findObject(SetObjectScope(owner));
      && (found.Err? ==>
            o == Outcome(Reply(Null, Some(found.error)), [FindObject(SetObjectScope(owner))], body))
      && (found.Ok? ==> Overwrites(body, o.body, map[AppIdField := Str(Param(path, "app_id"))]))
      && (found.Ok? && |found.value| == 0 ==>
            o.reply == Reply(Null, None) && |o.calls| == 1)
      && (found.Ok? && |found.value| > 0 ==>
            && 2 <= |o.calls| <= 4
            && o.calls[1] == CreateInst(found.value[0], o.body)
            && (forall i :: 2 <= i < |o.calls| ==> !o.calls[i].CreateInst?)
            && var created := f.createInst(found.value[0], o.body);
               && (created.Err? ==> o.reply == Reply(Null, Some(created.error)) && |o.calls| == 2)
               && (created.Ok? ==>
                     && |o.calls| >= 3
                     && o.calls[2] == Save(created.value)
                     && (f.save(created.value).Some? ==>
                           o.reply == Reply(Null, f.save(created.value)) && |o.calls| == 3)
                     && (f.save(created.value).None? ==>
                           && |o.calls| == 4
                           && o.reply == f.toMapStr(created.value)
                           && o.calls[3] == ToMapStr(created.value))))
  {
    var cond := SetObjectScope(owner);
    match f.findObject(cond)
    case Err(e) => Outcome(Reply(Null, Some(e)), [FindObject(cond)], body)
    case Ok(models) =>
      var data := SetAll(body, map[AppIdField := Str(Param(path, "app_id"))]);
      if |models| == 0 then Outcome(Reply(Null, None), [FindObject(cond)], data)
      else
        var model := models[0];
        match f.createInst(model, data)
        case Err(e) => Outcome(Reply(Null, Some(e)), [FindObject(cond), CreateInst(model, data)], data)
        case Ok(inst) =>
          match f.save(inst)
          case Some(e) =>
            Outcome(Reply(Null, Some(e)), [FindObject(cond), CreateInst(model, data), Save(inst)], data)
          case None =>
            Outcome(f.toMapStr(inst), [FindObject(cond), CreateInst(model, data), Save(inst), ToMapStr(inst)], data)
  }

  /** Models after the first have no influence on `CreateSet`. */
  lemma CreateIgnoresLaterModels<D>(f: Facade<D>, owner: string, path: Params, body: MapStr, first: D, rest: seq<D>)
    requires f.findObject(SetObjectScope(owner)) == Ok([first] + rest)
    ensures CreateSet(f, owner, path, body) == CreateSet(f.(findObject := c => Ok([first])), owner, path, body)
  {
  }

  /** `DeleteSet`: resolve the Set model under the instance scope and delete
      through each resolved model in order, stopping at the first error
      with no rollback of the deletions already made. */
  function DeleteSet<D>(f: Facade<D>, owner: string, path: Params, body: MapStr): (o: Outcome<D>)
    ensures o.body == body && o.reply.data == Null
    ensures
      var cond := SetInstScope(owner, Param(path, "app_id"), Param(path, "set_id"));
      var found := f.findObject(cond);
      && |o.calls| >= 1 && o.calls[0] == FindObject(cond)
      && (found.Err? ==> o.reply.err == Some(found.error) && |o.calls| == 1)
      && (found.Ok? ==> StoppedAtFirstError(f, Deleting(cond), found.value, o.reply.err, o.calls[1..]))
  {
    var cond := SetInstScope(owner, Param(path, "app_id"), Param(path, "set_id"));
    match f.findObject(cond)
    case Err(e) => Outcome(Reply(Null, Some(e)), [FindObject(cond)], body)
    case Ok(models) =>
      var run := UntilError(f, Deleting(cond), models);
      var calls := [FindObject(cond)] + run.1;
      assert calls[1..] == run.1;
      Outcome(Reply(Null, run.0), calls, body)
  }

  /** `UpdateSet`: resolve the Set model under the instance scope, put the
      `app_id` and `set_id` path parameters into the body, and update
      through each resolved model in order, stopping at the first error. */
  function UpdateSet<D>(f: Facade<D>, owner: string, path: Params, body: MapStr): (o: Outcome<D>)
    ensures o.reply.data == Null
    ensures
      var cond := SetInstScope(owner, Param(path, "app_id"), Param(path, "set_id"));
      var found := f.findObject(cond);
      && |o.calls| >= 1 && o.calls[0] == FindObject(cond)
      && (found.Err? ==> o.reply.err == Some(found.error) && |o.calls| == 1 && o.body == body)
      && (found.Ok? ==>
            && Overwrites(body, o.body,
                 map[AppIdField := Str(Param(path, "app_id")), SetIdField := Str(Param(path, "set_id"))])
            && StoppedAtFirstError(f, Updating(o.body, cond), found.value, o.reply.err, o.calls[1..]))
  {
    var cond := SetInstScope(owner, Param(path, "app_id"), Param(path, "set_id"));
    match f.findObject(cond)
    case Err(e) => Outcome(Reply(Null, Some(e)), [FindObject(cond)], body)
    case Ok(models) =>
      var data := SetAll(body, map[AppIdField := Str(Param(path, "app_id")), SetIdField := Str(Param(path, "set_id"))]);
      var run := UntilError(f, Updating(data, cond), models);
      var calls := [FindObject(cond)] + run.1;
      assert calls[1..] == run.1;
      Outcome(Reply(Null, run.0), calls, data)
  }

  /** The payload `SearchSet` answers with. */
  function SearchResult(count: int, info: seq<Value>): Value
  {
    Object(map["count" := Int(count), "info" := List(info)])
  }

  /** `SearchSet`: resolve the Set model under the business scope and find
      instances through each resolved model; the answer carries the summed
      count and the concatenated instance lists, or the first error and no
      partial result. */
  function SearchSet<D>(f: Facade<D>, owner: string, path: Params, body: MapStr): (o: Outcome<D>)
    ensures o.body == body
    ensures o.reply.err.Some? ==> o.reply.data == Null
    ensures
      var cond := SetScope(owner, Param(path, "app_id"));
      var found := f.findObject(cond);
      && |o.calls| >= 1 && o.calls[0] == FindObject(cond)
      && (found.Err? ==> o.reply.err == Some(found.error) && |o.calls| == 1)
      && (found.Ok? ==>
            var models := found.value;
            && |o.calls| <= 1 + |models|
            && (forall i :: 1 <= i < |o.calls| ==> o.calls[i] == FindInst(models[i - 1]))
            && (o.reply.err.None? <==> forall i :: 0 <= i < |models| ==> f.findInst(models[i]).Ok?)
            && (o.reply.err.None? ==>
                  && |o.calls| == 1 + |models|
                  && o.reply.data == SearchResult(TotalCount(f.findInst, models), AllInfo(f.findInst, models)))
            && (o.reply.err.Some? ==>
                  && |o.calls| >= 2
                  && (forall i :: 0 <= i < |o.calls| - 2 ==> f.findInst(models[i]).Ok?)
                  && f.findInst(models[|o.calls| - 2]) == Err(o.reply.err.value)))
  {
    var cond := SetScope(owner, Param(path, "app_id"));
    match f.findObject(cond)
    case Err(e) => Outcome(Reply(Null, Some(e)), [FindObject(cond)], body)
    case Ok(models) =>
      var run := FindLoop(f.findInst, models, 0, []);
      var calls := [FindObject(cond)] + run.1;
      assert calls[1..] == run.1;
      assert [] + AllInfo(f.findInst, models) == AllInfo(f.findInst, models);
      match run.0
      case Err(e) => Outcome(Reply(Null, Some(e)), calls, body)
      case Ok(total) => Outcome(Reply(SearchResult(total.count, total.info), None), calls, body)
  }

  /** The handler references `initSet` registers. */
  datatype SetHandler = Create | Delete | Update | Search

  /** Applies a Set handler reference to one call, as `Actions`' closure
      does: the owner comes from the request context. */
  function Invoke<D>(f: Facade<D>, h: SetHandler, call: Invocation): Reply
  {
    var owner := call.ctx.owner;
    match h
    case Create => CreateSet(f, owner, call.path, call.body).reply
    case Delete => DeleteSet(f, owner, call.path, call.body).reply
    case Update => UpdateSet(f, owner, call.path, call.body).reply
    case Search => SearchSet(f, owner, call.path, call.body).reply
  }

  /** The routes the Set resource serves, in registration order. */
  const SetRoutes: seq<Route<SetHandler>> := [
    Route(POST, "/set/{app_id}", Create),
    Route(DELETE, "/set/{app_id}/{set_id}", Delete),
    Route(PUT, "/set/{app_id}/{set_id}", Update),
    Route(POST, "/set/search/{owner_id}/{app_id}", Search)
  ]

  /** The actions `initSet` registers, in order. */
  const SetActions: seq<Action<SetHandler>> := [
    Action("POST", "/set/{app_id}", Create),
    Action("DELETE", "/set/{app_id}/{set_id}", Delete),
    Action("PUT", "/set/{app_id}/{set_id}", Update),
    Action("POST", "/set/search/{owner_id}/{app_id}", Search)
  ]

  /** `initSet`: appends the four Set actions to the action list, leaving
      the entries already there as they were. */
  function InitSet(actions: seq<Action<SetHandler>>): (r: seq<Action<SetHandler>>)
    ensures |r| == |actions| + 4
    ensures r[..|actions|] == actions
    ensures forall i :: 0 <= i < 4 ==>
      && MethodOf(r[|actions| + i].verb) == Some(SetRoutes[i].verb)
      && r[|actions| + i].path == SetRoutes[i].path
      && r[|actions| + i].handler == SetRoutes[i].handler
  {
    actions + SetActions
  }

  /** The Set routes do not collide: no two share both verb and path. */
  lemma SetRoutesDistinct()
    ensures forall i, j :: 0 <= i < j < |SetRoutes| ==>
      (SetRoutes[i].verb, SetRoutes[i].path) != (SetRoutes[j].verb, SetRoutes[j].path)
  {
  }

  /** A single action with a supported verb becomes a single route. */
  lemma RouteOfOne<H>(a: HttpAction<H>, m: Method)
    requires MethodOf(a.verb) == Some(m)
    ensures Routes([a]) == [Route(m, a.path, a.handler)]
  {
    assert [a][1..] == [];
  }

  /** The Set actions as materialised, one by one. They are written out
      rather than taken from `Actions(SetActions)` so that
      `SetActionsMaterialised` checks them against it, just as `SetRoutes`
      is the expected route list that `SetActionsRouted` checks. */
  const SetHttp0 := HttpAction("POST", "/set/{app_id}", Create)
  const SetHttp1 := HttpAction("DELETE", "/set/{app_id}/{set_id}", Delete)
  const SetHttp2 := HttpAction("PUT", "/set/{app_id}/{set_id}", Update)
  const SetHttp3 := HttpAction("POST", "/set/search/{owner_id}/{app_id}", Search)

  /** The Set actions as `Actions` materialises them. */
  lemma SetActionsMaterialised()
    ensures Actions(SetActions) == [SetHttp0] + ([SetHttp1] + ([SetHttp2] + [SetHttp3]))
  {
  }

  /** The last two Set actions become the last two Set routes. */
  lemma SetRoutesFrom2()
    ensures Routes([SetHttp2] + [SetHttp3]) == SetRoutes[2..]
  {
    RoutesConcat([SetHttp2], [SetHttp3]);
    RouteOfOne(SetHttp2, PUT);
    RouteOfOne(SetHttp3, POST);
  }

  /** The last three Set actions become the last three Set routes. */
  lemma SetRoutesFrom1()
    ensures Routes([SetHttp1] + ([SetHttp2] + [SetHttp3])) == SetRoutes[1..]
  {
    SetRoutesFrom2();
    RoutesConcat([SetHttp1], [SetHttp2] + [SetHttp3]);
    RouteOfOne(SetHttp1, DELETE);
  }

  /** All four Set actions have supported verbs, so each becomes a route. */
  lemma SetActionsRouted()
    ensures Routes(Actions(SetActions)) == SetRoutes
  {
    SetActionsMaterialised();
    SetRoutesFrom1();
    RoutesConcat([SetHttp0], [SetHttp1] + ([SetHttp2] + [SetHttp3]));
    RouteOfOne(SetHttp0, POST);
  }

  /** After `initSet`, the web service serves every route it served before,
      followed by the four Set routes in order. */
  lemma InitSetServed(actions: seq<Action<SetHandler>>)
    ensures WebService(InitSet(actions)) == WebService(actions) + SetRoutes
  {
    ActionsConcat(actions, SetActions);
    RoutesConcat(Actions(actions), Actions(SetActions));
    SetActionsRouted();
  }

  /** The dispatcher serving a Set handler against a given façade. */
  function ServeSet<D>(env: Env, f: Facade<D>, h: SetHandler, req: Request): seq<Event>
  {
    Serve(env, (handler, call) => Invoke(f, handler, call), h, req)
  }

  /** DELETE /set/{app_id}/{set_id} with an empty body, where the one
      resolved model answers the deletion with a coded error: the client
      gets that code and the error text, and no data. */
  lemma DeleteCodedErrorAnswer<D>(env: Env, f: Facade<D>, req: Request, model: D, code: int, text: string)
    requires req.body == Read([])
    requires
      var cond := SetInstScope(req.owner, Param(req.path, "app_id"), Param(req.path, "set_id"));
      && f.findObject(cond) == Ok([model])
      && f.deleteInst(model, cond) == Some(Coded(code, text))
    requires code != env.codes.success
    ensures Responses(ServeSet(env, f, Delete, req)) == [Envelope(false, code, Str(text), Null)]
  {
    var t := ServeSet(env, f, Delete, req);
    var call := Invocations(t)[0];
    assert call.ctx.owner == req.owner && call.path == req.path;
  }

  /** POST /set/search/{owner_id}/{app_id} with an empty body, where one
      model is resolved and its search finds two instances: the client gets
      a success envelope with count 2 and both instances in order. */
  lemma SearchOneModelAnswer<D>(env: Env, f: Facade<D>, req: Request, model: D, first: Value, second: Value)
    requires req.body == Read([])
    requires f.findObject(SetScope(req.owner, Param(req.path, "app_id"))) == Ok([model])
    requires f.findInst(model) == Ok(Found(2, [first, second]))
    ensures Responses(ServeSet(env, f, Search, req))
         == [Envelope(true, 0, Str(env.codes.successStr), SearchResult(2, [first, second]))]
  {
    var t := ServeSet(env, f, Search, req);
    var call := Invocations(t)[0];
    assert call.ctx.owner == req.owner && call.path == req.path;
    assert [model][1..] == [];
    assert TotalCount(f.findInst, [model]) == 2;
    assert AllInfo(f.findInst, [model]) == [first, second];
    assert Invoke(f, Search, call).data == SearchResult(2, [first, second]);
  }

  /** POST /set/{app_id} with a set name in the body: the one instance
      created carries both the name and the business id from the path. */
  lemma CreateCarriesPathAppId<D>(f: Facade<D>, owner: string, app: string, name: string, model: D, rest: seq<D>)
    requires f.findObject(SetObjectScope(owner)) == Ok([model] + rest)
    ensures CreateSet(f, owner, map["app_id" := app], map["bk_set_name" := Str(name)]).calls[1]
         == CreateInst(model, map["bk_set_name" := Str(name), AppIdField := Str(app)])
  {
  }
}
