# Topo server dispatcher and Set handlers, modelled in Dafny

This project models two pieces of the bk-cmdb topo server's HTTP layer.

- **The request dispatcher** (`service.go`). Every registered action becomes an HTTP endpoint. Each endpoint reads the request body and applies the decode gate: an empty body is never a decode error. It then calls the action's handler once, classifies the handler's error, and writes one JSON envelope `{result, code, message, data}`.
- **The Set resource** (`inst_set.go`). `initSet` registers four actions. `CreateSet`, `DeleteSet`, `UpdateSet` and `SearchSet` resolve the Set model through the object façade and then act on each resolved model.

Module layout:

- `values.dfy` (`Values`) holds the shared values. Go's `error` becomes a sum type: `Coded(code, text)` for an `errors.CCErrorCoder`, and `Generic(text)` for any other error. Payloads are JSON-like `Value`s, and a handler's `(interface{}, error)` pair is a `Reply`.
- `service.dfy` (`Service`) holds the envelope, `sendResponse` and the per-request closure `Serve`, plus `Actions` and the verb filter of `WebService`. The closure is a pure function from a request to a trace of observable events: the handler being invoked, `sendResponse` being called, and the serialised envelope being written. "Exactly one response per request" is then a statement about that trace. The body reader's outcome, the JSON codec, the error catalogue and the handler are all inputs.
- `inst_set.dfy` (`InstSet`) holds the Set actions and handlers. The façade (`FindObject`, `CreateInst`, `Save`, `ToMapStr`, `DeleteInst`, `UpdateInst`, `FindInst`) is an oracle: a record of functions that answer from their arguments. Each handler returns its reply, the façade calls it made in order, and the body map as it leaves it. So "which calls are made" is a property of the result.

The response codes (`CCSuccess`, `CCSuccessStr`, `CCErrCommHTTPReadBodyFailed`, `CCErrCommJSONUnmarshalFailed`, `CCSystemBusy`) come from the repository's common package, which is not part of this model. They are a `Codes` parameter, so every property holds whatever their values are. The field names (`bk_supplier_account`, `bk_obj_id`, `bk_biz_id`, `bk_set_id`) and the Set object id `set` are constants; the proofs use only that they differ.

One quirk of the source is stated as a lemma. `createAPIRspStr` sets the success flag only by comparing the code with `CCSuccess`. So a handler that fails with a coded error whose code equals `CCSuccess` gets a success envelope, with the error text as its data (`CodedSuccessLooksLikeSuccess`). It is recorded as behaviour, not as a defect.

Two behaviours of the code worth noting:

- `CreateSet` creates an instance for the first resolved model only and returns right after it. An empty model list answers `(nil, nil)`.
- `DeleteSet` and `UpdateSet` resolve the Set model with the full instance condition: owner, object id, business id and set id.

## Model

| member | source | states |
|---|---|---|
| `Service.CreateEnvelope` | src/scene_server/topo_server/service/service.go:106-121 | The success flag is set exactly when the code equals `CCSuccess`. A success envelope has code 0 whatever `CCSuccess` is, and message `CCSuccessStr`. A failure envelope has no data. A client reading the envelope back recovers exactly the code and value passed in. |
| `Service.SendResponse` | src/scene_server/topo_server/service/service.go:127-134 | One response with the envelope built for the code and value. The serialisation is written once if marshalling succeeds and never if it fails. The handler is never invoked from here. |
| `Service.Respond` | src/scene_server/topo_server/service/service.go:183-194 | Classifies a handler reply and responds exactly once, and never invokes anything. A `nil` error answers `CCSuccess` with the payload. A coded error answers its own code, and any other error answers `CCSystemBusy`, both with the error text. The serialised envelope is written once if marshalling succeeds and never otherwise. |
| `Service.Serve` | src/scene_server/topo_server/service/service.go:144-196 | On every path `sendResponse` runs exactly once, at most one write happens, and the handler runs at most once, before the response. A read failure answers `CCErrCommHTTPReadBodyFailed` with the translated message and skips decoding and the handler. The handler runs exactly when the body is empty or parses. A non-empty unparsable body answers `CCErrCommJSONUnmarshalFailed`. The handler receives the owner, the language, the path and query parameters, and the parsed map (the empty map when the parse failed on an empty body). With a codec that rejects empty input, as Go's `json.Unmarshal` does, an empty body always reaches the handler, as the empty map. After the handler runs, the rest of the trace is the response `Respond` gives to its reply. |
| `Service.CodedSuccessLooksLikeSuccess` | src/scene_server/topo_server/service/service.go:183-194 | A coded handler error whose code equals `CCSuccess` yields the same success envelope as a successful call returning the error text: `{true, 0, CCSuccessStr, text}`. |
| `Service.ViewsConcat` | src/scene_server/topo_server/service/service.go:157-194 | The invocations, responses and writes of two traces run in sequence are those of the first followed by those of the second. |
| `Service.Actions` | src/scene_server/topo_server/service/service.go:137-201 | One materialised action per registered action. Each has the same verb and path, at the same position, and its closure is bound to that action's own handler. |
| `Service.ActionsConcat` | src/scene_server/topo_server/service/service.go:139-199 | Materialising two registered lists in sequence gives the two materialised lists in sequence, so the order of the registry is kept. |
| `Service.VerbName` | src/scene_server/topo_server/service/service.go:89-97 | Each of the four route verbs is recognised back from its `net/http` name. |
| `Service.MethodOf` | src/scene_server/topo_server/service/service.go:89-100 | A verb string is recognised exactly when it is POST, DELETE, PUT or GET. |
| `Service.MethodOfInvertsVerbName` | src/scene_server/topo_server/service/service.go:89-97 | Recognising a verb and naming a method are inverse in both directions. |
| `Service.RouteOf` | src/scene_server/topo_server/service/service.go:89-100 | An action becomes a route exactly when its verb is supported, and the route keeps the action's verb, path and handler. |
| `Service.Routes` | src/scene_server/topo_server/service/service.go:88-101 | The loop never adds more routes than there are actions. |
| `Service.RoutesExactly` | src/scene_server/topo_server/service/service.go:88-101 | A route is added exactly when some action with a supported verb turns into it (both directions). |
| `Service.RoutesConcat` | src/scene_server/topo_server/service/service.go:88-101 | The routes of two action lists in sequence are the routes of each, in order: the filter keeps the order of the actions. |
| `Service.RoutesKeepAllSupported` | src/scene_server/topo_server/service/service.go:88-101 | When every verb is supported, no action is skipped. |
| `Service.RoutesFromActions` | src/scene_server/topo_server/service/service.go:88-101 | Every added route comes from some action. |
| `Service.WebService` | src/scene_server/topo_server/service/service.go:71-104 | Every route served comes from a registered action with a supported verb and the same path and handler. Every registered action with a supported verb is served. |
| `InstSet.InitSet` | src/scene_server/topo_server/api/inst_set.go:33-39 | `initSet` appends exactly four actions and leaves earlier entries untouched. In order, they are POST `/set/{app_id}` to Create, DELETE `/set/{app_id}/{set_id}` to Delete, PUT `/set/{app_id}/{set_id}` to Update, and POST `/set/search/{owner_id}/{app_id}` to Search. |
| `InstSet.SetRoutesDistinct` | src/scene_server/topo_server/api/inst_set.go:34-37 | No two Set actions share both verb and path. |
| `InstSet.SetActionsMaterialised` | src/scene_server/topo_server/api/inst_set.go:34-37 | Materialising the four Set actions keeps their verbs, paths and handlers in order. |
| `InstSet.SetActionsRouted` | src/scene_server/topo_server/api/inst_set.go:34-37 | All four Set actions have supported verbs and become the four Set routes in order. |
| `InstSet.InitSetServed` | src/scene_server/topo_server/api/inst_set.go:33-39 | After `initSet`, the web service serves every route it served before, followed by the four Set routes. |
| `InstSet.MatchesSnoc` | src/scene_server/topo_server/api/inst_set.go:78-82 | Adding an equality predicate to a condition narrows it by exactly that predicate. |
| `InstSet.SetObjectScope` | src/scene_server/topo_server/api/inst_set.go:44-45 | `CreateSet`'s condition matches a record exactly when its owner is the caller's and its object id is `set`. |
| `InstSet.SetScope` | src/scene_server/topo_server/api/inst_set.go:131-134 | `SearchSet`'s condition matches exactly the records with the caller's owner, object id `set` and the path's business id. |
| `InstSet.SetInstScope` | src/scene_server/topo_server/api/inst_set.go:78-82 | The Delete/Update condition matches exactly the records with the caller's owner, object id `set`, the path's business id and the path's set id. Every record it matches is also matched by the search condition. |
| `InstSet.UntilError` | src/scene_server/topo_server/api/inst_set.go:91-95 | Models are acted on in order, so the calls made are a prefix of the models. Every call but the last succeeded. The loop reports no error exactly when every model succeeds, and then it has called all of them. Otherwise the error is the last called model's error. |
| `InstSet.UntilErrorFirstFailure` | src/scene_server/topo_server/api/inst_set.go:91-95 | If model k is the first to fail, its error is reported after exactly the calls for models 0..k. Later models are never touched. |
| `InstSet.SearchTotalsSplit` | src/scene_server/topo_server/api/inst_set.go:146-155 | The reference total count and instance list of two model runs in sequence are the sum and the concatenation of each run's. |
| `InstSet.FindLoop` | src/scene_server/topo_server/api/inst_set.go:143-155 | `FindInst` is called on models in order, stopping at the first error, and that error is returned. When all succeed, the running count ends as the start value plus the sum of per-model counts. The instance list ends as the start list followed by the per-model lists in order. |
| `InstSet.SetAll` | src/scene_server/topo_server/api/inst_set.go:116-117 | Setting fields in the body overwrites exactly those keys and keeps every other key and value. |
| `InstSet.CreateSet` | src/scene_server/topo_server/api/inst_set.go:42-73 | A `FindObject` error is returned unchanged, with no other call and the body untouched. Otherwise the body gains the `app_id` path parameter under the business-id field and nothing else changes. No models answers `(nil, nil)`. With models, only the first is used: one `CreateInst` on it with the updated body, then `Save`, then `ToMapStr`. An error from `CreateInst` or `Save` is returned and stops the run. |
| `InstSet.CreateIgnoresLaterModels` | src/scene_server/topo_server/api/inst_set.go:56-70 | Models after the first have no influence on `CreateSet`'s result. |
| `InstSet.CreateCarriesPathAppId` | src/scene_server/topo_server/api/inst_set.go:54-57 | For a body holding a set name, the instance is created from a body that holds both that name and the path's business id. |
| `InstSet.DeleteSet` | src/scene_server/topo_server/api/inst_set.go:76-98 | The body is never modified and no data is returned. A `FindObject` error is returned with no other call. Otherwise `DeleteInst` is called on the models in order with the instance condition. The first failure is returned and ends the run, with no rollback. When every model succeeds, all were called and `(nil, nil)` is returned. |
| `InstSet.UpdateSet` | src/scene_server/topo_server/api/inst_set.go:101-126 | A `FindObject` error is returned with no other call and the body untouched. Otherwise exactly the business-id and set-id keys of the body are overwritten with the path parameters. `UpdateInst` is then called on the models in order with that body and the instance condition, and the first failure is returned with no rollback. When every model succeeds, all were called and `(nil, nil)` is returned. |
| `InstSet.SearchSet` | src/scene_server/topo_server/api/inst_set.go:129-163 | The body is never modified. A `FindObject` error is returned with no other call. Otherwise `FindInst` is called on the models in order. On success the answer is `{count, info}`: count is the sum of the per-model counts and info is the per-model instance lists concatenated in order. The first `FindInst` error is returned with no partial result: every model called before it succeeded, and no later model is called. |
| `InstSet.DeleteCodedErrorAnswer` | src/scene_server/topo_server/api/inst_set.go:91-95 | A DELETE with an empty body, where the one resolved model answers with a coded error, gets a failure envelope with that code, the error text and no data. |
| `InstSet.SearchOneModelAnswer` | src/scene_server/topo_server/api/inst_set.go:143-161 | A search with an empty body over one model that finds two instances gets a success envelope with count 2 and both instances in order. |

## Left out

- go-restful plumbing is not modelled: `ws.Path`, `Produces`/`Consumes`, `Route`/`To`, the `Content-Type` header and `io.WriteString`. Routes are values, and a write is an event in the trace.
- Identity and language extraction (`util.GetActionOnwerID`, `util.GetActionLanguage`) is an external helper, so the owner and language are fields of the request.
- `CreateDefaultCCLanguageIf` is not modelled, because no modelled handler uses the language catalogue.
- The error catalogue (`CreateDefaultCCErrorIf(lang).Error(code)`) is a translation function from language and code to message text. How its error value serialises is decided by the errors package, which is not part of this model.
- The JSON codec (`json.Unmarshal`, `json.Marshal`) is an oracle: unmarshalling yields a map or fails, and marshalling yields a string or fails. The decode gate is modelled over any such oracle.
- The request header is not modelled. `ContextParams` is reduced to the owner identity and the language.
- `Context`: the dispatcher passes `types.ContextParams` while the handlers read `params.Header.OwnerID` from `types.LogicParams`. The owner is one abstract string, and the two types are not reconciled.
- `Facade`: façade internals are not modelled (object resolution, instance creation and persistence, condition building, what the store does). Each façade operation answers as a function of its modelled arguments. The request's `params` (owner, error catalogue, language), which Go passes to every façade call, are fixed within one request, so the oracles and the recorded calls leave them out. The façade is assumed not to keep or modify the body map it receives by reference in `CreateInst` and `UpdateInst`. The contracts that name the body after those calls (`CreateSet`, `UpdateSet`) rely on this. The call trace shows what is asked of it, but the store's state is not modelled. The empty `QueryInput` that `SearchSet` passes to `FindInst` is fixed, so it is left out of that oracle's arguments.
- `FindLoop`: Go's `int` count is 64 bits wide. The model sums with unbounded integers and does not model wrap-around, which would need more than 2^63 matches.
- Logging (`blog.Errorf`) and the debug `fmt.Println` in `CreateSet` have no effect on results.
- `New`, `SetConfig` and `SetOperation` are plain assignments. `initService` and the package `init` that appends `initSet` to `initFuncs` are not part of this model. `WebService` is modelled from the registered action list onward.
- Serve: the JSON body `null` is not modelled. `json.Unmarshal` sets the map to nil for `null` (service.go:165-166), and the handler then receives a nil `MapStr`. The codec oracle yields either a map or a failure and has no nil map, and the model places no constraint on what it answers for `null`. A Go-like oracle must accept `null`, and the nearest value it can give is the empty map. In Go, `data.Set` in `CreateSet` (inst_set.go:54) and `UpdateSet` (inst_set.go:116-117) would write into a nil map. If `MapStr.Set` assigns into the map, that panics and no envelope is written. The `mapstr` package is not part of this model. The exactly-one-response contract of `Serve` therefore assumes that the handler returns.
- Concurrency across requests is not modelled: requests share no mutable state in this layer.
- Duplicate (verb, path) registrations across resource modules are not modelled, because which one wins is up to the router. `SetRoutesDistinct` shows that the Set actions do not collide among themselves.
