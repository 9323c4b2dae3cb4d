/** The process-wide session cache and the request handler `remove_bg`.
    `load` stands for `new_session`, which may raise (a model download can
    fail), and `remove` for the external segmentation-and-matting call; both
    are uninterpreted parameters. The cache is a value threaded through the
    calls. */
module Sessions {
  import opened Common
  import opened Preconditioner
  import opened Params

  /** The message raised when no image was uploaded. */
  const NO_IMAGE: string := "请上传图片"

  /** The outcome of one cache lookup: the cache afterwards, the session
      handed out, and whether the loader ran. */
  datatype Lookup<S> = Lookup(cache: map<string, S>, session: S, loaded: bool)

  /** Get-or-load: a cached session is returned untouched; a missing one is
      loaded, stored under its model, and returned. Nothing is evicted. When
      the loader raises, the assignment never happens: the error propagates
      and the cache is as it was. */
  function GetOrLoad<S>(cache: map<string, S>, model: string, load: string -> Result<S, string>)
    : (r: Result<Lookup<S>, string>)
    ensures r.Success? ==> model in r.value.cache && r.value.session == r.value.cache[model]
    ensures model in cache ==> r == Success(Lookup(cache, cache[model], false))
    ensures model !in cache ==> (r.Success? <==> load(model).Success?)
    ensures model !in cache && load(model).Failure? ==> r == Failure(load(model).error)
    ensures model !in cache && load(model).Success? ==>
      && r.value.loaded && r.value.session == load(model).value
      && r.value.cache.Keys == cache.Keys + {model}
      && forall k :: k in cache ==> r.value.cache[k] == cache[k]
  {
    if model in cache then Success(Lookup(cache, cache[model], false))
    else
      match load(model)
      case Failure(e) => Failure(e)
      case Success(session) => Success(Lookup(cache[model := session], session, true))
  }

  /** The cache a request leaves behind when it reaches the lookup: the
      lookup's cache, or the old one when the loader raised. */
  function CacheAfterLookup<S>(cache: map<string, S>, model: string,
                               load: string -> Result<S, string>): map<string, S> {
    match GetOrLoad(cache, model, load)
    case Success(lookup) => lookup.cache
    case Failure(_) => cache
  }

  /** The matting options `remove_bg` hands through to the remover. */
  datatype MattingFlags = MattingFlags(
    alphaMatting: bool,
    foregroundThreshold: int,
    backgroundThreshold: int,
    erodeSize: int)

  /** One submission of the form. `onlyMask` is accepted but never used. */
  datatype Request<I> = Request(
    image: Option<I>,
    flags: MattingFlags,
    model: string,
    onlyMask: bool,
    discardThreshold: string,
    shifts: string,
    epsilon: string)

  /** The cache after the call and what the call returned or raised. */
  datatype Response<S, I> = Response(cache: map<string, S>, result: Result<I, string>)

  /** The external remover: image, flags, session, preconditioner, epsilon. */
  type Remover<!I, -S> = (I, MattingFlags, S, IcholConfig, real) -> Result<I, string>

  /** `remove_bg`: reject a missing image first, then get or load the
      session, then resolve the three numeric fields, then run the remover
      with a preconditioner bound to the resolved threshold and shifts. */
  function RemoveBg<I, S>(cache: map<string, S>, req: Request<I>, parse: NumberParser,
                          load: string -> Result<S, string>, remove: Remover<I, S>)
    : (r: Response<S, I>)
    ensures req.image.None? ==> r == Response(cache, Failure(NO_IMAGE))
    ensures req.image.Some? ==> r.cache == CacheAfterLookup(cache, req.model, load)
    ensures req.image.Some? && GetOrLoad(cache, req.model, load).Failure? ==>
      r == Response(cache, Failure(GetOrLoad(cache, req.model, load).error))
    ensures req.image.Some? && GetOrLoad(cache, req.model, load).Success? ==>
      var settings := ResolveSettings(parse, req.discardThreshold, req.epsilon, req.shifts);
      && (settings.Failure? ==> r.result == Failure(settings.error))
      && (settings.Success? ==>
            r.result == remove(req.image.value, req.flags, r.cache[req.model],
                               HookIchol(settings.value.discardThreshold, settings.value.shifts),
                               settings.value.epsilon))
  {
    if req.image.None? then Response(cache, Failure(NO_IMAGE))
    else
      match GetOrLoad(cache, req.model, load)
      case Failure(e) => Response(cache, Failure(e))
      case Success(lookup) =>
        match ResolveSettings(parse, req.discardThreshold, req.epsilon, req.shifts)
        case Failure(e) => Response(lookup.cache, Failure(e))
        case Success(s) =>
          var config := HookIchol(s.discardThreshold, s.shifts);
          Response(lookup.cache, remove(req.image.value, req.flags, lookup.session, config, s.epsilon))
  }

  /** The missing-image check comes before everything else: whatever the
      other fields hold, the cache is untouched and the loader is not asked. */
  lemma MissingImageRejectedFirst<I, S>(cache: map<string, S>, req: Request<I>, parse: NumberParser,
                                        load: string -> Result<S, string>, remove: Remover<I, S>)
    requires req.image.None?
    ensures RemoveBg(cache, req, parse, load, remove).cache == cache
    ensures RemoveBg(cache, req, parse, load, remove).result == Failure(NO_IMAGE)
  {
  }

  /** The session is acquired before the fields are parsed: a request for a
      cold model whose fields do not parse still leaves that model's freshly
      loaded session in the cache. */
  lemma SessionLoadedBeforeParsing<I, S>(cache: map<string, S>, req: Request<I>, parse: NumberParser,
                                         load: string -> Result<S, string>, remove: Remover<I, S>)
    requires req.image.Some? && req.model !in cache && load(req.model).Success?
    requires ResolveSettings(parse, req.discardThreshold, req.epsilon, req.shifts).Failure?
    ensures RemoveBg(cache, req, parse, load, remove).result.Failure?
    ensures req.model in RemoveBg(cache, req, parse, load, remove).cache
    ensures RemoveBg(cache, req, parse, load, remove).cache[req.model] == load(req.model).value
  {
  }

  /** A loader that raises stops the request before parsing: its error is
      what the request raises, whatever the text fields hold, and nothing is
      stored, so a later request for the model loads it afresh. */
  lemma FailedLoadStoresNothing<I, S>(cache: map<string, S>, req: Request<I>, parse: NumberParser,
                                      load: string -> Result<S, string>, remove: Remover<I, S>)
    requires req.image.Some? && req.model !in cache && load(req.model).Failure?
    ensures RemoveBg(cache, req, parse, load, remove) == Response(cache, Failure(load(req.model).error))
    ensures req.model !in RemoveBg(cache, req, parse, load, remove).cache
  {
  }

  /** A form whose three numeric fields are left empty reaches the remover
      with epsilon 1e-7 and a preconditioner equal to `hook_ichol()` called
      with its own defaults: the defaults `remove_bg` substitutes agree with
      the ones `hook_ichol` declares. */
  lemma EmptyFormUsesDefaultPreconditioner<I, S>(cache: map<string, S>, req: Request<I>,
                                                 parse: NumberParser,
                                                 load: string -> Result<S, string>,
                                                 remove: Remover<I, S>)
    requires req.image.Some? && GetOrLoad(cache, req.model, load).Success?
    requires req.discardThreshold == "" && req.epsilon == "" && req.shifts == ""
    ensures RemoveBg(cache, req, parse, load, remove).result ==
      remove(req.image.value, req.flags, GetOrLoad(cache, req.model, load).value.session,
             DefaultIchol(), 0.0000001)
  {
    EmptyFieldsUseDefaults(parse);
  }

  /** `only_mask` has no effect on the outcome. */
  lemma OnlyMaskIgnored<I, S>(cache: map<string, S>, req: Request<I>, parse: NumberParser,
                              load: string -> Result<S, string>, remove: Remover<I, S>)
    ensures RemoveBg(cache, req.(onlyMask := true), parse, load, remove) ==
            RemoveBg(cache, req.(onlyMask := false), parse, load, remove)
  {
  }

  /** The cache after a sequence of requests, each seeing the previous
      request's cache. */
  function Serve<I, S>(cache: map<string, S>, reqs: seq<Request<I>>, parse: NumberParser,
                       load: string -> Result<S, string>, remove: Remover<I, S>): map<string, S>
    decreases |reqs|
  {
    if |reqs| == 0 then cache
    else Serve(RemoveBg(cache, reqs[0], parse, load, remove).cache, reqs[1..], parse, load, remove)
  }

  /** The models of the requests that carried an image and whose loader
      succeeds. */
  function LoadedModels<I, S>(reqs: seq<Request<I>>, load: string -> Result<S, string>): set<string> {
    set i | 0 <= i < |reqs| && reqs[i].image.Some? && load(reqs[i].model).Success? :: reqs[i].model
  }

  /** Over any run of requests the cache only grows: it ends up holding
      exactly the models it started with plus every model requested with an
      image that the loader could load, a session once stored is never
      replaced, and every new session is the loader's for its model. */
  lemma {:induction false} CacheNeverEvicts<I, S>(cache: map<string, S>, reqs: seq<Request<I>>,
                                                  parse: NumberParser, load: string -> Result<S, string>,
                                                  remove: Remover<I, S>)
    ensures Serve(cache, reqs, parse, load, remove).Keys == cache.Keys + LoadedModels(reqs, load)
    ensures forall k :: k in cache ==> Serve(cache, reqs, parse, load, remove)[k] == cache[k]
    ensures forall k :: k in Serve(cache, reqs, parse, load, remove) && k !in cache ==>
      load(k).Success? && Serve(cache, reqs, parse, load, remove)[k] == load(k).value
    decreases |reqs|
  {
    if |reqs| > 0 {
      var next := RemoveBg(cache, reqs[0], parse, load, remove).cache;
      CacheNeverEvicts(next, reqs[1..], parse, load, remove);
      var head := if reqs[0].image.Some? && load(reqs[0].model).Success? then {reqs[0].model} else {};
      assert LoadedModels(reqs, load) == head + LoadedModels(reqs[1..], load) by {
        forall m | m in LoadedModels(reqs, load)
          ensures m in head + LoadedModels(reqs[1..], load)
        {
          var i :| 0 <= i < |reqs| && reqs[i].image.Some? && load(reqs[i].model).Success? && reqs[i].model == m;
          if i > 0 {
            assert reqs[1..][i - 1] == reqs[i];
          }
        }
        forall m | m in LoadedModels(reqs[1..], load)
          ensures m in LoadedModels(reqs, load)
        {
          var i :| 0 <= i < |reqs[1..]| && reqs[1..][i].image.Some? && load(reqs[1..][i].model).Success?
                   && reqs[1..][i].model == m;
          assert reqs[i + 1] == reqs[1..][i];
        }
      }
    }
  }

  /** Two requests for the same model in a row: the second leaves the cache
      as the first left it, and when the first obtained a session the second
      is handed that same session without loading. */
  lemma SameModelSameSession<I, S>(cache: map<string, S>, first: Request<I>, second: Request<I>,
                                   parse: NumberParser, load: string -> Result<S, string>, remove: Remover<I, S>)
    requires first.image.Some? && second.image.Some? && first.model == second.model
    ensures var c1 := RemoveBg(cache, first, parse, load, remove).cache;
            && RemoveBg(c1, second, parse, load, remove).cache == c1
            && (GetOrLoad(cache, first.model, load).Success? ==>
                  GetOrLoad(c1, second.model, load) ==
                  Success(Lookup(c1, GetOrLoad(cache, first.model, load).value.session, false)))
  {
  }
}
