/**
 * The route table and request dispatch (src/router/mod.rs).
 *
 * A `Router` keeps one append-only list of routes per request method, a list
 * of routes that accept any method, and a registry of route ids used by URI
 * generation. The table can be changed only while no other handle to it
 * exists (`Arc::get_mut`); `shared` records that another handle exists.
 * Panics of the source (an invalid pattern, a duplicate route id, a shared
 * table) are error outcomes that leave the table as it was.
 *
 * Dispatch, the Allow set and the response choice are stated on plain
 * values (`DispatchIn`, `AllowedIn`, `RespondIn`) so that lemmas can relate
 * tables before and after a registration.
 */
module Router {
  import opened Wrappers
  import opened PatternTypes
  import opened GlobSyntax
  import opened RouteParams
  import opened Recognizer

  datatype Method = Get | Post | Put | Delete | Head | Patch | Options | Other(name: string)

  /** The methods an OPTIONS response may list, in the order it lists them. */
  const Advertised: seq<Method> := [Get, Post, Put, Delete, Head, Patch]

  type Id = string

  /** A registered route id: the template the route was declared with, and its route. */
  datatype Registration = Registration(template: string, route: Recognizer)

  datatype RouteError =
    | BadPattern(cause: PatternError)   // `Recognizer::new(..).unwrap()` panics
    | DuplicateRouteId(id: Id)          // `panic!("Duplicate route_id: ..")`
    | Frozen                            // `mut_inner` finds the table shared

  /** The route list of a method; an absent list is an empty one. */
  function Lookup(routers: map<Method, seq<Recognizer>>, m: Method): (rs: seq<Recognizer>)
    ensures m !in routers ==> rs == []
  {
    if m in routers then routers[m] else []
  }

  /** The route's chunks are the named placeholders of `template`, in template order. */
  predicate SpansOf(template: string, r: Recognizer)
  {
    WellPlaced(r.chunks, 0, |template|) &&
    (forall c :: c in r.chunks ==> SpansPlaceholder(template, c)) &&
    r.names == Names(r.chunks)
  }

  /** Registering `id` for `template` conflicts with an earlier registration for another template. */
  predicate Conflicts(routeIds: map<Id, Registration>, id: Id, template: string)
  {
    id in routeIds && routeIds[id].template != template
  }

  /** `recognize` on the table: the method's own list first, then the wildcard list. */
  function DispatchIn(routers: map<Method, seq<Recognizer>>, wildcard: seq<Recognizer>, m: Method,
                      path: string, engine: Engine): Option<RouteMatch>
  {
    var own := FirstMatch(Lookup(routers, m), path, engine);
    if own.Some? then own else FirstMatch(wildcard, path, engine)
  }

  /** Dispatch is first-match over the method's routes followed by the wildcard routes. */
  lemma DispatchIsFirstMatch(routers: map<Method, seq<Recognizer>>, wildcard: seq<Recognizer>, m: Method,
                             path: string, engine: Engine)
    ensures DispatchIn(routers, wildcard, m, path, engine) ==
      FirstMatch(Lookup(routers, m) + wildcard, path, engine)
  {
    FirstMatchAppend(Lookup(routers, m), wildcard, path, engine);
  }

  /**
   * Appending a route to the list of method `m` leaves every other method's
   * dispatch as it was, and for `m` the new route only receives paths that
   * no earlier route of `m` matched, ahead of the wildcard routes.
   */
  lemma RouteDispatch(routers: map<Method, seq<Recognizer>>, wildcard: seq<Recognizer>, m: Method,
                      r: Recognizer, m': Method, path: string, engine: Engine)
    ensures var routers' := routers[m := Lookup(routers, m) + [r]];
      var own := FirstMatch(Lookup(routers, m), path, engine);
      DispatchIn(routers', wildcard, m', path, engine) ==
        if m' != m then DispatchIn(routers, wildcard, m', path, engine)
        else if own.Some? then own
        else if Match(r, path, engine).Some? then Match(r, path, engine)
        else FirstMatch(wildcard, path, engine)
  {
    var routers' := routers[m := Lookup(routers, m) + [r]];
    if m' == m {
      FirstMatchAppend(Lookup(routers, m), [r], path, engine);
      assert Lookup(routers', m) == Lookup(routers, m) + [r];
      assert FirstMatch([r], path, engine) == Match(r, path, engine) by {
        assert [r][1..] == [];
      }
    } else {
      assert Lookup(routers', m') == Lookup(routers, m');
    }
  }

  /**
   * `any` never shadows a route: a wildcard route appended to the table only
   * receives requests that nothing registered before it matched.
   */
  lemma AnyDispatch(routers: map<Method, seq<Recognizer>>, wildcard: seq<Recognizer>, r: Recognizer,
                    m: Method, path: string, engine: Engine)
    ensures var before := DispatchIn(routers, wildcard, m, path, engine);
      DispatchIn(routers, wildcard + [r], m, path, engine) ==
        if before.Some? then before else Match(r, path, engine)
  {
    FirstMatchAppend(wildcard, [r], path, engine);
    assert FirstMatch([r], path, engine) == Match(r, path, engine) by {
      assert [r][1..] == [];
    }
  }

  /** Method `m` has a route of its own that matches `path` (the wildcard list is not consulted). */
  predicate Owns(routers: map<Method, seq<Recognizer>>, m: Method, path: string, engine: Engine)
  {
    FirstMatch(Lookup(routers, m), path, engine).Some?
  }

  /** The methods of `ms` that own a matching route, in the order of `ms`. */
  function Listed(routers: map<Method, seq<Recognizer>>, ms: seq<Method>, path: string, engine: Engine): seq<Method>
  {
    if ms == [] then []
    else
      var last := ms[|ms| - 1];
      Listed(routers, ms[..|ms| - 1], path, engine) + (if Owns(routers, last, path, engine) then [last] else [])
  }

  /** Position of a method in `Advertised`; the other methods come after all of them. */
  function Rank(m: Method): nat
  {
    match m
    case Get => 0
    case Post => 1
    case Put => 2
    case Delete => 3
    case Head => 4
    case Patch => 5
    case _ => 6
  }

  /** `Listed` keeps exactly the methods of `ms` that own a matching route. */
  lemma {:induction false} ListedMembers(routers: map<Method, seq<Recognizer>>, ms: seq<Method>, path: string, engine: Engine)
    ensures forall m :: m in Listed(routers, ms, path, engine) <==> m in ms && Owns(routers, m, path, engine)
    decreases |ms|
  {
    if ms != [] {
      var init, last := ms[..|ms| - 1], ms[|ms| - 1];
      assert ms == init + [last];
      ListedMembers(routers, init, path, engine);
    }
  }

  /** When `ms` is in strictly increasing rank, so is `Listed`: it keeps the order of `ms` and repeats nothing. */
  lemma {:induction false} ListedOrdered(routers: map<Method, seq<Recognizer>>, ms: seq<Method>, path: string, engine: Engine)
    requires forall i, j :: 0 <= i < j < |ms| ==> Rank(ms[i]) < Rank(ms[j])
    ensures forall i, j :: 0 <= i < j < |Listed(routers, ms, path, engine)| ==>
      Rank(Listed(routers, ms, path, engine)[i]) < Rank(Listed(routers, ms, path, engine)[j])
    decreases |ms|
  {
    if ms != [] {
      var init, last := ms[..|ms| - 1], ms[|ms| - 1];
      ListedOrdered(routers, init, path, engine);
      ListedMembers(routers, init, path, engine);
      var ls := Listed(routers, init, path, engine);
      if Owns(routers, last, path, engine) {
        var ls' := ls + [last];
        forall i, j | 0 <= i < j < |ls'| ensures Rank(ls'[i]) < Rank(ls'[j]) {
          if j == |ls| {
            assert ls[i] in init;
            var k :| 0 <= k < |init| && init[k] == ls[i];
            assert ms[k] == init[k];
          } else {
            assert ls'[i] == ls[i] && ls'[j] == ls[j];
          }
        }
      } else {
        assert ls + [] == ls;
      }
    }
  }

  /**
   * `handle_options`: the advertised methods whose own list matches, in
   * advertised order, then HEAD when GET is there and HEAD is not.
   */
  function AllowedIn(routers: map<Method, seq<Recognizer>>, path: string, engine: Engine): seq<Method>
  {
    var found := Listed(routers, Advertised, path, engine);
    if Get in found && Head !in found then found + [Head] else found
  }

  /**
   * The Allow set holds an advertised method exactly when it owns a matching
   * route, plus HEAD whenever GET is in it; each method at most once; never
   * OPTIONS nor a method outside the advertised six.
   */
  lemma AllowedSpec(routers: map<Method, seq<Recognizer>>, path: string, engine: Engine)
    ensures var allowed := AllowedIn(routers, path, engine);
      forall m :: m in allowed <==>
        (m in Advertised && Owns(routers, m, path, engine)) || (m == Head && Owns(routers, Get, path, engine))
    ensures var allowed := AllowedIn(routers, path, engine);
      forall i, j :: 0 <= i < j < |allowed| ==> allowed[i] != allowed[j]
    ensures Options !in AllowedIn(routers, path, engine)
  {
    ListedMembers(routers, Advertised, path, engine);
    ListedOrdered(routers, Advertised, path, engine);
    var found := Listed(routers, Advertised, path, engine);
    forall i, j | 0 <= i < j < |found| ensures found[i] != found[j] {
      assert Rank(found[i]) < Rank(found[j]);
    }
  }

  /** What the router answers a request with. */
  datatype Response =
    | Handled(handler: HandlerId)       // the route's handler runs, with its parameters in the request
    | Allow(methods: seq<Method>)       // 200 OK with an Allow header
    | NoRoute                           // 404 Not Found

  /** The method a request ends up with: a HEAD that no route takes is retried as GET. */
  function EffectiveMethod(routers: map<Method, seq<Recognizer>>, wildcard: seq<Recognizer>, m: Method,
                           path: string, engine: Engine): Method
  {
    if m == Head && DispatchIn(routers, wildcard, Head, path, engine).None? then Get else m
  }

  /** `Handler for Router::handle`: dispatch, else the OPTIONS answer, the HEAD-as-GET retry, or NoRoute. */
  function RespondIn(routers: map<Method, seq<Recognizer>>, wildcard: seq<Recognizer>, m: Method,
                     path: string, engine: Engine): Response
  {
    match DispatchIn(routers, wildcard, m, path, engine)
    case Some(found) => Handled(found.handler)
    case None =>
      if m == Options then Allow(AllowedIn(routers, path, engine))
      else if m == Head then
        match DispatchIn(routers, wildcard, Get, path, engine)
        case Some(found) => Handled(found.handler)
        case None => NoRoute
      else NoRoute
  }

  /**
   * The router answers NoRoute exactly when the request's method finds no
   * route, it is not OPTIONS, and, for HEAD, GET finds none either; an
   * answer with a handler names the route that dispatch under the effective
   * method picks.
   */
  lemma RespondSpec(routers: map<Method, seq<Recognizer>>, wildcard: seq<Recognizer>, m: Method,
                    path: string, engine: Engine)
    ensures RespondIn(routers, wildcard, m, path, engine) == NoRoute <==>
      DispatchIn(routers, wildcard, m, path, engine).None? && m != Options &&
      (m == Head ==> DispatchIn(routers, wildcard, Get, path, engine).None?)
    ensures RespondIn(routers, wildcard, m, path, engine).Handled? ==>
      var found := DispatchIn(routers, wildcard, EffectiveMethod(routers, wildcard, m, path, engine), path, engine);
      found.Some? && RespondIn(routers, wildcard, m, path, engine).handler == found.value.handler
    ensures RespondIn(routers, wildcard, m, path, engine).Allow? ==>
      m == Options && DispatchIn(routers, wildcard, Options, path, engine).None?
  {
  }

  /** A request in flight: its method (`verb`), its path, and the parameters a route stored in its extensions. */
  class Request {
    var verb: Method
    var path: string
    var params: Option<Params>

    constructor (m: Method, p: string)
      ensures verb == m && path == p && params == None
    {
      verb, path, params := m, p, None;
    }
  }

  class Router {
    var routers: map<Method, seq<Recognizer>>
    var wildcard: seq<Recognizer>
    var routeIds: map<Id, Registration>
    var shared: bool

    /** Every registered id names a route compiled from its own template. */
    predicate Valid()
      reads this
    {
      forall id :: id in routeIds ==> SpansOf(routeIds[id].template, routeIds[id].route)
    }

    /** `Router::new`: an empty table that nobody else holds. */
    constructor ()
      ensures Valid()
      ensures routers == map[] && wildcard == [] && routeIds == map[] && !shared
    {
      routers, wildcard, routeIds, shared := map[], [], map[], false;
    }

    /** A second handle to the table now exists (the `Arc` was cloned). */
    method Share()
      modifies this
      ensures shared
      ensures routers == old(routers) && wildcard == old(wildcard) && routeIds == old(routeIds)
    {
      shared := true;
    }

    /**
     * `route_id`: bind `id` to the template and its route. The table must
     * not be shared, and an id bound to a different template may not be
     * rebound; the same template rebinds it to the new route.
     */
    method RegisterId(id: Id, template: string, route: Recognizer) returns (outcome: Outcome<RouteError>)
      requires Valid() && SpansOf(template, route)
      modifies this
      ensures Valid()
      ensures outcome == if old(shared) then Fail(Frozen)
                         else if Conflicts(old(routeIds), id, template) then Fail(DuplicateRouteId(id))
                         else Pass
      ensures routeIds == if outcome.Pass? then old(routeIds)[id := Registration(template, route)] else old(routeIds)
      ensures routers == old(routers) && wildcard == old(wildcard) && shared == old(shared)
    {
      if shared {
        return Fail(Frozen);
      }
      if id in routeIds && routeIds[id].template != template {
        return Fail(DuplicateRouteId(id));
      }
      routeIds := routeIds[id := Registration(template, route)];
      outcome := Pass;
    }

    /**
     * `Router::route`: compile the template (failing on an invalid pattern),
     * register the id if one is given, and append the route to the end of
     * the method's list, creating it if absent. Any failure leaves the table
     * as it was; the other methods' lists and the wildcard list never change.
     */
    method Route(m: Method, template: string, types: Option<Registry>, handler: HandlerId, id: Option<Id>,
                 engine: Engine) returns (outcome: Outcome<RouteError>)
      requires Valid()
      modifies this
      ensures Valid()
      ensures var c := Compile(template, types.GetOr(DefaultTypes));
        outcome == if !engine.compiles(c.pattern) then Fail(BadPattern(InvalidPattern(c.pattern)))
                   else if old(shared) then Fail(Frozen)
                   else if id.Some? && Conflicts(old(routeIds), id.value, template) then Fail(DuplicateRouteId(id.value))
                   else Pass
      ensures var c := Compile(template, types.GetOr(DefaultTypes));
        var route := Recognizer(c.pattern, c.names, c.chunks, handler);
        if outcome.Pass? then
          routers == old(routers)[m := Lookup(old(routers), m) + [route]] &&
          routeIds == (if id.Some? then old(routeIds)[id.value := Registration(template, route)] else old(routeIds))
        else
          routers == old(routers) && routeIds == old(routeIds)
      ensures wildcard == old(wildcard) && shared == old(shared)
    {
      var compiled := NewRecognizer(template, types, handler, engine);
      if compiled.Err? {
        return Fail(BadPattern(compiled.error));
      }
      var route := compiled.value;
      CompiledChunks(template, types.GetOr(DefaultTypes));
      if id.Some? {
        outcome := RegisterId(id.value, template, route);
        if outcome.Fail? {
          return;
        }
      }
      if shared {
        return Fail(Frozen);
      }
      routers := routers[m := Lookup(routers, m) + [route]];
      outcome := Pass;
    }

    /**
     * `Router::any`: as `route`, but the route is appended to the wildcard
     * list and every per-method list stays as it was.
     */
    method Any(template: string, types: Option<Registry>, handler: HandlerId, id: Option<Id>, engine: Engine)
      returns (outcome: Outcome<RouteError>)
      requires Valid()
      modifies this
      ensures Valid()
      ensures var c := Compile(template, types.GetOr(DefaultTypes));
        outcome == if !engine.compiles(c.pattern) then Fail(BadPattern(InvalidPattern(c.pattern)))
                   else if old(shared) then Fail(Frozen)
                   else if id.Some? && Conflicts(old(routeIds), id.value, template) then Fail(DuplicateRouteId(id.value))
                   else Pass
      ensures var c := Compile(template, types.GetOr(DefaultTypes));
        var route := Recognizer(c.pattern, c.names, c.chunks, handler);
        if outcome.Pass? then
          wildcard == old(wildcard) + [route] &&
          routeIds == (if id.Some? then old(routeIds)[id.value := Registration(template, route)] else old(routeIds))
        else
          wildcard == old(wildcard) && routeIds == old(routeIds)
      ensures routers == old(routers) && shared == old(shared)
    {
      var compiled := NewRecognizer(template, types, handler, engine);
      if compiled.Err? {
        return Fail(BadPattern(compiled.error));
      }
      var route := compiled.value;
      CompiledChunks(template, types.GetOr(DefaultTypes));
      if id.Some? {
        outcome := RegisterId(id.value, template, route);
        if outcome.Fail? {
          return;
        }
      }
      if shared {
        return Fail(Frozen);
      }
      wildcard := wildcard + [route];
      outcome := Pass;
    }

    /** `Router::recognize`: the method's own list first, then the wildcard list. */
    method Dispatch(m: Method, path: string, engine: Engine) returns (found: Option<RouteMatch>)
      ensures found == DispatchIn(routers, wildcard, m, path, engine)
    {
      var own: Option<RouteMatch> := None;
      if m in routers {
        own := FirstMatchIn(routers[m], path, engine);
      }
      var fallback := FirstMatchIn(wildcard, path, engine);
      found := if own.Some? then own else fallback;
    }

    /** `Router::handle_options`: collect the Allow set by walking the advertised methods. */
    method HandleOptions(path: string, engine: Engine) returns (allowed: seq<Method>)
      ensures allowed == AllowedIn(routers, path, engine)
    {
      allowed := [];
      for k := 0 to |Advertised|
        invariant allowed == Listed(routers, Advertised[..k], path, engine)
      {
        var m := Advertised[k];
        assert Advertised[..k + 1][..k] == Advertised[..k];
        if m in routers {
          var found := FirstMatchIn(routers[m], path, engine);
          if found.Some? {
            allowed := allowed + [m];
          }
        }
      }
      assert Advertised[..|Advertised|] == Advertised;
      if Get in allowed && Head !in allowed {
        allowed := allowed + [Head];
      }
    }

    /**
     * `Router::handle_method`: when a route takes the request, its
     * parameters are stored in the request and its handler is returned.
     */
    method HandleMethod(req: Request, engine: Engine) returns (handler: Option<HandlerId>)
      modifies req
      ensures var found := DispatchIn(routers, wildcard, old(req.verb), old(req.path), engine);
        handler == (if found.Some? then Some(found.value.handler) else None) &&
        req.params == (if found.Some? then Some(found.value.params) else old(req.params))
      ensures req.verb == old(req.verb) && req.path == old(req.path)
    {
      var found := Dispatch(req.verb, req.path, engine);
      if found.Some? {
        req.params := Some(found.value.params);
        handler := Some(found.value.handler);
      } else {
        handler := None;
      }
    }

    /**
     * `Handler for Router::handle`: try the request's own method; failing
     * that, answer OPTIONS with the Allow set, retry HEAD as GET (the
     * request keeps the GET method whatever the retry finds), and answer
     * everything else with NoRoute.
     */
    method Handle(req: Request, engine: Engine) returns (response: Response)
      modifies req
      ensures response == RespondIn(routers, wildcard, old(req.verb), old(req.path), engine)
      ensures req.verb == EffectiveMethod(routers, wildcard, old(req.verb), old(req.path), engine)
      ensures req.path == old(req.path)
      ensures response.Handled? ==>
        req.params == Some(DispatchIn(routers, wildcard, req.verb, req.path, engine).value.params)
      ensures !response.Handled? ==> req.params == old(req.params)
    {
      var handler := HandleMethod(req, engine);
      if handler.Some? {
        return Handled(handler.value);
      }
      if req.verb == Options {
        var allowed := HandleOptions(req.path, engine);
        return Allow(allowed);
      }
      if req.verb == Head {
        req.verb := Get;
        handler := HandleMethod(req, engine);
        if handler.Some? {
          return Handled(handler.value);
        }
      }
      response := NoRoute;
    }
  }
}
