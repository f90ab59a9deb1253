/**
  The route table of the framework's `API` object and the lookup that picks
  the handler for a request path.

  The table is a Python dict from path pattern to handler; Python dicts keep
  insertion order, and that order decides which pattern wins when several
  match. It is modelled as a sequence of (pattern, handler) pairs whose
  patterns are pairwise distinct. Handlers are opaque values of type `H`.

  Matching a pattern against a path is done in the source by the foreign
  `parse` library; here it is the parameter `parse`, which returns the named
  fields of a successful match or `None`.
*/
module Routing {
  import opened Wrappers
  import opened Web

  /** Named fields extracted from the path by a successful match. */
  type Params = map<string, string>

  /** `parse(pattern, path)`, reduced to the named fields of its result. */
  type Matcher = (string, string) -> Option<Params>

  type Route<H> = (string, H)

  /** The patterns of the table, in insertion order (the dict's keys). */
  function Patterns<H>(routes: seq<Route<H>>): (ps: seq<string>)
    ensures |ps| == |routes|
    ensures forall i :: 0 <= i < |routes| ==> ps[i] == routes[i].0
  {
    if routes == [] then [] else [routes[0].0] + Patterns(routes[1..])
  }

  /** No pattern occurs twice: the table is a dict. */
  ghost predicate Distinct(ps: seq<string>)
  {
    forall i, j :: 0 <= i < j < |ps| ==> ps[i] != ps[j]
  }

  /** `routes[key]` of the dict: the handler stored under `key`, if any. */
  function Lookup<H>(routes: seq<Route<H>>, key: string): (r: Option<H>)
    ensures r.None? <==> key !in Patterns(routes)
  {
    if routes == [] then None
    else if routes[0].0 == key then Some(routes[0].1)
    else Lookup(routes[1..], key)
  }

  /**
    `routes[path] = handler` on the dict: an existing key keeps its position
    and gets the new handler; a new key is appended at the end.
  */
  function Assign<H>(routes: seq<Route<H>>, path: string, handler: H): (r: seq<Route<H>>)
    ensures Patterns(r) == if path in Patterns(routes) then Patterns(routes) else Patterns(routes) + [path]
    ensures path !in Patterns(routes) ==> r == routes + [(path, handler)]
    ensures forall i :: 0 <= i < |routes| && routes[i].0 != path ==> r[i] == routes[i]
  {
    if routes == [] then [(path, handler)]
    else if routes[0].0 == path then
      assert Patterns(routes)[0] == path;
      [(path, handler)] + routes[1..]
    else
      var rest := Assign(routes[1..], path, handler);
      assert Patterns(routes) == [routes[0].0] + Patterns(routes[1..]);
      [routes[0]] + rest
  }

  /** After the assignment the dict maps `path` to `handler` and every other key as before. */
  lemma {:induction false} AssignLookup<H>(routes: seq<Route<H>>, path: string, handler: H, key: string)
    ensures Lookup(Assign(routes, path, handler), key) == if key == path then Some(handler) else Lookup(routes, key)
  {
    if routes != [] && routes[0].0 != path {
      AssignLookup(routes[1..], path, handler, key);
    }
  }

  /** In a table with distinct patterns, looking up an entry's pattern gives that entry's handler. */
  lemma {:induction false} LookupAt<H>(routes: seq<Route<H>>, i: int)
    requires Distinct(Patterns(routes)) && 0 <= i < |routes|
    ensures Lookup(routes, routes[i].0) == Some(routes[i].1)
  {
    if i > 0 {
      assert Patterns(routes[1..]) == Patterns(routes)[1..];
      assert routes[0].0 == Patterns(routes)[0] != Patterns(routes)[i] == routes[i].0;
      LookupAt(routes[1..], i - 1);
    }
  }

  /** Assignment keeps the patterns distinct, and the entry for `path` holds the new handler. */
  lemma AssignKeepsDistinct<H>(routes: seq<Route<H>>, path: string, handler: H)
    requires Distinct(Patterns(routes))
    ensures var r := Assign(routes, path, handler);
            && Distinct(Patterns(r))
            && forall i :: 0 <= i < |r| && r[i].0 == path ==> r[i].1 == handler
  {
    var r := Assign(routes, path, handler);
    assert Distinct(Patterns(r));
    AssignLookup(routes, path, handler, path);
    forall i | 0 <= i < |r| && r[i].0 == path ensures r[i].1 == handler {
      LookupAt(r, i);
    }
  }

  /** The pattern of entry `i` matches `path`. */
  ghost predicate MatchesAt<H>(routes: seq<Route<H>>, path: string, parse: Matcher, i: int)
  {
    0 <= i < |routes| && parse(routes[i].0, path).Some?
  }

  /** Entry `i` is the first entry, in insertion order, whose pattern matches `path`. */
  ghost predicate IsFirstMatch<H>(routes: seq<Route<H>>, path: string, parse: Matcher, i: int)
  {
    MatchesAt(routes, path, parse, i) && forall j :: 0 <= j < i ==> !MatchesAt(routes, path, parse, j)
  }

  /**
    `find_handler`: the handler and named fields of the first entry whose
    pattern matches, or `(None, None)` when none does.
  */
  function FindRoute<H>(routes: seq<Route<H>>, path: string, parse: Matcher): (r: (Option<H>, Option<Params>))
    ensures r.0.None? <==> r.1.None?
    ensures r.0.None? <==> forall i :: 0 <= i < |routes| ==> !MatchesAt(routes, path, parse, i)
    ensures r.0.Some? ==> exists i :: IsFirstMatch(routes, path, parse, i) &&
                                      r == (Some(routes[i].1), parse(routes[i].0, path))
  {
    if routes == [] then (None, None)
    else
      var parsed := parse(routes[0].0, path);
      if parsed.Some? then
        assert IsFirstMatch(routes, path, parse, 0);
        (Some(routes[0].1), Some(parsed.value))
      else
        FirstMatchShift(routes, path, parse);
        FindRoute(routes[1..], path, parse)
  }

  /** Past a first entry that does not match, the first match of the rest is the first match of all. */
  lemma FirstMatchShift<H>(routes: seq<Route<H>>, path: string, parse: Matcher)
    requires routes != [] && !MatchesAt(routes, path, parse, 0)
    ensures forall i :: 1 <= i < |routes| ==> (MatchesAt(routes, path, parse, i) <==> MatchesAt(routes[1..], path, parse, i - 1))
    ensures forall k :: IsFirstMatch(routes[1..], path, parse, k) ==> IsFirstMatch(routes, path, parse, k + 1)
  {
    forall k | IsFirstMatch(routes[1..], path, parse, k)
      ensures IsFirstMatch(routes, path, parse, k + 1)
    {
      assert forall j :: 1 <= j < k + 1 ==> (MatchesAt(routes, path, parse, j) <==> MatchesAt(routes[1..], path, parse, j - 1));
    }
  }

  /** There is at most one first match, so the entry `FindRoute` reports is determined. */
  lemma FirstMatchUnique<H>(routes: seq<Route<H>>, path: string, parse: Matcher, i: int, j: int)
    requires IsFirstMatch(routes, path, parse, i) && IsFirstMatch(routes, path, parse, j)
    ensures i == j
  {
  }

  /**
    Registering a new pattern appends it last: a path some earlier pattern
    matches is routed as before, and any other path is routed to the new
    handler exactly when the new pattern matches it.
  */
  lemma {:induction false} RegisterNewThenFind<H>(routes: seq<Route<H>>, pattern: string, handler: H, path: string, parse: Matcher)
    requires pattern !in Patterns(routes)
    ensures FindRoute(Assign(routes, pattern, handler), path, parse) ==
            if exists i :: MatchesAt(routes, path, parse, i) then FindRoute(routes, path, parse)
            else if parse(pattern, path).Some? then (Some(handler), parse(pattern, path))
            else (None, None)
  {
    var r := Assign(routes, pattern, handler);
    assert r == routes + [(pattern, handler)];
    assert forall i :: 0 <= i < |routes| ==> (MatchesAt(r, path, parse, i) <==> MatchesAt(routes, path, parse, i));
    if exists i :: MatchesAt(routes, path, parse, i) {
      var g := FindRoute(routes, path, parse);
      var i :| IsFirstMatch(routes, path, parse, i) && g == (Some(routes[i].1), parse(routes[i].0, path));
      assert IsFirstMatch(r, path, parse, i);
      var f := FindRoute(r, path, parse);
      var k :| IsFirstMatch(r, path, parse, k) && f == (Some(r[k].1), parse(r[k].0, path));
      FirstMatchUnique(r, path, parse, k, i);
    } else if parse(pattern, path).Some? {
      assert IsFirstMatch(r, path, parse, |routes|);
      var f := FindRoute(r, path, parse);
      var k :| IsFirstMatch(r, path, parse, k) && f == (Some(r[k].1), parse(r[k].0, path));
      FirstMatchUnique(r, path, parse, k, |routes|);
    }
  }

  /**
    Re-registering a pattern that is already present replaces its handler in
    place: every request is routed to the same entry and the same fields as
    before, and only the handler of that entry changes.
  */
  lemma ReRegisterReplaces<H>(routes: seq<Route<H>>, pattern: string, handler: H, path: string, parse: Matcher)
    requires Distinct(Patterns(routes))
    requires pattern in Patterns(routes)
    ensures var before := FindRoute(routes, path, parse);
            var after := FindRoute(Assign(routes, pattern, handler), path, parse);
            && after.1 == before.1
            && (before.0.Some? ==>
                  exists i :: IsFirstMatch(routes, path, parse, i) &&
                                after.0 == Some(if routes[i].0 == pattern then handler else routes[i].1))
  {
    var r := Assign(routes, pattern, handler);
    AssignKeepsDistinct(routes, pattern, handler);
    assert Patterns(r) == Patterns(routes);
    assert |r| == |routes|;
    assert forall i :: 0 <= i < |r| ==> r[i].0 == routes[i].0;
    assert forall i :: MatchesAt(r, path, parse, i) <==> MatchesAt(routes, path, parse, i);
    var before := FindRoute(routes, path, parse);
    var after := FindRoute(r, path, parse);
    if before.0.Some? {
      var i :| IsFirstMatch(routes, path, parse, i) && before == (Some(routes[i].1), parse(routes[i].0, path));
      var k :| IsFirstMatch(r, path, parse, k) && after == (Some(r[k].1), parse(r[k].0, path));
      assert IsFirstMatch(routes, path, parse, k);
      FirstMatchUnique(routes, path, parse, i, k);
    }
  }

  /** What a request is dispatched to: a handler with its fields, or the 404 default. */
  datatype Dispatch<H> = Invoke(handler: H, params: Params) | NotFound

  /** `default_response`: status 404 and text "Not found.", the rest of the response untouched. */
  function DefaultResponse(response: Response): (r: Response)
    ensures r.status == 404 && r.text == "Not found."
    ensures r.contentType == response.contentType
  {
    response.(status := 404, text := "Not found.")
  }

  /**
    The dispatch decision of `handle_request` as evidently intended: unpack
    the pair `find_handler` returns, invoke the handler with the named fields
    when there is one, and fall back to the 404 default otherwise.
  */
  function Decide<H>(routes: seq<Route<H>>, path: string, parse: Matcher): (d: Dispatch<H>)
    ensures d.NotFound? <==> forall i :: 0 <= i < |routes| ==> !MatchesAt(routes, path, parse, i)
    ensures d.Invoke? ==> exists i :: IsFirstMatch(routes, path, parse, i) &&
                                      d == Invoke(routes[i].1, parse(routes[i].0, path).value)
  {
    var (handler, params) := FindRoute(routes, path, parse);
    if handler.Some? then Invoke(handler.value, params.value) else NotFound
  }

  /** How a call of `handle_request` ends: with a response, or with a Python exception. */
  datatype Outcome = Returned(response: Response) | Raised(error: string)

  /** The number of items in the value `find_handler` returns: always a pair. */
  const FindHandlerArity: nat := 2

  /** Python's truth value of a tuple: true unless it is empty. */
  predicate TupleTruthy(arity: nat)
  {
    arity != 0
  }

  /**
    `handle_request` as written: `handler` is bound to the whole pair, which
    is truthy, so the source always takes the branch that calls it; calling a
    tuple raises TypeError. `default_response` is never reached, and the named
    fields would not have been passed to the handler either.
  */
  function HandleRequestAsWritten<H>(routes: seq<Route<H>>, request: Request, parse: Matcher): (o: Outcome)
    ensures o.Raised?
  {
    if TupleTruthy(FindHandlerArity) then Raised("TypeError: 'tuple' object is not callable")
    else Returned(DefaultResponse(NewResponse()))
  }

  /**
    A path that no pattern matches: as written the request raises TypeError,
    while the intended dispatch answers with the 404 default.
  */
  lemma UnmatchedPathRaisesAsWritten<H>(routes: seq<Route<H>>, request: Request, parse: Matcher)
    requires forall i :: 0 <= i < |routes| ==> !MatchesAt(routes, request.path, parse, i)
    ensures HandleRequestAsWritten(routes, request, parse).Raised?
    ensures Decide(routes, request.path, parse) == NotFound
  {
  }

  /** The framework object: its route table, registration and dispatch. */
  class API<H> {
    /** `self.routes`, in insertion order. */
    var routes: seq<Route<H>>

    ghost predicate Valid()
      reads this
    {
      Distinct(Patterns(routes))
    }

    /** `API()`: an empty route table. */
    constructor ()
      ensures Valid() && routes == []
    {
      routes := [];
    }

    /**
      `route(path)(handler)`: the decorator stores the handler under `path`,
      overwriting any earlier one, and hands the handler back unchanged.
    */
    method Route(path: string, handler: H) returns (decorated: H)
      requires Valid()
      modifies this
      ensures Valid()
      ensures decorated == handler
      ensures routes == Assign(old(routes), path, handler)
      ensures Lookup(routes, path) == Some(handler)
      ensures forall key :: key != path ==> Lookup(routes, key) == Lookup(old(routes), key)
      ensures |routes| == if path in Patterns(old(routes)) then |old(routes)| else |old(routes)| + 1
    {
      AssignKeepsDistinct(routes, path, handler);
      forall key {
        AssignLookup(routes, path, handler, key);
      }
      routes := Assign(routes, path, handler);
      decorated := handler;
    }

    /** `find_handler`: scan the table in insertion order and stop at the first match. */
    method FindHandler(request: Request, parse: Matcher) returns (handler: Option<H>, params: Option<Params>)
      ensures (handler, params) == FindRoute(routes, request.path, parse)
    {
      var i := 0;
      while i < |routes|
        invariant 0 <= i <= |routes|
        invariant FindRoute(routes, request.path, parse) == FindRoute(routes[i..], request.path, parse)
      {
        var parsed := parse(routes[i].0, request.path);
        if parsed.Some? {
          return Some(routes[i].1), Some(parsed.value);
        }
        assert routes[i..][1..] == routes[i + 1..];
        i := i + 1;
      }
      return None, None;
    }

    /**
      `handle_request` with the pair unpacked: a new response, then either the
      handler and fields to invoke on it, or the 404 default when no pattern
      matches. The handler body itself is application code and is not run here.
    */
    method HandleRequest(request: Request, parse: Matcher) returns (response: Response, call: Dispatch<H>)
      ensures call == Decide(routes, request.path, parse)
      ensures call.NotFound? ==> response == DefaultResponse(NewResponse())
      ensures call.Invoke? ==> response == NewResponse()
    {
      response := NewResponse();
      var handler, params := FindHandler(request, parse);
      if handler.Some? {
        call := Invoke(handler.value, params.value);
      } else {
        response := DefaultResponse(response);
        call := NotFound;
      }
    }
  }
}
