/**
  The middleware chain: each layer runs a pre-hook on the request, delegates
  to the link it wraps, then runs a post-hook on the request and response.

  A middleware class of the source is modelled as a `Layer` value carrying
  its two hooks; an instance wrapping an inner link is `Wrapped(layer, inner)`,
  and the innermost link is the application itself. The order in which the
  hooks fire is recorded as a trace of events.
*/
module Middlewares {
  import opened Web

  /** One hook firing, or the innermost application handling the request. */
  datatype Event = PreHook(layer: string) | Endpoint | PostHook(layer: string)

  /**
    A middleware class: `process_request` may change the request,
    `process_response` may change the response it is given.
  */
  datatype Layer = Layer(
    name: string,
    processRequest: Request -> Request,
    processResponse: (Request, Response) -> Response)

  /** The base class's hooks, which do nothing: the layer is transparent. */
  function NoOpLayer(name: string): (layer: Layer)
    ensures layer.name == name
    ensures Transparent(layer)
  {
    Layer(name, req => req, (req, resp) => resp)
  }

  /** A layer whose hooks leave request and response as they are. */
  ghost predicate Transparent(layer: Layer)
  {
    && (forall req :: layer.processRequest(req) == req)
    && (forall req, resp :: layer.processResponse(req, resp) == resp)
  }

  /** A link of the chain: the wrapped application, or a layer around an inner link. */
  datatype Link = App(handleRequest: Request -> Response) | Wrapped(layer: Layer, inner: Link)

  /** The state of one request once a link is done with it, and the hooks that fired. */
  datatype Exchange = Exchange(request: Request, response: Response, trace: seq<Event>)

  /**
    `handle_request` of a link: pre-hook, the inner link's full handling on
    the same request, then post-hook on the request as the inner link left it.
  */
  function Handle(link: Link, request: Request): (x: Exchange)
    ensures |x.trace| == 2 * |Layers(link)| + 1
  {
    match link
    case App(app) => Exchange(request, app(request), [Endpoint])
    case Wrapped(layer, inner) =>
      var x := Handle(inner, layer.processRequest(request));
      Exchange(x.request, layer.processResponse(x.request, x.response),
               [PreHook(layer.name)] + x.trace + [PostHook(layer.name)])
  }

  /** The layers of a chain, outermost first. */
  function Layers(link: Link): (ls: seq<Layer>)
    ensures link.App? <==> ls == []
  {
    match link
    case App(_) => []
    case Wrapped(layer, inner) => [layer] + Layers(inner)
  }

  /** The application at the bottom of a chain. */
  function Bottom(link: Link): Request -> Response
  {
    match link
    case App(app) => app
    case Wrapped(_, inner) => Bottom(inner)
  }

  /** The pre-hook events of `layers`, in the given order. */
  function PreHooks(layers: seq<Layer>): (es: seq<Event>)
    ensures |es| == |layers|
    ensures forall i :: 0 <= i < |layers| ==> es[i] == PreHook(layers[i].name)
  {
    if layers == [] then [] else [PreHook(layers[0].name)] + PreHooks(layers[1..])
  }

  /** The post-hook events of `layers`, in the reverse of the given order. */
  function PostHooks(layers: seq<Layer>): (es: seq<Event>)
    ensures |es| == |layers|
    ensures forall i :: 0 <= i < |layers| ==> es[i] == PostHook(layers[|layers| - 1 - i].name)
  {
    if layers == [] then [] else PostHooks(layers[1..]) + [PostHook(layers[0].name)]
  }

  /**
    Stack discipline: the pre-hooks fire outermost first, then the
    application runs once, then the post-hooks fire innermost first.
  */
  lemma {:induction false} TraceIsStack(link: Link, request: Request)
    ensures Handle(link, request).trace == PreHooks(Layers(link)) + [Endpoint] + PostHooks(Layers(link))
  {
    match link
    case App(_) =>
    case Wrapped(layer, inner) =>
      TraceIsStack(inner, layer.processRequest(request));
      assert Layers(link)[1..] == Layers(inner);
  }

  /**
    A chain of layers that leave request and response alone answers exactly
    what its application answers.
  */
  lemma {:induction false} TransparentChain(link: Link, request: Request)
    requires forall i :: 0 <= i < |Layers(link)| ==> Transparent(Layers(link)[i])
    ensures Handle(link, request).request == request
    ensures Handle(link, request).response == Bottom(link)(request)
  {
    match link
    case App(_) =>
    case Wrapped(layer, inner) =>
      assert Transparent(Layers(link)[0]);
      assert forall i :: 0 <= i < |Layers(inner)| ==> Layers(inner)[i] == Layers(link)[i + 1];
      TransparentChain(inner, request);
  }

  /**
    A layer whose hooks leave request and response unchanged, such as one with
    the base class's hooks, answers exactly what its inner link answers.
  */
  lemma TransparentLayer(layer: Layer, inner: Link, request: Request)
    requires Transparent(layer)
    ensures Handle(Wrapped(layer, inner), request).response == Handle(inner, request).response
    ensures Handle(Wrapped(layer, inner), request).request == Handle(inner, request).request
  {
  }

  /** A middleware object: its own hooks and the link it wraps. */
  class Middleware {
    /** The hooks of this object's class. */
    const hooks: Layer
    /** `self.app`, the next link inward. */
    var app: Link

    /** The whole chain this object heads. */
    function Chain(): Link
      reads this
    {
      Wrapped(hooks, app)
    }

    /** `Middleware(app)`, for an object of the class whose hooks are `hooks`. */
    constructor (hooks: Layer, app: Link)
      ensures this.hooks == hooks && this.app == app
    {
      this.hooks := hooks;
      this.app := app;
    }

    /**
      `add(cls)`: the new layer goes directly inside this object, around the
      previous inner link; the chain grows by exactly that layer.
    */
    method Add(layer: Layer)
      modifies this
      ensures app == Wrapped(layer, old(app))
      ensures Layers(Chain()) == [hooks, layer] + old(Layers(app))
      ensures Bottom(app) == Bottom(old(app))
    {
      app := Wrapped(layer, app);
    }

    /**
      `handle_request`: this object's pre-hook, the inner link's handling,
      this object's post-hook; the answer is the post-hook's response.
    */
    method HandleRequest(request: Request) returns (response: Response)
      ensures response == Handle(Chain(), request).response
    {
      var req := hooks.processRequest(request);
      var inner := Handle(app, req);
      response := hooks.processResponse(inner.request, inner.response);
    }
  }

  /**
    `Middleware(app)` followed by `add(A)` and `add(B)`: pre-hooks fire in the
    order self, B, A and post-hooks in the order A, B, self.
  */
  lemma AddTwiceOrder(self: Layer, a: Layer, b: Layer, app: Request -> Response, request: Request)
    ensures Handle(Wrapped(self, Wrapped(b, Wrapped(a, App(app)))), request).trace ==
            [PreHook(self.name), PreHook(b.name), PreHook(a.name), Endpoint,
             PostHook(a.name), PostHook(b.name), PostHook(self.name)]
  {
    var chain := Wrapped(self, Wrapped(b, Wrapped(a, App(app))));
    TraceIsStack(chain, request);
    assert Layers(Wrapped(a, App(app))) == [a];
    assert Layers(Wrapped(b, Wrapped(a, App(app)))) == [b, a];
    assert Layers(chain) == [self, b, a];
  }
}
