# A verified model of a teaching WSGI web framework

This project models the core of a small Python web framework built step by
step on WSGI (PEP 333), and proves properties of the model in Dafny:

- **Routing** (`routing.dfy`, the `API` class of `part_1/02_requests_and_routing/api.py`):
  an insertion-ordered route table from path pattern to handler; the `route`
  decorator, which stores a handler and silently overwrites an earlier one
  in place; `find_handler`, which returns the handler and named fields of
  the first pattern, in insertion order, that matches the request path; the
  fixed 404 default response; and the dispatch decision of `handle_request`.
  Pattern matching belongs to the `parse` library and is a parameter
  (`parse: (pattern, path) -> Option<Params>`) that stays uninterpreted.
- **Middleware** (`middleware.dfy`, `part_1/02_requests_and_routing/middleware.py`):
  a `Middleware` object holding its inner link; `add` wraps the inner link
  in a new layer directly inside the object; `handle_request` runs the
  pre-hook, delegates, and runs the post-hook. Each middleware class is a
  `Layer` value carrying its two hooks, and the hooks that fire are recorded
  as an event trace.
- **WSGI demo** (`wsgi.dfy`, `text.dfy`, `sorting.dfy`, `part_1/01_wsgi/wsgi_demo.py`):
  `application`, which answers "200 OK" with a text/plain header and one
  chunk listing the environ as sorted `key: value` lines joined by newlines,
  and `Reverseware`, which reverses every chunk of the application it wraps.
  Python's string and tuple ordering is defined explicitly; `sorted` is an
  insertion sort, and `SortedUnique` shows every sorted permutation is the
  same, so it agrees with Python's `sorted`.

Request and response objects (WebOb in the source) are values in `web.dfy`;
an in-place update of the source is a function returning the updated value.

Re-registering a pattern overwrites its handler; this version raises no
duplicate-route error. Patterns are whatever `parse` accepts. The modelled
files have no verb-based resource dispatch, allowed-method policy or
exception handler.

## Model

| member | source | states |
|---|---|---|
| `Routing.API.constructor` | part_1/02_requests_and_routing/api.py:6-7 | a new `API` has an empty route table, which satisfies the distinct-pattern invariant |
| `Routing.Assign` | part_1/02_requests_and_routing/api.py:30 | dict assignment: an existing pattern keeps its position, a new pattern is appended last with its handler, and all other entries keep their place and handler; the new handler under an existing key is stated by `AssignLookup` |
| `Routing.AssignKeepsDistinct` | part_1/02_requests_and_routing/api.py:30 | assignment keeps the table a dict (patterns distinct) and the one entry for the path holds the new handler |
| `Routing.AssignLookup` | part_1/02_requests_and_routing/api.py:30 | after `routes[path] = h`, looking up `path` gives `h` and every other key gives what it gave before |
| `Routing.API.Route` | part_1/02_requests_and_routing/api.py:28-33 | the decorator returns the handler unchanged, stores it under the path, leaves every other key as it was, keeps the patterns distinct, and adds an entry only for a new path |
| `Routing.FindRoute` | part_1/02_requests_and_routing/api.py:35-41 | `(None, None)` exactly when no registered pattern matches the path; otherwise the handler and named fields of the first matching entry in insertion order |
| `Routing.FirstMatchUnique` | part_1/02_requests_and_routing/api.py:36-39 | the first matching entry is unique, so the entry `find_handler` returns is determined |
| `Routing.API.FindHandler` | part_1/02_requests_and_routing/api.py:35-41 | the early-return scan of the table gives exactly `FindRoute`'s answer and changes nothing |
| `Routing.RegisterNewThenFind` | part_1/02_requests_and_routing/api.py:28-39 | a newly registered pattern goes last: a path some earlier pattern matches is routed exactly as before, and any other path is routed to the new handler, with the new pattern's fields, exactly when the new pattern matches it |
| `Routing.ReRegisterReplaces` | part_1/02_requests_and_routing/api.py:28-39 | re-registering an existing pattern routes every path to the same entry with the same fields as before, and only that entry's handler changes |
| `Routing.DefaultResponse` | part_1/02_requests_and_routing/api.py:15-17 | the default response has status 404 and text exactly "Not found.", and the rest of the response is untouched |
| `Routing.HandleRequestAsWritten` | part_1/02_requests_and_routing/api.py:19-26 | as written, `handle_request` always raises TypeError: the pair `find_handler` returns is truthy and is itself called |
| `Routing.UnmatchedPathRaisesAsWritten` | part_1/02_requests_and_routing/api.py:21-25 | for a path no pattern matches, the code as written raises TypeError where the intended dispatch answers 404 |
| `Routing.Decide` | part_1/02_requests_and_routing/api.py:19-26 | intended dispatch: 404 exactly when no pattern matches, otherwise invoke the first matching handler with its named fields |
| `Routing.API.HandleRequest` | part_1/02_requests_and_routing/api.py:19-26 | a fresh response, and the dispatch `Decide` gives; on no match the response is the 404 default, otherwise it is left fresh for the handler |
| `Middlewares.Middleware.constructor` | part_1/02_requests_and_routing/middleware.py:5-6 | construction stores the given app as the inner link |
| `Middlewares.Middleware.Add` | part_1/02_requests_and_routing/middleware.py:8-9 | the inner link becomes the new layer around the previous inner link: the chain grows by exactly that layer, directly inside the object, with the same application at the bottom |
| `Middlewares.Middleware.HandleRequest` | part_1/02_requests_and_routing/middleware.py:11-15 | the answer is what the chain headed by the object's own hooks, around its current inner link, answers: pre-hook, inner link, post-hook |
| `Middlewares.TraceIsStack` | part_1/02_requests_and_routing/middleware.py:11-15 | for any chain, every pre-hook fires once outermost first, the application runs once, then every post-hook fires once innermost first |
| `Middlewares.AddTwiceOrder` | part_1/02_requests_and_routing/middleware.py:8-15 | after `add(A)` then `add(B)`, pre-hooks fire in the order self, B, A and post-hooks in the order A, B, self |
| `Middlewares.NoOpLayer` | part_1/02_requests_and_routing/middleware.py:17-21 | the base class's `pass` hooks keep the layer's name and leave request and response unchanged (`Transparent`), so by `TransparentLayer` such a layer answers what its inner link answers |
| `Middlewares.Handle` | part_1/02_requests_and_routing/middleware.py:11-15 | `handle_request` of a whole chain: pre-hook, the inner link on the hooked request, post-hook; the trace holds one pre- and one post-hook event per layer and one application event, and `TraceIsStack`, `TransparentLayer` and `TransparentChain` state its order and results |
| `Middlewares.TransparentLayer` | part_1/02_requests_and_routing/middleware.py:11-21 | a layer whose hooks leave request and response unchanged, as the base class's do, answers exactly the request and response its inner link answers |
| `Middlewares.TransparentChain` | part_1/02_requests_and_routing/middleware.py:11-21 | a chain whose layers all leave request and response unchanged answers exactly what the application at its bottom answers |
| `Text.Join` | part_1/01_wsgi/wsgi_demo.py:29 | `"\n".join(lines)` starts with the first line; `SplitJoin` shows splitting undoes it and `JoinSeparators` counts its newlines |
| `Wsgi.Call` | part_1/01_wsgi/wsgi_demo.py:22-37 | calling `application` or `Reverseware(app)`: any stack of `Reverseware` over `application` calls `start_response` once with "200 OK" and the text/plain header and returns one chunk; `ReversewareChunks`, `ReversewareTwice` and `ServedApplication` state the chunks |
| `Text.Reversed` | part_1/01_wsgi/wsgi_demo.py:24 | `data[::-1]` has the same length and element `i` is input element `len - 1 - i` |
| `Text.ReversedInvolution` | part_1/01_wsgi/wsgi_demo.py:24 | reversing twice gives back the original chunk |
| `Wsgi.ReverseChunks` | part_1/01_wsgi/wsgi_demo.py:24 | the comprehension returns as many chunks as it is given, each the reverse of the chunk at the same position |
| `Wsgi.ReversewareChunks` | part_1/01_wsgi/wsgi_demo.py:22-24 | `Reverseware` makes exactly the wrapped app's `start_response` calls and returns the same number of chunks in the same order, each of the same length and reversed |
| `Wsgi.ReversewareTwice` | part_1/01_wsgi/wsgi_demo.py:22-24 | wrapping an application in `Reverseware` twice gives back its own reply |
| `Wsgi.Lines` | part_1/01_wsgi/wsgi_demo.py:28 | one `key: value` line per entry, in the order of the entries |
| `Sorting.Sort` | part_1/01_wsgi/wsgi_demo.py:28 | `sorted(environ.items())` is ordered by Python's tuple order and is a permutation of the entries |
| `Sorting.SortedUnique` | part_1/01_wsgi/wsgi_demo.py:28 | two sorted permutations of the same entries are equal, so the result does not depend on the sorting algorithm |
| `Sorting.SortedKeysAscend` | part_1/01_wsgi/wsgi_demo.py:28 | for a dict's items the sorted keys are strictly ascending |
| `Text.SplitJoin` | part_1/01_wsgi/wsgi_demo.py:29 | splitting `"\n".join(lines)` at newlines gives back the lines, for one or more lines none of which contains a newline |
| `Text.JoinSeparators` | part_1/01_wsgi/wsgi_demo.py:29 | `n >= 1` newline-free lines joined contain exactly `n - 1` newlines and end with the last line; no lines give the empty string |
| `Wsgi.ApplicationReply` | part_1/01_wsgi/wsgi_demo.py:27-37 | `application` calls `start_response` once, with "200 OK" and the single header `("Content-type", "text/plain")`, and returns a one-element list |
| `Wsgi.ApplicationLines` | part_1/01_wsgi/wsgi_demo.py:28-29 | for a non-empty newline-free environ the chunk splits into one line per entry, in sorted order, with one fewer newlines than entries and no trailing newline |
| `Wsgi.ApplicationEmptyEnviron` | part_1/01_wsgi/wsgi_demo.py:28-37 | an empty environ gives one empty chunk |
| `Wsgi.ApplicationKeyOrder` | part_1/01_wsgi/wsgi_demo.py:28-29 | for a dict environ the keys are listed in strictly ascending order, and any sorted arrangement of the entries gives exactly the chunk `application` returns |
| `Wsgi.ServedApplication` | part_1/01_wsgi/wsgi_demo.py:40 | the served `Reverseware(application)` keeps status and header and returns the listing reversed, whose reversal is `application`'s own chunk |

## Findings

| source | as written | input that shows it | evidently intended | confidence | as-written member | corrected member |
|---|---|---|---|---|---|---|
| part_1/02_requests_and_routing/api.py:21-23 | `handler` is bound to the whole pair `find_handler` returns; a 2-tuple is always truthy, so the branch that calls it always runs and calls the tuple, and the named fields are never passed | any request, for instance path `/missing` with no matching route: TypeError ("'tuple' object is not callable") instead of the 404 "Not found." response; `/hello/bob` against `/hello/{name}` fails the same way | unpack `handler, params`, call `handler(request, response, **params)` when `handler` is not None, otherwise `default_response` | not executed | `Routing.UnmatchedPathRaisesAsWritten` | `Routing.API.HandleRequest` |

## Left out

- Routing.API.HandleRequest: returns the handler and named fields it would invoke instead of running the handler, because handler bodies are application code outside the model; the response it returns is the one handed to the handler.
- Matching by the `parse` library (api.py:2,37) is a parameter, not modelled: no stand-in for its `{name}` and `{name:d}` fields is given, so the typed conversion of fields is not captured either.
- WebOb's `Request` and `Response` objects are values: the request carries only its path, the response its status, text and a content type standing for the rest; in-place mutation and aliasing of the shared objects are not captured.
- The WSGI `__call__` adapters (api.py:9-13, middleware.py:23-26) are transport glue and are not modelled.
- Server startup (`make_server`, `serve_forever`, wsgi_demo.py:40-41) is network I/O; only the application it serves, `Reverseware(application)`, is modelled.
- The UTF-8 encoding of the body (wsgi_demo.py:37) is left out: bodies are character sequences, so `Reverseware` reverses characters, whereas the source reverses the bytes of each chunk, which differs for characters outside ASCII.
- Environ values are taken as the strings `str()` renders for them; rendering non-string WSGI values is not modelled.
- Hooks and inner links are modelled as never raising: in middleware.py:12-15 an exception from `process_request` or from the inner `handle_request` propagates and skips the remaining post-hooks, so `TraceIsStack` describes runs in which nothing raises.
- A post-hook's changes to the request object are not modelled: a layer's `process_response` yields only a new response.
- Middleware classes are `Layer` values rather than classes instantiated reflectively by `middleware_cls(self.app)`.
- `route(path)` returns a closure that is applied to the handler; the model takes path and handler in one call.
- `part_1/02_requests_and_routing/app.py` (sample registrations, `add_route`, `template`, `add_exception_handler`, the resource class) is not part of this model: it calls methods absent from the modelled `API`.
