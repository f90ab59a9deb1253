/**
  The WSGI demo: an application that lists its environ as sorted
  `key: value` lines, and `Reverseware`, a middleware that reverses every
  chunk the application it wraps returns.

  A WSGI application is called with the environ and a `start_response`
  callback; here a call yields a `Reply` holding the calls the application
  made to `start_response` and the chunks it returned.
*/
module Wsgi {
  import opened Text
  import opened Sorting

  /** `environ.items()` in insertion order, each value as `str()` renders it. */
  type Environ = seq<Item>

  type Header = (string, string)

  /** One call `start_response(status, headers)`. */
  datatype StartResponse = StartResponse(status: string, headers: seq<Header>)

  /** What one call of an application does: its `start_response` calls and its body chunks. */
  datatype Reply = Reply(started: seq<StartResponse>, body: seq<string>)

  /** The applications of the demo: `application`, `Reverseware(app)`, or any other callable. */
  datatype App = Application | Reverseware(wrapped: App) | Callable(run: Environ -> Reply)

  /** `application` itself, or `Reverseware` wrapped around it any number of times. */
  predicate OverApplication(app: App)
  {
    match app
    case Application => true
    case Reverseware(wrapped) => OverApplication(wrapped)
    case Callable(_) => false
  }

  /**
    Calling an application with an environ. Any stack of `Reverseware` over
    `application` answers "200 OK" with the text/plain header, once, and
    returns a single chunk.
  */
  function Call(app: App, environ: Environ): (r: Reply)
    ensures OverApplication(app) ==> r.started == [StartResponse(Status, Headers)] && |r.body| == 1
  {
    match app
    case Application => ApplicationReply(environ)
    case Reverseware(wrapped) =>
      var inner := Call(wrapped, environ);
      Reply(inner.started, ReverseChunks(inner.body))
    case Callable(run) => run(environ)
  }

  /** `[data[::-1] for data in chunks]`. */
  function ReverseChunks(chunks: seq<string>): (r: seq<string>)
    ensures |r| == |chunks|
    ensures forall i :: 0 <= i < |chunks| ==> r[i] == Reversed(chunks[i])
  {
    if chunks == [] then [] else [Reversed(chunks[0])] + ReverseChunks(chunks[1..])
  }

  /**
    `Reverseware` calls the wrapped application with the same environ and
    `start_response`, and returns as many chunks, in the same order, each
    of the same length with its characters in reverse order.
  */
  lemma ReversewareChunks(wrapped: App, environ: Environ)
    ensures var inner := Call(wrapped, environ);
            var outer := Call(Reverseware(wrapped), environ);
            && outer.started == inner.started
            && |outer.body| == |inner.body|
            && forall i :: 0 <= i < |inner.body| ==>
                 |outer.body[i]| == |inner.body[i]| &&
                 forall k :: 0 <= k < |inner.body[i]| ==> outer.body[i][k] == inner.body[i][|inner.body[i]| - 1 - k]
  {
  }

  /** Wrapping an application in `Reverseware` twice gives back what it returns. */
  lemma ReversewareTwice(wrapped: App, environ: Environ)
    ensures Call(Reverseware(Reverseware(wrapped)), environ) == Call(wrapped, environ)
  {
    var body := Call(wrapped, environ).body;
    var twice := ReverseChunks(ReverseChunks(body));
    forall i | 0 <= i < |body| ensures twice[i] == body[i] {
      ReversedInvolution(body[i]);
    }
  }

  /** One line of the body: `f"{key}: {value}"`. */
  function Line(item: Item): string
  {
    item.0 + ": " + item.1
  }

  /** The lines of the body, one per entry, in the order given. */
  function Lines(items: seq<Item>): (ls: seq<string>)
    ensures |ls| == |items|
    ensures forall i :: 0 <= i < |items| ==> ls[i] == Line(items[i])
  {
    if items == [] then [] else [Line(items[0])] + Lines(items[1..])
  }

  const Status: string := "200 OK"
  const Headers: seq<Header> := [("Content-type", "text/plain")]

  /**
    `application`: one call of `start_response` with "200 OK" and the
    text/plain header, and a single chunk listing the environ.
  */
  function ApplicationReply(environ: Environ): (r: Reply)
    ensures r.started == [StartResponse("200 OK", [("Content-type", "text/plain")])]
    ensures |r.body| == 1
  {
    Reply([StartResponse(Status, Headers)], [Join(Lines(Sort(environ)))])
  }

  /** Neither a key nor a value contains a newline. */
  ghost predicate NewlineFree(environ: Environ)
  {
    forall i :: 0 <= i < |environ| ==> '\n' !in environ[i].0 && '\n' !in environ[i].1
  }

  /**
    For a non-empty environ without newlines in it, the single chunk of
    `application` splits at its newlines into exactly one `key: value` line
    per entry, the entries in ascending order; there are one fewer newlines
    than entries, and the chunk ends with the last line.
  */
  lemma {:induction false} ApplicationLines(environ: Environ)
    requires |environ| >= 1
    requires NewlineFree(environ)
    ensures var body := Call(Application, environ).body[0];
            var sorted := Sort(environ);
            && Split(body) == Lines(sorted)
            && |Split(body)| == |environ|
            && multiset(sorted) == multiset(environ)
            && Sorted(sorted)
            && multiset(body)['\n'] == |environ| - 1
            && body[|body| - 1] != '\n'
  {
    var sorted := Sort(environ);
    var lines := Lines(sorted);
    forall i | 0 <= i < |sorted| ensures '\n' !in lines[i] {
      assert sorted[i] in multiset(environ);
      var k :| 0 <= k < |environ| && environ[k] == sorted[i];
      assert lines[i] == sorted[i].0 + ": " + sorted[i].1;
    }
    assert |sorted| == |multiset(sorted)| == |environ|;
    SplitJoin(lines);
    JoinSeparators(lines);
    var body := Join(lines);
    var last := lines[|lines| - 1];
    assert |last| >= 2 && last[|last| - 1] != '\n';
    assert body[|body| - 1] == last[|last| - 1];
  }

  /** An empty environ gives one empty chunk. */
  lemma ApplicationEmptyEnviron()
    ensures Call(Application, []).body == [""]
  {
  }

  /**
    For a dict environ the lines come in strictly ascending key order, and
    sorting is determined by that order: any sorted arrangement of the
    entries is the one `application` lists.
  */
  lemma ApplicationKeyOrder(environ: Environ, arrangement: seq<Item>)
    requires KeysDistinct(environ)
    requires Sorted(arrangement) && multiset(arrangement) == multiset(environ)
    ensures var sorted := Sort(environ);
            && (forall i, j :: 0 <= i < j < |sorted| ==> StrLe(sorted[i].0, sorted[j].0) && sorted[i].0 != sorted[j].0)
            && Call(Application, environ).body == [Join(Lines(arrangement))]
  {
    SortedKeysAscend(environ);
    SortedUnique(Sort(environ), arrangement);
  }

  /**
    The served application `Reverseware(application)`: the same status and
    headers, and one chunk, the listing reversed character by character.
  */
  lemma ServedApplication(environ: Environ)
    ensures var r := Call(Reverseware(Application), environ);
            && r.started == [StartResponse("200 OK", [("Content-type", "text/plain")])]
            && r.body == [Reversed(Join(Lines(Sort(environ))))]
            && ReverseChunks(r.body) == Call(Application, environ).body
  {
    ReversewareTwice(Application, environ);
  }
}
