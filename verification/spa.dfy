/** SPA mode for static files (http_file_server_spa_mode.go): the wrapped
    handler writes through a response writer that remembers the last status
    and swallows a 404 together with everything written after it; when the
    first pass ends in 404 the handler is run again for "/". The wrapped
    handler is modelled by the writer calls it makes for a request path. */
module SpaMode {

  /** The calls a handler makes on its response writer; a body write is
      represented by its length. */
  datatype Call = WriteHeader(status: int) | Write(length: nat)

  /** `notFoundRedirectRespWr.WriteHeader` and `.Write` applied to a call
      sequence, starting from `status`: the final status and the calls that
      reach the real writer. */
  function Run(status: int, calls: seq<Call>): (r: (int, seq<Call>))
    ensures |r.1| <= |calls|
    ensures WriteHeader(404) !in r.1
    decreases |calls|
  {
    if |calls| == 0 then (status, [])
    else
      match calls[0]
      case WriteHeader(s) =>
        var rest := Run(s, calls[1..]);
        (rest.0, (if s != 404 then [calls[0]] else []) + rest.1)
      case Write(n) =>
        var rest := Run(status, calls[1..]);
        (rest.0, (if status != 404 then [calls[0]] else []) + rest.1)
  }

  /** What `Write` returns to the handler: the swallowed write claims the
      whole length; a forwarded one returns whatever the real writer
      returns, passed in as `written`. */
  function WriteResult(status: int, length: nat, written: nat): (n: nat)
    ensures status == 404 ==> n == length
    ensures status != 404 ==> n == written
  {
    if status != 404 then written else length
  }

  /** The status in force before call `i`: the last `WriteHeader` before it,
      or the initial status. */
  function StatusBefore(status: int, calls: seq<Call>, i: nat): int
    requires i <= |calls|
  {
    if i == 0 then status
    else if calls[i - 1].WriteHeader? then calls[i - 1].status
    else StatusBefore(status, calls, i - 1)
  }

  /** Whether call `i` reaches the real writer. */
  predicate Forwarded(status: int, calls: seq<Call>, i: nat)
    requires i < |calls|
  {
    match calls[i]
    case WriteHeader(s) => s != 404
    case Write(_) => StatusBefore(status, calls, i) != 404
  }

  /** The forwarded calls stated call by call. */
  function Filter(status: int, calls: seq<Call>, n: nat): seq<Call>
    requires n <= |calls|
  {
    if n == 0 then []
    else Filter(status, calls, n - 1) + (if Forwarded(status, calls, n - 1) then [calls[n - 1]] else [])
  }

  lemma {:induction false} StatusBeforeShift(status: int, calls: seq<Call>, i: nat)
    requires 0 < |calls| && i < |calls|
    ensures StatusBefore(status, calls, i + 1) ==
      StatusBefore(if calls[0].WriteHeader? then calls[0].status else status, calls[1..], i)
    decreases i
  {
    if i > 0 {
      StatusBeforeShift(status, calls, i - 1);
    }
  }

  lemma {:induction false} FilterShift(status: int, calls: seq<Call>, n: nat)
    requires 0 < |calls| && n < |calls|
    ensures Filter(status, calls, n + 1) ==
      (if Forwarded(status, calls, 0) then [calls[0]] else []) +
      Filter(if calls[0].WriteHeader? then calls[0].status else status, calls[1..], n)
    decreases n
  {
    var s1 := if calls[0].WriteHeader? then calls[0].status else status;
    if n > 0 {
      FilterShift(status, calls, n - 1);
      StatusBeforeShift(status, calls, n);
      assert Forwarded(status, calls, n) == Forwarded(s1, calls[1..], n - 1);
    }
  }

  /** The writer's filtering, stated without the recursion: a call reaches
      the real writer iff it sets a status other than 404, or writes while
      the status in force is not 404; the final status is the last one
      set. */
  lemma {:induction false} RunIsFilter(status: int, calls: seq<Call>)
    ensures Run(status, calls).1 == Filter(status, calls, |calls|)
    ensures Run(status, calls).0 == StatusBefore(status, calls, |calls|)
    decreases |calls|
  {
    if |calls| > 0 {
      var s1 := if calls[0].WriteHeader? then calls[0].status else status;
      RunIsFilter(s1, calls[1..]);
      FilterShift(status, calls, |calls| - 1);
      StatusBeforeShift(status, calls, |calls| - 1);
    }
  }

  /** The outcome of one request: the calls that reached the real writer,
      whether the handler ran a second time for "/", and whether
      `content-type: text/html` was added to the response headers. */
  datatype Outcome = Outcome(forwarded: seq<Call>, retried: bool, htmlHeaderAdded: bool)

  /** `createSpaModeRedirect(h)` serving `path`, where `serve(p)` is what
      `h` does for path `p`. The second pass starts with the 404 left by
      the first. */
  function Serve(serve: string -> seq<Call>, path: string): (o: Outcome)
    ensures o.retried <==> Run(0, serve(path)).0 == 404
    ensures o.htmlHeaderAdded == o.retried
    ensures WriteHeader(404) !in o.forwarded
    ensures !o.retried ==> o.forwarded == Run(0, serve(path)).1
    ensures o.retried ==> o.forwarded == Run(0, serve(path)).1 + Run(404, serve("/")).1
  {
    var first := Run(0, serve(path));
    if first.0 == 404 then
      var second := Run(first.0, serve("/"));
      Outcome(first.1 + second.1, true, true)
    else
      Outcome(first.1, false, false)
  }

  /** A file server that answers 404 and writes an error body sends
      nothing through; if it then serves "/" with an explicit 200 and a
      body, exactly that reaches the client. */
  lemma NotFoundFallsBack(serve: string -> seq<Call>, path: string, errLen: nat, pageLen: nat)
    requires path != "/"
    requires serve(path) == [WriteHeader(404), Write(errLen)]
    requires serve("/") == [WriteHeader(200), Write(pageLen)]
    ensures Serve(serve, path) == Outcome([WriteHeader(200), Write(pageLen)], true, true)
  {
    var c := serve(path);
    assert c[1..] == [Write(errLen)] && c[1..][1..] == [];
    assert Run(404, c[1..][1..]) == (404, []);
    assert Run(404, c[1..]) == (404, []);
    assert Run(0, c) == (404, []);
    var d := serve("/");
    assert d[1..] == [Write(pageLen)] && d[1..][1..] == [];
    assert Run(200, d[1..][1..]) == (200, []);
    assert |d| == 2 && d[1..][0] == Write(pageLen) && d[0] == WriteHeader(200);
    assert Run(200, d[1..]) == (200, [Write(pageLen)] + []);
    assert Run(404, d).0 == 200;
    assert Run(404, d).1 == [WriteHeader(200)] + [Write(pageLen)];
  }
}
