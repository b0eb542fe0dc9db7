/** Reading bitable records page by page with a user token (v5_workspace.py), against any server. */
module Pagination {
  import opened Options

  datatype Request = Request(pageSize: int, token: Option<string>)

  /** A page, or the HTTP error the client raises. */
  datatype Reply<T> = Page(items: seq<T>, hasMore: bool, token: Option<string>) | HttpError

  /** The n-th reply of a server may depend on everything it has been sent; as the requests are a function
      of the earlier replies, it is a function of n and of the request. */
  type Server<!T> = (nat, Request) -> Reply<T>

  /** The outcome, with what went over the wire: the requests, and the records of the pages received. */
  datatype Outcome<T> = Outcome(
    available: bool, saved: seq<T>, hasMore: bool, token: Option<string>, requests: seq<Request>, received: seq<T>)

  function Min(a: int, b: int): int {
    if a < b then a else b
  }

  function Max(a: int, b: int): int {
    if a < b then b else a
  }

  function Truthy(token: Option<string>): Option<string> {
    if token == Some("") then None else token
  }

  /** The first records, as many as the limit leaves room for. */
  function Take<T>(items: seq<T>, n: int): seq<T> {
    if n <= 0 then [] else if n < |items| then items[..n] else items
  }

  function NextRequest<T>(o: Outcome<T>, limit: int): Request {
    Request(Min(Max(limit - |o.saved|, 1), 100), Truthy(o.token))
  }

  function AfterPage<T>(o: Outcome<T>, limit: int, page: Reply<T>): Outcome<T>
    requires page.Page?
  {
    Outcome(true, o.saved + Take(page.items, limit - |o.saved|), page.hasMore, page.token,
            o.requests + [NextRequest(o, limit)], o.received + page.items)
  }

  /** The rest of the reading, from what the pages so far have given. */
  function Continue<T>(server: Server<T>, limit: int, maxPages: int, o: Outcome<T>): Outcome<T>
    decreases maxPages - |o.requests|
  {
    if |o.requests| >= maxPages || |o.saved| >= limit then o
    else
      var reply := server(|o.requests|, NextRequest(o, limit));
      if reply.HttpError? then o.(available := false, requests := o.requests + [NextRequest(o, limit)])
      else
        var next := AfterPage(o, limit, reply);
        if !reply.hasMore || Truthy(reply.token) == None then next else Continue(server, limit, maxPages, next)
  }

  function Start<T>(): Outcome<T> {
    Outcome(true, [], false, None, [], [])
  }

  /** The loop over the records of one page. */
  method SavePage<T>(saved: seq<T>, items: seq<T>, limit: int) returns (r: seq<T>)
    requires |saved| < limit
    ensures r == saved + Take(items, limit - |saved|)
  {
    r := saved;
    for i := 0 to |items|
      invariant r == saved + items[..i] && |r| < limit
    {
      r := r + [items[i]];
      if |r| >= limit { return; }
    }
  }

  /** _sync_user_bitable_records, once it has a token. */
  method ReadRecords<T>(server: Server<T>, limit: int, maxPages: int) returns (o: Outcome<T>)
    ensures o == Continue(server, limit, maxPages, Start())
  {
    o := Start();
    while |o.requests| < maxPages && |o.saved| < limit
      invariant Continue(server, limit, maxPages, o) == Continue(server, limit, maxPages, Start())
      decreases maxPages - |o.requests|
    {
      var request := NextRequest(o, limit);
      var reply := server(|o.requests|, request);
      if reply.HttpError? {
        return o.(available := false, requests := o.requests + [request]);
      }
      var saved := SavePage(o.saved, reply.items, limit);
      o := Outcome(true, saved, reply.hasMore, reply.token, o.requests + [request], o.received + reply.items);
      if !reply.hasMore || Truthy(reply.token) == None { return; }
    }
  }

  // ---- any server ----

  /** What holds after every page: the saved records are the first of those received. */
  ghost predicate SavesFirst<T>(o: Outcome<T>, limit: int, maxPages: int) {
    && o.saved == Take(o.received, limit)
    && |o.requests| <= Max(maxPages, 0)
    && forall r <- o.requests :: 1 <= r.pageSize <= 100 && r.pageSize <= limit
  }

  lemma TakeMore<T>(received: seq<T>, items: seq<T>, limit: int)
    requires |Take(received, limit)| < limit
    ensures Take(received, limit) == received
    ensures Take(received + items, limit) == received + Take(items, limit - |received|)
  {
  }

  lemma {:induction false} ContinueSavesFirst<T>(server: Server<T>, limit: int, maxPages: int, o: Outcome<T>)
    requires SavesFirst(o, limit, maxPages)
    ensures SavesFirst(Continue(server, limit, maxPages, o), limit, maxPages)
    decreases maxPages - |o.requests|
  {
    if |o.requests| < maxPages && |o.saved| < limit {
      var reply := server(|o.requests|, NextRequest(o, limit));
      if reply.Page? {
        TakeMore(o.received, reply.items, limit);
        ContinueSavesFirst(server, limit, maxPages, AfterPage(o, limit, reply));
      }
    }
  }

  /** Whatever the server does, also if it over-returns, never finishes or fails midway: at most `maxPages`
      requests, each for 1 to 100 records and within the limit, and the records saved are exactly the first
      `limit` of those received, in order. */
  lemma AnyServer<T>(server: Server<T>, limit: int, maxPages: int)
    ensures SavesFirst(Continue(server, limit, maxPages, Start()), limit, maxPages)
  {
    ContinueSavesFirst(server, limit, maxPages, Start<T>());
  }

  /** No request asks for more than is still missing. */
  lemma {:induction false} RequestsFitTheRest<T>(server: Server<T>, limit: int, maxPages: int, o: Outcome<T>)
    ensures forall i :: |o.requests| <= i < |Continue(server, limit, maxPages, o).requests| ==>
              Continue(server, limit, maxPages, o).requests[i].pageSize <= limit - |o.saved|
    ensures o.requests <= Continue(server, limit, maxPages, o).requests
    decreases maxPages - |o.requests|
  {
    if |o.requests| < maxPages && |o.saved| < limit {
      var reply := server(|o.requests|, NextRequest(o, limit));
      if reply.Page? && reply.hasMore && Truthy(reply.token) != None {
        RequestsFitTheRest(server, limit, maxPages, AfterPage(o, limit, reply));
      }
    }
  }

  // ---- what goes over the wire ----

  function ReplyTo<T>(server: Server<T>, requests: seq<Request>, i: nat): Reply<T>
    requires i < |requests|
  {
    server(i, requests[i])
  }

  /** The records of the first n replies. */
  function Received<T>(server: Server<T>, requests: seq<Request>, n: nat): seq<T>
    requires n <= |requests|
  {
    if n == 0 then []
    else
      var reply := ReplyTo(server, requests, n - 1);
      Received(server, requests, n - 1) + if reply.Page? then reply.items else []
  }

  /** There is a next page to ask for. */
  predicate Goes<T>(reply: Reply<T>) {
    reply.Page? && reply.hasMore && reply.token.Some? && reply.token.value != ""
  }

  /** The i-th request: the first has no token, every other the one of the reply before it, which said that
      there is more; it asks for what is missing, but for a hundred records at the most. */
  ghost predicate AsksRightly<T>(server: Server<T>, limit: int, requests: seq<Request>, i: nat)
    requires i < |requests|
  {
    && requests[i].pageSize == Min(100, limit - |Received(server, requests, i)|)
    && (if i == 0 then requests[i].token == None
        else Goes(ReplyTo(server, requests, i - 1)) &&
             requests[i].token == ReplyTo(server, requests, i - 1).token)
  }

  /** A reading, as far as it has gone. */
  ghost predicate Traced<T>(server: Server<T>, limit: int, o: Outcome<T>) {
    && (forall i: nat | i < |o.requests| :: AsksRightly(server, limit, o.requests, i))
    && o.received == Received(server, o.requests, |o.requests|)
    && (o.available <==> forall i: nat | i < |o.requests| :: ReplyTo(server, o.requests, i).Page?)
    && (o.requests != [] && o.available ==>
          var last := ReplyTo(server, o.requests, |o.requests| - 1);
          o.hasMore == last.hasMore && o.token == last.token)
  }

  lemma {:induction false} ReceivedBefore<T>(server: Server<T>, requests: seq<Request>, next: Request, n: nat)
    requires n <= |requests|
    ensures Received(server, requests + [next], n) == Received(server, requests, n)
  {
    if n > 0 { ReceivedBefore(server, requests, next, n - 1); }
  }

  lemma AsksStay<T>(server: Server<T>, limit: int, requests: seq<Request>, next: Request, i: nat)
    requires i < |requests| && AsksRightly(server, limit, requests, i)
    ensures AsksRightly(server, limit, requests + [next], i)
  {
    ReceivedBefore(server, requests, next, i);
  }

  /** One request more, and its reply. */
  lemma OneRequestMore<T>(server: Server<T>, limit: int, o: Outcome<T>)
    requires Traced(server, limit, o) && o.available && |o.saved| < limit && o.saved == o.received
    requires o.requests == [] ==> o.token == None
    requires o.requests != [] ==> Goes(ReplyTo(server, o.requests, |o.requests| - 1))
    ensures var request := NextRequest(o, limit);
            var reply := server(|o.requests|, request);
            if reply.Page? then Traced(server, limit, AfterPage(o, limit, reply))
            else Traced(server, limit, o.(available := false, requests := o.requests + [request]))
  {
    var request, n := NextRequest(o, limit), |o.requests|;
    var requests := o.requests + [request];
    forall i: nat | i < n ensures AsksRightly(server, limit, requests, i) {
      AsksStay(server, limit, o.requests, request, i);
    }
    ReceivedBefore(server, o.requests, request, n);
    assert forall i: nat | i < n :: ReplyTo(server, requests, i) == ReplyTo(server, o.requests, i);
    assert AsksRightly(server, limit, requests, n);
  }

  lemma {:induction false} ContinueIsTraced<T>(server: Server<T>, limit: int, maxPages: int, o: Outcome<T>)
    requires Traced(server, limit, o) && o.available && (|o.saved| < limit ==> o.saved == o.received)
    requires o.requests == [] ==> o.token == None
    requires o.requests != [] ==> Goes(ReplyTo(server, o.requests, |o.requests| - 1))
    ensures var end := Continue(server, limit, maxPages, o);
            && Traced(server, limit, end)
            && (end.requests == [] || Goes(ReplyTo(server, end.requests, |end.requests| - 1)) ==>
                  |end.requests| >= maxPages || |end.saved| >= limit)
    decreases maxPages - |o.requests|
  {
    hide AsksRightly;
    if |o.requests| < maxPages && |o.saved| < limit {
      OneRequestMore(server, limit, o);
      var reply := server(|o.requests|, NextRequest(o, limit));
      if reply.Page? {
        TakeMore(o.received, reply.items, limit);
        if Goes(reply) { ContinueIsTraced(server, limit, maxPages, AfterPage(o, limit, reply)); }
      }
    }
  }

  /** Against any server: every request asks rightly, the records received are those of the replies in order,
      the reading is available exactly when no reply was an error, what it says of more records is what the
      last page said, and it stops only when the pages or the room run out or the last reply ends it. */
  lemma ReadingIsTraced<T>(server: Server<T>, limit: int, maxPages: int)
    ensures var o := Continue(server, limit, maxPages, Start());
            && Traced(server, limit, o)
            && (o.requests == [] || Goes(ReplyTo(server, o.requests, |o.requests| - 1)) ==>
                  |o.requests| >= maxPages || |o.saved| >= limit)
  {
    ContinueIsTraced(server, limit, maxPages, Start<T>());
  }

  // ---- a server that pages through one list ----

  function Position(at: string -> nat, token: Option<string>): nat {
    if token.Some? then at(token.value) else 0
  }

  /** Every request is answered with some of the records at its token, no more than asked for, and with
      the token of what follows them. */
  ghost predicate Pages<T(!new)>(server: Server<T>, all: seq<T>, at: string -> nat) {
    forall n: nat, r: Request ::
      r.pageSize >= 1 && r.token != Some("") && Position(at, r.token) <= |all| ==>
        var start := Position(at, r.token);
        var reply := server(n, r);
        && reply.Page?
        && |reply.items| <= r.pageSize && reply.items <= all[start..]
        && (reply.hasMore <==> start + |reply.items| < |all|)
        && (reply.hasMore ==>
              reply.token.Some? && reply.token.value != "" && at(reply.token.value) == start + |reply.items|)
  }

  /** What such a server has given so far is the beginning of the list, and the token is where it ends. */
  ghost predicate AtToken<T(!new)>(o: Outcome<T>, all: seq<T>, at: string -> nat, limit: int) {
    o.available && o.saved <= all && |o.saved| <= Max(limit, 0) && Position(at, Truthy(o.token)) == |o.saved|
  }

  /** One page more. */
  lemma PageKeepsAtToken<T(!new)>(server: Server<T>, all: seq<T>, at: string -> nat, limit: int, o: Outcome<T>)
    requires Pages(server, all, at) && AtToken(o, all, at, limit) && |o.saved| < limit
    ensures var reply := server(|o.requests|, NextRequest(o, limit));
            && reply.Page?
            && AfterPage(o, limit, reply).saved == o.saved + reply.items <= all
            && (reply.hasMore ==> AtToken(AfterPage(o, limit, reply), all, at, limit) && Truthy(reply.token) != None)
            && (!reply.hasMore ==> AfterPage(o, limit, reply).saved == all)
  {
    var request := NextRequest(o, limit);
    var reply := server(|o.requests|, request);
    assert reply.items <= all[|o.saved|..];
    assert Take(reply.items, limit - |o.saved|) == reply.items;
    assert o.saved + all[|o.saved|..] == all;
    assert o.saved + reply.items == all[..|o.saved| + |reply.items|];
  }

  lemma {:induction false} ContinueReads<T(!new)>(
    server: Server<T>, all: seq<T>, at: string -> nat, limit: int, maxPages: int, o: Outcome<T>)
    requires Pages(server, all, at) && AtToken(o, all, at, limit)
    ensures var end := Continue(server, limit, maxPages, o);
            end.available && end.saved <= all && (|end.requests| < maxPages ==> end.saved == Take(all, limit))
    decreases maxPages - |o.requests|
  {
    if |o.requests| < maxPages && |o.saved| < limit {
      PageKeepsAtToken(server, all, at, limit, o);
      var reply := server(|o.requests|, NextRequest(o, limit));
      if reply.hasMore {
        ContinueReads(server, all, at, limit, maxPages, AfterPage(o, limit, reply));
      }
    }
  }

  /** Against any such server, also one whose pages are shorter than asked, the loop reads the beginning of
      the list, and it is "take" unless the pages run out: the first `limit` records. */
  lemma ReadingTakes<T(!new)>(server: Server<T>, all: seq<T>, at: string -> nat, limit: int, maxPages: int)
    requires Pages(server, all, at)
    ensures var o := Continue(server, limit, maxPages, Start());
            o.available && o.saved <= all && (|o.requests| < maxPages ==> o.saved == Take(all, limit))
  {
    ContinueReads(server, all, at, limit, maxPages, Start<T>());
  }

  /** No page has fewer than `least` records, unless it was asked for fewer or the list ends. */
  ghost predicate PagesOf<T(!new)>(server: Server<T>, all: seq<T>, at: string -> nat, least: nat) {
    forall n: nat, r: Request ::
      r.pageSize >= 1 && r.token != Some("") && Position(at, r.token) <= |all| ==>
        server(n, r).Page? && |server(n, r).items| >= Min(least, Min(r.pageSize, |all| - Position(at, r.token)))
  }

  lemma {:induction false} ContinueFills<T(!new)>(
    server: Server<T>, all: seq<T>, at: string -> nat, least: nat, limit: int, maxPages: int, o: Outcome<T>)
    requires Pages(server, all, at) && PagesOf(server, all, at, least) && least <= 100 && AtToken(o, all, at, limit)
    ensures |Continue(server, limit, maxPages, o).saved| >=
            Min(Min(limit, |all|), |o.saved| + least * Max(maxPages - |o.requests|, 0))
    ensures |Continue(server, limit, maxPages, o).saved| <= |o.saved| + 100 * Max(maxPages - |o.requests|, 0)
    decreases maxPages - |o.requests|
  {
    if |o.requests| < maxPages && |o.saved| < limit {
      PageKeepsAtToken(server, all, at, limit, o);
      var reply := server(|o.requests|, NextRequest(o, limit));
      var rest := maxPages - |o.requests| - 1;
      assert least * (rest + 1) == least * rest + least;
      assert |reply.items| >= Min(least, Min(limit - |o.saved|, |all| - |o.saved|));
      if reply.hasMore {
        ContinueFills(server, all, at, least, limit, maxPages, AfterPage(o, limit, reply));
      }
    }
  }

  /** When the pages cannot run out: with `least` records to a page, one included, `least * maxPages` of
      them are enough for "take". */
  lemma EnoughPagesTake<T(!new)>(
    server: Server<T>, all: seq<T>, at: string -> nat, least: nat, limit: int, maxPages: int)
    requires Pages(server, all, at) && PagesOf(server, all, at, least) && least <= 100
    requires least * Max(maxPages, 0) >= Min(limit, |all|)
    ensures Continue(server, limit, maxPages, Start()).saved == Take(all, limit)
  {
    ContinueReads(server, all, at, limit, maxPages, Start<T>());
    ContinueFills(server, all, at, least, limit, maxPages, Start<T>());
    AnyServer(server, limit, maxPages);
  }

  /** With full pages it is "take" of the limit, or of what `maxPages` pages hold, whichever is less. */
  lemma FullPagesTake<T(!new)>(server: Server<T>, all: seq<T>, at: string -> nat, limit: int, maxPages: int)
    requires Pages(server, all, at) && PagesOf(server, all, at, 100)
    ensures Continue(server, limit, maxPages, Start()).saved == Take(all, Min(limit, 100 * Max(maxPages, 0)))
  {
    ContinueReads(server, all, at, limit, maxPages, Start<T>());
    ContinueFills(server, all, at, 100, limit, maxPages, Start<T>());
    AnyServer(server, limit, maxPages);
  }
}
