/** Forwarding a call between nodes, with the loop check that ends it. */
module Forward {
  import opened Wrappers
  import opened Sets

  // ----- the list of visited nodes on the wire -----

  predicate CommaFree(s: string) { ',' !in s }

  function Join(xs: seq<string>): string
    decreases |xs|
  {
    if xs == [] then ""
    else if |xs| == 1 then xs[0]
    else Join(xs[..|xs| - 1]) + "," + xs[|xs| - 1]
  }

  method JoinStrings(list: seq<string>) returns (out: string)
    ensures out == Join(list)
  {
    out := "";
    for i := 0 to |list|
      invariant out == Join(list[..i])
    {
      if i > 0 { out := out + ","; }
      out := out + list[i];
      assert list[..i + 1][..i] == list[..i];
    }
    assert list[..|list|] == list;
  }

  method ContainsString(list: seq<string>, v: string) returns (found: bool)
    ensures found <==> v in list
  {
    for i := 0 to |list|
      invariant v !in list[..i]
    {
      if list[i] == v { return true; }
    }
    found := false;
  }

  /** The pieces between commas; one empty piece for the empty string. */
  function SplitComma(s: string): (r: seq<string>)
    ensures |r| > 0 && forall p :: p in r ==> CommaFree(p)
  {
    if s == "" then [""]
    else
      var r := SplitComma(s[1..]);
      assert CommaFree(r[0]) && forall p :: p in r[1..] ==> CommaFree(p);
      if s[0] == ',' then [""] + r else [[s[0]] + r[0]] + r[1..]
  }

  function SplitVisited(joined: string): seq<string> {
    if joined == "" then [] else SplitComma(joined)
  }

  lemma {:induction false} SplitAtComma(s: string, t: string)
    ensures SplitComma(s + "," + t) == SplitComma(s) + SplitComma(t)
  {
    if s == "" {
      assert s + "," + t == "," + t;
      assert ("," + t)[1..] == t;
    } else {
      assert (s + "," + t)[1..] == s[1..] + "," + t;
      SplitAtComma(s[1..], t);
    }
  }

  lemma {:induction false} SplitWhole(s: string)
    requires CommaFree(s)
    ensures SplitComma(s) == [s]
  {
    if s != "" {
      assert s[0] in s && forall c :: c in s[1..] ==> c in s;
      SplitWhole(s[1..]);
      assert [s[0]] + s[1..] == s;
    }
  }

  ghost function Pieces(xs: seq<string>): seq<string> {
    if xs == [] then [] else Pieces(xs[..|xs| - 1]) + SplitComma(xs[|xs| - 1])
  }

  lemma {:induction false} SplitJoin(xs: seq<string>)
    requires xs != []
    ensures SplitComma(Join(xs)) == Pieces(xs)
    decreases |xs|
  {
    var front := xs[..|xs| - 1];
    if front == [] {
      assert Pieces(front) == [];
    } else {
      SplitJoin(front);
      SplitAtComma(Join(front), xs[|xs| - 1]);
    }
  }

  lemma {:induction false} PieceOf(xs: seq<string>, k: nat)
    requires k < |xs| && CommaFree(xs[k])
    ensures xs[k] in Pieces(xs)
    decreases |xs|
  {
    var n := |xs| - 1;
    if k == n { SplitWhole(xs[n]); } else { PieceOf(xs[..n], k); }
  }

  lemma {:induction false} PiecesWhole(xs: seq<string>)
    requires forall x :: x in xs ==> CommaFree(x)
    ensures Pieces(xs) == xs
    decreases |xs|
  {
    if xs != [] {
      var n := |xs| - 1;
      PiecesWhole(xs[..n]);
      SplitWhole(xs[n]);
      assert xs[..n] + [xs[n]] == xs;
    }
  }

  lemma {:induction false} JoinEmpty(xs: seq<string>)
    ensures Join(xs) == "" <==> xs == [] || xs == [""]
  {
  }

  /** The header gives the list back exactly when no name has a comma, except that a single
      empty name is lost. */
  lemma VisitedRoundTripIff(xs: seq<string>)
    ensures SplitVisited(Join(xs)) == xs <==> xs != [""] && forall x :: x in xs ==> CommaFree(x)
  {
    JoinEmpty(xs);
    if xs != [] {
      SplitJoin(xs);
      if forall x :: x in xs ==> CommaFree(x) { PiecesWhole(xs); }
    }
  }

  // ----- one node -----

  const VISITED := "forward.visited"
  const TWO_31 := 0x8000_0000

  /** Conversion to 32 bits, two's complement. */
  function Int32(x: int): (r: int)
    ensures -TWO_31 <= r < TWO_31 && (r - x) % (2 * TWO_31) == 0
  {
    (x + TWO_31) % (2 * TWO_31) - TWO_31
  }

  datatype Request = Request(rpc: string, target: string, headers: map<string, string>,
                             visited: seq<string>, ttl: int)

  datatype Forwarder = Forwarder(self: string, nodes: Option<map<string, string>>, maxHops: int)

  /** One name for the node as server and as client, as both are built from it. */
  datatype Server = Server(self: string, handlers: set<string>, router: Option<Forwarder>) {
    predicate Wired() { router.Some? ==> router.value.self == self }
  }

  datatype Refusal = Loop | NoHandler | NoRouter | TtlExhausted | EmptyTarget | NoView | UnknownTarget

  /** A request handled here, refused, or sent on to an address. */
  datatype Answer = Handled | Refused(why: Refusal) | Sent(address: string, req: Request)

  function NewForwarder(self: string, nodes: Option<map<string, string>>, maxHops: int): (f: Forwarder)
    ensures f.maxHops > 0 && (maxHops > 0 ==> f.maxHops == maxHops) && (maxHops <= 0 ==> f.maxHops == 3)
  {
    Forwarder(self, nodes, if maxHops <= 0 then 3 else maxHops)
  }

  function HeaderVisited(headers: map<string, string>): string {
    if VISITED in headers then headers[VISITED] else ""
  }

  function Send(f: Forwarder, target: string, rpc: string, headers: map<string, string>, ttl: int): Answer {
    if target == "" then Refused(EmptyTarget)
    else if f.nodes.None? then Refused(NoView)
    else if target !in f.nodes.value || f.nodes.value[target] == "" then Refused(UnknownTarget)
    else Sent(f.nodes.value[target],
              Request(rpc, target, headers, SplitVisited(HeaderVisited(headers)) + [f.self],
                      if ttl <= 0 then Int32(f.maxHops) else ttl))
  }

  function Serve(s: Server, req: Request): Answer {
    if s.self in req.visited then Refused(Loop)
    else if req.rpc in s.handlers then Handled
    else if req.target == "" || req.target == s.self then Refused(NoHandler)
    else if s.router.None? then Refused(NoRouter)
    else if req.ttl <= 0 then Refused(TtlExhausted)
    else Send(s.router.value, req.target, req.rpc,
              req.headers[VISITED := Join(req.visited + [s.self])], req.ttl - 1)
  }

  /** Handled, refused, or sent on; the order of the tests shows in the exact conditions. */
  method ServerForward(s: Server, req: Request) returns (answer: Answer)
    ensures answer == Serve(s, req)
    ensures answer == Refused(Loop) <==> s.self in req.visited
    ensures answer == Handled <==> s.self !in req.visited && req.rpc in s.handlers
    ensures answer == Refused(NoHandler) <==> Unserved(s, req) && (req.target == "" || req.target == s.self)
    ensures answer == Refused(NoRouter) <==> Foreign(s, req) && s.router == None
    ensures answer == Refused(TtlExhausted) <==> Foreign(s, req) && s.router.Some? && req.ttl <= 0
    ensures answer == Refused(NoView) <==> Routed(s, req) && s.router.value.nodes == None
    ensures answer == Refused(UnknownTarget) <==>
              Routed(s, req) && s.router.value.nodes.Some? && !Known(s.router.value.nodes.value, req.target)
    ensures answer.Sent? <==>
              Routed(s, req) && s.router.value.nodes.Some? && Known(s.router.value.nodes.value, req.target)
    ensures answer.Sent? ==>
              && answer.address == s.router.value.nodes.value[req.target]
              && answer.req.rpc == req.rpc && answer.req.target == req.target
              && answer.req.ttl == (if req.ttl > 1 then req.ttl - 1 else Int32(s.router.value.maxHops))
              && answer.req.headers == req.headers[VISITED := Join(req.visited + [s.self])]
              && answer.req.visited == SplitVisited(Join(req.visited + [s.self])) + [s.router.value.self]
  {
    var looped := ContainsString(req.visited, s.self);
    if looped { return Refused(Loop); }
    if req.rpc in s.handlers { return Handled; }
    if req.target == "" || req.target == s.self { return Refused(NoHandler); }
    if s.router.None? { return Refused(NoRouter); }
    if req.ttl <= 0 { return Refused(TtlExhausted); }
    var joined := JoinStrings(req.visited + [s.self]);
    answer := Send(s.router.value, req.target, req.rpc, req.headers[VISITED := joined], req.ttl - 1);
  }

  predicate Unserved(s: Server, req: Request) { s.self !in req.visited && req.rpc !in s.handlers }

  predicate Foreign(s: Server, req: Request) { Unserved(s, req) && req.target != "" && req.target != s.self }

  predicate Routed(s: Server, req: Request) { Foreign(s, req) && s.router.Some? && req.ttl > 0 }

  predicate Known(nodes: map<string, string>, target: string) { target in nodes && nodes[target] != "" }

  /** What a relay does to the list: the node was not on it, it comes last on the new one,
      and every name without a comma stays. */
  lemma RelayKeepsVisited(s: Server, req: Request)
    requires s.Wired() && Serve(s, req).Sent?
    ensures var v := Serve(s, req).req.visited;
            && s.self !in req.visited
            && v != [] && v[|v| - 1] == s.self
            && (forall x :: x in req.visited && CommaFree(x) ==> x in v)
            && (forall k :: 0 <= k < |v| - 1 ==> CommaFree(v[k]))
  {
    var xs := req.visited + [s.self];
    var joined := Join(xs);
    SplitJoin(xs);
    JoinEmpty(xs);
    forall x | x in req.visited && CommaFree(x) ensures x in Serve(s, req).req.visited {
      var k :| 0 <= k < |req.visited| && req.visited[k] == x;
      assert xs[k] == x;
      PieceOf(xs, k);
    }
  }

  /** A relayed request arrives with a ttl of its own exactly when one was left to pass on or
      the relaying node's limit stands in for it. */
  lemma TtlLeftIff(s: Server, req: Request)
    requires Serve(s, req).Sent?
    ensures req.ttl > 0
    ensures Serve(s, req).req.ttl > 0 <==> req.ttl > 1 || Int32(s.router.value.maxHops) > 0
  {
  }

  // ----- a chain of relays -----

  datatype Hop = Hop(server: Server, req: Request)

  /** Each hop but the last relays the request the next one receives. Which node answers at
      an address is left open, and may change on the way. */
  ghost predicate IsChain(hops: seq<Hop>) {
    && (forall i :: 0 <= i < |hops| ==> hops[i].server.Wired())
    && forall i :: 0 <= i < |hops| - 1 ==> Relays(hops, i)
  }

  ghost predicate Relays(hops: seq<Hop>, i: nat)
    requires i < |hops| - 1
  {
    var answer := Serve(hops[i].server, hops[i].req);
    answer.Sent? && answer.req == hops[i + 1].req
  }

  lemma ConsChain(hops: seq<Hop>)
    requires |hops| > 1
    ensures IsChain(hops) <==> hops[0].server.Wired() && Relays(hops, 0) && IsChain(hops[1..])
  {
    var tail := hops[1..];
    if IsChain(hops) {
      forall i | 0 <= i < |tail| - 1 ensures Relays(tail, i) { assert Relays(hops, i + 1); }
    }
    if Relays(hops, 0) && IsChain(tail) && hops[0].server.Wired() {
      forall i | 0 <= i < |hops| - 1 ensures Relays(hops, i) { if i > 0 { assert Relays(tail, i - 1); } }
      forall i | 0 <= i < |hops| ensures hops[i].server.Wired() { if i > 0 { assert tail[i - 1] == hops[i]; } }
    }
  }

  ghost predicate Over(hops: seq<Hop>, names: set<string>) {
    forall i :: 0 <= i < |hops| ==> hops[i].server.self in names
  }

  ghost function Free(names: set<string>): set<string> { set x | x in names && CommaFree(x) }

  ghost predicate OneComma(names: set<string>) {
    forall x, y :: x in names && y in names && !CommaFree(x) && !CommaFree(y) ==> x == y
  }

  ghost function Unvisited(names: set<string>, v: seq<string>): set<string> {
    set x | x in Free(names) && x !in v
  }

  /** Twice the unvisited names without a comma, and one when the sender has no comma. */
  ghost function Fuel(names: set<string>, v: seq<string>): nat {
    2 * |Unvisited(names, v)| + if v != [] && !CommaFree(v[|v| - 1]) && v[|v| - 1] in names then 0 else 1
  }

  lemma RelayCosts(names: set<string>, s: Server, req: Request)
    requires s.Wired() && Serve(s, req).Sent? && s.self in names && OneComma(names)
    ensures var v := Serve(s, req).req.visited;
            && Fuel(names, v) < Fuel(names, req.visited)
            && Unvisited(names, v) <= Unvisited(names, req.visited)
            && (CommaFree(s.self) ==> |Unvisited(names, v)| < |Unvisited(names, req.visited)|)
  {
    RelayKeepsVisited(s, req);
    var v := Serve(s, req).req.visited;
    var before, after := Unvisited(names, req.visited), Unvisited(names, v);
    assert after <= before;
    if CommaFree(s.self) { assert s.self in before && s.self !in after; }
    SubsetSize(after, before);
  }

  lemma {:induction false} ChainFuel(names: set<string>, hops: seq<Hop>)
    requires IsChain(hops) && Over(hops, names) && OneComma(names) && hops != []
    ensures |hops| <= Fuel(names, hops[0].req.visited) + 1
    ensures Free(names) == names ==> |hops| <= |Unvisited(names, hops[0].req.visited)| + 1
  {
    if |hops| > 1 {
      ConsChain(hops);
      RelayCosts(names, hops[0].server, hops[0].req);
      ChainFuel(names, hops[1..]);
    }
  }

  lemma {:induction false} VisitedStays(hops: seq<Hop>, i: nat, j: nat)
    requires IsChain(hops) && i < j < |hops| && CommaFree(hops[i].server.self)
    ensures hops[i].server.self in hops[j].req.visited
    decreases j
  {
    assert Relays(hops, j - 1);
    RelayKeepsVisited(hops[j - 1].server, hops[j - 1].req);
    if i < j - 1 { VisitedStays(hops, i, j - 1); }
  }

  /** Names without commas: a request passes the loop check at most once per node, from
      whatever request it starts and wherever the addresses lead, so it is relayed at most
      as often as there are nodes. */
  lemma EachNodeRelaysOnce(names: set<string>, hops: seq<Hop>)
    requires IsChain(hops) && Over(hops, names) && hops != []
    requires forall x :: x in names ==> CommaFree(x)
    ensures forall i, j :: 0 <= i < j < |hops| && hops[i].server.self == hops[j].server.self ==>
              Serve(hops[j].server, hops[j].req) == Refused(Loop) && j == |hops| - 1
    ensures |hops| - 1 <= |names|
  {
    forall i, j | 0 <= i < j < |hops| && hops[i].server.self == hops[j].server.self
      ensures Serve(hops[j].server, hops[j].req) == Refused(Loop) && j == |hops| - 1
    {
      VisitedStays(hops, i, j);
      if j < |hops| - 1 { assert Relays(hops, j); }
    }
    assert Free(names) == names;
    ChainFuel(names, hops);
    SubsetSize(Unvisited(names, hops[0].req.visited), names);
  }

  // ----- names with commas -----

  /** Two nodes that know each other's address under the requested target. */
  ghost function Mutual(self: string): Server {
    Server(self, {}, Some(NewForwarder(self, Some(map["t" := "peer"]), 3)))
  }

  ghost function Circle(a: string, b: string, req: Request, n: nat): (hops: seq<Hop>)
    ensures |hops| == n + 1 && hops[0] == Hop(Mutual(a), req)
    decreases n
  {
    if n == 0 then [Hop(Mutual(a), req)]
    else
      var answer := Serve(Mutual(a), req);
      [Hop(Mutual(a), req)] + Circle(b, a, if answer.Sent? then answer.req else req, n - 1)
  }

  ghost predicate Circling(self: string, req: Request) {
    && req.rpc == "m" && req.target == "t" && req.ttl > 0
    && forall k :: 0 <= k < |req.visited| ==> req.visited[k] != self
  }

  lemma CircleStep(a: string, b: string, req: Request)
    requires !CommaFree(a) && !CommaFree(b) && a != b && Circling(a, req)
    ensures Serve(Mutual(a), req).Sent? && Circling(b, Serve(Mutual(a), req).req)
  {
    var s := Mutual(a);
    assert CommaFree("t") && a != "t";
    assert s.self !in req.visited;
    assert Serve(s, req).Sent?;
    RelayKeepsVisited(s, req);
    TtlLeftIff(s, req);
  }

  lemma {:induction false} CircleIsChain(a: string, b: string, req: Request, n: nat)
    requires !CommaFree(a) && !CommaFree(b) && a != b && Circling(a, req)
    ensures IsChain(Circle(a, b, req, n)) && Over(Circle(a, b, req, n), {a, b})
    decreases n
  {
    if n > 0 {
      CircleStep(a, b, req);
      var next := Serve(Mutual(a), req).req;
      CircleIsChain(b, a, next, n - 1);
      var hops, tail := Circle(a, b, req, n), Circle(b, a, next, n - 1);
      assert hops == [Hop(Mutual(a), req)] + tail;
      assert hops[1] == tail[0] && hops[1..] == tail;
      assert Relays(hops, 0);
      ConsChain(hops);
    }
  }

  // ----- the ttl -----

  /** Names without commas, one for each number. */
  ghost function Plain(i: nat): (s: string)
    ensures |s| == i + 1 && CommaFree(s)
  {
    seq(i + 1, _ => 'a')
  }

  ghost function Line(i: nat, req: Request, n: nat): (hops: seq<Hop>)
    ensures |hops| == n + 1 && hops[0] == Hop(Mutual(Plain(i)), req)
    ensures forall k :: 0 <= k <= n ==> hops[k].server.self == Plain(i + k)
    decreases n
  {
    if n == 0 then [Hop(Mutual(Plain(i)), req)]
    else
      var answer := Serve(Mutual(Plain(i)), req);
      [Hop(Mutual(Plain(i)), req)] + Line(i + 1, if answer.Sent? then answer.req else req, n - 1)
  }

  /** Only names up to length i were visited. */
  ghost predicate Travelling(i: nat, req: Request) {
    && req.rpc == "m" && req.target == "t" && req.ttl > 0
    && forall k :: 0 <= k < |req.visited| ==> CommaFree(req.visited[k]) && 0 < |req.visited[k]| <= i
  }

  lemma PlainIsNew(i: nat, xs: seq<string>)
    requires forall k :: 0 <= k < |xs| ==> CommaFree(xs[k]) && 0 < |xs[k]| <= i
    ensures Plain(i) !in xs && Plain(i) != "t"
    ensures SplitVisited(Join(xs + [Plain(i)])) == xs + [Plain(i)]
  {
    assert Plain(i)[0] == 'a';
    var ys := xs + [Plain(i)];
    assert forall y :: y in ys ==> CommaFree(y);
    assert |ys[|ys| - 1]| == i + 1;
    VisitedRoundTripIff(ys);
  }

  /** The list behind a relay by a node whose name goes through the header. */
  lemma MutualSends(self: string, req: Request)
    requires self !in req.visited && self != "t" && req.rpc == "m" && req.target == "t" && req.ttl > 0
    requires SplitVisited(Join(req.visited + [self])) == req.visited + [self]
    ensures var answer := Serve(Mutual(self), req);
            && answer.Sent? && answer.req.visited == req.visited + [self] + [self]
            && answer.req.rpc == "m" && answer.req.target == "t" && answer.req.ttl > 0
  {
  }

  lemma LineStep(i: nat, req: Request)
    requires Travelling(i, req)
    ensures Serve(Mutual(Plain(i)), req).Sent? && Travelling(i + 1, Serve(Mutual(Plain(i)), req).req)
  {
    PlainIsNew(i, req.visited);
    MutualSends(Plain(i), req);
  }

  lemma {:induction false} LineIsChain(i: nat, req: Request, n: nat)
    requires Travelling(i, req)
    ensures IsChain(Line(i, req, n))
    decreases n
  {
    if n > 0 {
      LineStep(i, req);
      var next := Serve(Mutual(Plain(i)), req).req;
      LineIsChain(i + 1, next, n - 1);
      var hops, tail := Line(i, req, n), Line(i + 1, next, n - 1);
      assert hops == [Hop(Mutual(Plain(i)), req)] + tail;
      assert hops[1] == tail[0] && hops[1..] == tail;
      assert Relays(hops, 0);
      ConsChain(hops);
    }
  }

  /** The ttl bounds nothing: a request with any ttl left can travel over any number of
      nodes, all different and none with a comma in its name. */
  lemma TtlBoundsNothing(ttl: int, n: nat) returns (hops: seq<Hop>)
    requires ttl > 0
    ensures IsChain(hops) && |hops| == n + 1 && hops[0].req.ttl == ttl
    ensures forall i :: 0 <= i <= n ==> CommaFree(hops[i].server.self)
    ensures forall i, j :: 0 <= i < j <= n ==> hops[i].server.self != hops[j].server.self
  {
    var req := Request("m", "t", map[], [], ttl);
    hops := Line(0, req, n);
    LineIsChain(0, req, n);
    forall i, j | 0 <= i < j <= n ensures hops[i].server.self != hops[j].server.self {
      assert |hops[i].server.self| == i + 1 && |hops[j].server.self| == j + 1;
    }
  }

  // ----- when forwarding ends -----

  ghost predicate Bounded(names: set<string>) {
    exists b: nat :: NoChainBeyond(names, b)
  }

  ghost predicate NoChainBeyond(names: set<string>, b: nat) {
    forall hops: seq<Hop> :: IsChain(hops) && Over(hops, names) ==> |hops| <= b
  }

  lemma CommasBeatAnyBound(names: set<string>, a: string, b: string, n: nat)
    requires a in names && b in names && a != b && !CommaFree(a) && !CommaFree(b)
    ensures !NoChainBeyond(names, n)
  {
    var req := Request("m", "t", map[], [], 3);
    CircleIsChain(a, b, req, n);
    var hops := Circle(a, b, req, n);
    assert Over(hops, names);
    assert |hops| == n + 1;
  }

  /** Requests can circle forever exactly when two nodes have a comma in their names. */
  lemma ForwardingEndsIff(names: set<string>)
    ensures Bounded(names) <==> OneComma(names)
  {
    if OneComma(names) {
      var bound := 2 * |names| + 2;
      forall hops: seq<Hop> | IsChain(hops) && Over(hops, names) ensures |hops| <= bound {
        if hops != [] {
          ChainFuel(names, hops);
          SubsetSize(Unvisited(names, hops[0].req.visited), names);
        }
      }
      assert NoChainBeyond(names, bound);
    } else {
      var a, b :| a in names && b in names && !CommaFree(a) && !CommaFree(b) && a != b;
      forall n: nat ensures !NoChainBeyond(names, n) { CommasBeatAnyBound(names, a, b, n); }
    }
  }
}
