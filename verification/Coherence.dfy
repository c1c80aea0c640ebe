/** Assigning queues to executor nodes, and the snapshot every node holds. */
module Coherence {
  import opened Wrappers

  datatype Permission = Operation | Execute | Schedule | Collect
  datatype Node = Node(id: string, vpc: string, labels: seq<string>, permissions: seq<Permission>)
  datatype Route = Route(queue: string, nodeId: string, vpc: string, nodeLabel: string)
  datatype State = State(revision: int, scheduler: string, updatedUnixMs: int, routes: seq<Route>)

  // ----- sorting -----

  predicate Le(a: string, b: string) {
    a == "" || (b != "" && (a[0] < b[0] || (a[0] == b[0] && Le(a[1..], b[1..]))))
  }

  lemma {:induction false} LeTotal(a: string, b: string)
    ensures Le(a, b) || Le(b, a)
    ensures Le(a, b) && Le(b, a) ==> a == b
  {
    if a != "" && b != "" && a[0] == b[0] {
      LeTotal(a[1..], b[1..]);
      assert a == [a[0]] + a[1..] && b == [b[0]] + b[1..];
    }
  }

  lemma {:induction false} LeTransitive(a: string, b: string, c: string)
    requires Le(a, b) && Le(b, c)
    ensures Le(a, c)
  {
    if a != "" && a[0] == b[0] && b[0] == c[0] { LeTransitive(a[1..], b[1..], c[1..]); }
  }

  /** Ordered by a name read off the elements. */
  ghost predicate Sorted<T(!new)>(xs: seq<T>, name: T -> string) {
    forall i, j :: 0 <= i < j < |xs| ==> Le(name(xs[i]), name(xs[j]))
  }

  function Insert<T>(x: T, xs: seq<T>, name: T -> string): (r: seq<T>)
    ensures multiset(r) == multiset{x} + multiset(xs)
  {
    if xs == [] then [x]
    else
      assert xs == [xs[0]] + xs[1..];
      if Le(name(x), name(xs[0])) then [x] + xs else [xs[0]] + Insert(x, xs[1..], name)
  }

  /** Stands for the library's sort; see SortedOnce. */
  function Sort<T>(xs: seq<T>, name: T -> string): (r: seq<T>)
    ensures multiset(r) == multiset(xs)
  {
    if xs == [] then []
    else
      assert xs == [xs[0]] + xs[1..];
      Insert(xs[0], Sort(xs[1..], name), name)
  }

  lemma {:induction false} InsertSorted<T(!new)>(x: T, xs: seq<T>, name: T -> string)
    requires Sorted(xs, name)
    ensures Sorted(Insert(x, xs, name), name)
  {
    if xs != [] {
      LeTotal(name(x), name(xs[0]));
      if Le(name(x), name(xs[0])) {
        forall j | 0 <= j < |xs| ensures Le(name(x), name(xs[j])) {
          LeTotal(name(xs[0]), name(xs[0]));
          if j > 0 { LeTransitive(name(x), name(xs[0]), name(xs[j])); }
        }
      } else {
        var tail := Insert(x, xs[1..], name);
        InsertSorted(x, xs[1..], name);
        forall j | 0 <= j < |tail| ensures Le(name(xs[0]), name(tail[j])) {
          assert tail[j] in multiset(tail);
          assert tail[j] == x || tail[j] in xs[1..];
        }
      }
    }
  }

  lemma {:induction false} SortSorts<T(!new)>(xs: seq<T>, name: T -> string)
    ensures Sorted(Sort(xs, name), name)
  {
    if xs != [] {
      SortSorts(xs[1..], name);
      InsertSorted(xs[0], Sort(xs[1..], name), name);
    }
  }

  ghost predicate NamesTell<T(!new)>(xs: seq<T>, name: T -> string) {
    forall x, y :: x in xs && y in xs && name(x) == name(y) ==> x == y
  }

  lemma SameFirst<T(!new)>(xs: seq<T>, ys: seq<T>, name: T -> string)
    requires Sorted(xs, name) && Sorted(ys, name) && multiset(xs) == multiset(ys) && NamesTell(xs, name)
    requires xs != [] && ys != []
    ensures xs[0] == ys[0]
  {
    FirstLeast(xs, ys[0], name);
    FirstLeast(ys, xs[0], name);
    LeTotal(name(xs[0]), name(ys[0]));
  }

  lemma FirstLeast<T(!new)>(xs: seq<T>, x: T, name: T -> string)
    requires Sorted(xs, name) && xs != [] && (x in xs || multiset(xs)[x] > 0)
    ensures Le(name(xs[0]), name(x)) && x in xs
  {
    LeTotal(name(xs[0]), name(xs[0]));
  }

  lemma TailCounts<T>(xs: seq<T>, ys: seq<T>)
    requires multiset(xs) == multiset(ys) && xs != [] && ys != [] && xs[0] == ys[0]
    ensures multiset(xs[1..]) == multiset(ys[1..])
  {
    assert xs == [xs[0]] + xs[1..] && ys == [ys[0]] + ys[1..];
    assert multiset(xs[1..]) == multiset(xs) - multiset{xs[0]};
    assert multiset(ys[1..]) == multiset(ys) - multiset{ys[0]};
  }

  /** Where a name tells the element, every sorting routine gives the same list. */
  lemma {:induction false} SortedOnce<T(!new)>(xs: seq<T>, ys: seq<T>, name: T -> string)
    requires Sorted(xs, name) && Sorted(ys, name) && multiset(xs) == multiset(ys) && NamesTell(xs, name)
    ensures xs == ys
  {
    assert |xs| == |multiset(xs)| == |ys|;
    if xs != [] {
      assert ys[0] in multiset(xs) && xs[0] in multiset(ys);
      SameFirst(xs, ys, name);
      TailCounts(xs, ys);
      assert NamesTell(xs[1..], name);
      SortedOnce(xs[1..], ys[1..], name);
      assert xs == [xs[0]] + xs[1..] && ys == [ys[0]] + ys[1..];
    }
  }

  // ----- assignment -----

  predicate CanExecute(n: Node) { Operation in n.permissions || n.permissions == [] }

  function Filter(nodes: seq<Node>): seq<Node> {
    if nodes == [] then []
    else
      var n := |nodes| - 1;
      Filter(nodes[..n]) + if CanExecute(nodes[n]) then [nodes[n]] else []
  }

  /** The nodes allowed to execute; all of them when there is none. */
  function Executors(nodes: seq<Node>): seq<Node> {
    var able := Filter(nodes);
    if able == [] then nodes else able
  }

  function RouteTo(queue: string, n: Node): Route {
    Route(queue, n.id, n.vpc, if n.labels == [] then "" else n.labels[0])
  }

  function Deal(queues: seq<string>, nodes: seq<Node>): (routes: seq<Route>)
    requires nodes != []
  {
    seq(|queues|, i requires 0 <= i < |queues| => RouteTo(queues[i], nodes[i % |nodes|]))
  }

  const IDENTITY := (q: string) => q
  const BY_ID := (n: Node) => n.id

  function Routes(queues: seq<string>, nodes: seq<Node>): seq<Route> {
    var executors := Sort(Executors(nodes), BY_ID);
    if executors == [] then [] else Deal(Sort(queues, IDENTITY), executors)
  }

  method PickExecutors(nodes: seq<Node>) returns (executors: seq<Node>)
    ensures executors == Executors(nodes)
  {
    executors := [];
    for i := 0 to |nodes|
      invariant executors == Filter(nodes[..i])
    {
      assert nodes[..i + 1][..i] == nodes[..i];
      if CanExecute(nodes[i]) { executors := executors + [nodes[i]]; }
    }
    assert nodes[..|nodes|] == nodes;
    if executors == [] { executors := nodes; }
  }

  method AddRoutes(state: State, queues: seq<string>, nodes: seq<Node>) returns (full: State)
    requires nodes != [] && state.routes == []
    ensures full == state.(routes := Deal(queues, nodes))
  {
    var routes: seq<Route> := [];
    ghost var dealt := Deal(queues, nodes);
    for i := 0 to |queues|
      invariant routes == dealt[..i]
    {
      routes := routes + [RouteTo(queues[i], nodes[i % |nodes|])];
    }
    full := state.(routes := routes);
  }

  method Assign(scheduler: string, queues: seq<string>, nodes: seq<Node>, revision: int, updatedUnixMs: int)
    returns (state: State)
    ensures state == State(revision, scheduler, updatedUnixMs, Routes(queues, nodes))
  {
    var executors := PickExecutors(nodes);
    executors := Sort(executors, BY_ID);
    var sorted := Sort(queues, IDENTITY);
    state := State(revision, scheduler, updatedUnixMs, []);
    if executors == [] { return; }
    state := AddRoutes(state, sorted, executors);
  }

  lemma {:induction false} FilterCounts(nodes: seq<Node>, n: Node)
    ensures multiset(Filter(nodes))[n] == if CanExecute(n) then multiset(nodes)[n] else 0
  {
    if nodes != [] {
      var k := |nodes| - 1;
      FilterCounts(nodes[..k], n);
      assert nodes == nodes[..k] + [nodes[k]];
    }
  }

  lemma ExecutorsCount(a: seq<Node>, b: seq<Node>)
    requires multiset(a) == multiset(b)
    ensures multiset(Executors(a)) == multiset(Executors(b))
    ensures forall n :: n in Executors(a) ==> n in a
  {
    forall n ensures multiset(Filter(a))[n] == multiset(Filter(b))[n] && (n in Filter(a) ==> n in a) {
      FilterCounts(a, n);
      FilterCounts(b, n);
    }
    assert multiset(Filter(a)) == multiset(Filter(b));
    assert |Filter(a)| == |multiset(Filter(a))| == |multiset(Filter(b))| == |Filter(b)|;
  }

  /** The assignment depends on which queues and nodes there are, not on their order, and
      not on how the library sorts. */
  lemma OrderIrrelevant(queues: seq<string>, queues': seq<string>, nodes: seq<Node>, nodes': seq<Node>)
    requires multiset(queues) == multiset(queues') && multiset(nodes) == multiset(nodes')
    requires NamesTell(nodes, BY_ID)
    ensures Routes(queues, nodes) == Routes(queues', nodes')
    ensures forall qs: seq<string>, es: seq<Node> ::
              multiset(qs) == multiset(queues) && Sorted(qs, IDENTITY)
              && multiset(es) == multiset(Executors(nodes)) && Sorted(es, BY_ID) && es != []
              ==> Routes(queues, nodes) == Deal(qs, es)
  {
    ExecutorsCount(nodes, nodes');
    var es := Sort(Executors(nodes), BY_ID);
    SortSorts(queues, IDENTITY);
    SortSorts(queues', IDENTITY);
    SortSorts(Executors(nodes), BY_ID);
    SortSorts(Executors(nodes'), BY_ID);
    SortedOnce(Sort(queues, IDENTITY), Sort(queues', IDENTITY), IDENTITY);
    forall n | n in es ensures n in nodes { assert n in multiset(es); }
    SortedOnce(es, Sort(Executors(nodes'), BY_ID), BY_ID);
    forall qs: seq<string>, es': seq<Node>
      | multiset(qs) == multiset(queues) && Sorted(qs, IDENTITY)
        && multiset(es') == multiset(Executors(nodes)) && Sorted(es', BY_ID) && es' != []
      ensures Routes(queues, nodes) == Deal(qs, es')
    {
      SortedOnce(Sort(queues, IDENTITY), qs, IDENTITY);
      SortedOnce(es, es', BY_ID);
    }
  }

  ghost function Queues(routes: seq<Route>): seq<string> {
    seq(|routes|, i requires 0 <= i < |routes| => routes[i].queue)
  }

  lemma DealQueues(queues: seq<string>, nodes: seq<Node>)
    requires nodes != []
    ensures Queues(Deal(queues, nodes)) == queues
  {
  }

  lemma DealTargets(queues: seq<string>, nodes: seq<Node>, r: Route) returns (n: Node)
    requires nodes != [] && r in Deal(queues, nodes)
    ensures n in nodes && r == RouteTo(r.queue, n)
  {
    var i :| 0 <= i < |queues| && Deal(queues, nodes)[i] == r;
    n := nodes[i % |nodes|];
  }

  lemma SameMembers<T>(xs: seq<T>, ys: seq<T>, x: T)
    requires multiset(xs) == multiset(ys) && x in xs
    ensures x in ys
  {
    assert x in multiset(ys);
  }

  /** With a node at hand every queue gets exactly one route, to an executor and with its
      data; without one there are no routes. */
  lemma EveryQueueOnce(queues: seq<string>, nodes: seq<Node>)
    ensures nodes == [] ==> Routes(queues, nodes) == []
    ensures nodes != [] ==> multiset(Queues(Routes(queues, nodes))) == multiset(queues)
    ensures forall r :: r in Routes(queues, nodes) ==>
              exists n :: n in Executors(nodes) && r == RouteTo(r.queue, n)
  {
    var es, qs := Sort(Executors(nodes), BY_ID), Sort(queues, IDENTITY);
    SameLength(es, Executors(nodes));
    if es != [] {
      DealQueues(qs, es);
      forall r | r in Deal(qs, es) ensures exists n :: n in Executors(nodes) && r == RouteTo(r.queue, n) {
        var n := DealTargets(qs, es, r);
        SameMembers(es, Executors(nodes), n);
      }
    }
  }

  lemma {:induction false} FilterMembers(nodes: seq<Node>, n: Node)
    ensures n in Filter(nodes) <==> n in nodes && (Operation in n.permissions || n.permissions == [])
  {
    if nodes != [] {
      var k := |nodes| - 1;
      FilterMembers(nodes[..k], n);
      assert nodes == nodes[..k] + [nodes[k]];
    }
  }

  /** May take queues: operation permission, or no permission listed at all. */
  ghost predicate Eligible(n: Node) { Operation in n.permissions || |n.permissions| == 0 }

  /** The executors are the eligible nodes, or all nodes when there is none. */
  lemma ExecutorsAre(nodes: seq<Node>, n: Node)
    ensures n in Executors(nodes) <==> n in nodes && (Eligible(n) || forall m :: m in nodes ==> !Eligible(m))
  {
    FilterMembers(nodes, n);
    if Filter(nodes) == [] {
      forall m | m in nodes ensures !Eligible(m) { FilterMembers(nodes, m); }
    } else {
      FilterMembers(nodes, Filter(nodes)[0]);
    }
  }

  ghost predicate DiffersFirst(a: string, b: string, k: nat) {
    k < |a| && k < |b| && a[k] < b[k] && a[..k] == b[..k]
  }

  ghost predicate Below(a: string, b: string) { exists k: nat :: DiffersFirst(a, b, k) }

  lemma BelowTails(a: string, b: string)
    requires a != "" && b != "" && a[0] == b[0]
    ensures Below(a, b) <==> Below(a[1..], b[1..])
  {
    if Below(a, b) {
      var k: nat :| DiffersFirst(a, b, k);
      assert a[1..][..k - 1] == a[..k][1..] && b[1..][..k - 1] == b[..k][1..];
      assert DiffersFirst(a[1..], b[1..], k - 1);
    }
    if Below(a[1..], b[1..]) {
      var k: nat :| DiffersFirst(a[1..], b[1..], k);
      assert a[..k + 1] == [a[0]] + a[1..][..k] && b[..k + 1] == [b[0]] + b[1..][..k];
      assert DiffersFirst(a, b, k + 1);
    }
  }

  lemma SameHead(a: string, b: string, k: nat)
    requires k <= |a| && k <= |b| && a[..k] == b[..k]
    ensures k > 0 ==> a[0] == b[0]
  {
    if k > 0 { assert a[..k][0] == a[0] && b[..k][0] == b[0]; }
  }

  lemma BelowHeads(a: string, b: string)
    requires a != "" && b != "" && a[0] != b[0]
    ensures Below(a, b) <==> a[0] < b[0]
  {
    if a[0] < b[0] { assert DiffersFirst(a, b, 0); }
    if Below(a, b) {
      var k: nat :| DiffersFirst(a, b, k);
      SameHead(a, b, k);
    }
  }

  /** Byte order: a prefix comes first, otherwise the first difference decides. */
  lemma {:induction false} LeMeans(a: string, b: string)
    ensures Le(a, b) <==> a <= b || Below(a, b)
  {
    if a != "" && b != "" {
      if a[0] == b[0] {
        LeMeans(a[1..], b[1..]);
        BelowTails(a, b);
        assert a == [a[0]] + a[1..] && b == [b[0]] + b[1..];
        assert a <= b <==> a[1..] <= b[1..];
      } else {
        BelowHeads(a, b);
      }
    }
  }

  /** The routes go through the queues in order, and round and round through the executors in
      the order of their ids, with each one's network and first label. */
  lemma RoundRobin(queues: seq<string>, nodes: seq<Node>) returns (es: seq<Node>)
    requires nodes != []
    ensures multiset(es) == multiset(Executors(nodes)) && |es| > 0
    ensures forall i, j :: 0 <= i < j < |es| ==> Le(es[i].id, es[j].id)
    ensures var routes := Routes(queues, nodes);
            && |routes| == |queues|
            && (forall i, j :: 0 <= i < j < |routes| ==> Le(routes[i].queue, routes[j].queue))
            && forall i :: 0 <= i < |routes| ==>
                 var n := es[i % |es|];
                 && routes[i].nodeId == n.id && routes[i].vpc == n.vpc
                 && routes[i].nodeLabel == if |n.labels| > 0 then n.labels[0] else ""
  {
    es := Sort(Executors(nodes), BY_ID);
    var qs := Sort(queues, IDENTITY);
    SortSorts(Executors(nodes), BY_ID);
    SortSorts(queues, IDENTITY);
    SameLength(es, Executors(nodes));
    SameLength(qs, queues);
    forall i, j | 0 <= i < j < |es| ensures Le(es[i].id, es[j].id) { assert Le(BY_ID(es[i]), BY_ID(es[j])); }
    forall i, j | 0 <= i < j < |qs| ensures Le(qs[i], qs[j]) { assert Le(IDENTITY(qs[i]), IDENTITY(qs[j])); }
  }

  // ----- balance -----

  ghost function Load(routes: seq<Route>, id: string): nat {
    if routes == [] then 0
    else Load(routes[..|routes| - 1], id) + if routes[|routes| - 1].nodeId == id then 1 else 0
  }

  lemma NextModulo(n: nat, m: nat)
    requires m > 0
    ensures n % m + 1 < m ==> (n + 1) / m == n / m && (n + 1) % m == n % m + 1
    ensures n % m + 1 == m ==> (n + 1) / m == n / m + 1 && (n + 1) % m == 0
  {
    var q, r := n / m, n % m;
    assert n + 1 == q * m + (r + 1);
    if r + 1 < m {
      DivIs(n + 1, m, q, r + 1);
    } else {
      assert n + 1 == (q + 1) * m;
      DivIs(n + 1, m, q + 1, 0);
    }
  }

  lemma Multiple(d: int, m: int)
    requires m >= 0
    ensures d >= 1 ==> d * m >= m
    ensures d <= -1 ==> d * m <= -m
  {
  }

  lemma DivIs(n: nat, m: nat, q: nat, r: nat)
    requires r < m && n == q * m + r
    ensures n / m == q && n % m == r
  {
    var d := n / m - q;
    assert n == (n / m) * m + n % m;
    assert d * m == r - n % m;
    Multiple(d, m);
  }

  ghost predicate DistinctIds(nodes: seq<Node>) {
    forall i, j :: 0 <= i < j < |nodes| ==> nodes[i].id != nodes[j].id
  }

  /** How many of the first n turns go to place k of m. */
  function Turns(n: nat, m: nat, k: nat): nat
    requires k < m
  {
    n / m + if k < n % m then 1 else 0
  }

  lemma NextTurn(n: nat, m: nat, k: nat)
    requires k < m
    ensures Turns(n + 1, m, k) == Turns(n, m, k) + if k == n % m then 1 else 0
  {
    NextModulo(n, m);
  }

  lemma DealtLast(queues: seq<string>, nodes: seq<Node>, k: nat)
    requires k < |nodes| && DistinctIds(nodes) && queues != []
    ensures var n := |queues| - 1;
            Load(Deal(queues, nodes), nodes[k].id)
            == Load(Deal(queues[..n], nodes), nodes[k].id) + if k == n % |nodes| then 1 else 0
  {
    var n := |queues| - 1;
    var routes := Deal(queues, nodes);
    assert routes[..n] == Deal(queues[..n], nodes);
    var t := n % |nodes|;
    assert routes[n] == RouteTo(queues[n], nodes[t]);
    assert nodes[t].id == nodes[k].id <==> k == t;
  }

  lemma {:induction false} DealtLoad(queues: seq<string>, nodes: seq<Node>, k: nat)
    requires k < |nodes| && DistinctIds(nodes)
    ensures Load(Deal(queues, nodes), nodes[k].id) == Turns(|queues|, |nodes|, k)
  {
    if queues == [] {
      DivIs(0, |nodes|, 0, 0);
    } else {
      DealtLast(queues, nodes, k);
      DealtLoad(queues[..|queues| - 1], nodes, k);
      NextTurn(|queues| - 1, |nodes|, k);
    }
  }

  lemma {:induction false} IdsDistinct(xs: seq<Node>, ys: seq<Node>)
    requires DistinctIds(xs) && forall n :: multiset(ys)[n] <= multiset(xs)[n]
    ensures DistinctIds(ys)
  {
    forall i, j | 0 <= i < j < |ys| ensures ys[i].id != ys[j].id {
      Twice(ys, i, j);
      assert ys[i] in multiset(ys) && ys[j] in multiset(ys);
      assert multiset(xs)[ys[i]] >= 1 && multiset(xs)[ys[j]] >= 1;
      var a :| 0 <= a < |xs| && xs[a] == ys[i];
      var b :| 0 <= b < |xs| && xs[b] == ys[j];
      if a == b { Once(xs, a); }
    }
  }

  lemma Twice(xs: seq<Node>, i: nat, j: nat)
    requires i < j < |xs|
    ensures xs[i] == xs[j] ==> multiset(xs)[xs[i]] >= 2
  {
    assert xs == xs[..j] + [xs[j]] + xs[j + 1..];
    assert xs[i] == xs[..j][i] && xs[i] in multiset(xs[..j]);
  }

  lemma Once(xs: seq<Node>, a: nat)
    requires a < |xs| && DistinctIds(xs)
    ensures multiset(xs)[xs[a]] == 1
  {
    assert xs == xs[..a] + [xs[a]] + xs[a + 1..];
    assert xs[a] !in multiset(xs[..a]) && xs[a] !in multiset(xs[a + 1..]);
  }

  lemma Place<T>(xs: seq<T>, ys: seq<T>, x: T) returns (i: nat)
    requires multiset(xs) == multiset(ys) && x in xs
    ensures i < |ys| && ys[i] == x
  {
    assert x in multiset(ys);
    i :| 0 <= i < |ys| && ys[i] == x;
  }

  lemma SameLength<T>(xs: seq<T>, ys: seq<T>)
    requires multiset(xs) == multiset(ys)
    ensures |xs| == |ys|
  {
    assert |xs| == |multiset(xs)| == |multiset(ys)| == |ys|;
  }

  lemma ExecutorsDistinct(nodes: seq<Node>)
    requires DistinctIds(nodes)
    ensures DistinctIds(Sort(Executors(nodes), BY_ID))
  {
    forall n ensures multiset(Executors(nodes))[n] <= multiset(nodes)[n] { FilterCounts(nodes, n); }
    IdsDistinct(nodes, Sort(Executors(nodes), BY_ID));
  }

  /** An executor's load is the number of turns its place gets. */
  lemma LoadIsTurns(queues: seq<string>, nodes: seq<Node>, a: Node) returns (k: nat)
    requires DistinctIds(nodes) && a in Executors(nodes)
    ensures k < |Executors(nodes)|
    ensures Load(Routes(queues, nodes), a.id) == Turns(|queues|, |Executors(nodes)|, k)
  {
    var es, qs := Sort(Executors(nodes), BY_ID), Sort(queues, IDENTITY);
    ExecutorsDistinct(nodes);
    k := Place(Executors(nodes), es, a);
    SameLength(es, Executors(nodes));
    SameLength(qs, queues);
    DealtLoad(qs, es, k);
  }

  /** The loads of any two executors differ by at most one. */
  lemma Balanced(queues: seq<string>, nodes: seq<Node>, a: Node, b: Node)
    requires DistinctIds(nodes) && a in Executors(nodes) && b in Executors(nodes)
    ensures Load(Routes(queues, nodes), a.id) - Load(Routes(queues, nodes), b.id) <= 1
    ensures Load(Routes(queues, nodes), a.id) >= |queues| / |Executors(nodes)|
  {
    var i := LoadIsTurns(queues, nodes, a);
    var j := LoadIsTurns(queues, nodes, b);
  }

  // ----- the held snapshot -----

  function Held(now: Option<State>, pushed: Option<State>): Option<State> {
    match pushed
    case None => now
    case Some(s) => if now.Some? && s.revision <= now.value.revision then now else pushed
  }

  class CoherenceStore {
    var state: Option<State>

    constructor ()
      ensures state == None
    {
      state := None;
    }

    method Apply(pushed: Option<State>) returns (ok: bool)
      modifies this
      ensures state == Held(old(state), pushed)
      ensures ok <==> pushed.Some? && (old(state) == None || pushed.value.revision > old(state).value.revision)
      ensures state == if ok then pushed else old(state)
    {
      if pushed == None { return false; }
      if state.Some? && pushed.value.revision <= state.value.revision { return false; }
      state := pushed;
      ok := true;
    }
  }

  ghost function HeldAfter(pushes: seq<Option<State>>): Option<State> {
    if pushes == [] then None
    else Held(HeldAfter(pushes[..|pushes| - 1]), pushes[|pushes| - 1])
  }

  /** What is held was pushed, and nothing pushed has a higher revision. */
  lemma {:induction false} HeldIsLatest(pushes: seq<Option<State>>)
    ensures var h := HeldAfter(pushes);
            && (h.Some? ==> h in pushes)
            && (forall s :: Some(s) in pushes ==> h.Some? && s.revision <= h.value.revision)
  {
    if pushes != [] { HeldIsLatest(pushes[..|pushes| - 1]); }
  }

  /** Nodes that were pushed the same snapshots hold the same one, however late, often or
      out of order these came, as long as a revision stands for one snapshot. */
  lemma PushesConverge(a: seq<Option<State>>, b: seq<Option<State>>)
    requires forall s: State :: Some(s) in a <==> Some(s) in b
    requires forall s, t :: Some(s) in a && Some(t) in a && s.revision == t.revision ==> s == t
    ensures HeldAfter(a) == HeldAfter(b)
  {
    HeldIsLatest(a);
    HeldIsLatest(b);
    var h, g := HeldAfter(a), HeldAfter(b);
    if h.Some? {
      assert Some(h.value) in b;
    }
    if g.Some? {
      assert Some(g.value) in a;
    }
  }
}
