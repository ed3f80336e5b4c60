/** Dependencies between static libraries: building the graph from their symbols and pruning
    it, in place, to its transitive reduction. */
module LibGraphs {
  import opened Seqs

  /** A library: the symbols it defines and the ones it leaves undefined. */
  datatype Lib = Lib(id: nat, syms: set<string>, neededSyms: set<string>)

  /** For each library the libraries that need it. */
  type Graph = map<Lib, set<Lib>>

  ghost predicate Over(g: Graph, libs: set<Lib>) {
    g.Keys == libs && forall a :: a in libs ==> g[a] <= libs
  }

  // ------------------------------------------------------------ reachability

  ghost predicate IsPath(g: Graph, p: seq<Lib>) {
    |p| > 0 && forall i :: 0 <= i < |p| - 1 ==> p[i] in g && p[i + 1] in g[p[i]]
  }

  ghost predicate Connects(g: Graph, p: seq<Lib>, a: Lib, b: Lib) {
    IsPath(g, p) && |p| >= 2 && p[0] == a && p[|p| - 1] == b
  }

  /** There is a path of at least one edge from `a` to `b`. */
  ghost predicate Reaches(g: Graph, a: Lib, b: Lib) {
    exists p :: Connects(g, p, a, b)
  }

  ghost predicate Acyclic(g: Graph) {
    forall a :: !Reaches(g, a, a)
  }

  ghost predicate SameReach(g: Graph, h: Graph) {
    forall a, b :: Reaches(g, a, b) <==> Reaches(h, a, b)
  }

  lemma EdgeReaches(g: Graph, a: Lib, b: Lib)
    requires a in g && b in g[a]
    ensures Reaches(g, a, b)
  {
    assert Connects(g, [a, b], a, b);
  }

  lemma ReachesTrans(g: Graph, a: Lib, b: Lib, c: Lib)
    requires Reaches(g, a, b) && Reaches(g, b, c)
    ensures Reaches(g, a, c)
  {
    var p :| Connects(g, p, a, b);
    var q :| Connects(g, q, b, c);
    var r := p + q[1..];
    forall i | 0 <= i < |r| - 1 ensures r[i] in g && r[i + 1] in g[r[i]] {
      if i >= |p| - 1 { assert r[i] == q[i - |p| + 1] && r[i + 1] == q[i - |p| + 2]; }
    }
    assert Connects(g, r, a, c);
  }

  /** The first edge of a path. */
  lemma ReachesFirst(g: Graph, a: Lib, b: Lib) returns (c: Lib)
    requires Reaches(g, a, b)
    ensures a in g && c in g[a] && (c == b || Reaches(g, c, b))
  {
    var p :| Connects(g, p, a, b);
    c := p[1];
    if |p| > 2 {
      var q := p[1..];
      forall i | 0 <= i < |q| - 1 ensures q[i] in g && q[i + 1] in g[q[i]] {
        assert q[i] == p[i + 1] && q[i + 1] == p[i + 2];
      }
      assert Connects(g, q, c, b);
    }
  }

  lemma SubPath(g: Graph, p: seq<Lib>, i: nat, j: nat)
    requires IsPath(g, p) && i < j < |p|
    ensures Reaches(g, p[i], p[j])
  {
    var q := p[i..j + 1];
    forall k | 0 <= k < |q| - 1 ensures q[k] in g && q[k + 1] in g[q[k]] {
      assert q[k] == p[i + k] && q[k + 1] == p[i + k + 1];
    }
    assert Connects(g, q, p[i], p[j]);
  }

  /** Without cycles a path meets no library twice, so it is no longer than the graph. */
  lemma PathFits(g: Graph, p: seq<Lib>, libs: set<Lib>)
    requires Acyclic(g) && IsPath(g, p) && forall i :: 0 <= i < |p| ==> p[i] in libs
    ensures |p| <= |libs|
  {
    forall i, j | 0 <= i < j < |p| ensures p[i] != p[j] { SubPath(g, p, i, j); }
    DistinctFits(p, libs);
  }

  lemma PathStays(g: Graph, p: seq<Lib>, libs: set<Lib>)
    requires Over(g, libs) && IsPath(g, p) && p[0] in libs
    ensures forall i :: 0 <= i < |p| ==> p[i] in libs
  {
    forall i | 0 <= i < |p| ensures p[i] in libs {
      if i > 0 { assert p[i - 1] in g && p[i] in g[p[i - 1]]; }
    }
  }

  ghost predicate Subgraph(h: Graph, g: Graph) {
    forall a :: a in h ==> a in g && h[a] <= g[a]
  }

  lemma SubgraphReaches(h: Graph, g: Graph, a: Lib, b: Lib)
    requires Subgraph(h, g) && Reaches(h, a, b)
    ensures Reaches(g, a, b)
  {
    var p :| Connects(h, p, a, b);
    assert Connects(g, p, a, b);
  }

  lemma SubgraphAcyclic(h: Graph, g: Graph)
    requires Subgraph(h, g) && Acyclic(g)
    ensures Acyclic(h)
  {
    forall a ensures !Reaches(h, a, a) {
      if Reaches(h, a, a) { SubgraphReaches(h, g, a, a); }
    }
  }

  /** Changing only the edges of a library that `a` cannot reach changes nothing for `a`. */
  lemma ReachAvoids(g: Graph, h: Graph, t: Lib, a: Lib, b: Lib)
    requires g.Keys == h.Keys && forall x :: x in g && x != t ==> g[x] == h[x]
    requires a != t && !Reaches(g, a, t) && Reaches(g, a, b)
    ensures Reaches(h, a, b)
  {
    var p :| Connects(g, p, a, b);
    forall i | 0 <= i < |p| - 1 ensures p[i] in h && p[i + 1] in h[p[i]] {
      if i > 0 { SubPath(g, p, 0, i); }
    }
    assert Connects(h, p, a, b);
  }

  // ------------------------------------------------------------ the reduction

  /** Everything `a` reaches. */
  ghost function Desc(g: Graph, a: Lib): set<Lib> {
    set x | x in g && Reaches(g, a, x)
  }

  /** Everything reached through one of `a`'s neighbours. */
  ghost function Implied(g: Graph, a: Lib): set<Lib>
    requires a in g
  {
    set x | x in g && exists i :: i in g[a] && Reaches(g, i, x)
  }

  /** The graph without the implied edges of the libraries in `done`. */
  ghost function Reduction(g: Graph, done: set<Lib>): Graph {
    map a | a in g :: if a in done then g[a] - Implied(g, a) else g[a]
  }

  ghost function ReduceOne(g: Graph, c: Lib): Graph
    requires c in g
  {
    g[c := g[c] - Implied(g, c)]
  }

  /** A path from `c` survives the removal of `c`'s implied edges, if need be by going round
      through the neighbour that implied them: each detour is longer, and none is longer than
      the graph. */
  lemma {:induction false} DetourSurvives(g: Graph, libs: set<Lib>, c: Lib, b: Lib, p: seq<Lib>)
    requires Over(g, libs) && Acyclic(g) && c in libs && Connects(g, p, c, b)
    ensures Reaches(ReduceOne(g, c), c, b)
    decreases |libs| + 1 - |p|
  {
    PathStays(g, p, libs);
    PathFits(g, p, libs);
    var h := ReduceOne(g, c);
    if p[1] in Implied(g, c) {
      var i :| i in g[c] && Reaches(g, i, p[1]);
      var q :| Connects(g, q, i, p[1]);
      var r := [c] + q + p[2..];
      forall k | 0 <= k < |r| - 1 ensures r[k] in g && r[k + 1] in g[r[k]] {
        if k == 0 {
          assert r[1] == q[0];
        } else if k < |q| {
          assert r[k] == q[k - 1] && r[k + 1] == q[k];
        } else {
          assert r[k] == p[k - |q| + 1] && r[k + 1] == p[k - |q| + 2];
        }
      }
      assert Connects(g, r, c, b);
      PathStays(g, r, libs);
      PathFits(g, r, libs);
      DetourSurvives(g, libs, c, b, r);
    } else {
      forall k | 0 <= k < |p| - 1 ensures p[k] in h && p[k + 1] in h[p[k]] {
        if k > 0 { SubPath(g, p, 0, k); }
      }
      assert Connects(h, p, c, b);
    }
  }

  lemma {:induction false} PathSurvives(g: Graph, libs: set<Lib>, c: Lib, p: seq<Lib>)
    requires Over(g, libs) && Acyclic(g) && c in libs && IsPath(g, p) && |p| >= 2
    ensures Reaches(ReduceOne(g, c), p[0], p[|p| - 1])
    decreases |p|
  {
    var h := ReduceOne(g, c);
    if p[0] == c {
      DetourSurvives(g, libs, c, p[|p| - 1], p);
    } else {
      assert p[0] in g && p[1] in g[p[0]];
      EdgeReaches(h, p[0], p[1]);
      if |p| > 2 {
        var q := p[1..];
        forall k | 0 <= k < |q| - 1 ensures q[k] in g && q[k + 1] in g[q[k]] {
          assert q[k] == p[k + 1] && q[k + 1] == p[k + 2];
        }
        PathSurvives(g, libs, c, q);
        ReachesTrans(h, p[0], p[1], p[|p| - 1]);
      }
    }
  }

  lemma ReduceOneKeepsReach(g: Graph, libs: set<Lib>, c: Lib)
    requires Over(g, libs) && Acyclic(g) && c in libs
    ensures SameReach(g, ReduceOne(g, c)) && Acyclic(ReduceOne(g, c)) && Over(ReduceOne(g, c), libs)
  {
    var h := ReduceOne(g, c);
    forall a, b ensures Reaches(g, a, b) <==> Reaches(h, a, b) {
      if Reaches(g, a, b) {
        var p :| Connects(g, p, a, b);
        PathSurvives(g, libs, c, p);
      }
      if Reaches(h, a, b) { SubgraphReaches(h, g, a, b); }
    }
    SubgraphAcyclic(h, g);
  }

  /** Reducing one library more. */
  lemma ReductionNext(g: Graph, libs: set<Lib>, done: set<Lib>, c: Lib)
    requires Over(g, libs) && Acyclic(g) && c in libs && c !in done
    requires SameReach(g, Reduction(g, done))
    ensures ReduceOne(Reduction(g, done), c) == Reduction(g, done + {c})
  {
    var h := Reduction(g, done);
    assert Implied(h, c) == Implied(g, c);
  }

  lemma {:induction false} ReductionKeepsReach(g: Graph, libs: set<Lib>, done: set<Lib>)
    requires Over(g, libs) && Acyclic(g) && done <= libs
    ensures SameReach(g, Reduction(g, done)) && Acyclic(Reduction(g, done)) && Over(Reduction(g, done), libs)
    decreases |done|
  {
    if done == {} {
      assert Reduction(g, {}) == g;
    } else {
      var c :| c in done;
      var rest := done - {c};
      ReductionKeepsReach(g, libs, rest);
      ReductionNext(g, libs, rest, c);
      assert rest + {c} == done;
      ReduceOneKeepsReach(Reduction(g, rest), libs, c);
    }
  }

  lemma ReductionNone(g: Graph)
    ensures Reduction(g, {}) == g
  {
  }

  /** The full reduction reaches what the graph reaches, and none of its edges is implied by a longer
      path in it. */
  lemma ReductionIsReduced(g: Graph, libs: set<Lib>)
    requires Over(g, libs) && Acyclic(g)
    ensures var r := Reduction(g, libs);
            && SameReach(g, r)
            && forall a, b, i :: a in libs && b in r[a] && i in r[a] ==> !Reaches(r, i, b)
  {
    ReductionKeepsReach(g, libs, libs);
  }

  /** It is the least graph with that reachability: every other has all its edges. */
  lemma ReductionIsLeast(g: Graph, libs: set<Lib>, h: Graph, a: Lib)
    requires Over(g, libs) && Acyclic(g) && a in libs && SameReach(g, h)
    ensures a in h || Reduction(g, libs)[a] == {}
    ensures a in h ==> Reduction(g, libs)[a] <= h[a]
  {
    forall b | b in Reduction(g, libs)[a] ensures a in h && b in h[a] {
      EdgeReaches(g, a, b);
      var c := ReachesFirst(h, a, b);
      if c != b {
        EdgeReaches(h, a, c);
        var i := ReachesFirst(g, a, c);
        if i != c { ReachesTrans(g, i, c, b); }
      }
    }
  }

  // ------------------------------------------------------------ compute_graph

  /** The libraries among `bs` that need a symbol of `a`. */
  ghost function Users(a: Lib, bs: set<Lib>): set<Lib> {
    set b | b in bs && b != a && !(a.syms !! b.neededSyms)
  }

  /** The dependencies the symbols give rise to. */
  ghost function SymbolGraph(libs: set<Lib>): Graph {
    map a | a in libs :: Users(a, libs)
  }

  /** An edge is a symbol that one library defines and another needs. */
  lemma EdgeIsSymbol(libs: set<Lib>, a: Lib, b: Lib)
    requires a in libs && b in libs
    ensures b in SymbolGraph(libs)[a] <==> a != b && exists s :: s in a.syms && s in b.neededSyms
  {
    if forall s :: s in a.syms ==> s !in b.neededSyms {
      assert a.syms !! b.neededSyms;
    }
  }

  /** The same as far as the libraries in `done` are concerned. */
  ghost function SymbolPart(libs: set<Lib>, done: set<Lib>): Graph {
    map a | a in libs :: if a in done then Users(a, libs) else {}
  }

  lemma SymbolPartNext(libs: set<Lib>, done: set<Lib>, a: Lib)
    requires a in libs
    ensures SymbolPart(libs, done)[a := Users(a, libs)] == SymbolPart(libs, done + {a})
  {
  }

  lemma SymbolPartAll(libs: set<Lib>)
    ensures SymbolPart(libs, libs) == SymbolGraph(libs)
  {
  }

  lemma UsersNext(a: Lib, bs: set<Lib>, b: Lib)
    requires b != a
    ensures Users(a, bs + {b}) == if !(a.syms !! b.neededSyms) then Users(a, bs) + {b} else Users(a, bs)
  {
  }

  lemma UpdateTwice(g: Graph, a: Lib, x: set<Lib>, y: set<Lib>)
    ensures g[a := x][a] == x && g[a := x][a := y] == g[a := y]
    ensures a in g && g[a] == x ==> g[a := x] == g
  {
  }

  lemma UsersAll(a: Lib, libs: set<Lib>)
    ensures Users(a, libs - {a}) == Users(a, libs) && Users(a, {}) == {}
  {
  }

  ghost predicate Inverse(needs: Graph, needed: Graph, libs: set<Lib>) {
    && Over(needs, libs) && Over(needed, libs)
    && forall a, b :: a in libs && b in libs ==> (b in needed[a] <==> a in needs[b])
  }

  /** The graph without the edges from `t` to the libraries in `gone`. */
  ghost function Cut(g: Graph, t: Lib, gone: set<Lib>): Graph
    requires t in g
  {
    g[t := g[t] - gone]
  }

  lemma CutNone(g: Graph, t: Lib)
    requires t in g
    ensures Cut(g, t, {}) == g
  {
    assert g[t] - {} == g[t];
  }

  lemma CutMore(g: Graph, t: Lib, a: set<Lib>, b: set<Lib>)
    requires t in g
    ensures Cut(Cut(g, t, a), t, b) == Cut(g, t, a + b)
  {
    assert g[t] - a - b == g[t] - (a + b);
  }

  /** The `needs` and `needed` sets of all libraries. */
  class LibSets {
    var needs: Graph
    var needed: Graph

    constructor (libs: set<Lib>)
      ensures Inverse(needs, needed, libs) && needed == SymbolPart(libs, {})
    {
      needs := map a | a in libs :: {};
      needed := map a | a in libs :: {};
    }

    /** compute_graph, first half, for one `a`: an edge for every other library that needs a
        symbol of `a`. */
    method AddUsers(a: Lib, libs: set<Lib>)
      requires Inverse(needs, needed, libs) && a in libs && needed[a] == {}
      modifies this
      ensures Inverse(needs, needed, libs)
      ensures needed == old(needed)[a := Users(a, libs)]
    {
      var bs := libs - {a};
      ghost var seen: set<Lib> := {};
      UsersAll(a, libs);
      UpdateTwice(needed, a, {}, {});
      while bs != {}
        invariant seen + bs == libs - {a} && Inverse(needs, needed, libs)
        invariant needed == old(needed)[a := Users(a, seen)]
      {
        var b :| b in bs;
        UsersNext(a, seen, b);
        UpdateTwice(old(needed), a, Users(a, seen), Users(a, seen) + {b});
        if !(a.syms !! b.neededSyms) { AddEdge(a, b, libs); }
        bs, seen := bs - {b}, seen + {b};
      }
      assert seen == libs - {a};
    }

    /** One edge, entered on both sides. */
    method AddEdge(a: Lib, b: Lib, ghost libs: set<Lib>)
      requires Inverse(needs, needed, libs) && a in libs && b in libs
      modifies this
      ensures Inverse(needs, needed, libs)
      ensures needed == old(needed)[a := old(needed)[a] + {b}]
    {
      needs := needs[b := needs[b] + {a}];
      needed := needed[a := needed[a] + {b}];
    }

    /** compute_graph, first half. */
    method AddEdges(libs: set<Lib>)
      requires Inverse(needs, needed, libs) && needed == SymbolPart(libs, {})
      modifies this
      ensures Inverse(needs, needed, libs) && needed == SymbolGraph(libs)
    {
      var todo := libs;
      ghost var done: set<Lib> := {};
      while todo != {}
        invariant done + todo == libs && done !! todo && Inverse(needs, needed, libs)
        invariant needed == SymbolPart(libs, done)
      {
        var a :| a in todo;
        SymbolPartNext(libs, done, a);
        AddUsers(a, libs);
        todo, done := todo - {a}, done + {a};
      }
      SymbolPartAll(libs);
    }

    /** compute_graph on libraries whose dependencies have no cycle. Whatever the order in which
        the sets are walked, the outcome is the transitive reduction: it reaches what the symbols
        imply, no edge of it is implied by others, no graph with that reach is smaller, and
        `needs` mirrors `needed`. */
    method ComputeGraph(libs: set<Lib>)
      requires Inverse(needs, needed, libs) && needed == SymbolPart(libs, {})
      requires Acyclic(SymbolGraph(libs))
      modifies this
      ensures Inverse(needs, needed, libs)
      ensures needed == Reduction(SymbolGraph(libs), libs)
      ensures SameReach(SymbolGraph(libs), needed)
      ensures forall a, b, i :: a in libs && b in needed[a] && i in needed[a] ==> !Reaches(needed, i, b)
    {
      AddEdges(libs);
      PruneEach(libs);
      ReductionIsReduced(SymbolGraph(libs), libs);
    }

    /** compute_graph, second half. */
    method PruneEach(libs: set<Lib>)
      requires Inverse(needs, needed, libs) && Acyclic(needed)
      modifies this
      ensures Inverse(needs, needed, libs)
      ensures needed == Reduction(old(needed), libs)
    {
      ghost var g, done: set<Lib> := needed, {};
      var todo := libs;
      ReductionNone(g);
      while todo != {}
        invariant done + todo == libs && done !! todo && Inverse(needs, needed, libs)
        invariant needed == Reduction(g, done)
      {
        var c :| c in todo;
        ReductionKeepsReach(g, libs, done);
        ReductionNext(g, libs, done, c);
        PruneAll(c, libs);
        todo, done := todo - {c}, done + {c};
      }
      assert done == libs;
    }

    /** One edge, taken out on both sides. */
    method Discard(t: Lib, i: Lib, ghost libs: set<Lib>)
      requires Inverse(needs, needed, libs) && t in libs && i in libs
      modifies this
      ensures Inverse(needs, needed, libs)
      ensures needed == Cut(old(needed), t, {i})
    {
      needs := needs[i := needs[i] - {t}];
      needed := needed[t := needed[t] - {i}];
    }

    /** The nested function prune: removes from `t` everything `cur` reaches. It walks the graph
        it is changing, but never the part that changes. */
    method Prune(cur: Lib, t: Lib, ghost libs: set<Lib>)
      requires Inverse(needs, needed, libs) && Acyclic(needed) && cur in libs && t in libs
      requires cur != t && !Reaches(needed, cur, t)
      modifies this
      ensures Inverse(needs, needed, libs)
      ensures needed == Cut(old(needed), t, Desc(old(needed), cur))
      decreases |Desc(needed, cur)|
    {
      ghost var g := needed;
      var todo := needed[cur];
      ghost var gone: set<Lib> := {};
      CutNone(g, t);
      while todo != {}
        invariant todo <= g[cur] && Inverse(needs, needed, libs)
        invariant needed == Cut(g, t, gone)
        invariant Covered(g, cur, todo, gone)
        decreases |todo|
      {
        var i :| i in todo;
        NextIsFree(g, cur, t, i, libs);
        Discard(t, i, libs);
        CutMore(g, t, gone, {i});
        SameDesc(g, t, gone + {i}, i);
        Prune(i, t, libs);
        CutMore(g, t, gone + {i}, Desc(g, i));
        CoveredNext(g, cur, t, todo, gone, i, libs);
        gone := gone + {i} + Desc(g, i);
        todo := todo - {i};
      }
      AllGone(g, cur, gone);
    }

    /** The same for one library. */
    method PruneAll(c: Lib, ghost libs: set<Lib>)
      requires Inverse(needs, needed, libs) && Acyclic(needed) && c in libs
      modifies this
      ensures Inverse(needs, needed, libs)
      ensures needed == ReduceOne(old(needed), c)
    {
      ghost var g := needed;
      var todo := needed[c];
      ghost var gone: set<Lib> := {};
      CutNone(g, c);
      while todo != {}
        invariant todo <= g[c] && Inverse(needs, needed, libs)
        invariant needed == Cut(g, c, gone)
        invariant ImpliedBy(g, c, todo, gone)
        decreases |todo|
      {
        var i :| i in todo;
        NoWayBack(g, c, i, libs);
        SameDesc(g, c, gone, i);
        Prune(i, c, libs);
        CutMore(g, c, gone, Desc(g, i));
        ImpliedNext(g, c, todo, gone, i);
        gone := gone + Desc(g, i);
        todo := todo - {i};
      }
      AllImplied(g, c, gone);
    }
  }

  /** The neighbours of `cur` outside `todo` are dealt with: `gone` holds them and what they reach. */
  ghost predicate Covered(g: Graph, cur: Lib, todo: set<Lib>, gone: set<Lib>)
    requires cur in g
  {
    && (forall x :: x in gone ==> x in Desc(g, cur))
    && (forall i :: i in g[cur] && i !in todo ==> i in gone && Desc(g, i) <= gone)
  }

  lemma CoveredNext(g: Graph, cur: Lib, t: Lib, todo: set<Lib>, gone: set<Lib>, i: Lib, libs: set<Lib>)
    requires Over(g, libs) && Acyclic(g) && cur in libs && i in g[cur] && !Reaches(g, cur, t)
    requires Covered(g, cur, todo, gone)
    ensures Covered(g, cur, todo - {i}, gone + {i} + Desc(g, i))
  {
    NextIsFree(g, cur, t, i, libs);
  }

  ghost predicate ImpliedBy(g: Graph, c: Lib, todo: set<Lib>, gone: set<Lib>)
    requires c in g
  {
    && (forall x :: x in gone ==> x in Implied(g, c))
    && (forall i :: i in g[c] && i !in todo ==> Desc(g, i) <= gone)
  }

  lemma ImpliedNext(g: Graph, c: Lib, todo: set<Lib>, gone: set<Lib>, i: Lib)
    requires c in g && i in g[c] && ImpliedBy(g, c, todo, gone)
    ensures ImpliedBy(g, c, todo - {i}, gone + Desc(g, i))
  {
  }

  lemma AllImplied(g: Graph, c: Lib, gone: set<Lib>)
    requires c in g && ImpliedBy(g, c, {}, gone)
    ensures gone == Implied(g, c)
  {
  }

  lemma NoWayBack(g: Graph, c: Lib, i: Lib, libs: set<Lib>)
    requires Over(g, libs) && Acyclic(g) && c in libs && i in g[c]
    ensures i in libs && i != c && !Reaches(g, i, c)
  {
    EdgeReaches(g, c, i);
    if Reaches(g, i, c) { ReachesTrans(g, c, i, c); }
  }

  /** A neighbour of a library that cannot reach `t` is not `t`, cannot reach it, and reaches
      strictly less. */
  lemma NextIsFree(g: Graph, cur: Lib, t: Lib, i: Lib, libs: set<Lib>)
    requires Over(g, libs) && Acyclic(g) && cur in libs && i in g[cur] && !Reaches(g, cur, t)
    ensures i != t && !Reaches(g, i, t) && i in libs && i in Desc(g, cur)
    ensures Desc(g, i) < Desc(g, cur) && |Desc(g, i)| < |Desc(g, cur)|
  {
    EdgeReaches(g, cur, i);
    if Reaches(g, i, t) { ReachesTrans(g, cur, i, t); }
    forall x | x in Desc(g, i) ensures x in Desc(g, cur) { ReachesTrans(g, cur, i, x); }
    assert i !in Desc(g, i);
    SubsetSize(Desc(g, i), Desc(g, cur));
  }

  lemma SubsetSize(a: set<Lib>, b: set<Lib>)
    requires a < b
    ensures |a| < |b|
  {
    var x :| x in b && x !in a;
    assert a <= b - {x};
    if a != {} { SubsetLe(a, b - {x}); }
  }

  lemma SubsetLe(a: set<Lib>, b: set<Lib>)
    requires a <= b
    ensures |a| <= |b|
  {
    if a != {} {
      var x :| x in a;
      SubsetLe(a - {x}, b - {x});
    }
  }

  /** Cutting edges of `t` changes nothing for a library that cannot reach `t`. */
  lemma SameDesc(g: Graph, t: Lib, gone: set<Lib>, i: Lib)
    requires t in g && Acyclic(g) && i != t && !Reaches(g, i, t)
    ensures Desc(Cut(g, t, gone), i) == Desc(g, i) && !Reaches(Cut(g, t, gone), i, t) && Acyclic(Cut(g, t, gone))
  {
    var h := Cut(g, t, gone);
    SubgraphAcyclic(h, g);
    forall x ensures Reaches(h, i, x) <==> Reaches(g, i, x) {
      if Reaches(g, i, x) { ReachAvoids(g, h, t, i, x); }
      if Reaches(h, i, x) { SubgraphReaches(h, g, i, x); }
    }
  }

  lemma AllGone(g: Graph, cur: Lib, gone: set<Lib>)
    requires cur in g && Covered(g, cur, {}, gone)
    ensures gone == Desc(g, cur)
  {
    forall x | x in Desc(g, cur) ensures x in gone {
      var i := ReachesFirst(g, cur, x);
      assert i != x ==> x in Desc(g, i);
    }
  }
}
