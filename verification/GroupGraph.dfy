/**
 Deleting an inventory group: the hosts and child groups of the deleted group are
 handed to its parents (forail/main/signals.py:342-379).  The point of the migration
 is that nobody loses anything they could reach, and nobody gains anything.
 */
module GroupGraph {

  type Pk = nat

  /** An edge `(p, c)` says that `c` is among the children of `p`; a pair `(p, h)` of
      `hosts` says that host `h` is directly in group `p`. */
  datatype Graph = Graph(groups: set<Pk>, edges: set<(Pk, Pk)>, hosts: set<(Pk, Pk)>) {
    ghost predicate Valid() {
      && (forall e <- edges :: e.0 in groups && e.1 in groups)
      && (forall m <- hosts :: m.0 in groups)
    }

    /** The parents that still exist once `g` itself is gone. */
    function OtherParents(g: Pk): set<Pk> {
      set e <- edges | e.1 == g && e.0 != g :: e.0
    }

    function Children(g: Pk): set<Pk> {
      set e <- edges | e.0 == g :: e.1
    }

    function DirectHosts(g: Pk): set<Pk> {
      set m <- hosts | m.0 == g :: m.1
    }

    /** Handing the group itself to one of its parents violates the foreign key. */
    predicate Deletable(g: Pk) {
      (g, g) in edges ==> OtherParents(g) == {}
    }
  }

  function Pairs(from: set<Pk>, to: set<Pk>): set<(Pk, Pk)> {
    set p <- from, c <- to :: (p, c)
  }

  lemma PairsGrow(from: set<Pk>, p: Pk, to: set<Pk>)
    ensures Pairs(from + {p}, to) == Pairs(from, to) + Pairs({p}, to)
  {
  }

  /** The graph left by a successful deletion. */
  function Delete(G: Graph, g: Pk): Graph {
    Graph(
      G.groups - {g},
      (set e <- G.edges | e.0 != g && e.1 != g) +
      Pairs(G.OtherParents(g), G.Children(g)),
      (set m <- G.hosts | m.0 != g) +
      Pairs(G.OtherParents(g), G.DirectHosts(g)))
  }

  /** Nobody but the parents of the deleted group adopts its hosts and its children. */
  lemma OnlyParentsAdopt(G: Graph, g: Pk, a: Pk, b: Pk)
    requires G.Deletable(g)
    ensures (a, b) in Delete(G, g).edges <==>
              a != g && b != g && ((a, b) in G.edges || ((a, g) in G.edges && (g, b) in G.edges))
    ensures (a, b) in Delete(G, g).hosts <==> a != g && ((a, b) in G.hosts || ((a, g) in G.edges && (g, b) in G.hosts))
  {
    assert a in G.OtherParents(g) <==> (a, g) in G.edges && a != g;
    assert b in G.Children(g) <==> (g, b) in G.edges;
    assert b in G.DirectHosts(g) <==> (g, b) in G.hosts;
    if (g, g) in G.edges {
      assert G.OtherParents(g) == {};
    }
  }

  /** The foreign keys of the new graph are sound exactly when the group was deletable. */
  lemma DeleteValidIff(G: Graph, g: Pk)
    requires G.Valid()
    ensures Delete(G, g).Valid() <==> G.Deletable(g)
    ensures Delete(G, g).Valid() <==> forall e <- Delete(G, g).edges :: e.1 in Delete(G, g).groups
  {
    if !G.Deletable(g) {
      var p :| p in G.OtherParents(g);
      assert g in G.Children(g);
      assert (p, g) in Delete(G, g).edges && (p, g).1 == g;
    }
  }

  // ----- Reachability -----

  ghost predicate Steps(edges: set<(Pk, Pk)>, a: Pk, b: Pk, n: nat)
    decreases n
  {
    if n == 0 then a == b
    else exists c :: (a, c) in edges && Steps(edges, c, b, n - 1)
  }

  /** `b` is below `a`: one or more edges lead from `a` to `b`. */
  ghost predicate Below(edges: set<(Pk, Pk)>, a: Pk, b: Pk) {
    exists n: nat :: n > 0 && Steps(edges, a, b, n)
  }

  /** Host `h` is in `a` or in some group below it. */
  ghost predicate HostUnder(G: Graph, a: Pk, h: Pk) {
    exists x :: (x == a || Below(G.edges, a, x)) && (x, h) in G.hosts
  }

  ghost predicate Acyclic(G: Graph) {
    forall x <- G.groups :: !Below(G.edges, x, x)
  }

  lemma EdgeIsBelow(edges: set<(Pk, Pk)>, a: Pk, b: Pk)
    requires (a, b) in edges
    ensures Below(edges, a, b)
  {
    assert Steps(edges, b, b, 0);
    assert Steps(edges, a, b, 1);
  }

  lemma {:induction false} StepsCompose(edges: set<(Pk, Pk)>, a: Pk, b: Pk, c: Pk, m: nat, n: nat)
    requires Steps(edges, a, b, m) && Steps(edges, b, c, n)
    ensures Steps(edges, a, c, m + n)
    decreases m
  {
    if m > 0 {
      var x :| (a, x) in edges && Steps(edges, x, b, m - 1);
      StepsCompose(edges, x, b, c, m - 1, n);
    }
  }

  lemma BelowTransitive(edges: set<(Pk, Pk)>, a: Pk, b: Pk, c: Pk)
    requires Below(edges, a, b) && Below(edges, b, c)
    ensures Below(edges, a, c)
  {
    var m :| m > 0 && Steps(edges, a, b, m);
    var n :| n > 0 && Steps(edges, b, c, n);
    StepsCompose(edges, a, b, c, m, n);
  }

  // ----- One deletion -----

  /** Every route between survivors that passed through `g` has a bypass. */
  lemma {:induction false} RouteSurvives(G: Graph, g: Pk, a: Pk, b: Pk, n: nat)
    requires G.Deletable(g) && a != g && b != g && n > 0
    requires Steps(G.edges, a, b, n)
    ensures Below(Delete(G, g).edges, a, b)
    decreases n
  {
    var E := Delete(G, g).edges;
    var x :| (a, x) in G.edges && Steps(G.edges, x, b, n - 1);
    if x != g {
      EdgeIsBelow(E, a, x);
      if n > 1 {
        RouteSurvives(G, g, x, b, n - 1);
        BelowTransitive(E, a, x, b);
      }
    } else {
      var y :| (g, y) in G.edges && Steps(G.edges, y, b, n - 2);
      assert a in G.OtherParents(g) && y in G.Children(g);
      assert (a, y) in E;
      EdgeIsBelow(E, a, y);
      if n > 2 {
        RouteSurvives(G, g, y, b, n - 2);
        BelowTransitive(E, a, y, b);
      }
    }
  }

  /** Every route of the new graph was already there. */
  lemma {:induction false} RouteExisted(G: Graph, g: Pk, a: Pk, b: Pk, n: nat)
    requires n > 0 && Steps(Delete(G, g).edges, a, b, n)
    ensures Below(G.edges, a, b)
    decreases n
  {
    var x :| (a, x) in Delete(G, g).edges && Steps(Delete(G, g).edges, x, b, n - 1);
    if (a, x) in G.edges {
      EdgeIsBelow(G.edges, a, x);
    } else {
      EdgeIsBelow(G.edges, a, g);
      EdgeIsBelow(G.edges, g, x);
      BelowTransitive(G.edges, a, g, x);
    }
    if n > 1 {
      RouteExisted(G, g, x, b, n - 1);
      BelowTransitive(G.edges, a, x, b);
    }
  }

  /** A successful deletion leaves reachability between the remaining groups as it was,
      in graphs with cycles too. */
  lemma DeletePreservesReachability(G: Graph, g: Pk, a: Pk, b: Pk)
    requires G.Deletable(g) && a != g && b != g
    ensures Below(G.edges, a, b) <==> Below(Delete(G, g).edges, a, b)
  {
    if Below(G.edges, a, b) {
      var n :| n > 0 && Steps(G.edges, a, b, n);
      RouteSurvives(G, g, a, b, n);
    }
    if Below(Delete(G, g).edges, a, b) {
      var n :| n > 0 && Steps(Delete(G, g).edges, a, b, n);
      RouteExisted(G, g, a, b, n);
    }
  }

  /** Walking back from `g`: whoever can reach `g` reaches it through one of its parents. */
  lemma {:induction false} LastParent(G: Graph, g: Pk, a: Pk, n: nat) returns (p: Pk)
    requires a != g && n > 0 && Steps(G.edges, a, g, n)
    ensures p in G.OtherParents(g) && (p == a || Below(G.edges, a, p))
    decreases n
  {
    var x :| (a, x) in G.edges && Steps(G.edges, x, g, n - 1);
    if x == g {
      p := a;
    } else {
      p := LastParent(G, g, x, n - 1);
      EdgeIsBelow(G.edges, a, x);
      if p != x {
        BelowTransitive(G.edges, a, x, p);
      }
    }
  }

  /** A successful deletion leaves the hosts under every remaining group as they were. */
  lemma DeletePreservesHosts(G: Graph, g: Pk, a: Pk, h: Pk)
    requires G.Valid() && G.Deletable(g) && a != g
    ensures HostUnder(G, a, h) <==> HostUnder(Delete(G, g), a, h)
  {
    var G' := Delete(G, g);
    if HostUnder(G, a, h) {
      var x :| (x == a || Below(G.edges, a, x)) && (x, h) in G.hosts;
      if x != g {
        DeletePreservesReachability(G, g, a, x);
        assert (x, h) in G'.hosts;
      } else {
        var n :| n > 0 && Steps(G.edges, a, g, n);
        var p := LastParent(G, g, a, n);
        DeletePreservesReachability(G, g, a, p);
        assert h in G.DirectHosts(g);
        assert (p, h) in G'.hosts;
      }
    }
    if HostUnder(G', a, h) {
      var x :| (x == a || Below(G'.edges, a, x)) && (x, h) in G'.hosts;
      assert x != g;
      DeletePreservesReachability(G, g, a, x);
      if (x, h) !in G.hosts {
        assert x in G.OtherParents(g) && (g, h) in G.hosts;
        EdgeIsBelow(G.edges, x, g);
        if x != a {
          BelowTransitive(G.edges, a, x, g);
        }
      }
    }
  }

  /** In an acyclic inventory a deletion cannot fail, and keeps the inventory acyclic. */
  lemma AcyclicAlwaysDeletable(G: Graph, g: Pk)
    requires G.Valid() && Acyclic(G) && g in G.groups
    ensures G.Deletable(g) && Delete(G, g).Valid() && Acyclic(Delete(G, g))
  {
    if (g, g) in G.edges {
      EdgeIsBelow(G.edges, g, g);
    }
    forall x <- Delete(G, g).groups
      ensures !Below(Delete(G, g).edges, x, x)
    {
      DeletePreservesReachability(G, g, x, x);
    }
  }

  // ----- Any number of deletions, in any order -----

  /** The graph after the deletions of `order`, or None if one of them fails. */
  datatype Outcome = Failed | Done(graph: Graph)

  function DeleteAll(G: Graph, order: seq<Pk>): Outcome
    decreases |order|
  {
    if order == [] then Done(G)
    else if !G.Deletable(order[0]) then Failed
    else DeleteAll(Delete(G, order[0]), order[1..])
  }

  lemma {:induction false} DeleteAllPreserves(G: Graph, order: seq<Pk>, a: Pk, b: Pk, h: Pk)
    requires G.Valid() && DeleteAll(G, order).Done?
    requires a !in order && b !in order
    ensures Below(G.edges, a, b) <==> Below(DeleteAll(G, order).graph.edges, a, b)
    ensures HostUnder(G, a, h) <==> HostUnder(DeleteAll(G, order).graph, a, h)
    decreases |order|
  {
    if order != [] {
      DeletePreservesReachability(G, order[0], a, b);
      DeletePreservesHosts(G, order[0], a, h);
      DeleteAllPreserves(Delete(G, order[0]), order[1..], a, b, h);
    }
  }

  /** Two orders that delete the same groups and both succeed agree on what every
      remaining group reaches. */
  lemma OrderIrrelevant(G: Graph, first: seq<Pk>, second: seq<Pk>, a: Pk, b: Pk, h: Pk)
    requires G.Valid() && DeleteAll(G, first).Done? && DeleteAll(G, second).Done?
    requires forall x :: x in first <==> x in second
    requires a !in first && b !in first
    ensures Below(DeleteAll(G, first).graph.edges, a, b) <==> Below(DeleteAll(G, second).graph.edges, a, b)
    ensures HostUnder(DeleteAll(G, first).graph, a, h) <==> HostUnder(DeleteAll(G, second).graph, a, h)
  {
    DeleteAllPreserves(G, first, a, b, h);
    DeleteAllPreserves(G, second, a, b, h);
  }

  /** In an acyclic inventory every order of distinct groups succeeds. */
  lemma {:induction false} AcyclicDeleteAllSucceeds(G: Graph, order: seq<Pk>)
    requires G.Valid() && Acyclic(G)
    requires forall i :: 0 <= i < |order| ==> order[i] in G.groups
    requires forall i, j :: 0 <= i < j < |order| ==> order[i] != order[j]
    ensures DeleteAll(G, order).Done?
    ensures Acyclic(DeleteAll(G, order).graph)
    decreases |order|
  {
    if order != [] {
      AcyclicAlwaysDeletable(G, order[0]);
      AcyclicDeleteAllSucceeds(Delete(G, order[0]), order[1..]);
    }
  }

  /** With a cycle the order does matter: 1 and 2 are each other's parents and 1 also has
      parent 3.  Deleting 2 makes 1 its own child, after which 1 can be deleted only once 3
      is gone. */
  lemma CyclicOrderMatters()
    ensures var G := Graph({1, 2, 3}, {(1, 2), (2, 1), (3, 1)}, {});
            G.Valid() && DeleteAll(G, [3, 2, 1]).Done? && DeleteAll(G, [2, 1, 3]).Failed?
  {
    hide DeleteAll;
    var G := Graph({1, 2, 3}, {(1, 2), (2, 1), (3, 1)}, {});
    CycleIntact(G);
    CycleBroken(G);
  }

  lemma CycleIntact(G: Graph)
    requires G == Graph({1, 2, 3}, {(1, 2), (2, 1), (3, 1)}, {})
    ensures DeleteAll(G, [3, 2, 1]).Done?
  {
    var H := Delete(G, 3);
    assert G.OtherParents(3) == {} && H.edges == {(1, 2), (2, 1)};
    var K := Delete(H, 2);
    assert K.OtherParents(1) == {};
    assert DeleteAll(G, [3, 2, 1]) == DeleteAll(H, [2, 1]);
    assert DeleteAll(H, [2, 1]) == DeleteAll(K, [1]);
    assert DeleteAll(K, [1]) == DeleteAll(Delete(K, 1), []);
  }

  lemma CycleBroken(G: Graph)
    requires G == Graph({1, 2, 3}, {(1, 2), (2, 1), (3, 1)}, {})
    ensures DeleteAll(G, [2, 1, 3]).Failed?
  {
    assert 1 in G.OtherParents(2) && 1 in G.Children(2);
    var H := Delete(G, 2);
    assert (1, 1) in H.edges && (3, 1) in H.edges;
    assert 3 in H.OtherParents(1);
    assert DeleteAll(G, [2, 1, 3]) == DeleteAll(H, [1, 3]);
  }

  // ----- Which sequences of deletions succeed -----

  function Members(order: seq<Pk>): set<Pk> {
    set g <- order
  }

  ghost predicate ViaIn(edges: set<(Pk, Pk)>, gone: set<Pk>, a: Pk, b: Pk, n: nat)
    decreases n
  {
    if n == 0 then (a, b) in edges else exists c <- gone :: (a, c) in edges && ViaIn(edges, gone, c, b, n - 1)
  }

  /** A route leads from `a` to `b` on which every group in between is in `gone`. */
  ghost predicate Via(edges: set<(Pk, Pk)>, gone: set<Pk>, a: Pk, b: Pk) {
    exists n: nat :: ViaIn(edges, gone, a, b, n)
  }

  /** What is below a group is what routes through any groups lead to. */
  lemma BelowIsVia(edges: set<(Pk, Pk)>, a: Pk, b: Pk)
    ensures Below(edges, a, b) <==> Via(edges, set e <- edges :: e.1, a, b)
  {
    var all := set e <- edges :: e.1;
    if n: nat :| n > 0 && Steps(edges, a, b, n) {
      StepsAreVia(edges, all, a, b, n);
    }
    if n: nat :| ViaIn(edges, all, a, b, n) {
      ViaIsSteps(edges, all, a, b, n);
    }
  }

  lemma {:induction false} StepsAreVia(edges: set<(Pk, Pk)>, all: set<Pk>, a: Pk, b: Pk, n: nat)
    requires n > 0 && Steps(edges, a, b, n) && all == set e <- edges :: e.1
    ensures ViaIn(edges, all, a, b, n - 1)
    decreases n
  {
    var c :| (a, c) in edges && Steps(edges, c, b, n - 1);
    if n > 1 {
      StepsAreVia(edges, all, c, b, n - 1);
    }
  }

  lemma {:induction false} ViaIsSteps(edges: set<(Pk, Pk)>, all: set<Pk>, a: Pk, b: Pk, n: nat)
    requires ViaIn(edges, all, a, b, n)
    ensures Steps(edges, a, b, n + 1)
    decreases n
  {
    if n == 0 {
      assert Steps(edges, b, b, 0);
    } else {
      var c :| c in all && (a, c) in edges && ViaIn(edges, all, c, b, n - 1);
      ViaIsSteps(edges, all, c, b, n - 1);
    }
  }

  /** `g` leads back to itself through deleted groups, and another remaining group leads to it
      through deleted groups. */
  ghost predicate Blocked(G: Graph, gone: set<Pk>, g: Pk) {
    g !in gone && Via(G.edges, gone, g, g) && exists p :: p !in gone && p != g && Via(G.edges, gone, p, g)
  }

  lemma {:induction false} ViaJoined(edges: set<(Pk, Pk)>, gone: set<Pk>, a: Pk, c: Pk, b: Pk, n: nat)
    requires ViaIn(edges, gone, a, c, n) && c in gone && Via(edges, gone, c, b)
    ensures Via(edges, gone, a, b)
    decreases n
  {
    if n == 0 {
      var m: nat :| ViaIn(edges, gone, c, b, m);
      assert ViaIn(edges, gone, a, b, m + 1);
    } else {
      var x :| x in gone && (a, x) in edges && ViaIn(edges, gone, x, c, n - 1);
      ViaJoined(edges, gone, x, c, b, n - 1);
      var m: nat :| ViaIn(edges, gone, x, b, m);
      assert ViaIn(edges, gone, a, b, m + 1);
    }
  }

  lemma {:induction false} ViaMore(edges: set<(Pk, Pk)>, gone: set<Pk>, more: set<Pk>, a: Pk, b: Pk, n: nat)
    requires ViaIn(edges, gone, a, b, n) && gone <= more
    ensures ViaIn(edges, more, a, b, n)
    decreases n
  {
    if n > 0 {
      var c :| c in gone && (a, c) in edges && ViaIn(edges, gone, c, b, n - 1);
      ViaMore(edges, gone, more, c, b, n - 1);
    }
  }

  lemma {:induction false} ViaSplit(edges: set<(Pk, Pk)>, gone: set<Pk>, g: Pk, a: Pk, b: Pk, n: nat)
    requires ViaIn(edges, gone + {g}, a, b, n)
    ensures Via(edges, gone, a, b) || (Via(edges, gone, a, g) && Via(edges, gone, g, b))
    decreases n
  {
    if n == 0 {
      assert ViaIn(edges, gone, a, b, 0);
    } else {
      var c :| c in gone + {g} && (a, c) in edges && ViaIn(edges, gone + {g}, c, b, n - 1);
      ViaSplit(edges, gone, g, c, b, n - 1);
      if c == g {
        assert ViaIn(edges, gone, a, g, 0);
      } else if Via(edges, gone, c, b) {
        var m: nat :| ViaIn(edges, gone, c, b, m);
        assert ViaIn(edges, gone, a, b, m + 1);
      } else {
        var m: nat :| ViaIn(edges, gone, c, g, m);
        assert ViaIn(edges, gone, a, g, m + 1);
      }
    }
  }

  /** One more deleted group lets routes through it. */
  lemma ViaOneMore(edges: set<(Pk, Pk)>, gone: set<Pk>, g: Pk, a: Pk, b: Pk)
    ensures Via(edges, gone + {g}, a, b) <==> Via(edges, gone, a, b) || (Via(edges, gone, a, g) && Via(edges, gone, g, b))
  {
    if Via(edges, gone + {g}, a, b) {
      var n: nat :| ViaIn(edges, gone + {g}, a, b, n);
      ViaSplit(edges, gone, g, a, b, n);
    }
    if Via(edges, gone, a, b) {
      var n: nat :| ViaIn(edges, gone, a, b, n);
      ViaMore(edges, gone, gone + {g}, a, b, n);
    }
    if Via(edges, gone, a, g) && Via(edges, gone, g, b) {
      var n: nat :| ViaIn(edges, gone, a, g, n);
      var m: nat :| ViaIn(edges, gone, g, b, m);
      ViaMore(edges, gone, gone + {g}, a, g, n);
      ViaMore(edges, gone, gone + {g}, g, b, m);
      ViaJoined(edges, gone + {g}, a, g, b, n);
    }
  }

  /** `H` has, between the groups that are left, an edge for every route of `G` through
      those that are gone, and no other edge. */
  ghost predicate Condensed(G: Graph, gone: set<Pk>, H: Graph) {
    forall a: Pk, b: Pk :: (a, b) in H.edges <==> a !in gone && b !in gone && Via(G.edges, gone, a, b)
  }

  /** The hosts directly in a group that is left are those it had, and those of every deleted
      group to which a route through deleted groups leads. */
  ghost predicate Adopted(G: Graph, gone: set<Pk>, H: Graph) {
    forall a: Pk, h: Pk :: (a, h) in H.hosts <==>
      a !in gone && ((a, h) in G.hosts || exists x <- gone :: Via(G.edges, gone, a, x) && (x, h) in G.hosts)
  }

  lemma DeletableUnlessBlocked(G: Graph, gone: set<Pk>, H: Graph, g: Pk)
    requires Condensed(G, gone, H)
    ensures H.Deletable(g) <==> !Blocked(G, gone, g)
  {
    if !H.Deletable(g) {
      var p :| p in H.OtherParents(g);
      assert (g, g) in H.edges && (p, g) in H.edges;
    }
    if Blocked(G, gone, g) {
      var p :| p !in gone && p != g && Via(G.edges, gone, p, g);
      assert (g, g) in H.edges && (p, g) in H.edges;
      assert p in H.OtherParents(g);
    }
  }

  lemma DeleteCondenses(G: Graph, gone: set<Pk>, H: Graph, g: Pk)
    requires Condensed(G, gone, H) && H.Deletable(g)
    ensures Condensed(G, gone + {g}, Delete(H, g))
    ensures Adopted(G, gone, H) ==> Adopted(G, gone + {g}, Delete(H, g))
  {
    hide Delete, Via, Graph.Deletable;
    var K := Delete(H, g);
    forall a: Pk, b: Pk
      ensures (a, b) in K.edges <==> a !in gone + {g} && b !in gone + {g} && Via(G.edges, gone + {g}, a, b)
    {
      ViaOneMore(G.edges, gone, g, a, b);
      OnlyParentsAdopt(H, g, a, b);
      assert g in gone ==> gone + {g} == gone;
    }
    if Adopted(G, gone, H) {
      forall a: Pk, h: Pk
        ensures (a, h) in K.hosts <==>
                  a !in gone + {g}
                  && ((a, h) in G.hosts || exists x <- gone + {g} :: Via(G.edges, gone + {g}, a, x) && (x, h) in G.hosts)
      {
        OnlyParentsAdopt(H, g, a, h);
        if a !in gone + {g} {
          AdoptedNext(G, gone, H, g, a, h);
        }
      }
    }
  }

  lemma AdoptedNext(G: Graph, gone: set<Pk>, H: Graph, g: Pk, a: Pk, h: Pk)
    requires Condensed(G, gone, H) && Adopted(G, gone, H) && a !in gone + {g}
    ensures (a, h) in H.hosts || ((a, g) in H.edges && (g, h) in H.hosts) <==>
              (a, h) in G.hosts || exists x <- gone + {g} :: Via(G.edges, gone + {g}, a, x) && (x, h) in G.hosts
  {
    hide Via;
    var more := gone + {g};
    if g in gone {
      assert more == gone;
    } else {
      forall x: Pk
        ensures Via(G.edges, more, a, x) <==> Via(G.edges, gone, a, x) || (Via(G.edges, gone, a, g) && Via(G.edges, gone, g, x))
      {
        ViaOneMore(G.edges, gone, g, a, x);
      }
      if x :| x in gone && Via(G.edges, gone, a, x) && (x, h) in G.hosts {
        assert x in more && Via(G.edges, more, a, x);
      }
      if (a, g) in H.edges && (g, h) in H.hosts {
        assert Via(G.edges, more, a, g) && g in more;
        if x :| x in gone && Via(G.edges, gone, g, x) && (x, h) in G.hosts {
          assert x in more && Via(G.edges, more, a, x);
        }
      }
    }
  }

  lemma {:induction false} DeleteAllSnoc(G: Graph, order: seq<Pk>, g: Pk)
    ensures DeleteAll(G, order + [g]) ==
              match DeleteAll(G, order)
              case Failed => Failed
              case Done(H) => if H.Deletable(g) then Done(Delete(H, g)) else Failed
    decreases |order|
  {
    if order == [] {
      assert ([g])[1..] == [];
      assert order + [g] == [g];
      if G.Deletable(g) {
        assert DeleteAll(G, [g]) == DeleteAll(Delete(G, g), []);
      }
    } else {
      assert (order + [g])[1..] == order[1..] + [g];
      if G.Deletable(order[0]) {
        DeleteAllSnoc(Delete(G, order[0]), order[1..], g);
      }
    }
  }

  lemma NothingGone(G: Graph)
    ensures Condensed(G, {}, G) && Adopted(G, {}, G)
  {
    forall a: Pk, b: Pk
      ensures (a, b) in G.edges <==> Via(G.edges, {}, a, b)
    {
      assert (a, b) in G.edges <==> ViaIn(G.edges, {}, a, b, 0);
    }
  }

  /** A sequence of deletions succeeds exactly when none of its groups is blocked when its
      turn comes, and then leaves the condensed graph, with the hosts adopted along the same
      routes. */
  lemma {:induction false} DeleteAllSucceedsIff(G: Graph, order: seq<Pk>)
    ensures DeleteAll(G, order).Done? <==> forall i :: 0 <= i < |order| ==> !Blocked(G, Members(order[..i]), order[i])
    ensures DeleteAll(G, order).Done? ==>
              var H := DeleteAll(G, order).graph;
              H.groups == G.groups - Members(order) && Condensed(G, Members(order), H) && Adopted(G, Members(order), H)
    decreases |order|
  {
    hide Blocked, Condensed, Adopted, DeleteAll, Delete, Graph.Deletable;
    if order == [] {
      NothingGone(G);
      NoDeletions(G);
      assert Members([]) == {};
    } else {
      var n := |order| - 1;
      var before, g := order[..n], order[n];
      assert order == before + [g] && Members(order) == Members(before) + {g};
      DeleteAllSucceedsIff(G, before);
      DeleteAllSnoc(G, before, g);
      assert forall i :: 0 <= i < n ==> before[..i] == order[..i] && before[i] == order[i];
      if DeleteAll(G, before).Done? {
        DeletableUnlessBlocked(G, Members(before), DeleteAll(G, before).graph, g);
        if DeleteAll(G, before).graph.Deletable(g) {
          DeleteCondenses(G, Members(before), DeleteAll(G, before).graph, g);
          DeleteTakes(DeleteAll(G, before).graph, g);
        }
      }
    }
  }

  lemma DeleteTakes(G: Graph, g: Pk)
    ensures Delete(G, g).groups == G.groups - {g}
  {
  }

  lemma NoDeletions(G: Graph)
    ensures DeleteAll(G, []) == Done(G)
  {
  }

  // ----- The signal handlers -----

  class Inventory {
    var groups: set<Pk>
    var edges: set<(Pk, Pk)>
    var hosts: set<(Pk, Pk)>

    function Contents(): Graph
      reads this
    {
      Graph(groups, edges, hosts)
    }

    /** The loop of the post-delete handler: every remaining parent adopts the hosts and
        the children. */
    method Migrate(parents: set<Pk>, members: set<Pk>, children: set<Pk>)
      modifies this`edges, this`hosts
      ensures edges == old(edges) + Pairs(parents, children)
      ensures hosts == old(hosts) + Pairs(parents, members)
    {
      var todo := parents;
      while todo != {}
        invariant todo <= parents
        invariant edges == old(edges) + Pairs(parents - todo, children)
        invariant hosts == old(hosts) + Pairs(parents - todo, members)
        decreases |todo|
      {
        var p :| p in todo;
        hosts := hosts + Pairs({p}, members);
        edges := edges + Pairs({p}, children);
        PairsGrow(parents - todo, p, children);
        PairsGrow(parents - todo, p, members);
        assert parents - (todo - {p}) == (parents - todo) + {p};
        todo := todo - {p};
      }
      assert parents - todo == parents;
    }

    /** Deletes group `g` in one transaction: the handlers before and after the delete,
        and a rollback when the migration breaks a foreign key. */
    method DeleteGroup(g: Pk) returns (ok: bool)
      requires Contents().Valid() && g in groups
      modifies this
      ensures ok <==> old(Contents()).Deletable(g)
      ensures Contents() == if ok then Delete(old(Contents()), g) else old(Contents())
      ensures ok ==> groups == old(groups) - {g}
      ensures ok ==> forall a, b :: (a, b) in edges <==>
                       a != g && b != g && ((a, b) in old(edges) || ((a, g) in old(edges) && (g, b) in old(edges)))
      ensures ok ==> forall a, h :: (a, h) in hosts <==>
                       a != g && ((a, h) in old(hosts) || ((a, g) in old(edges) && (g, h) in old(hosts)))
      ensures Contents().Valid()
    {
      var before := Contents();
      // pre_delete
      var savedGroups, savedEdges, savedHosts := groups, edges, hosts;
      var parents := set e <- edges | e.1 == g :: e.0;
      var members := before.DirectHosts(g);
      var children := before.Children(g);

      // the delete itself, with the rows of the relations
      groups := groups - {g};
      edges := set e <- edges | e.0 != g && e.1 != g;
      hosts := set m <- hosts | m.0 != g;

      // post_delete
      assert parents * groups == before.OtherParents(g);
      Migrate(parents * groups, members, children);
      assert Contents() == Delete(before, g);
      DeleteValidIff(before, g);

      ok := forall e <- edges :: e.1 in groups;
      if !ok {
        groups, edges, hosts := savedGroups, savedEdges, savedHosts;
      } else {
        forall a, b {
          OnlyParentsAdopt(before, g, a, b);
        }
      }
    }
  }
}
