/**
  * The npm script graph checker: a depth-first expansion with a memo table, cycle detection on
  * the stack, and counts of how often a script runs each leaf.
  *
  * A script name is a number; the order of names stands for the locale order of the names.
  * The order of joined name lists is any total order `leq`.
  */
module ScriptGraph {

  type Name = nat

  /** The runnable scripts: what each references, in order, and its command text (as a number). */
  datatype Graph = Graph(references: map<Name, seq<Name>>, command: map<Name, nat>)

  type ListOrder = (seq<Name>, seq<Name>) -> bool

  ghost predicate TotalOrder(leq: ListOrder) {
    && (forall a, b :: leq(a, b) || leq(b, a))
    && (forall a, b, c :: leq(a, b) && leq(b, c) ==> leq(a, c))
    && (forall a, b :: leq(a, b) && leq(b, a) ==> a == b)
  }

  ghost predicate WellFormed(g: Graph) {
    g.command.Keys == g.references.Keys
  }

  predicate Runnable(g: Graph, n: Name) {
    n in g.references
  }

  predicate Edge(g: Graph, a: Name, b: Name) {
    Runnable(g, a) && Runnable(g, b) && b in g.references[a]
  }

  ghost predicate Walk(g: Graph, w: seq<Name>) {
    forall i :: 0 <= i < |w| - 1 ==> Edge(g, w[i], w[i + 1])
  }

  /** A directed cycle, written with its first script repeated at the end. */
  ghost predicate ClosedWalk(g: Graph, w: seq<Name>) {
    |w| >= 2 && w[0] == w[|w| - 1] && Walk(g, w)
  }

  ghost predicate Cyclic(g: Graph) {
    exists w :: ClosedWalk(g, w)
  }

  ghost predicate Distinct(s: seq<Name>) {
    forall i, j :: 0 <= i < j < |s| ==> s[i] != s[j]
  }

  // ---------------------------------------------------------------- canonical cycles

  function Rotation(nodes: seq<Name>, k: nat): seq<Name>
    requires k <= |nodes|
  {
    nodes[k..] + nodes[..k]
  }

  /** The least of the rotations 0 .. k. */
  function LeastRotation(nodes: seq<Name>, k: nat, leq: ListOrder): (r: seq<Name>)
    requires k < |nodes|
    ensures |r| == |nodes|
  {
    if k == 0 then Rotation(nodes, 0)
    else
      var best := LeastRotation(nodes, k - 1, leq);
      if leq(best, Rotation(nodes, k)) then best else Rotation(nodes, k)
  }

  function Canonicalize(cycle: seq<Name>, leq: ListOrder): seq<Name>
    requires |cycle| >= 2
  {
    var nodes := cycle[..|cycle| - 1];
    var best := LeastRotation(nodes, |nodes| - 1, leq);
    best + [best[0]]
  }

  lemma {:induction false} LeastRotationIsRotation(nodes: seq<Name>, k: nat, leq: ListOrder) returns (j: nat)
    requires k < |nodes|
    ensures j <= k && LeastRotation(nodes, k, leq) == Rotation(nodes, j)
  {
    j := k;
    if k == 0 {
    } else {
      var best := LeastRotation(nodes, k - 1, leq);
      var i := LeastRotationIsRotation(nodes, k - 1, leq);
      if leq(best, Rotation(nodes, k)) { j := i; }
    }
  }

  lemma {:induction false} LeastRotationIsLeast(nodes: seq<Name>, k: nat, leq: ListOrder, j: nat)
    requires j <= k < |nodes| && TotalOrder(leq)
    ensures leq(LeastRotation(nodes, k, leq), Rotation(nodes, j))
  {
    if k == 0 {
    } else {
      var best := LeastRotation(nodes, k - 1, leq);
      var here := Rotation(nodes, k);
      if j < k {
        LeastRotationIsLeast(nodes, k - 1, leq, j);
        if !leq(best, here) { Chain(leq, here, best, Rotation(nodes, j)); }
      }
    }
  }

  lemma {:induction false} Chain(leq: ListOrder, a: seq<Name>, b: seq<Name>, c: seq<Name>)
    requires TotalOrder(leq) && !leq(b, a) && leq(b, c)
    ensures leq(a, c)
  {
    assert leq(a, b);
  }

  lemma {:induction false} RotateTwice(nodes: seq<Name>, k: nat, j: nat)
    requires k < |nodes| && j < |nodes|
    ensures Rotation(Rotation(nodes, k), j) == Rotation(nodes, if k + j < |nodes| then k + j else k + j - |nodes|)
  {
    var n := |nodes|;
    var m := if k + j < n then k + j else k + j - n;
    var l, r := Rotation(Rotation(nodes, k), j), Rotation(nodes, m);
    forall i | 0 <= i < n ensures l[i] == r[i] {
      var x := if i < n - j then i + j else i + j - n;
      assert l[i] == Rotation(nodes, k)[x];
    }
  }

  lemma {:induction false} LeastBelowTurned(nodes: seq<Name>, k: nat, leq: ListOrder)
    requires k < |nodes| && TotalOrder(leq)
    ensures leq(LeastRotation(nodes, |nodes| - 1, leq), LeastRotation(Rotation(nodes, k), |nodes| - 1, leq))
  {
    var n := |nodes|;
    var j := LeastRotationIsRotation(Rotation(nodes, k), n - 1, leq);
    RotateTwice(nodes, k, j);
    LeastRotationIsLeast(nodes, n - 1, leq, if k + j < n then k + j else k + j - n);
  }

  lemma {:induction false} TurnBack(nodes: seq<Name>, k: nat) returns (back: nat)
    requires k < |nodes|
    ensures back < |nodes| && Rotation(Rotation(nodes, k), back) == nodes
  {
    back := if k == 0 then 0 else |nodes| - k;
    RotateTwice(nodes, k, back);
  }

  lemma {:induction false} RotationsShareLeast(nodes: seq<Name>, k: nat, leq: ListOrder)
    requires k < |nodes| && TotalOrder(leq)
    ensures LeastRotation(Rotation(nodes, k), |nodes| - 1, leq) == LeastRotation(nodes, |nodes| - 1, leq)
  {
    var turned := Rotation(nodes, k);
    LeastBelowTurned(nodes, k, leq);
    var back := TurnBack(nodes, k);
    LeastBelowTurned(turned, back, leq);
    SameByOrder(leq, LeastRotation(nodes, |nodes| - 1, leq), LeastRotation(turned, |nodes| - 1, leq));
  }

  lemma {:induction false} SameByOrder(leq: ListOrder, a: seq<Name>, b: seq<Name>)
    requires TotalOrder(leq) && leq(a, b) && leq(b, a)
    ensures a == b
  {
  }

  /** Every rotation of a cycle is mapped to one and the same rotation of it. */
  lemma {:induction false} RotationsShareCanonicalForm(nodes: seq<Name>, k: nat, leq: ListOrder)
    requires k < |nodes| && TotalOrder(leq)
    ensures Canonicalize(Rotation(nodes, k) + [Rotation(nodes, k)[0]], leq) == Canonicalize(nodes + [nodes[0]], leq)
    ensures exists j :: 0 <= j < |nodes| &&
              Canonicalize(nodes + [nodes[0]], leq) == Rotation(nodes, j) + [Rotation(nodes, j)[0]]
  {
    var turned := Rotation(nodes, k);
    var n := |nodes|;
    assert (turned + [turned[0]])[..n] == turned && (nodes + [nodes[0]])[..n] == nodes;
    RotationsShareLeast(nodes, k, leq);
    var j := LeastRotationIsRotation(nodes, n - 1, leq);
  }

  /** A reported cycle: a directed cycle through distinct scripts, in canonical rotation. */
  ghost predicate RealCycle(g: Graph, cycle: seq<Name>, leq: ListOrder) {
    ClosedWalk(g, cycle) && Distinct(cycle[..|cycle| - 1]) && Canonicalize(cycle, leq) == cycle
  }

  lemma {:induction false} RotationKeepsCycle(g: Graph, cycle: seq<Name>, k: nat)
    requires ClosedWalk(g, cycle) && Distinct(cycle[..|cycle| - 1]) && k < |cycle| - 1
    ensures var r := Rotation(cycle[..|cycle| - 1], k);
            ClosedWalk(g, r + [r[0]]) && Distinct((r + [r[0]])[..|r|])
  {
    var nodes := cycle[..|cycle| - 1];
    var n := |nodes|;
    var r := Rotation(nodes, k);
    var w := r + [r[0]];
    forall i | 0 <= i < n ensures Edge(g, w[i], w[i + 1]) {
      var x := if i < n - k then i + k else i + k - n;
      assert w[i] == cycle[x] && Edge(g, cycle[x], cycle[x + 1]);
      assert w[i + 1] == cycle[x + 1];
    }
    assert w[..n] == r;
    forall i, j | 0 <= i < j < n ensures r[i] != r[j] {
      var x := if i < n - k then i + k else i + k - n;
      var y := if j < n - k then j + k else j + k - n;
      assert r[i] == nodes[x] && r[j] == nodes[y] && x != y;
    }
  }

  lemma {:induction false} CanonicalizeIsReal(g: Graph, cycle: seq<Name>, leq: ListOrder)
    requires TotalOrder(leq) && ClosedWalk(g, cycle) && Distinct(cycle[..|cycle| - 1])
    ensures RealCycle(g, Canonicalize(cycle, leq), leq)
  {
    var nodes := cycle[..|cycle| - 1];
    assert cycle == nodes + [nodes[0]];
    RotationsShareCanonicalForm(nodes, 0, leq);
    var j :| 0 <= j < |nodes| && Canonicalize(cycle, leq) == Rotation(nodes, j) + [Rotation(nodes, j)[0]];
    RotationKeepsCycle(g, cycle, j);
    RotationsShareCanonicalForm(nodes, j, leq);
  }

  // ---------------------------------------------------------------- plain expansion

  /** The least script with a given command, searched upwards. */
  function FirstWith(g: Graph, command: nat, from: Name, n: Name): (m: Name)
    requires from <= n && n in g.command && g.command[n] == command
    ensures from <= m <= n && m in g.command && g.command[m] == command
    ensures forall k :: from <= k < m ==> k !in g.command || g.command[k] != command
    decreases n - from
  {
    if from in g.command && g.command[from] == command then from else FirstWith(g, command, from + 1, n)
  }

  /** Scripts with equal commands count as one leaf, named by the least of them. */
  function CanonicalLeaf(g: Graph, n: Name): Name
    requires n in g.command
  {
    FirstWith(g, g.command[n], 0, n)
  }

  /** No runnable script of the same command has a lower name. */
  ghost predicate IsLabel(g: Graph, l: Name) {
    l in g.command && forall m :: m in g.command && g.command[m] == g.command[l] ==> l <= m
  }

  /** A leaf is reported under the least script of its command, so two share a name exactly if their commands agree. */
  lemma {:induction false} LeavesAreNamedByCommand(g: Graph, a: Name, b: Name)
    requires a in g.command && b in g.command
    ensures CanonicalLeaf(g, a) == b <==> IsLabel(g, b) && g.command[a] == g.command[b]
    ensures CanonicalLeaf(g, a) == CanonicalLeaf(g, b) <==> g.command[a] == g.command[b]
  {
    var x, y := CanonicalLeaf(g, a), CanonicalLeaf(g, b);
    assert x in g.command && g.command[x] == g.command[a];
    assert y in g.command && g.command[y] == g.command[b];
    assert IsLabel(g, x) && IsLabel(g, y);
  }

  /** References lead from every ranked script to ranked scripts of lower rank only. */
  ghost predicate Ranked(g: Graph, rank: map<Name, nat>) {
    && WellFormed(g)
    && (forall n :: n in rank ==> Runnable(g, n))
    && (forall n, t :: n in rank && Edge(g, n, t) ==> t in rank && rank[t] < rank[n])
  }

  /** Expansion without memo table or stack: the leaves a script runs, in order. */
  ghost function Plain(g: Graph, rank: map<Name, nat>, n: Name): seq<Name>
    requires Ranked(g, rank) && n in rank
    decreases rank[n], |g.references[n]| + 1
  {
    if g.references[n] == [] then [CanonicalLeaf(g, n)] else PlainFrom(g, rank, n, 0)
  }

  /** The leaves run by the references of n from position i on. */
  ghost function PlainFrom(g: Graph, rank: map<Name, nat>, n: Name, i: nat): seq<Name>
    requires Ranked(g, rank) && n in rank && i <= |g.references[n]|
    decreases rank[n], |g.references[n]| - i
  {
    if i == |g.references[n]| then []
    else
      var t := g.references[n][i];
      (if Runnable(g, t) then assert Edge(g, n, t); Plain(g, rank, t) else []) + PlainFrom(g, rank, n, i + 1)
  }

  /** Plain expansion does not depend on the ranking that shows it ends. */
  lemma {:induction false} PlainIndependent(g: Graph, r1: map<Name, nat>, r2: map<Name, nat>, n: Name)
    requires Ranked(g, r1) && Ranked(g, r2) && n in r1 && n in r2
    ensures Plain(g, r1, n) == Plain(g, r2, n)
    decreases r1[n], |g.references[n]| + 1
  {
    if g.references[n] != [] { PlainFromIndependent(g, r1, r2, n, 0); }
  }

  lemma {:induction false} PlainFromIndependent(g: Graph, r1: map<Name, nat>, r2: map<Name, nat>, n: Name, i: nat)
    requires Ranked(g, r1) && Ranked(g, r2) && n in r1 && n in r2 && i <= |g.references[n]|
    ensures PlainFrom(g, r1, n, i) == PlainFrom(g, r2, n, i)
    decreases r1[n], |g.references[n]| - i
  {
    if i == |g.references[n]| {
    } else {
      var t := g.references[n][i];
      if Runnable(g, t) {
        assert Edge(g, n, t);
        PlainIndependent(g, r1, r2, t);
      }
      PlainFromIndependent(g, r1, r2, n, i + 1);
    }
  }

  /** A fully ranked graph has no directed cycle. */
  lemma {:induction false} RankedIsAcyclic(g: Graph, rank: map<Name, nat>)
    requires Ranked(g, rank) && rank.Keys == g.references.Keys
    ensures !Cyclic(g)
  {
    forall w | ClosedWalk(g, w) ensures false {
      assert Edge(g, w[0], w[1]);
      RankFalls(g, rank, w, |w| - 1);
    }
  }

  lemma {:induction false} RankFalls(g: Graph, rank: map<Name, nat>, w: seq<Name>, k: nat)
    requires Ranked(g, rank) && rank.Keys == g.references.Keys && Walk(g, w) && 1 <= k < |w|
    ensures w[0] in rank && w[k] in rank && rank[w[k]] < rank[w[0]]
  {
    assert Edge(g, w[k - 1], w[k]);
    if k == 1 {
    } else {
      RankFalls(g, rank, w, k - 1);
    }
  }

  // ---------------------------------------------------------------- reference paths

  /** A path from n to a leaf, as the position of the reference taken at each script. */
  predicate LeafPath(g: Graph, n: Name, path: seq<nat>)
    decreases |path|
  {
    Runnable(g, n) &&
    if path == [] then g.references[n] == []
    else path[0] < |g.references[n]| && LeafPath(g, g.references[n][path[0]], path[1..])
  }

  /** The script a path ends at. */
  function LastScript(g: Graph, n: Name, path: seq<nat>): (last: Name)
    requires WellFormed(g) && LeafPath(g, n, path)
    ensures last in g.command && g.references[last] == []
    decreases |path|
  {
    if path == [] then n else LastScript(g, g.references[n][path[0]], path[1..])
  }

  lemma {:induction false} EndIsCanonical(g: Graph, n: Name, path: seq<nat>)
    requires WellFormed(g) && LeafPath(g, n, path)
    ensures PathEnd(g, n, path) == CanonicalLeaf(g, LastScript(g, n, path))
    decreases |path|
  {
    if path == [] {
    } else {
      EndIsCanonical(g, g.references[n][path[0]], path[1..]);
    }
  }

  /** A path from n to a script with the command of l. */
  predicate Runs(g: Graph, n: Name, path: seq<nat>, l: Name)
    requires WellFormed(g) && l in g.command
  {
    LeafPath(g, n, path) && g.command[LastScript(g, n, path)] == g.command[l]
  }

  ghost predicate AllRuns(g: Graph, n: Name, l: Name, paths: set<seq<nat>>)
    requires WellFormed(g) && l in g.command
  {
    forall p :: p in paths <==> Runs(g, n, p, l)
  }

  /** The leaf a path ends at. */
  function PathEnd(g: Graph, n: Name, path: seq<nat>): Name
    requires WellFormed(g) && LeafPath(g, n, path)
    decreases |path|
  {
    if path == [] then CanonicalLeaf(g, n) else PathEnd(g, g.references[n][path[0]], path[1..])
  }

  /** All leaf paths of n, in expansion order. */
  ghost function Paths(g: Graph, rank: map<Name, nat>, n: Name): seq<seq<nat>>
    requires Ranked(g, rank) && n in rank
    decreases rank[n], |g.references[n]| + 1
  {
    if g.references[n] == [] then [[]] else PathsFrom(g, rank, n, 0)
  }

  ghost function PathsFrom(g: Graph, rank: map<Name, nat>, n: Name, i: nat): seq<seq<nat>>
    requires Ranked(g, rank) && n in rank && i <= |g.references[n]|
    decreases rank[n], |g.references[n]| - i
  {
    if i == |g.references[n]| then []
    else
      var t := g.references[n][i];
      (if Runnable(g, t) then assert Edge(g, n, t); Prepend(i, Paths(g, rank, t)) else []) + PathsFrom(g, rank, n, i + 1)
  }

  ghost function Prepend(i: nat, paths: seq<seq<nat>>): (r: seq<seq<nat>>)
    ensures |r| == |paths| && forall k :: 0 <= k < |r| ==> r[k] == [i] + paths[k]
  {
    seq(|paths|, k requires 0 <= k < |paths| => [i] + paths[k])
  }

  ghost predicate DistinctPaths(paths: seq<seq<nat>>) {
    forall i, j :: 0 <= i < j < |paths| ==> paths[i] != paths[j]
  }

  /** Path k is a leaf path of n and ends at leaf k. */
  ghost predicate Labelled(g: Graph, n: Name, paths: seq<seq<nat>>, leaves: seq<Name>)
    requires WellFormed(g)
  {
    |paths| == |leaves| &&
    forall k :: 0 <= k < |paths| ==> LeafPath(g, n, paths[k]) && PathEnd(g, n, paths[k]) == leaves[k]
  }

  ghost predicate StartsFrom(paths: seq<seq<nat>>, i: nat) {
    forall k :: 0 <= k < |paths| ==> paths[k] != [] && paths[k][0] >= i
  }

  /** The plain expansion lists, for every leaf path of n once, the leaf it ends at. */
  lemma {:induction false} ExpansionEnumeratesPaths(g: Graph, rank: map<Name, nat>, n: Name)
    requires Ranked(g, rank) && n in rank
    ensures Labelled(g, n, Paths(g, rank, n), Plain(g, rank, n)) && DistinctPaths(Paths(g, rank, n))
    decreases rank[n], |g.references[n]| + 1
  {
    if g.references[n] != [] {
      ExpansionEnumeratesFrom(g, rank, n, 0);
    }
  }

  lemma {:induction false} ExpansionEnumeratesFrom(g: Graph, rank: map<Name, nat>, n: Name, i: nat)
    requires Ranked(g, rank) && n in rank && i <= |g.references[n]|
    ensures Labelled(g, n, PathsFrom(g, rank, n, i), PlainFrom(g, rank, n, i))
    ensures DistinctPaths(PathsFrom(g, rank, n, i)) && StartsFrom(PathsFrom(g, rank, n, i), i)
    decreases rank[n], |g.references[n]| - i
  {
    if i == |g.references[n]| {
    } else {
      ExpansionEnumeratesFrom(g, rank, n, i + 1);
      var t := g.references[n][i];
      if Runnable(g, t) {
        assert Edge(g, n, t);
        ExpansionEnumeratesPaths(g, rank, t);
        PrependLabelled(g, n, i, Paths(g, rank, t), Plain(g, rank, t));
        JoinLabelled(g, n, i, Prepend(i, Paths(g, rank, t)), Plain(g, rank, t),
                     PathsFrom(g, rank, n, i + 1), PlainFrom(g, rank, n, i + 1));
      }
    }
  }

  lemma {:induction false} PrependLabelled(g: Graph, n: Name, i: nat, paths: seq<seq<nat>>, leaves: seq<Name>)
    requires WellFormed(g) && Runnable(g, n) && i < |g.references[n]|
    requires Labelled(g, g.references[n][i], paths, leaves) && DistinctPaths(paths)
    ensures Labelled(g, n, Prepend(i, paths), leaves) && DistinctPaths(Prepend(i, paths))
    ensures forall k :: 0 <= k < |paths| ==> Prepend(i, paths)[k] != [] && Prepend(i, paths)[k][0] == i
  {
    var r := Prepend(i, paths);
    forall k | 0 <= k < |r| ensures LeafPath(g, n, r[k]) && PathEnd(g, n, r[k]) == leaves[k] {
      assert r[k][1..] == paths[k];
    }
    forall a, b | 0 <= a < b < |r| ensures r[a] != r[b] {
      assert r[a][1..] == paths[a] && r[b][1..] == paths[b];
    }
  }

  lemma {:induction false} JoinLabelled(g: Graph, n: Name, i: nat, p1: seq<seq<nat>>, l1: seq<Name>,
                                        p2: seq<seq<nat>>, l2: seq<Name>)
    requires WellFormed(g) && Labelled(g, n, p1, l1) && Labelled(g, n, p2, l2)
    requires DistinctPaths(p1) && DistinctPaths(p2) && StartsFrom(p2, i + 1)
    requires forall k :: 0 <= k < |p1| ==> p1[k] != [] && p1[k][0] == i
    ensures Labelled(g, n, p1 + p2, l1 + l2) && DistinctPaths(p1 + p2) && StartsFrom(p1 + p2, i)
  {
  }

  lemma {:induction false} EveryPathIsListed(g: Graph, rank: map<Name, nat>, n: Name, path: seq<nat>)
    requires Ranked(g, rank) && n in rank && LeafPath(g, n, path)
    ensures path in Paths(g, rank, n)
    decreases |path|, 0
  {
    if path == [] {
    } else {
      var t := g.references[n][path[0]];
      assert Edge(g, n, t);
      EveryPathIsListed(g, rank, t, path[1..]);
      ListedFrom(g, rank, n, 0, path);
    }
  }

  lemma {:induction false} ListedFrom(g: Graph, rank: map<Name, nat>, n: Name, i: nat, path: seq<nat>)
    requires Ranked(g, rank) && n in rank && path != [] && i <= path[0] < |g.references[n]|
    requires var t := g.references[n][path[0]]; Edge(g, n, t) && path[1..] in Paths(g, rank, t)
    ensures path in PathsFrom(g, rank, n, i)
    decreases path[0] - i
  {
    var t := g.references[n][i];
    if i < path[0] {
      ListedFrom(g, rank, n, i + 1, path);
    } else {
      var k :| 0 <= k < |Paths(g, rank, t)| && Paths(g, rank, t)[k] == path[1..];
      assert Prepend(i, Paths(g, rank, t))[k] == path;
    }
  }

  ghost function PathsWithLabel(paths: seq<seq<nat>>, labels: seq<Name>, l: Name): set<seq<nat>>
    requires |paths| == |labels|
  {
    if paths == [] then {}
    else (if labels[0] == l then {paths[0]} else {}) + PathsWithLabel(paths[1..], labels[1..], l)
  }

  lemma {:induction false} LabelMember(paths: seq<seq<nat>>, labels: seq<Name>, l: Name, p: seq<nat>)
    requires |paths| == |labels|
    ensures p in PathsWithLabel(paths, labels, l) <==> exists k :: 0 <= k < |paths| && paths[k] == p && labels[k] == l
    decreases |paths|
  {
    if paths == [] {
    } else {
      LabelMember(paths[1..], labels[1..], l, p);
      if p in PathsWithLabel(paths[1..], labels[1..], l) {
        var k :| 0 <= k < |paths[1..]| && paths[1..][k] == p && labels[1..][k] == l;
        assert paths[k + 1] == p && labels[k + 1] == l;
      } else if k :| 0 <= k < |paths| && paths[k] == p && labels[k] == l {
        assert k == 0 || (paths[1..][k - 1] == p && labels[1..][k - 1] == l);
      }
    }
  }

  lemma {:induction false} LabelCount(paths: seq<seq<nat>>, labels: seq<Name>, l: Name)
    requires |paths| == |labels| && DistinctPaths(paths)
    ensures |PathsWithLabel(paths, labels, l)| == multiset(labels)[l]
    decreases |paths|
  {
    if paths == [] {
    } else {
      LabelCount(paths[1..], labels[1..], l);
      assert labels == [labels[0]] + labels[1..];
      LabelMember(paths[1..], labels[1..], l, paths[0]);
    }
  }

  lemma {:induction false} CountIsNumberOfEnds(g: Graph, rank: map<Name, nat>, n: Name, l: Name) returns (paths: set<seq<nat>>)
    requires Ranked(g, rank) && n in rank
    ensures forall p :: p in paths <==> LeafPath(g, n, p) && PathEnd(g, n, p) == l
    ensures |paths| == multiset(Plain(g, rank, n))[l]
  {
    ExpansionEnumeratesPaths(g, rank, n);
    var listed, leaves := Paths(g, rank, n), Plain(g, rank, n);
    LabelCount(listed, leaves, l);
    paths := PathsWithLabel(listed, leaves, l);
    forall p | LeafPath(g, n, p) && PathEnd(g, n, p) == l ensures p in paths {
      EveryPathIsListed(g, rank, n, p);
      var k :| 0 <= k < |listed| && listed[k] == p;
      LabelMember(listed, leaves, l, p);
    }
    forall p | p in paths ensures LeafPath(g, n, p) && PathEnd(g, n, p) == l {
      LabelMember(listed, leaves, l, p);
      var k :| 0 <= k < |listed| && listed[k] == p && leaves[k] == l;
    }
  }

  /** How often the expansion of n lists l is the number of reference paths from n to scripts with the command of l,
      if l is the least of them; it lists no other name. */
  lemma {:induction false} CountIsNumberOfPaths(g: Graph, rank: map<Name, nat>, n: Name, l: Name, paths: set<seq<nat>>)
    requires Ranked(g, rank) && n in rank && l in g.command && AllRuns(g, n, l, paths)
    ensures multiset(Plain(g, rank, n))[l] == if IsLabel(g, l) then |paths| else 0
  {
    var ends := CountIsNumberOfEnds(g, rank, n, l);
    forall p ensures p in ends <==> IsLabel(g, l) && p in paths {
      if LeafPath(g, n, p) {
        EndIsCanonical(g, n, p);
        LeavesAreNamedByCommand(g, LastScript(g, n, p), l);
      }
    }
    assert if IsLabel(g, l) then ends == paths else ends == {};
  }

  // ---------------------------------------------------------------- the analysis

  function IndexOf(s: seq<Name>, n: Name): (i: int)
    ensures -1 <= i < |s|
    ensures i >= 0 ==> s[i] == n
    ensures n in s <==> i >= 0
  {
    if s == [] then -1
    else if s[0] == n then 0
    else
      var i := IndexOf(s[1..], n);
      if i < 0 then -1 else i + 1
  }

  /** The stack from the first occurrence of `name` on, closed by `name`, is a cycle through distinct scripts. */
  lemma {:induction false} StackCycle(g: Graph, stack: seq<Name>, name: Name, start: nat)
    requires Walk(g, stack + [name]) && Distinct(stack) && start < |stack| && stack[start] == name
    ensures var c := stack[start..] + [name]; ClosedWalk(g, c) && Distinct(c[..|c| - 1])
  {
    var c := stack[start..] + [name];
    assert c[..|c| - 1] == stack[start..];
    forall i | 0 <= i < |c| - 1 ensures Edge(g, c[i], c[i + 1]) {
      assert Edge(g, (stack + [name])[start + i], (stack + [name])[start + i + 1]);
    }
  }

  lemma {:induction false} WalkExtends(g: Graph, stack: seq<Name>, name: Name, target: Name)
    requires Walk(g, stack + [name]) && Edge(g, name, target)
    ensures Walk(g, stack + [name] + [target])
  {
    var w := stack + [name];
    forall i | 0 <= i < |w| ensures Edge(g, (w + [target])[i], (w + [target])[i + 1]) {
      if i < |w| - 1 { assert Edge(g, w[i], w[i + 1]); }
    }
  }

  ghost function Elements(s: seq<Name>): set<Name> {
    set n | n in s
  }

  /** The leaves of name's references before position i, all of whose runnable scripts are ranked. */
  ghost function Expansion(g: Graph, rank: map<Name, nat>, name: Name, i: nat): seq<Name>
    requires Ranked(g, rank) && Runnable(g, name) && i <= |g.references[name]|
  {
    if i == 0 then []
    else
      var t := g.references[name][i - 1];
      Expansion(g, rank, name, i - 1) + (if t in rank then Plain(g, rank, t) else [])
  }

  /** r ranks everything rank does, so it expands those scripts alike. */
  ghost predicate Extends(r: map<Name, nat>, rank: map<Name, nat>) {
    forall n :: n in rank ==> n in r
  }

  ghost predicate TargetsRanked(g: Graph, rank: map<Name, nat>, name: Name, i: nat)
    requires Runnable(g, name) && i <= |g.references[name]|
  {
    forall j :: 0 <= j < i && Runnable(g, g.references[name][j]) ==> g.references[name][j] in rank
  }

  lemma {:induction false} ExpansionStable(g: Graph, rank: map<Name, nat>, r: map<Name, nat>, name: Name, i: nat)
    requires Ranked(g, rank) && Ranked(g, r) && Extends(r, rank) && Runnable(g, name) && i <= |g.references[name]|
    requires TargetsRanked(g, rank, name, i)
    ensures Expansion(g, rank, name, i) == Expansion(g, r, name, i)
  {
    if i == 0 {
    } else {
      var t := g.references[name][i - 1];
      ExpansionStable(g, rank, r, name, i - 1);
      if t in rank { PlainIndependent(g, rank, r, t); }
    }
  }

  lemma {:induction false} ExpansionThenRest(g: Graph, rank: map<Name, nat>, name: Name, i: nat)
    requires Ranked(g, rank) && name in rank && i <= |g.references[name]|
    ensures Expansion(g, rank, name, i) + PlainFrom(g, rank, name, i) == PlainFrom(g, rank, name, 0)
  {
    if i > 0 {
      ExpansionThenRest(g, rank, name, i - 1);
      MoveAcross(g, rank, name, i - 1);
    } else {
      assert [] + PlainFrom(g, rank, name, 0) == PlainFrom(g, rank, name, 0);
    }
  }

  lemma {:induction false} MoveAcross(g: Graph, rank: map<Name, nat>, name: Name, i: nat)
    requires Ranked(g, rank) && name in rank && i < |g.references[name]|
    ensures Expansion(g, rank, name, i + 1) + PlainFrom(g, rank, name, i + 1)
         == Expansion(g, rank, name, i) + PlainFrom(g, rank, name, i)
  {
    var t := g.references[name][i];
    assert Runnable(g, t) <==> Edge(g, name, t);
    var x := if t in rank then Plain(g, rank, t) else [];
    var before, after := Expansion(g, rank, name, i), PlainFrom(g, rank, name, i + 1);
    assert Expansion(g, rank, name, i + 1) == before + x;
    assert PlainFrom(g, rank, name, i) == x + after;
    assert (before + x) + after == before + (x + after);
  }

  /** One turn of the loop over the references: the leaves of a runnable target are added at the end. */
  lemma {:induction false} ExpansionGrows(g: Graph, before: map<Name, nat>, after: map<Name, nat>, name: Name, i: nat,
                                          leaves: seq<Name>, found: seq<Name>)
    requires Ranked(g, before) && Ranked(g, after) && Extends(after, before)
    requires Runnable(g, name) && i < |g.references[name]| && TargetsRanked(g, before, name, i)
    requires leaves == Expansion(g, before, name, i)
    requires g.references[name][i] in after && found == Plain(g, after, g.references[name][i])
    ensures TargetsRanked(g, after, name, i + 1) && leaves + found == Expansion(g, after, name, i + 1)
  {
    ExpansionStable(g, before, after, name, i);
  }

  lemma {:induction false} ExpansionSkips(g: Graph, rank: map<Name, nat>, name: Name, i: nat)
    requires Ranked(g, rank) && Runnable(g, name) && i < |g.references[name]| && TargetsRanked(g, rank, name, i)
    requires !Runnable(g, g.references[name][i])
    ensures TargetsRanked(g, rank, name, i + 1) && Expansion(g, rank, name, i + 1) == Expansion(g, rank, name, i)
  {
    assert g.references[name][i] !in rank;
    assert Expansion(g, rank, name, i) + [] == Expansion(g, rank, name, i);
  }

  /** A finished script may be ranked above everything so far; its expansion is what its references gave. */
  lemma {:induction false} FinishScript(g: Graph, rank: map<Name, nat>, name: Name, top: nat)
    requires Ranked(g, rank) && Runnable(g, name) && name !in rank
    requires forall n :: n in rank ==> rank[n] < top
    requires TargetsRanked(g, rank, name, |g.references[name]|)
    ensures Ranked(g, rank[name := top])
    ensures g.references[name] != [] ==>
              Plain(g, rank[name := top], name) == Expansion(g, rank, name, |g.references[name]|)
    ensures forall n :: n in rank ==> Plain(g, rank[name := top], n) == Plain(g, rank, n)
  {
    var r := rank[name := top];
    forall n, t | n in r && Edge(g, n, t) ensures t in r && r[t] < r[n] {
      if n == name {
        var j :| 0 <= j < |g.references[name]| && g.references[name][j] == t;
      }
    }
    forall n | n in rank ensures Plain(g, r, n) == Plain(g, rank, n) {
      PlainIndependent(g, r, rank, n);
    }
    var all := |g.references[name]|;
    ExpansionStable(g, rank, r, name, all);
    ExpansionThenRest(g, r, name, all);
    assert Expansion(g, r, name, all) + [] == Expansion(g, r, name, all);
  }

  /** The state of one analysis: the memo table and the cycles found. */
  class Analyzer {
    const g: Graph
    const leq: ListOrder
    var memoizedLeaves: map<Name, seq<Name>>
    var cycles: set<seq<Name>>
    ghost var rank: map<Name, nat>   // finishing order of the memoized scripts
    ghost var clock: nat

    /** Found cycles are real; while none is found, the memo table holds plain expansions. */
    ghost predicate Valid()
      reads this
    {
      && WellFormed(g) && TotalOrder(leq)
      && rank.Keys == memoizedLeaves.Keys <= g.references.Keys
      && (forall n :: n in rank ==> rank[n] < clock)
      && (forall c :: c in cycles ==> RealCycle(g, c, leq))
      && (cycles == {} ==> Ranked(g, rank) && forall n :: n in rank ==> memoizedLeaves[n] == Plain(g, rank, n))
    }

    /** While no cycle is found, these are the leaves of the first i references of name. */
    ghost predicate Gathered(name: Name, i: nat, leaves: seq<Name>)
      requires Valid() && Runnable(g, name) && i <= |g.references[name]|
      reads this
    {
      cycles == {} ==> TargetsRanked(g, rank, name, i) && leaves == Expansion(g, rank, name, i)
    }

    /** Nothing on the stack is memoized yet. */
    predicate Unfinished(stack: seq<Name>)
      reads this
    {
      forall n :: n in stack ==> Runnable(g, n) && n !in memoizedLeaves
    }

    constructor (g: Graph, leq: ListOrder)
      requires WellFormed(g) && TotalOrder(leq)
      ensures Valid() && this.g == g && this.leq == leq
      ensures memoizedLeaves == map[] && cycles == {}
    {
      this.g, this.leq := g, leq;
      memoizedLeaves, cycles, rank, clock := map[], {}, map[], 0;
    }

    method Expand(name: Name, stack: seq<Name>) returns (leaves: seq<Name>)
      requires Valid() && Runnable(g, name)
      requires Walk(g, stack + [name]) && Distinct(stack) && Unfinished(stack)
      modifies this
      ensures Valid() && old(cycles) <= cycles && old(memoizedLeaves).Keys <= memoizedLeaves.Keys
      ensures Unfinished(stack)
      ensures name in stack ==> cycles != {}
      ensures name !in stack ==> name in memoizedLeaves
      ensures cycles == {} ==> leaves == Plain(g, rank, name)
      decreases |g.references.Keys - Elements(stack)|, 1
    {
      var cycleStart := IndexOf(stack, name);
      if cycleStart >= 0 {
        RecordCycle(stack, name, cycleStart);
        return [];
      }
      if name in memoizedLeaves { return memoizedLeaves[name]; }
      var targets := g.references[name];
      if |targets| == 0 {
        leaves := [CanonicalLeaf(g, name)];
      } else {
        assert forall n :: n in stack + [name] <==> n in stack || n == name;
        leaves := ExpandReferences(name, stack);
      }
      if cycles == {} { FinishScript(g, rank, name, clock); }
      memoizedLeaves := memoizedLeaves[name := leaves];
      rank, clock := rank[name := clock], clock + 1;
    }

    method RecordCycle(stack: seq<Name>, name: Name, start: nat)
      requires Valid() && start < |stack| && stack[start] == name
      requires Walk(g, stack + [name]) && Distinct(stack)
      modifies this`cycles
      ensures Valid() && cycles == old(cycles) + {Canonicalize(stack[start..] + [name], leq)}
    {
      StackCycle(g, stack, name, start);
      CanonicalizeIsReal(g, stack[start..] + [name], leq);
      cycles := cycles + {Canonicalize(stack[start..] + [name], leq)};
    }

    /** The turn of one owner: expand it and report its repeated leaves. */
    method DuplicatesOf(owner: Name) returns (added: set<Duplicate>)
      requires Valid() && Runnable(g, owner)
      modifies this
      ensures Valid() && old(cycles) <= cycles && old(memoizedLeaves).Keys <= memoizedLeaves.Keys
      ensures owner in memoizedLeaves
      ensures cycles == {} ==> forall d :: d in added <==> d.owner == owner && IsDuplicate(g, rank, d)
    {
      assert Walk(g, [] + [owner]);
      var leaves := Expand(owner, []);
      var counts := CountLeaves(leaves);
      added := set l | l in counts && counts[l] > 1 :: Duplicate(owner, l, counts[l]);
      if cycles == {} {
        ghost var runs := multiset(leaves);
        forall d: Duplicate ensures d in added <==> d.owner == owner && IsDuplicate(g, rank, d) {
          if d.owner == owner && d.count > 1 && d.count == runs[d.leaf] {
            assert d.leaf in runs;
            assert d == Duplicate(owner, d.leaf, counts[d.leaf]);
          }
        }
      }
    }

    /** The loop over the references of a script that is not on the stack and not memoized. */
    method ExpandReferences(name: Name, stack: seq<Name>) returns (leaves: seq<Name>)
      requires Valid() && Runnable(g, name) && name !in stack
      requires Walk(g, stack + [name]) && Distinct(stack) && Unfinished(stack + [name])
      modifies this
      ensures Valid() && old(cycles) <= cycles && old(memoizedLeaves).Keys <= memoizedLeaves.Keys
      ensures Unfinished(stack + [name])
      ensures Gathered(name, |g.references[name]|, leaves)
      decreases |g.references.Keys - Elements(stack)|, 0
    {
      leaves := [];
      StackGrows(g, stack, name);
      var i := 0;
      while i < |g.references[name]|
        invariant i <= |g.references[name]| && Valid() && old(cycles) <= cycles
        invariant old(memoizedLeaves).Keys <= memoizedLeaves.Keys
        invariant Unfinished(stack + [name]) && Gathered(name, i, leaves)
      {
        leaves := ExpandTarget(name, stack, i, leaves);
        i := i + 1;
      }
    }

    /** One turn of that loop. */
    method ExpandTarget(name: Name, stack: seq<Name>, i: nat, leaves: seq<Name>) returns (more: seq<Name>)
      requires Valid() && Runnable(g, name) && i < |g.references[name]|
      requires Walk(g, stack + [name]) && Distinct(stack + [name]) && Unfinished(stack + [name])
      requires Gathered(name, i, leaves)
      modifies this
      ensures Valid() && old(cycles) <= cycles && old(memoizedLeaves).Keys <= memoizedLeaves.Keys
      ensures Unfinished(stack + [name])
      ensures Gathered(name, i + 1, more)
      decreases |g.references.Keys - Elements(stack + [name])|, 2
    {
      var target := g.references[name][i];
      if !Runnable(g, target) {
        if cycles == {} { ExpansionSkips(g, rank, name, i); }
        return leaves;
      }
      WalkExtends(g, stack, name, target);
      ghost var before := rank;
      var found := Expand(target, stack + [name]);
      if cycles == {} { ExpansionGrows(g, before, rank, name, i, leaves, found); }
      return leaves + found;
    }
  }

  lemma {:induction false} StackGrows(g: Graph, stack: seq<Name>, name: Name)
    requires Runnable(g, name) && name !in stack && Distinct(stack)
    ensures Distinct(stack + [name])
    ensures |g.references.Keys - Elements(stack + [name])| < |g.references.Keys - Elements(stack)|
  {
    var before, after := g.references.Keys - Elements(stack), g.references.Keys - Elements(stack + [name]);
    assert name in stack + [name];
    assert after == before - {name};
  }

  datatype Duplicate = Duplicate(owner: Name, leaf: Name, count: nat)

  /** The counting loop over one owner's leaves. */
  method CountLeaves(leaves: seq<Name>) returns (counts: map<Name, nat>)
    ensures forall l :: l in counts <==> l in leaves
    ensures forall l :: l in counts ==> counts[l] == multiset(leaves)[l]
  {
    counts := map[];
    for i := 0 to |leaves|
      invariant forall l :: l in counts <==> l in leaves[..i]
      invariant forall l :: l in counts ==> counts[l] == multiset(leaves[..i])[l]
    {
      var leaf := leaves[i];
      assert leaves[..i + 1] == leaves[..i] + [leaf];
      counts := counts[leaf := (if leaf in counts then counts[leaf] else 0) + 1];
    }
    assert leaves[..|leaves|] == leaves;
  }

  /** The leaves an owner runs more than once, with how often. */
  ghost predicate IsDuplicate(g: Graph, rank: map<Name, nat>, d: Duplicate)
    requires Ranked(g, rank)
  {
    d.owner in rank && d.count == multiset(Plain(g, rank, d.owner))[d.leaf] && d.count > 1
  }

  /** The owner runs the command of this leaf on more than one reference path; the leaf is named by its least script. */
  ghost predicate IsRepeated(g: Graph, d: Duplicate)
    requires WellFormed(g)
  {
    && Runnable(g, d.owner) && IsLabel(g, d.leaf) && d.count > 1
    && exists paths: set<seq<nat>> :: AllRuns(g, d.owner, d.leaf, paths) && |paths| == d.count
  }

  lemma {:induction false} DuplicatesAreRepeated(g: Graph, rank: map<Name, nat>, d: Duplicate)
    requires Ranked(g, rank) && rank.Keys == g.references.Keys
    ensures IsDuplicate(g, rank, d) <==> IsRepeated(g, d)
  {
    if Runnable(g, d.owner) {
      var ends := CountIsNumberOfEnds(g, rank, d.owner, d.leaf);
      if IsLabel(g, d.leaf) {
        EndsAreRuns(g, d.owner, d.leaf, ends);
        forall paths: set<seq<nat>> | AllRuns(g, d.owner, d.leaf, paths) ensures paths == ends {
          forall p ensures p in paths <==> p in ends { assert p in paths <==> Runs(g, d.owner, p, d.leaf); }
        }
      } else if ends != {} {
        var p :| p in ends;
        EndIsCanonical(g, d.owner, p);
        var last := LastScript(g, d.owner, p);
        assert CanonicalLeaf(g, last) == d.leaf && d.leaf in g.command;
        LeavesAreNamedByCommand(g, last, d.leaf);
      }
    }
  }

  lemma {:induction false} EndsAreRuns(g: Graph, n: Name, l: Name, ends: set<seq<nat>>)
    requires WellFormed(g) && IsLabel(g, l)
    requires forall p :: p in ends <==> LeafPath(g, n, p) && PathEnd(g, n, p) == l
    ensures AllRuns(g, n, l, ends)
  {
    forall p ensures p in ends <==> Runs(g, n, p, l) {
      if LeafPath(g, n, p) {
        EndIsCanonical(g, n, p);
        LeavesAreNamedByCommand(g, LastScript(g, n, p), l);
      }
    }
  }

  /**
    * The whole analysis, with the owners visited in any order that covers the runnable scripts.
    * It reports a cycle exactly when the graph has one, and only real cycles; on an acyclic graph it reports
    * exactly the commands some owner runs on more than one reference path, with the number of those paths.
    */
  method Analyze(g: Graph, leq: ListOrder, owners: seq<Name>)
    returns (cycles: set<seq<Name>>, duplicates: set<Duplicate>, ghost rank: map<Name, nat>)
    requires WellFormed(g) && TotalOrder(leq)
    requires forall n :: n in owners <==> Runnable(g, n)
    ensures forall c :: c in cycles ==> RealCycle(g, c, leq)
    ensures cycles != {} <==> Cyclic(g)
    ensures cycles == {} ==> Ranked(g, rank) && rank.Keys == g.references.Keys
    ensures cycles == {} ==> forall d :: d in duplicates <==> IsDuplicate(g, rank, d)
    ensures cycles == {} ==> forall d :: d in duplicates <==> IsRepeated(g, d)
  {
    var analyzer := new Analyzer(g, leq);
    duplicates := {};
    for i := 0 to |owners|
      invariant fresh(analyzer) && analyzer.Valid() && analyzer.g == g && analyzer.leq == leq
      invariant forall k :: 0 <= k < i ==> owners[k] in analyzer.memoizedLeaves
      invariant analyzer.cycles == {} ==> ReportFor(g, analyzer.rank, owners[..i], duplicates)
    {
      ghost var before := analyzer.rank;
      var added := analyzer.DuplicatesOf(owners[i]);
      if analyzer.cycles == {} {
        ReportGrows(g, before, analyzer.rank, owners[..i], owners[i], duplicates, added);
        assert owners[..i + 1] == owners[..i] + [owners[i]];
      }
      duplicates := duplicates + added;
    }
    cycles, rank := analyzer.cycles, analyzer.rank;
    assert owners[..|owners|] == owners;
    AllOwnersRanked(g, rank, owners);
    if cycles == {} {
      RankedIsAcyclic(g, rank);
      forall d ensures IsDuplicate(g, rank, d) <==> IsRepeated(g, d) { DuplicatesAreRepeated(g, rank, d); }
    } else { FoundCycle(g, cycles, leq); }
  }

  lemma {:induction false} AllOwnersRanked(g: Graph, rank: map<Name, nat>, owners: seq<Name>)
    requires forall n :: n in owners <==> Runnable(g, n)
    requires rank.Keys <= g.references.Keys && forall k :: 0 <= k < |owners| ==> owners[k] in rank
    ensures rank.Keys == g.references.Keys
  {
    forall n | n in g.references ensures n in rank {
      assert n in owners;
    }
  }

  lemma {:induction false} FoundCycle(g: Graph, cycles: set<seq<Name>>, leq: ListOrder)
    requires cycles != {} && forall c :: c in cycles ==> RealCycle(g, c, leq)
    ensures Cyclic(g)
  {
    var c :| c in cycles;
    assert ClosedWalk(g, c);
  }

  /** The report so far: exactly the repeated leaves of the owners visited. */
  ghost predicate ReportFor(g: Graph, rank: map<Name, nat>, done: seq<Name>, duplicates: set<Duplicate>) {
    && Ranked(g, rank)
    && (forall n :: n in done ==> n in rank)
    && (forall d :: d in duplicates <==> d.owner in done && IsDuplicate(g, rank, d))
  }

  lemma {:induction false} ReportGrows(g: Graph, before: map<Name, nat>, after: map<Name, nat>, done: seq<Name>,
                                       owner: Name, duplicates: set<Duplicate>, added: set<Duplicate>)
    requires ReportFor(g, before, done, duplicates) && Ranked(g, after) && Extends(after, before) && owner in after
    requires forall d :: d in added <==> d.owner == owner && IsDuplicate(g, after, d)
    ensures ReportFor(g, after, done + [owner], duplicates + added)
  {
    forall d ensures d in duplicates + added <==> d.owner in done + [owner] && IsDuplicate(g, after, d) {
      if d.owner in done { PlainIndependent(g, before, after, d.owner); }
    }
  }

  /** Two analyses of one acyclic graph report the same, whatever order they visited the owners in. */
  lemma {:induction false} ReportIsOrderIndependent(g: Graph, r1: map<Name, nat>, r2: map<Name, nat>,
                                                    d1: set<Duplicate>, d2: set<Duplicate>)
    requires Ranked(g, r1) && Ranked(g, r2) && r1.Keys == r2.Keys
    requires forall d :: d in d1 <==> IsDuplicate(g, r1, d)
    requires forall d :: d in d2 <==> IsDuplicate(g, r2, d)
    ensures d1 == d2
  {
    forall d ensures d in d1 <==> d in d2 {
      if d.owner in r1 { PlainIndependent(g, r1, r2, d.owner); }
    }
  }
}
