/** The part of a Code Graph that impact analysis reads, and distance in it. */
module CodeGraph {
  import opened Wrappers
  import opened Ordering

  datatype Role = Production | Config | Migration | Contract | Test | OtherRole {
    predicate IsCode() {
      Production? || Config? || Migration? || Contract?
    }
  }

  /** An absent identity is the empty string, as in the source's `or ""`. */
  datatype File = File(path: string, fileId: string, role: Role, symbolIds: seq<string>, symbolNames: set<string>)

  datatype Edge = Edge(edgeId: string, fromRef: string, toRef: string,
                       resolved: bool, lowConfidence: bool, impactType: bool)

  datatype Graph = Graph(files: seq<File>, edges: seq<Edge>)

  /** A neighbouring file together with the edge that leads to it. */
  datatype Hop = Hop(path: string, edgeId: string)

  type Adjacency = map<string, seq<Hop>>

  // ----- indexes -----------------------------------------------------------------

  function WithSymbols(refs: map<string, string>, path: string, symbolIds: seq<string>): map<string, string> {
    if symbolIds == [] then refs
    else WithSymbols(refs, path, symbolIds[..|symbolIds| - 1])[symbolIds[|symbolIds| - 1] := path]
  }

  function WithFile(refs: map<string, string>, file: File): map<string, string> {
    WithSymbols(if file.fileId == "" then refs else refs[file.fileId := file.path], file.path, file.symbolIds)
  }

  /** The file a reference belongs to; a later declaration of the same reference wins. */
  function PathByRef(files: seq<File>): map<string, string> {
    if files == [] then map[]
    else WithFile(PathByRef(files[..|files| - 1]), files[|files| - 1])
  }

  function RoleByPath(files: seq<File>): map<string, Role> {
    if files == [] then map[]
    else RoleByPath(files[..|files| - 1])[files[|files| - 1].path := files[|files| - 1].role]
  }

  predicate Declares(file: File, r: string) {
    (file.fileId != "" && r == file.fileId) || r in file.symbolIds
  }

  /** File `i` is the last to declare the reference `r`. */
  predicate LastDeclares(files: seq<File>, i: int, r: string) {
    0 <= i < |files| && Declares(files[i], r) && forall j :: i < j < |files| ==> !Declares(files[j], r)
  }

  /** File `i` is the last entry for the path `p`. */
  predicate LastEntry(files: seq<File>, i: int, p: string) {
    0 <= i < |files| && files[i].path == p && forall j :: i < j < |files| ==> files[j].path != p
  }

  /** A reference leads to the file that declares it last, and a path has the role of its last entry. */
  ghost predicate LastOneWins(refs: map<string, string>, roles: map<string, Role>, files: seq<File>) {
    && (forall r :: r in refs ==> exists i :: LastDeclares(files, i, r))
    && (forall r, i :: LastDeclares(files, i, r) ==> r in refs && refs[r] == files[i].path)
    && (forall p :: p in roles ==> exists i :: LastEntry(files, i, p))
    && (forall p, i :: LastEntry(files, i, p) ==> p in roles && roles[p] == files[i].role)
  }

  lemma {:induction false} WithSymbolsAre(refs: map<string, string>, path: string, symbolIds: seq<string>, r: string)
    ensures r in WithSymbols(refs, path, symbolIds) <==> r in refs || r in symbolIds
    ensures r in symbolIds ==> WithSymbols(refs, path, symbolIds)[r] == path
    ensures r in refs && r !in symbolIds ==> WithSymbols(refs, path, symbolIds)[r] == refs[r]
  {
    if symbolIds != [] {
      var front, last := symbolIds[..|symbolIds| - 1], symbolIds[|symbolIds| - 1];
      WithSymbolsAre(refs, path, front, r);
      assert symbolIds == front + [last];
    }
  }

  lemma WithFileAre(refs: map<string, string>, file: File, r: string)
    ensures r in WithFile(refs, file) <==> r in refs || Declares(file, r)
    ensures Declares(file, r) ==> WithFile(refs, file)[r] == file.path
    ensures r in refs && !Declares(file, r) ==> WithFile(refs, file)[r] == refs[r]
  {
    WithSymbolsAre(if file.fileId == "" then refs else refs[file.fileId := file.path], file.path, file.symbolIds, r);
  }

  lemma LastStep(front: seq<File>, last: File, i: int, key: string)
    ensures LastDeclares(front + [last], i, key) <==>
              (i == |front| && Declares(last, key)) || (LastDeclares(front, i, key) && !Declares(last, key))
    ensures LastEntry(front + [last], i, key) <==>
              (i == |front| && last.path == key) || (LastEntry(front, i, key) && last.path != key)
  {
    var all := front + [last];
    assert all[|front|] == last;
    assert forall j :: 0 <= j < |front| ==> all[j] == front[j];
  }

  lemma {:induction false} RefsAre(files: seq<File>, r: string)
    ensures r in PathByRef(files) ==> exists i :: LastDeclares(files, i, r)
    ensures forall i :: LastDeclares(files, i, r) ==> r in PathByRef(files) && PathByRef(files)[r] == files[i].path
  {
    if files != [] {
      var front, last := files[..|files| - 1], files[|files| - 1];
      assert files == front + [last];
      RefsAre(front, r);
      WithFileAre(PathByRef(front), last, r);
      forall i {
        LastStep(front, last, i, r);
      }
      if Declares(last, r) {
        assert LastDeclares(files, |front|, r);
      }
    }
  }

  lemma {:induction false} RolesAre(files: seq<File>, p: string)
    ensures p in RoleByPath(files) ==> exists i :: LastEntry(files, i, p)
    ensures forall i :: LastEntry(files, i, p) ==> p in RoleByPath(files) && RoleByPath(files)[p] == files[i].role
  {
    if files != [] {
      var front, last := files[..|files| - 1], files[|files| - 1];
      assert files == front + [last];
      RolesAre(front, p);
      forall i {
        LastStep(front, last, i, p);
      }
      if last.path == p {
        assert LastEntry(files, |front|, p);
      }
    }
  }

  lemma {:induction false} EveryPathHasARole(files: seq<File>, i: int)
    requires 0 <= i < |files|
    ensures files[i].path in RoleByPath(files)
  {
    if i < |files| - 1 {
      EveryPathHasARole(files[..|files| - 1], i);
    }
  }

  // The indexes hold the last declaration of each reference and the last entry of each path, and
  // every reference leads to a path that has a role.
  lemma IndexesAre(files: seq<File>)
    ensures LastOneWins(PathByRef(files), RoleByPath(files), files)
    ensures forall r :: r in PathByRef(files) ==> PathByRef(files)[r] in RoleByPath(files)
  {
    forall r {
      RefsAre(files, r);
    }
    forall p {
      RolesAre(files, p);
    }
    forall r | r in PathByRef(files) ensures PathByRef(files)[r] in RoleByPath(files) {
      var i :| LastDeclares(files, i, r);
      EveryPathHasARole(files, i);
    }
  }

  method BuildIndexes(files: seq<File>) returns (refs: map<string, string>, roles: map<string, Role>)
    ensures refs == PathByRef(files)
    ensures roles == RoleByPath(files)
    ensures LastOneWins(refs, roles, files) && forall r :: r in refs ==> refs[r] in roles
  {
    IndexesAre(files);
    refs, roles := map[], map[];
    for i := 0 to |files|
      invariant refs == PathByRef(files[..i])
      invariant roles == RoleByPath(files[..i])
    {
      var file := files[i];
      assert files[..i + 1][..i] == files[..i];
      roles := roles[file.path := file.role];
      ghost var seeded := if file.fileId == "" then refs else refs[file.fileId := file.path];
      if file.fileId != "" {
        refs := refs[file.fileId := file.path];
      }
      for j := 0 to |file.symbolIds|
        invariant refs == WithSymbols(seeded, file.path, file.symbolIds[..j])
      {
        assert file.symbolIds[..j + 1][..j] == file.symbolIds[..j];
        refs := refs[file.symbolIds[j] := file.path];
      }
      assert file.symbolIds[..|file.symbolIds|] == file.symbolIds;
    }
    assert files[..|files|] == files;
  }

  // ----- undirected usable edges --------------------------------------------------

  predicate Usable(e: Edge, refs: map<string, string>) {
    && e.resolved && !e.lowConfidence && e.impactType
    && e.fromRef in refs && e.toRef in refs && refs[e.fromRef] != refs[e.toRef]
    && e.edgeId != ""
  }

  /** Edge `e` joins files `p` and `q`, in either direction. */
  predicate Joins(e: Edge, refs: map<string, string>, p: string, q: string) {
    && Usable(e, refs)
    && ((refs[e.fromRef] == p && refs[e.toRef] == q) || (refs[e.fromRef] == q && refs[e.toRef] == p))
  }

  predicate Linked(edges: seq<Edge>, refs: map<string, string>, p: string, hop: Hop) {
    exists e :: e in edges && Joins(e, refs, p, hop.path) && e.edgeId == hop.edgeId
  }

  predicate Listed(adjacency: Adjacency, p: string, hop: Hop) {
    p in adjacency && hop in adjacency[p]
  }

  /** The adjacency lists hold exactly the usable edges, from both ends. */
  ghost predicate Represents(adjacency: Adjacency, edges: seq<Edge>, refs: map<string, string>) {
    forall p, hop :: Listed(adjacency, p, hop) <==> Linked(edges, refs, p, hop)
  }

  function Append(adjacency: Adjacency, p: string, hop: Hop): (r: Adjacency)
    ensures forall q, h :: Listed(r, q, h) <==> Listed(adjacency, q, h) || (q == p && h == hop)
  {
    adjacency[p := (if p in adjacency then adjacency[p] else []) + [hop]]
  }

  lemma LinkedStep(edges: seq<Edge>, e: Edge, refs: map<string, string>)
    ensures forall p, hop :: Linked(edges + [e], refs, p, hop) <==>
              Linked(edges, refs, p, hop) || (Joins(e, refs, p, hop.path) && e.edgeId == hop.edgeId)
  {
    assert forall x :: x in edges + [e] <==> x in edges || x == e;
  }

  method BuildAdjacency(edges: seq<Edge>, refs: map<string, string>) returns (adjacency: Adjacency)
    ensures Represents(adjacency, edges, refs)
  {
    adjacency := map[];
    for i := 0 to |edges|
      invariant Represents(adjacency, edges[..i], refs)
    {
      var e := edges[i];
      assert edges[..i + 1] == edges[..i] + [e];
      LinkedStep(edges[..i], e, refs);
      if Usable(e, refs) {
        var source, target := refs[e.fromRef], refs[e.toRef];
        adjacency := Append(adjacency, source, Hop(target, e.edgeId));
        adjacency := Append(adjacency, target, Hop(source, e.edgeId));
      }
    }
    assert edges[..|edges|] == edges;
  }

  // ----- distance -------------------------------------------------------------------

  function Neighbours(adjacency: Adjacency, ps: set<string>): set<string> {
    set p, hop | p in ps && p in adjacency && hop in adjacency[p] :: hop.path
  }

  function EdgesAt(adjacency: Adjacency, ps: set<string>): set<string> {
    set p, hop | p in ps && p in adjacency && hop in adjacency[p] :: hop.edgeId
  }

  /** The files reachable from `seed` in at most `k` hops. */
  function Ball(adjacency: Adjacency, seed: string, k: nat): (ball: set<string>)
    ensures seed in ball
  {
    if k == 0 then {seed}
    else Ball(adjacency, seed, k - 1) + Neighbours(adjacency, Ball(adjacency, seed, k - 1))
  }

  predicate Adjacent(edges: seq<Edge>, refs: map<string, string>, p: string, q: string) {
    exists e :: e in edges && Joins(e, refs, p, q)
  }

  /** A walk in the undirected graph of usable edges. */
  predicate Walk(edges: seq<Edge>, refs: map<string, string>, w: seq<string>) {
    w != [] && forall i :: 0 <= i < |w| - 1 ==> Adjacent(edges, refs, w[i], w[i + 1])
  }

  ghost predicate WithinHops(edges: seq<Edge>, refs: map<string, string>, seed: string, k: nat, q: string) {
    exists w :: Walk(edges, refs, w) && w[0] == seed && w[|w| - 1] == q && |w| <= k + 1
  }

  lemma NeighboursAreAdjacent(adjacency: Adjacency, edges: seq<Edge>, refs: map<string, string>, p: string, q: string)
    requires Represents(adjacency, edges, refs)
    ensures q in Neighbours(adjacency, {p}) <==> Adjacent(edges, refs, p, q)
  {
    if Adjacent(edges, refs, p, q) {
      var e :| e in edges && Joins(e, refs, p, q);
      assert Linked(edges, refs, p, Hop(q, e.edgeId));
      assert Listed(adjacency, p, Hop(q, e.edgeId));
    }
    if q in Neighbours(adjacency, {p}) {
      var hop :| p in adjacency && hop in adjacency[p] && hop.path == q;
      assert Listed(adjacency, p, hop);
    }
  }

  // The frontier search's balls are the declarative at-most-k-hops relation.
  lemma {:induction false} BallIsWithinHops(adjacency: Adjacency, edges: seq<Edge>, refs: map<string, string>,
                                            seed: string, k: nat, q: string)
    requires Represents(adjacency, edges, refs)
    ensures q in Ball(adjacency, seed, k) <==> WithinHops(edges, refs, seed, k, q)
  {
    if q in Ball(adjacency, seed, k) {
      BallHasWalk(adjacency, edges, refs, seed, k, q);
    }
    if WithinHops(edges, refs, seed, k, q) {
      var w :| Walk(edges, refs, w) && w[0] == seed && w[|w| - 1] == q && |w| <= k + 1;
      WalkInBall(adjacency, edges, refs, seed, k, w);
    }
  }

  lemma {:induction false} BallHasWalk(adjacency: Adjacency, edges: seq<Edge>, refs: map<string, string>,
                                       seed: string, k: nat, q: string)
    requires Represents(adjacency, edges, refs)
    requires q in Ball(adjacency, seed, k)
    ensures WithinHops(edges, refs, seed, k, q)
  {
    if q == seed {
      assert Walk(edges, refs, [seed]);
    } else if q in Ball(adjacency, seed, k - 1) {
      BallHasWalk(adjacency, edges, refs, seed, k - 1, q);
    } else {
      var p, hop :| p in Ball(adjacency, seed, k - 1) && p in adjacency && hop in adjacency[p] && hop.path == q;
      BallHasWalk(adjacency, edges, refs, seed, k - 1, p);
      NeighboursAreAdjacent(adjacency, edges, refs, p, q);
      var w :| Walk(edges, refs, w) && w[0] == seed && w[|w| - 1] == p && |w| <= k;
      assert Walk(edges, refs, w + [q]);
    }
  }

  lemma {:induction false} WalkInBall(adjacency: Adjacency, edges: seq<Edge>, refs: map<string, string>,
                                      seed: string, k: nat, w: seq<string>)
    requires Represents(adjacency, edges, refs)
    requires Walk(edges, refs, w) && w[0] == seed && |w| <= k + 1
    ensures w[|w| - 1] in Ball(adjacency, seed, k)
  {
    if |w| > 1 {
      var front := w[..|w| - 1];
      assert Walk(edges, refs, front);
      WalkInBall(adjacency, edges, refs, seed, k - 1, front);
      var p := w[|w| - 2];
      assert Adjacent(edges, refs, w[|w| - 2], w[|w| - 1]);
      NeighboursAreAdjacent(adjacency, edges, refs, p, w[|w| - 1]);
    }
  }

  // The recorded edge ids are those of the usable edges touching a given set of files.
  lemma EdgesAtAreIncident(adjacency: Adjacency, edges: seq<Edge>, refs: map<string, string>, ps: set<string>, id: string)
    requires Represents(adjacency, edges, refs)
    ensures id in EdgesAt(adjacency, ps) <==>
            exists e :: e in edges && Usable(e, refs) && e.edgeId == id
                        && (refs[e.fromRef] in ps || refs[e.toRef] in ps)
  {
    if id in EdgesAt(adjacency, ps) {
      var p, hop :| p in ps && p in adjacency && hop in adjacency[p] && hop.edgeId == id;
      assert Listed(adjacency, p, hop);
    }
    forall e | e in edges && Usable(e, refs) && e.edgeId == id && (refs[e.fromRef] in ps || refs[e.toRef] in ps)
      ensures id in EdgesAt(adjacency, ps)
    {
      var p := if refs[e.fromRef] in ps then refs[e.fromRef] else refs[e.toRef];
      var q := if refs[e.fromRef] in ps then refs[e.toRef] else refs[e.fromRef];
      assert Linked(edges, refs, p, Hop(q, e.edgeId));
      assert Listed(adjacency, p, Hop(q, e.edgeId));
    }
  }

  // ----- the bounded frontier search ----------------------------------------------

  function PathsOf(hops: seq<Hop>): set<string> {
    set hop | hop in hops :: hop.path
  }

  function EdgeIdsOf(hops: seq<Hop>): set<string> {
    set hop | hop in hops :: hop.edgeId
  }

  /** The hops of one file: records every edge and takes in what was not reached before. */
  method LookAround(hops: seq<Hop>, reached: set<string>, next: set<string>, refs: set<string>)
    returns (reached': set<string>, next': set<string>, refs': set<string>)
    ensures reached' == reached + PathsOf(hops) && next' == next + (PathsOf(hops) - reached) && refs' == refs + EdgeIdsOf(hops)
  {
    reached', next', refs' := reached, next, refs;
    for j := 0 to |hops|
      invariant reached' == reached + PathsOf(hops[..j])
      invariant next' == next + (PathsOf(hops[..j]) - reached)
      invariant refs' == refs + EdgeIdsOf(hops[..j])
    {
      assert hops[..j + 1] == hops[..j] + [hops[j]];
      refs' := refs' + {hops[j].edgeId};
      if hops[j].path !in reached' {
        reached' := reached' + {hops[j].path};
        next' := next' + {hops[j].path};
      }
    }
    assert hops[..|hops|] == hops;
  }

  /** One level: looks at every hop of every frontier file. */
  method Expand(adjacency: Adjacency, frontier: seq<string>, visited: set<string>)
    returns (reached: set<string>, next: set<string>, refs: set<string>)
    ensures reached == visited + Neighbours(adjacency, set p | p in frontier)
    ensures next == Neighbours(adjacency, set p | p in frontier) - visited
    ensures refs == EdgesAt(adjacency, set p | p in frontier)
  {
    reached, next, refs := visited, {}, {};
    for i := 0 to |frontier|
      invariant reached == visited + Neighbours(adjacency, set p | p in frontier[..i])
      invariant next == Neighbours(adjacency, set p | p in frontier[..i]) - visited
      invariant refs == EdgesAt(adjacency, set p | p in frontier[..i])
    {
      var current := frontier[i];
      var hops := if current in adjacency then adjacency[current] else [];
      reached, next, refs := LookAround(hops, reached, next, refs);
      assert frontier[..i + 1] == frontier[..i] + [current];
      NeighboursStep(adjacency, frontier[..i], current, hops);
    }
    assert frontier[..|frontier|] == frontier;
  }

  lemma NeighboursStep(adjacency: Adjacency, done: seq<string>, current: string, hops: seq<Hop>)
    requires hops == if current in adjacency then adjacency[current] else []
    ensures Neighbours(adjacency, set p | p in done + [current])
            == Neighbours(adjacency, set p | p in done) + PathsOf(hops)
    ensures EdgesAt(adjacency, set p | p in done + [current])
            == EdgesAt(adjacency, set p | p in done) + EdgeIdsOf(hops)
  {
    assert (set p | p in done + [current]) == (set p | p in done) + {current};
  }

  lemma BallGrows(adjacency: Adjacency, seed: string, k: nat, settled: set<string>, frontier: set<string>)
    requires settled + frontier == Ball(adjacency, seed, k)
    requires Neighbours(adjacency, settled) <= settled + frontier
    ensures Ball(adjacency, seed, k + 1) == settled + frontier + Neighbours(adjacency, frontier)
    ensures EdgesAt(adjacency, settled + frontier) == EdgesAt(adjacency, settled) + EdgesAt(adjacency, frontier)
    ensures Neighbours(adjacency, settled + frontier) <= Ball(adjacency, seed, k + 1)
  {
    assert Neighbours(adjacency, settled + frontier)
           == Neighbours(adjacency, settled) + Neighbours(adjacency, frontier);
  }

  method NextLevel(adjacency: Adjacency, visited: set<string>, frontier: set<string>)
    returns (reached: set<string>, next: set<string>, found: set<string>)
    ensures reached == visited + Neighbours(adjacency, frontier)
    ensures next == Neighbours(adjacency, frontier) - visited
    ensures found == EdgesAt(adjacency, frontier)
  {
    var ordered := Sorted(frontier);
    assert (set p | p in ordered) == frontier;
    reached, next, found := Expand(adjacency, ordered, visited);
  }

  /** The search after `depth` levels: everything but the frontier has been looked at. */
  ghost predicate AtLevel(adjacency: Adjacency, seed: string, depth: nat, settled: set<string>,
                          visited: set<string>, frontier: set<string>, refs: set<string>)
  {
    && visited == Ball(adjacency, seed, depth) == settled + frontier
    && Neighbours(adjacency, settled) <= visited
    && refs == EdgesAt(adjacency, settled)
    && settled == if depth == 0 then {} else Ball(adjacency, seed, depth - 1)
  }

  lemma LevelStep(adjacency: Adjacency, seed: string, depth: nat, settled: set<string>,
                  visited: set<string>, frontier: set<string>, refs: set<string>)
    requires AtLevel(adjacency, seed, depth, settled, visited, frontier, refs)
    ensures AtLevel(adjacency, seed, depth + 1, visited, visited + Neighbours(adjacency, frontier),
                    Neighbours(adjacency, frontier) - visited, refs + EdgesAt(adjacency, frontier))
  {
    BallGrows(adjacency, seed, depth, settled, frontier);
  }

  /** The bounded search from one seed, one level of hops at a time. */
  method Explore(adjacency: Adjacency, seed: string, hops: nat) returns (visited: set<string>, refs: set<string>)
    ensures visited == Ball(adjacency, seed, hops)
    ensures refs == if hops == 0 then {} else EdgesAt(adjacency, Ball(adjacency, seed, hops - 1))
  {
    visited, refs := {seed}, {};
    var frontier := {seed};
    ghost var settled: set<string> := {};
    for depth := 0 to hops
      invariant AtLevel(adjacency, seed, depth, settled, visited, frontier, refs)
    {
      LevelStep(adjacency, seed, depth, settled, visited, frontier, refs);
      var reached, next, found := NextLevel(adjacency, visited, frontier);
      settled := visited;
      visited, frontier, refs := reached, next, refs + found;
    }
  }
}
