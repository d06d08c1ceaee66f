/** The fixed steps of a schema diff that run before and after the mapping
    search: padding check, the fully-fixed shortcut, the vertex orders handed
    to the search (with the possible-mapping sort), and the two-pass rule that
    turns a mapping into edge edit operations. */
module SchemaDiffing {
  import opened Wrappers
  import opened Seqs
  import opened SchemaGraphs

  // ---------------------------------------------------------------------------
  // Sorting the unmapped source vertices by their number of possible mappings
  // ---------------------------------------------------------------------------

  /** `possibleMappings.get(v).size()`: a vertex without an entry has the
      empty collection of possible mappings, and so the count 0. */
  function PossibleCount(pm: map<Vertex, set<Vertex>>, v: Vertex): nat {
    if v in pm then |pm[v]| else 0
  }

  /** The comparator `Integer.compare(v2Count, v1Count)` orders by non-increasing count. */
  predicate NonIncreasing(pm: map<Vertex, set<Vertex>>, s: seq<Vertex>) {
    forall i, j :: 0 <= i < j < |s| ==> PossibleCount(pm, s[i]) >= PossibleCount(pm, s[j])
  }

  /** The vertices of `s` whose count is `k`, in their order in `s`. */
  function WithCount(pm: map<Vertex, set<Vertex>>, s: seq<Vertex>, k: nat): seq<Vertex> {
    if s == [] then []
    else (if PossibleCount(pm, s[0]) == k then [s[0]] else []) + WithCount(pm, s[1..], k)
  }

  lemma {:induction false} WithCountAppend(pm: map<Vertex, set<Vertex>>, a: seq<Vertex>, b: seq<Vertex>, k: nat)
    ensures WithCount(pm, a + b, k) == WithCount(pm, a, k) + WithCount(pm, b, k)
  {
    if a == [] {
      assert a + b == b;
    } else {
      assert (a + b)[1..] == a[1..] + b;
      WithCountAppend(pm, a[1..], b, k);
    }
  }

  lemma {:induction false} WithLargerCountEmpty(pm: map<Vertex, set<Vertex>>, s: seq<Vertex>, k: nat)
    requires NonIncreasing(pm, s)
    requires s != [] ==> PossibleCount(pm, s[0]) < k
    ensures WithCount(pm, s, k) == []
  {
    if s != [] {
      if |s| > 1 {
        assert PossibleCount(pm, s[1]) <= PossibleCount(pm, s[0]);
      }
      WithLargerCountEmpty(pm, s[1..], k);
    }
  }

  /** Inserts `x` into a non-increasing list after every vertex whose count is
      at least that of `x`: the step of a stable sort. */
  function InsertByCount(pm: map<Vertex, set<Vertex>>, x: Vertex, s: seq<Vertex>): seq<Vertex> {
    if s == [] then [x]
    else if PossibleCount(pm, s[0]) >= PossibleCount(pm, x) then
      [s[0]] + InsertByCount(pm, x, s[1..])
    else [x] + s
  }

  lemma {:induction false} InsertByCountPermutes(pm: map<Vertex, set<Vertex>>, x: Vertex, s: seq<Vertex>)
    ensures multiset(InsertByCount(pm, x, s)) == multiset(s) + multiset{x}
  {
    if s != [] && PossibleCount(pm, s[0]) >= PossibleCount(pm, x) {
      InsertByCountPermutes(pm, x, s[1..]);
      assert s == [s[0]] + s[1..];
    }
  }

  /** Every vertex of `s` has count at most `b`. */
  predicate AllAtMost(pm: map<Vertex, set<Vertex>>, s: seq<Vertex>, b: nat) {
    forall i :: 0 <= i < |s| ==> PossibleCount(pm, s[i]) <= b
  }

  lemma {:induction false} InsertByCountAtMost(pm: map<Vertex, set<Vertex>>, x: Vertex, s: seq<Vertex>, b: nat)
    requires AllAtMost(pm, s, b) && PossibleCount(pm, x) <= b
    ensures AllAtMost(pm, InsertByCount(pm, x, s), b)
  {
    if s != [] && PossibleCount(pm, s[0]) >= PossibleCount(pm, x) {
      InsertByCountAtMost(pm, x, s[1..], b);
    }
  }

  lemma NonIncreasingCons(pm: map<Vertex, set<Vertex>>, a: Vertex, t: seq<Vertex>)
    requires NonIncreasing(pm, t) && AllAtMost(pm, t, PossibleCount(pm, a))
    ensures NonIncreasing(pm, [a] + t)
  {
    var r := [a] + t;
    forall i, j | 0 <= i < j < |r| ensures PossibleCount(pm, r[i]) >= PossibleCount(pm, r[j]) {
      assert r[j] == t[j - 1];
      if i > 0 {
        assert r[i] == t[i - 1];
      }
    }
  }

  lemma {:induction false} InsertByCountSorted(pm: map<Vertex, set<Vertex>>, x: Vertex, s: seq<Vertex>)
    requires NonIncreasing(pm, s)
    ensures NonIncreasing(pm, InsertByCount(pm, x, s))
  {
    if s == [] {
    } else if PossibleCount(pm, s[0]) >= PossibleCount(pm, x) {
      var t := s[1..];
      InsertByCountSorted(pm, x, t);
      assert AllAtMost(pm, t, PossibleCount(pm, s[0])) by {
        forall i | 0 <= i < |t| ensures PossibleCount(pm, t[i]) <= PossibleCount(pm, s[0]) {
          assert t[i] == s[i + 1];
        }
      }
      InsertByCountAtMost(pm, x, t, PossibleCount(pm, s[0]));
      NonIncreasingCons(pm, s[0], InsertByCount(pm, x, t));
    } else {
      assert AllAtMost(pm, s, PossibleCount(pm, x)) by {
        forall i | 0 <= i < |s| ensures PossibleCount(pm, s[i]) <= PossibleCount(pm, x) {
          assert i > 0 ==> PossibleCount(pm, s[i]) <= PossibleCount(pm, s[0]);
        }
      }
      NonIncreasingCons(pm, x, s);
    }
  }

  lemma WithCountCons(pm: map<Vertex, set<Vertex>>, a: Vertex, t: seq<Vertex>, k: nat)
    ensures WithCount(pm, [a] + t, k) == (if PossibleCount(pm, a) == k then [a] else []) + WithCount(pm, t, k)
  {
    assert ([a] + t)[1..] == t;
  }

  lemma NonIncreasingTail(pm: map<Vertex, set<Vertex>>, s: seq<Vertex>)
    requires s != [] && NonIncreasing(pm, s)
    ensures NonIncreasing(pm, s[1..])
  {
    var t := s[1..];
    forall i, j | 0 <= i < j < |t| ensures PossibleCount(pm, t[i]) >= PossibleCount(pm, t[j]) {
      assert t[i] == s[i + 1] && t[j] == s[j + 1];
    }
  }

  lemma {:induction false} InsertByCountStable(pm: map<Vertex, set<Vertex>>, x: Vertex, s: seq<Vertex>, k: nat)
    requires NonIncreasing(pm, s)
    ensures WithCount(pm, InsertByCount(pm, x, s), k)
            == WithCount(pm, s, k) + (if PossibleCount(pm, x) == k then [x] else [])
  {
    if s == [] {
      WithCountCons(pm, x, [], k);
      assert [x] + [] == [x];
    } else if PossibleCount(pm, s[0]) >= PossibleCount(pm, x) {
      var t := s[1..];
      var rest := InsertByCount(pm, x, t);
      var head := if PossibleCount(pm, s[0]) == k then [s[0]] else [];
      var added := if PossibleCount(pm, x) == k then [x] else [];
      NonIncreasingTail(pm, s);
      calc {
        WithCount(pm, InsertByCount(pm, x, s), k);
      == { assert InsertByCount(pm, x, s) == [s[0]] + rest; WithCountCons(pm, s[0], rest, k); }
        head + WithCount(pm, rest, k);
      == { InsertByCountStable(pm, x, t, k); }
        head + (WithCount(pm, t, k) + added);
      ==
        (head + WithCount(pm, t, k)) + added;
      == { WithCountCons(pm, s[0], t, k); assert [s[0]] + t == s; }
        WithCount(pm, s, k) + added;
      }
    } else {
      WithCountCons(pm, x, s, k);
      if PossibleCount(pm, x) == k {
        WithLargerCountEmpty(pm, s, k);
      }
    }
  }

  /** `sortListBasedOnPossibleMapping`: `Collections.sort` with the comparator
      `Integer.compare(v2Count, v1Count)`. The result is a permutation of the
      input, ordered by non-increasing possible-mapping count, and the sort is
      stable: the vertices sharing one count keep their relative order. */
  function SortListBasedOnPossibleMapping(vs: seq<Vertex>, pm: map<Vertex, set<Vertex>>): (r: seq<Vertex>)
    ensures multiset(r) == multiset(vs)
    ensures NonIncreasing(pm, r)
    ensures forall k :: WithCount(pm, r, k) == WithCount(pm, vs, k)
  {
    if vs == [] then []
    else
      var sorted := SortListBasedOnPossibleMapping(vs[..|vs| - 1], pm);
      InsertLastKeepsOrder(pm, vs, sorted);
      InsertByCount(pm, vs[|vs| - 1], sorted)
  }

  /** One step of the insertion sort: inserting the last vertex into the
      sorted rest keeps every property of the sort. */
  lemma InsertLastKeepsOrder(pm: map<Vertex, set<Vertex>>, vs: seq<Vertex>, sorted: seq<Vertex>)
    requires vs != []
    requires multiset(sorted) == multiset(vs[..|vs| - 1]) && NonIncreasing(pm, sorted)
    requires forall k :: WithCount(pm, sorted, k) == WithCount(pm, vs[..|vs| - 1], k)
    ensures var r := InsertByCount(pm, vs[|vs| - 1], sorted);
            && multiset(r) == multiset(vs) && NonIncreasing(pm, r)
            && forall k :: WithCount(pm, r, k) == WithCount(pm, vs, k)
  {
    var init, last := vs[..|vs| - 1], vs[|vs| - 1];
    var r := InsertByCount(pm, last, sorted);
    assert vs == init + [last];
    InsertByCountSorted(pm, last, sorted);
    InsertByCountPermutes(pm, last, sorted);
    forall k ensures WithCount(pm, r, k) == WithCount(pm, vs, k) {
      InsertByCountStable(pm, last, sorted, k);
      WithCountAppend(pm, init, [last], k);
      assert [last][1..] == [];
    }
  }

  // ---------------------------------------------------------------------------
  // The vertex orders handed to the search
  // ---------------------------------------------------------------------------

  /** Lines 63-64, 76 and 79-81: the fixed-mapped sources, then the remaining
      source vertices sorted by possible-mapping count. */
  function SourceOrder(source: SchemaGraph, fixed: Mapping, pm: map<Vertex, set<Vertex>>): seq<Vertex>
  {
    fixed.sources + SortListBasedOnPossibleMapping(RemoveAll(source.vertices, fixed.sources), pm)
  }

  /** Lines 73-74 and 83-85: the fixed-mapped targets, then the remaining
      target vertices in graph order. */
  function TargetOrder(target: SchemaGraph, fixed: Mapping): seq<Vertex> {
    fixed.targets + RemoveAll(target.vertices, fixed.targets)
  }

  /** When the fixed mapping is a bijection between vertices of the two graphs,
      both orders are duplicate-free permutations of their graph's vertices
      that start with the fixed part; the unmapped sources follow in
      non-increasing count order. */
  lemma VertexOrdersArePermutations(source: SchemaGraph, target: SchemaGraph, fixed: Mapping,
                                    pm: map<Vertex, set<Vertex>>)
    requires source.WellFormed() && target.WellFormed() && fixed.Valid()
    requires forall v :: v in fixed.sources ==> v in source.vertices
    requires forall w :: w in fixed.targets ==> w in target.vertices
    ensures var so := SourceOrder(source, fixed, pm);
            && multiset(so) == multiset(source.vertices) && Distinct(so)
            && so[..fixed.Size()] == fixed.sources
            && NonIncreasing(pm, so[fixed.Size()..])
    ensures var to := TargetOrder(target, fixed);
            && multiset(to) == multiset(target.vertices) && Distinct(to)
            && to[..fixed.Size()] == fixed.targets
  {
    var rest := RemoveAll(source.vertices, fixed.sources);
    var sorted := SortListBasedOnPossibleMapping(rest, pm);
    var so := fixed.sources + sorted;
    forall v | v in fixed.sources ensures v in source.vertices { }
    PrefixThenRest(source.vertices, fixed.sources);
    assert multiset(so) == multiset(fixed.sources + rest);
    DistinctIffMultiplicityAtMostOne(fixed.sources + rest);
    DistinctIffMultiplicityAtMostOne(so);
    assert so[..fixed.Size()] == fixed.sources;
    assert so[fixed.Size()..] == sorted;
    forall w | w in fixed.targets ensures w in target.vertices { }
    PrefixThenRest(target.vertices, fixed.targets);
    assert TargetOrder(target, fixed)[..fixed.Size()] == fixed.targets;
  }

  // ---------------------------------------------------------------------------
  // The two-pass edge rule of calcEdgeOperations
  // ---------------------------------------------------------------------------

  /** The target edge between the images of a source edge's endpoints; None
      when an endpoint is unmapped (`getEdge(null, _)` is null) or there is no
      such edge. */
  function ImageEdge(target: SchemaGraph, m: Mapping, e: Edge): (r: Option<Edge>)
    ensures r.Some? ==> r.value in target.edges
                        && m.GetTarget(e.from) == Some(r.value.from) && m.GetTarget(e.to) == Some(r.value.to)
    ensures r.None? ==> m.GetTarget(e.from).None? || m.GetTarget(e.to).None?
                        || forall te :: te in target.edges ==>
                             m.GetTarget(e.from) != Some(te.from) || m.GetTarget(e.to) != Some(te.to)
  {
    match (m.GetTarget(e.from), m.GetTarget(e.to))
    case (Some(a), Some(b)) => target.GetEdge(a, b)
    case _ => None
  }

  /** The source edge between the pre-images of a target edge's endpoints. */
  function PreImageEdge(source: SchemaGraph, m: Mapping, te: Edge): (r: Option<Edge>)
    ensures r.Some? ==> r.value in source.edges
                        && m.GetSource(te.from) == Some(r.value.from) && m.GetSource(te.to) == Some(r.value.to)
    ensures r.None? ==> m.GetSource(te.from).None? || m.GetSource(te.to).None?
                        || forall e :: e in source.edges ==>
                             m.GetSource(te.from) != Some(e.from) || m.GetSource(te.to) != Some(e.to)
  {
    match (m.GetSource(te.from), m.GetSource(te.to))
    case (Some(a), Some(b)) => source.GetEdge(a, b)
    case _ => None
  }

  /** Lines 122-129 for one source edge. */
  function SourceEdgeOperation(target: SchemaGraph, m: Mapping, e: Edge): seq<EditOperation> {
    match ImageEdge(target, m, e)
    case None => [DeleteEdge(e)]
    case Some(te) => if e.edgeLabel != te.edgeLabel then [ChangeEdge(e, te)] else []
  }

  /** Lines 135-139 for one target edge. */
  function TargetEdgeOperation(source: SchemaGraph, m: Mapping, te: Edge): seq<EditOperation> {
    if PreImageEdge(source, m, te).None? then [InsertEdge(te)] else []
  }

  /** The first loop over the source edges `es`, in list order. */
  function SourcePass(target: SchemaGraph, m: Mapping, es: seq<Edge>): seq<EditOperation> {
    if es == [] then []
    else SourcePass(target, m, es[..|es| - 1]) + SourceEdgeOperation(target, m, es[|es| - 1])
  }

  /** The second loop over the target edges `tes`, in list order. */
  function TargetPass(source: SchemaGraph, m: Mapping, tes: seq<Edge>): seq<EditOperation> {
    if tes == [] then []
    else TargetPass(source, m, tes[..|tes| - 1]) + TargetEdgeOperation(source, m, tes[|tes| - 1])
  }

  lemma SourcePassStep(target: SchemaGraph, m: Mapping, es: seq<Edge>, i: nat)
    requires i < |es|
    ensures SourcePass(target, m, es[..i + 1]) == SourcePass(target, m, es[..i]) + SourceEdgeOperation(target, m, es[i])
  {
    assert es[..i + 1][..i] == es[..i];
  }

  lemma TargetPassStep(source: SchemaGraph, m: Mapping, tes: seq<Edge>, j: nat)
    requires j < |tes|
    ensures TargetPass(source, m, tes[..j + 1]) == TargetPass(source, m, tes[..j]) + TargetEdgeOperation(source, m, tes[j])
  {
    assert tes[..j + 1][..j] == tes[..j];
  }

  /** What `calcEdgeOperations(mapping)` returns for the two graphs. */
  function EdgeOperations(source: SchemaGraph, target: SchemaGraph, m: Mapping): seq<EditOperation> {
    SourcePass(target, m, source.edges) + TargetPass(source, m, target.edges)
  }

  /** The first pass follows edge-list order: the operations for a
      concatenation of edge lists are those of the first list followed by
      those of the second. */
  lemma {:induction false} SourcePassFollowsEdgeOrder(target: SchemaGraph, m: Mapping, a: seq<Edge>, b: seq<Edge>)
    ensures SourcePass(target, m, a + b) == SourcePass(target, m, a) + SourcePass(target, m, b)
  {
    if b == [] {
      assert a + b == a;
    } else {
      var b' := b[..|b| - 1];
      assert (a + b)[..|a + b| - 1] == a + b';
      assert (a + b)[|a + b| - 1] == b[|b| - 1];
      SourcePassFollowsEdgeOrder(target, m, a, b');
    }
  }

  /** The second pass follows edge-list order in the same way. */
  lemma {:induction false} TargetPassFollowsEdgeOrder(source: SchemaGraph, m: Mapping, a: seq<Edge>, b: seq<Edge>)
    ensures TargetPass(source, m, a + b) == TargetPass(source, m, a) + TargetPass(source, m, b)
  {
    if b == [] {
      assert a + b == a;
    } else {
      var b' := b[..|b| - 1];
      assert (a + b)[..|a + b| - 1] == a + b';
      assert (a + b)[|a + b| - 1] == b[|b| - 1];
      TargetPassFollowsEdgeOrder(source, m, a, b');
    }
  }

  lemma {:induction false} SourcePassShape(target: SchemaGraph, m: Mapping, es: seq<Edge>)
    ensures |SourcePass(target, m, es)| <= |es|
    ensures forall op :: op in SourcePass(target, m, es) ==>
              (op.DeleteEdge? && op.edge in es) || (op.ChangeEdge? && op.sourceEdge in es)
  {
    if es != [] {
      SourcePassShape(target, m, es[..|es| - 1]);
    }
  }

  lemma {:induction false} TargetPassShape(source: SchemaGraph, m: Mapping, tes: seq<Edge>)
    ensures |TargetPass(source, m, tes)| <= |tes|
    ensures forall op :: op in TargetPass(source, m, tes) ==> op.InsertEdge? && op.edge in tes
  {
    if tes != [] {
      TargetPassShape(source, m, tes[..|tes| - 1]);
    }
  }

  /** At most one operation per edge, and every delete or change precedes every insert. */
  lemma EdgeOperationsShape(source: SchemaGraph, target: SchemaGraph, m: Mapping)
    ensures var ops := EdgeOperations(source, target, m);
            |ops| <= |source.edges| + |target.edges|
    ensures var ops := EdgeOperations(source, target, m);
            var k := |SourcePass(target, m, source.edges)|;
            && (forall i :: 0 <= i < k ==> ops[i].DeleteEdge? || ops[i].ChangeEdge?)
            && (forall i :: k <= i < |ops| ==> ops[i].InsertEdge?)
  {
    SourcePassShape(target, m, source.edges);
    TargetPassShape(source, m, target.edges);
    RemovalsThenInserts(SourcePass(target, m, source.edges), TargetPass(source, m, target.edges));
  }

  lemma RemovalsThenInserts(sp: seq<EditOperation>, tp: seq<EditOperation>)
    requires forall op :: op in sp ==> op.DeleteEdge? || op.ChangeEdge?
    requires forall op :: op in tp ==> op.InsertEdge?
    ensures forall i :: 0 <= i < |sp| ==> (sp + tp)[i].DeleteEdge? || (sp + tp)[i].ChangeEdge?
    ensures forall i :: |sp| <= i < |sp + tp| ==> (sp + tp)[i].InsertEdge?
  {
    var ops := sp + tp;
    forall i | 0 <= i < |sp| ensures ops[i].DeleteEdge? || ops[i].ChangeEdge? {
      assert ops[i] == sp[i] && sp[i] in sp;
    }
    forall i | |sp| <= i < |ops| ensures ops[i].InsertEdge? {
      assert ops[i] == tp[i - |sp|] && tp[i - |sp|] in tp;
    }
  }

  lemma {:induction false} SourcePassCounts(target: SchemaGraph, m: Mapping, es: seq<Edge>, e: Edge, te: Edge)
    ensures multiset(SourcePass(target, m, es))[DeleteEdge(e)]
            == if ImageEdge(target, m, e).None? then multiset(es)[e] else 0
    ensures multiset(SourcePass(target, m, es))[ChangeEdge(e, te)]
            == if ImageEdge(target, m, e) == Some(te) && e.edgeLabel != te.edgeLabel then multiset(es)[e] else 0
    ensures multiset(SourcePass(target, m, es))[InsertEdge(te)] == 0
  {
    if es != [] {
      var init, last := es[..|es| - 1], es[|es| - 1];
      assert es == init + [last];
      assert multiset(SourcePass(target, m, es))
             == multiset(SourcePass(target, m, init)) + multiset(SourceEdgeOperation(target, m, last));
      SourcePassCounts(target, m, init, e, te);
    }
  }

  lemma {:induction false} TargetPassCounts(source: SchemaGraph, m: Mapping, tes: seq<Edge>, e: Edge, te: Edge)
    ensures multiset(TargetPass(source, m, tes))[InsertEdge(te)]
            == if PreImageEdge(source, m, te).None? then multiset(tes)[te] else 0
    ensures multiset(TargetPass(source, m, tes))[DeleteEdge(e)] == 0
    ensures multiset(TargetPass(source, m, tes))[ChangeEdge(e, te)] == 0
  {
    if tes != [] {
      var init := tes[..|tes| - 1];
      assert tes == init + [tes[|tes| - 1]];
      TargetPassCounts(source, m, init, e, te);
    }
  }

  /** Per source edge: exactly one delete-edge when no target edge joins the
      images of its endpoints, exactly one change-edge (to that edge) when the
      label differs, and otherwise nothing. */
  lemma SourceEdgeClassification(source: SchemaGraph, target: SchemaGraph, m: Mapping, e: Edge, te: Edge)
    requires source.UniqueEndpoints()
    ensures multiset(EdgeOperations(source, target, m))[DeleteEdge(e)]
            == if e in source.edges && ImageEdge(target, m, e).None? then 1 else 0
    ensures multiset(EdgeOperations(source, target, m))[ChangeEdge(e, te)]
            == if e in source.edges && ImageEdge(target, m, e) == Some(te) && e.edgeLabel != te.edgeLabel
               then 1 else 0
  {
    SourcePassCounts(target, m, source.edges, e, te);
    TargetPassCounts(source, m, target.edges, e, te);
    UniqueEndpointsDistinct(source);
    DistinctMultiplicity(source.edges, e);
  }

  /** Per target edge: exactly one insert-edge when no source edge joins the
      pre-images of its endpoints, and none otherwise. */
  lemma TargetEdgeClassification(source: SchemaGraph, target: SchemaGraph, m: Mapping, te: Edge)
    requires target.UniqueEndpoints()
    ensures multiset(EdgeOperations(source, target, m))[InsertEdge(te)]
            == if te in target.edges && PreImageEdge(source, m, te).None? then 1 else 0
  {
    SourcePassCounts(target, m, source.edges, te, te);
    TargetPassCounts(source, m, target.edges, te, te);
    UniqueEndpointsDistinct(target);
    DistinctMultiplicity(target.edges, te);
  }

  /** A mapping that carries every source edge onto a target edge with the same
      label, and every target edge back onto a source edge, yields no edge
      operations; and only such a mapping does. */
  lemma {:induction false} NoEdgeOperationsIffPreserved(source: SchemaGraph, target: SchemaGraph, m: Mapping)
    ensures EdgeOperations(source, target, m) == [] <==>
              && (forall e :: e in source.edges ==>
                    ImageEdge(target, m, e).Some? && ImageEdge(target, m, e).value.edgeLabel == e.edgeLabel)
              && (forall te :: te in target.edges ==> PreImageEdge(source, m, te).Some?)
  {
    SourcePassEmptyIff(target, m, source.edges);
    TargetPassEmptyIff(source, m, target.edges);
  }

  lemma {:induction false} SourcePassEmptyIff(target: SchemaGraph, m: Mapping, es: seq<Edge>)
    ensures SourcePass(target, m, es) == [] <==>
              forall e :: e in es ==>
                ImageEdge(target, m, e).Some? && ImageEdge(target, m, e).value.edgeLabel == e.edgeLabel
  {
    if es != [] {
      var init := es[..|es| - 1];
      assert es == init + [es[|es| - 1]];
      SourcePassEmptyIff(target, m, init);
    }
  }

  lemma {:induction false} TargetPassEmptyIff(source: SchemaGraph, m: Mapping, tes: seq<Edge>)
    ensures TargetPass(source, m, tes) == [] <==> forall te :: te in tes ==> PreImageEdge(source, m, te).Some?
  {
    if tes != [] {
      var init := tes[..|tes| - 1];
      assert tes == init + [tes[|tes| - 1]];
      TargetPassEmptyIff(source, m, init);
    }
  }

  // ---------------------------------------------------------------------------
  // The collaborators that are not modelled, and the diff driver
  // ---------------------------------------------------------------------------

  /** `FillupIsolatedVertices.IsolatedVertices`: the fixed partial mapping and,
      per source vertex, the set of target vertices it may still be mapped to. */
  datatype IsolatedVertices = IsolatedVertices(mapping: Mapping, possibleMappings: map<Vertex, set<Vertex>>)

  /** The two graphs after `ensureGraphAreSameSize` has padded them, with the
      isolated-vertices result computed on them. */
  datatype Padded = Padded(source: SchemaGraph, target: SchemaGraph, isolated: IsolatedVertices)

  /** `DiffImpl.OptimalEdit`: the tied optimal mappings, their edit lists, and the cost. */
  datatype OptimalEdit = OptimalEdit(mappings: seq<Mapping>, listOfEditOperations: seq<seq<EditOperation>>, ged: int)

  /** The classes this model takes as given: the padding and isolation step,
      the editorial cost of a full mapping (the operations it appends to its
      result list), and the branch-and-bound search. */
  datatype Collaborators = Collaborators(
    fillup: (SchemaGraph, SchemaGraph) -> Padded,
    editorialCost: (Mapping, SchemaGraph, SchemaGraph) -> seq<EditOperation>,
    search: (SchemaGraph, SchemaGraph, IsolatedVertices, Mapping, seq<Vertex>, seq<Vertex>) -> OptimalEdit)

  /** `assertTrue` failing at line 51, and `get(0)` on an empty list of edit lists. */
  datatype DiffError = GraphsNotSameSize | NoEditOperationList

  /** What `diffImpl` returns for two graphs. */
  function DiffOutcome(c: Collaborators, source: SchemaGraph, target: SchemaGraph): Result<OptimalEdit, DiffError>
  {
    var p := c.fillup(source, target);
    var fixed := p.isolated.mapping;
    if p.source.Size() != p.target.Size() then Failure(GraphsNotSameSize)
    else if fixed.Size() == p.source.Size() then
      var result := c.editorialCost(fixed, p.source, p.target);
      Success(OptimalEdit([fixed], [result], |result|))
    else
      Success(c.search(p.source, p.target, p.isolated, fixed,
                       SourceOrder(p.source, fixed, p.isolated.possibleMappings),
                       TargetOrder(p.target, fixed)))
  }

  /** The padding is checked, never assumed: the diff fails exactly when the
      padded graphs differ in size. */
  lemma PaddingIsChecked(c: Collaborators, source: SchemaGraph, target: SchemaGraph)
    ensures DiffOutcome(c, source, target) == Failure(GraphsNotSameSize)
            <==> c.fillup(source, target).source.Size() != c.fillup(source, target).target.Size()
    ensures DiffOutcome(c, source, target).Failure? ==> DiffOutcome(c, source, target).error == GraphsNotSameSize
  {
  }

  /** The fully-fixed shortcut: one mapping (the fixed one), one edit list, and
      a cost equal to that list's length. */
  lemma FullyFixedShortcut(c: Collaborators, source: SchemaGraph, target: SchemaGraph)
    requires var p := c.fillup(source, target);
             p.source.Size() == p.target.Size() && p.isolated.mapping.Size() == p.source.Size()
    ensures var p := c.fillup(source, target);
            var r := DiffOutcome(c, source, target);
            && r.Success?
            && r.value.mappings == [p.isolated.mapping]
            && |r.value.listOfEditOperations| == 1
            && r.value.ged == |r.value.listOfEditOperations[0]|
            && r.value.listOfEditOperations[0] == c.editorialCost(p.isolated.mapping, p.source, p.target)
  {
  }

  /** Otherwise the search receives the fixed mapping and two vertex orders that
      are duplicate-free permutations of the padded graphs' vertices, each
      starting with the fixed part. */
  lemma SearchReceivesPermutations(c: Collaborators, source: SchemaGraph, target: SchemaGraph)
    requires var p := c.fillup(source, target);
             && p.source.WellFormed() && p.target.WellFormed() && p.isolated.mapping.Valid()
             && (forall v :: v in p.isolated.mapping.sources ==> v in p.source.vertices)
             && (forall w :: w in p.isolated.mapping.targets ==> w in p.target.vertices)
    requires var p := c.fillup(source, target);
             p.source.Size() == p.target.Size() && p.isolated.mapping.Size() != p.source.Size()
    ensures var p := c.fillup(source, target);
            var fixed := p.isolated.mapping;
            exists so, to ::
              && DiffOutcome(c, source, target) == Success(c.search(p.source, p.target, p.isolated, fixed, so, to))
              && fixed.Size() <= |so| && fixed.Size() <= |to|
              && multiset(so) == multiset(p.source.vertices) && Distinct(so) && so[..fixed.Size()] == fixed.sources
              && multiset(to) == multiset(p.target.vertices) && Distinct(to) && to[..fixed.Size()] == fixed.targets
  {
    var p := c.fillup(source, target);
    var fixed := p.isolated.mapping;
    var pm := p.isolated.possibleMappings;
    VertexOrdersArePermutations(p.source, p.target, fixed, pm);
    var so, to := SourceOrder(p.source, fixed, pm), TargetOrder(p.target, fixed);
    assert DiffOutcome(c, source, target) == Success(c.search(p.source, p.target, p.isolated, fixed, so, to));
  }

  /** `diffGraphQLSchema` hands back the first edit list of the optimal result. */
  function FirstEditList(d: Result<OptimalEdit, DiffError>): (r: Result<seq<EditOperation>, DiffError>)
    ensures r.Success? <==> d.Success? && |d.value.listOfEditOperations| > 0
    ensures r.Success? ==> r.value == d.value.listOfEditOperations[0]
  {
    match d
    case Failure(e) => Failure(e)
    case Success(o) =>
      if |o.listOfEditOperations| == 0 then Failure(NoEditOperationList) else Success(o.listOfEditOperations[0])
  }

  /** On the shortcut path the first edit list always exists: it is the editorial
      cost's list for the fixed mapping. */
  lemma FirstEditListOfShortcut(c: Collaborators, source: SchemaGraph, target: SchemaGraph)
    requires var p := c.fillup(source, target);
             p.source.Size() == p.target.Size() && p.isolated.mapping.Size() == p.source.Size()
    ensures var p := c.fillup(source, target);
            FirstEditList(DiffOutcome(c, source, target))
              == Success(c.editorialCost(p.isolated.mapping, p.source, p.target))
  {
  }

  /** `SchemaDiffing`: the two graphs of the current diff are fields, assigned
      by each public entry point and read by the edge rule. */
  class SchemaDiffing {
    var sourceGraph: SchemaGraph
    var targetGraph: SchemaGraph

    constructor ()
      ensures sourceGraph == SchemaGraph([], []) && targetGraph == SchemaGraph([], [])
    {
      sourceGraph := SchemaGraph([], []);
      targetGraph := SchemaGraph([], []);
    }

    /** `diffImpl(sourceGraph, targetGraph)`. Every caller passes the two
        fields, and the padding step pads those same graphs in place, so the
        fields hold the padded graphs afterwards. */
    method DiffImpl(c: Collaborators) returns (r: Result<OptimalEdit, DiffError>)
      modifies this
      ensures r == DiffOutcome(c, old(sourceGraph), old(targetGraph))
      ensures sourceGraph == c.fillup(old(sourceGraph), old(targetGraph)).source
      ensures targetGraph == c.fillup(old(sourceGraph), old(targetGraph)).target
    {
      var padded := c.fillup(sourceGraph, targetGraph);
      sourceGraph, targetGraph := padded.source, padded.target;
      var source, target := padded.source, padded.target;
      var isolatedVertices := padded.isolated;
      if source.Size() != target.Size() {
        return Failure(GraphsNotSameSize);
      }
      var fixedMappings := isolatedVertices.mapping;
      if fixedMappings.Size() == source.Size() {
        var result := c.editorialCost(fixedMappings, source, target);
        return Success(OptimalEdit([fixedMappings], [result], |result|));
      }
      var nonMappedSource := source.vertices;
      nonMappedSource := RemoveAll(nonMappedSource, fixedMappings.sources);
      var nonMappedTarget := target.vertices;
      nonMappedTarget := RemoveAll(nonMappedTarget, fixedMappings.targets);
      nonMappedSource := SortListBasedOnPossibleMapping(nonMappedSource, isolatedVertices.possibleMappings);
      var sourceVertices: seq<Vertex> := [];
      sourceVertices := sourceVertices + fixedMappings.sources;
      assert sourceVertices == fixedMappings.sources;
      sourceVertices := sourceVertices + nonMappedSource;
      var targetGraphVertices: seq<Vertex> := [];
      targetGraphVertices := targetGraphVertices + fixedMappings.targets;
      assert targetGraphVertices == fixedMappings.targets;
      targetGraphVertices := targetGraphVertices + nonMappedTarget;
      var optimalEdit := c.search(source, target, isolatedVertices, fixedMappings,
                                  sourceVertices, targetGraphVertices);
      return Success(optimalEdit);
    }

    /** `diffGraphQLSchema`, given the two graphs the schema-graph factory built. */
    method DiffGraphQLSchema(graph1: SchemaGraph, graph2: SchemaGraph, c: Collaborators)
      returns (r: Result<seq<EditOperation>, DiffError>)
      modifies this
      ensures r == FirstEditList(DiffOutcome(c, graph1, graph2))
      ensures sourceGraph == c.fillup(graph1, graph2).source && targetGraph == c.fillup(graph1, graph2).target
    {
      sourceGraph := graph1;
      targetGraph := graph2;
      var optimalEdit := DiffImpl(c);
      if optimalEdit.Failure? {
        return Failure(optimalEdit.error);
      }
      if |optimalEdit.value.listOfEditOperations| == 0 {
        return Failure(NoEditOperationList);
      }
      return Success(optimalEdit.value.listOfEditOperations[0]);
    }

    /** `diffGraphQLSchemaAllEdits`, given the two graphs the factory built. */
    method DiffGraphQLSchemaAllEdits(graph1: SchemaGraph, graph2: SchemaGraph, c: Collaborators)
      returns (r: Result<OptimalEdit, DiffError>)
      modifies this
      ensures r == DiffOutcome(c, graph1, graph2)
      ensures sourceGraph == c.fillup(graph1, graph2).source && targetGraph == c.fillup(graph1, graph2).target
    {
      sourceGraph := graph1;
      targetGraph := graph2;
      r := DiffImpl(c);
    }

    /** The lookup of lines 122-124: the target edge between the images of a
        source edge's endpoints. */
    static method TargetEdgeOf(target: SchemaGraph, mapping: Mapping, sourceEdge: Edge) returns (targetEdge: Option<Edge>)
      ensures targetEdge == ImageEdge(target, mapping, sourceEdge)
    {
      var target1 := mapping.GetTarget(sourceEdge.from);
      var target2 := mapping.GetTarget(sourceEdge.to);
      targetEdge := None;
      if target1.Some? && target2.Some? {
        targetEdge := target.GetEdge(target1.value, target2.value);
      }
    }

    /** The lookup of lines 135-137: the source edge between the pre-images of
        a target edge's endpoints. */
    static method SourceEdgeOf(source: SchemaGraph, mapping: Mapping, targetEdge: Edge) returns (sourceEdge: Option<Edge>)
      ensures sourceEdge == PreImageEdge(source, mapping, targetEdge)
    {
      var sourceFrom := mapping.GetSource(targetEdge.from);
      var sourceTo := mapping.GetSource(targetEdge.to);
      sourceEdge := None;
      if sourceFrom.Some? && sourceTo.Some? {
        sourceEdge := source.GetEdge(sourceFrom.value, sourceTo.value);
      }
    }

    /** `calcEdgeOperations(mapping)`: the two loops over the edges of the
        current source and target graphs, appending to one result list. */
    method CalcEdgeOperations(mapping: Mapping) returns (result: seq<EditOperation>)
      ensures result == EdgeOperations(sourceGraph, targetGraph, mapping)
    {
      result := SourceEdgeOperations(targetGraph, mapping, sourceGraph.edges);
      result := AppendTargetEdgeOperations(sourceGraph, mapping, targetGraph.edges, result);
    }

    /** The first loop of `calcEdgeOperations` (lines 121-130). */
    static method SourceEdgeOperations(target: SchemaGraph, mapping: Mapping, edges: seq<Edge>)
      returns (result: seq<EditOperation>)
      ensures result == SourcePass(target, mapping, edges)
    {
      result := [];
      var i := 0;
      while i < |edges|
        invariant 0 <= i <= |edges|
        invariant result == SourcePass(target, mapping, edges[..i])
      {
        var sourceEdge := edges[i];
        var targetEdge := TargetEdgeOf(target, mapping, sourceEdge);
        ghost var before := result;
        if targetEdge.None? {
          result := result + [DeleteEdge(sourceEdge)];
        } else if sourceEdge.edgeLabel != targetEdge.value.edgeLabel {
          result := result + [ChangeEdge(sourceEdge, targetEdge.value)];
        }
        assert result == before + SourceEdgeOperation(target, mapping, sourceEdge);
        SourcePassStep(target, mapping, edges, i);
        i := i + 1;
      }
      assert edges[..i] == edges;
    }

    /** One pass of the second loop: an insertion for a target edge whose
        endpoints' pre-images are not joined by a source edge. */
    static method AppendTargetEdgeOperation(source: SchemaGraph, mapping: Mapping, targetEdge: Edge,
                                            result: seq<EditOperation>)
      returns (extended: seq<EditOperation>)
      ensures extended == result + TargetEdgeOperation(source, mapping, targetEdge)
    {
      var sourceEdge := SourceEdgeOf(source, mapping, targetEdge);
      extended := result;
      if sourceEdge.None? {
        extended := extended + [InsertEdge(targetEdge)];
      }
    }

    /** The second loop of `calcEdgeOperations` (lines 133-140), appending to
        the list the first loop built. */
    static method AppendTargetEdgeOperations(source: SchemaGraph, mapping: Mapping, targetEdges: seq<Edge>,
                                             sourcePass: seq<EditOperation>)
      returns (result: seq<EditOperation>)
      ensures result == sourcePass + TargetPass(source, mapping, targetEdges)
    {
      result := sourcePass;
      ghost var appended: seq<EditOperation> := [];
      var j := 0;
      while j < |targetEdges|
        invariant 0 <= j <= |targetEdges|
        invariant appended == TargetPass(source, mapping, targetEdges[..j])
        invariant result == sourcePass + appended
      {
        ghost var ops := TargetEdgeOperation(source, mapping, targetEdges[j]);
        result := AppendTargetEdgeOperation(source, mapping, targetEdges[j], result);
        assert result == sourcePass + (appended + ops);
        TargetPassStep(source, mapping, targetEdges, j);
        appended := appended + ops;
        j := j + 1;
      }
      assert targetEdges[..j] == targetEdges;
    }
  }
}
