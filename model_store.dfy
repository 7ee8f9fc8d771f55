/**
 * The model store of model.py: loading a line-segment file into deduplicated nodes
 * and an edge list, and transforming a model's nodes in place.
 *
 * A file is given as its parsed lines: each line is the list of floats that
 * `line.split(', ')` and `float` produce. Splitting never yields zero fields, so a
 * parsed line is never empty.
 */
module ModelStore {
  import opened Geometry
  import opened Outcomes

  /** The parsed values of one line of a model file. */
  type Line = s: seq<real> | |s| > 0 witness [0.0]

  /** A key of the loader's dictionary: a tuple of floats. */
  type Point = seq<real>

  /** An edge: the indices of its two endpoints among the nodes. */
  type Edge = (nat, nat)

  /** What a model holds: its node array and its edge list. */
  type Contents = (seq<Vec4>, seq<Edge>)

  /** `edge[:3]`: the first three values of a line, or all of them if it is shorter. */
  function Source(line: seq<real>): Point
  {
    if |line| <= 3 then line else line[..3]
  }

  /** `edge[3:]`: the values after the third, or none if the line is shorter. */
  function Target(line: seq<real>): Point
  {
    if |line| <= 3 then [] else line[3..]
  }

  /** Every line holds exactly the six values x1, y1, z1, x2, y2, z2. */
  predicate SixValues(lines: seq<Line>)
  {
    forall j :: 0 <= j < |lines| ==> |lines[j]| == 6
  }

  /** The endpoints in the order the loader meets them: p1, then p2, of each line in turn. */
  function Endpoints(lines: seq<Line>): (ps: seq<Point>)
    ensures |ps| == 2 * |lines|
  {
    if lines == [] then []
    else
      var init, last := lines[..|lines| - 1], lines[|lines| - 1];
      Endpoints(init) + [Source(last), Target(last)]
  }

  /** The endpoints of line j are at positions 2j and 2j + 1. */
  lemma {:induction false} EndpointsAt(lines: seq<Line>, j: nat)
    requires j < |lines|
    ensures Endpoints(lines)[2 * j] == Source(lines[j])
    ensures Endpoints(lines)[2 * j + 1] == Target(lines[j])
  {
    var init := lines[..|lines| - 1];
    if j < |init| {
      EndpointsAt(init, j);
    }
  }

  /** Every endpoint is the source or the target of some line. */
  lemma {:induction false} EndpointOfSomeLine(lines: seq<Line>, p: Point)
    requires p in Endpoints(lines)
    ensures exists j :: 0 <= j < |lines| && (p == Source(lines[j]) || p == Target(lines[j]))
  {
    var init, last := lines[..|lines| - 1], lines[|lines| - 1];
    if p in Endpoints(init) {
      EndpointOfSomeLine(init, p);
      var j :| 0 <= j < |init| && (p == Source(init[j]) || p == Target(init[j]));
      assert init[j] == lines[j];
    } else {
      assert p == Source(last) || p == Target(last);
    }
  }

  /** The endpoints of lines of six values are points of three coordinates. */
  lemma EndpointsOfSix(lines: seq<Line>, p: Point)
    requires SixValues(lines) && p in Endpoints(lines)
    ensures |p| == 3
  {
    EndpointOfSomeLine(lines, p);
  }

  /** The endpoints of one more line come after those of the lines before it. */
  lemma EndpointsSnoc(lines: seq<Line>, j: nat)
    requires j < |lines|
    ensures Endpoints(lines[..j + 1]) == Endpoints(lines[..j]) + [Source(lines[j])] + [Target(lines[j])]
  {
    assert lines[..j + 1][..j] == lines[..j];
    assert [Source(lines[j]), Target(lines[j])] == [Source(lines[j])] + [Target(lines[j])];
  }

  /** No element occurs twice. */
  predicate Distinct<K(==)>(s: seq<K>)
  {
    forall a, b :: 0 <= a < b < |s| ==> s[a] != s[b]
  }

  /** The position of the first occurrence of `x` in `s`. */
  function IndexOf<K(==)>(s: seq<K>, x: K): (i: nat)
    requires x in s
    ensures i < |s| && s[i] == x
    ensures forall k :: 0 <= k < i ==> s[k] != x
  {
    if s[0] == x then 0 else 1 + IndexOf(s[1..], x)
  }

  /** In a sequence without repetitions, the element at position k is found at k. */
  lemma IndexOfDistinct<K>(s: seq<K>, k: nat)
    requires Distinct(s) && k < |s|
    ensures IndexOf(s, s[k]) == k
  {
  }

  /** An element of a prefix is found where the prefix has it. */
  lemma {:induction false} IndexOfPrefix<K>(s: seq<K>, t: seq<K>, x: K)
    requires x in s
    ensures IndexOf(s + t, x) == IndexOf(s, x)
  {
    if s[0] != x {
      assert (s + t)[1..] == s[1..] + t;
      IndexOfPrefix(s[1..], t, x);
    }
  }

  /**
   * The distinct elements of `ps`, each once, in the order of their first occurrence:
   * the keys of a dictionary filled from `ps` in insertion order.
   */
  function FirstSeen<K(==)>(ps: seq<K>): (d: seq<K>)
    ensures |d| <= |ps|
  {
    if ps == [] then []
    else
      var seen, x := FirstSeen(ps[..|ps| - 1]), ps[|ps| - 1];
      if x in seen then seen else seen + [x]
  }

  /** FirstSeen holds exactly the elements of `ps`. */
  lemma {:induction false} FirstSeenElements<K(!new)>(ps: seq<K>)
    ensures forall x :: x in FirstSeen(ps) <==> x in ps
  {
    if ps != [] {
      var init := ps[..|ps| - 1];
      FirstSeenElements(init);
      assert ps == init + [ps[|ps| - 1]];
    }
  }

  /** FirstSeen holds no element twice. */
  lemma {:induction false} FirstSeenDistinct<K>(ps: seq<K>)
    ensures Distinct(FirstSeen(ps))
  {
    if ps != [] {
      FirstSeenDistinct(ps[..|ps| - 1]);
    }
  }

  /** Meeting one more element appends it to FirstSeen iff it was not seen before. */
  lemma FirstSeenSnoc<K(!new)>(s: seq<K>, x: K)
    ensures FirstSeen(s + [x]) == if x in FirstSeen(s) then FirstSeen(s) else FirstSeen(s) + [x]
  {
    assert (s + [x])[..|s|] == s;
  }

  /** The elements of `d` occur in `ps`, and their first occurrences there come in the order of `d`. */
  ghost predicate OrderedBy<K>(d: seq<K>, ps: seq<K>)
  {
    forall a, b :: 0 <= a < b < |d| ==>
      && d[a] in ps && d[b] in ps
      && IndexOf(ps, d[a]) < IndexOf(ps, d[b])
  }

  /** FirstSeen lists the distinct elements by increasing position of first occurrence. */
  lemma {:induction false} FirstSeenOrder<K(!new)>(ps: seq<K>)
    ensures OrderedBy(FirstSeen(ps), ps)
  {
    if ps != [] {
      var init, x := ps[..|ps| - 1], ps[|ps| - 1];
      assert ps == init + [x];
      FirstSeenOrder(init);
      FirstSeenElements(init);
      FirstSeenSnoc(init, x);
      OrderStep(init, x, FirstSeen(init), FirstSeen(init + [x]));
    }
  }

  /** One step of FirstSeenOrder: meeting `x` after `init`. */
  lemma OrderStep<K(!new)>(init: seq<K>, x: K, seen: seq<K>, d: seq<K>)
    requires forall y :: y in seen <==> y in init
    requires OrderedBy(seen, init)
    requires d == if x in seen then seen else seen + [x]
    ensures OrderedBy(d, init + [x])
  {
    forall a, b | 0 <= a < b < |d|
      ensures d[a] in init + [x] && d[b] in init + [x]
      ensures IndexOf(init + [x], d[a]) < IndexOf(init + [x], d[b])
    {
      assert seen[a] in seen;
      IndexOfPrefix(init, [x], seen[a]);
      if b < |seen| {
        assert seen[b] in seen;
        IndexOfPrefix(init, [x], seen[b]);
      } else {
        IndexOfLast(init, x);
      }
    }
  }

  /** A new last element is found at the end. */
  lemma IndexOfLast<K>(s: seq<K>, x: K)
    requires x !in s
    ensures IndexOf(s + [x], x) == |s|
  {
    assert forall k :: 0 <= k < |s| ==> (s + [x])[k] == s[k];
  }

  /** The keys of the loader's dictionary in insertion order: the distinct endpoints. */
  function Points(lines: seq<Line>): seq<Point>
  {
    FirstSeen(Endpoints(lines))
  }

  /** Both endpoints of every line are among the points. */
  lemma EndpointsArePoints(lines: seq<Line>, j: nat)
    requires j < |lines|
    ensures Source(lines[j]) in Points(lines) && Target(lines[j]) in Points(lines)
  {
    EndpointsAt(lines, j);
    FirstSeenElements(Endpoints(lines));
  }

  /** The points of a file of six-value lines have three coordinates each. */
  lemma PointsOfSix(lines: seq<Line>)
    requires SixValues(lines)
    ensures forall k :: 0 <= k < |Points(lines)| ==> |Points(lines)[k]| == 3
  {
    FirstSeenElements(Endpoints(lines));
    forall k | 0 <= k < |Points(lines)| ensures |Points(lines)[k]| == 3 {
      EndpointsOfSix(lines, Points(lines)[k]);
    }
  }

  /** A point with the homogeneous 1 appended. */
  function Homogeneous(p: Point): Vec4
    requires |p| == 3
  {
    Vec4(p[0], p[1], p[2], 1.0)
  }

  /** The node array of a loaded file: node k is the k-th distinct endpoint, with w = 1. */
  function NodesOf(lines: seq<Line>): (nodes: seq<Vec4>)
    requires SixValues(lines)
    ensures |nodes| == |Points(lines)|
    ensures forall k :: 0 <= k < |nodes| ==> nodes[k].w == 1.0
  {
    var ps := Points(lines);
    PointsOfSix(lines);
    seq(|ps|, k requires 0 <= k < |ps| => Homogeneous(ps[k]))
  }

  /** The edge list of a loaded file: one edge per line, the indices of its two endpoints. */
  function EdgesOf(lines: seq<Line>): (edges: seq<Edge>)
    ensures |edges| == |lines|
    ensures forall j :: 0 <= j < |edges| ==> edges[j].0 < |Points(lines)| && edges[j].1 < |Points(lines)|
  {
    var ps := Points(lines);
    seq(|lines|, j requires 0 <= j < |lines| =>
      EndpointsArePoints(lines, j);
      (IndexOf(ps, Source(lines[j])), IndexOf(ps, Target(lines[j]))))
  }

  /** Why loading fails (model.py, line 35 and 36). */
  datatype LoadError =
    | EmptyFile     // no dictionary items: indexing the empty `zip` result raises
    | RaggedPoints  // keys of different lengths: numpy cannot build the point array

  /** Every edge of `edges` references a node of `nodes`. */
  predicate InRange(nodes: seq<Vec4>, edges: seq<Edge>)
  {
    forall e :: 0 <= e < |edges| ==> edges[e].0 < |nodes| && edges[e].1 < |nodes|
  }

  /**
   * What loading a file gives: its nodes and edges, or the reason it fails. An empty
   * file always fails; a loaded file has one edge per line, every edge references
   * one of its nodes, and every node is homogeneous.
   */
  function Load(lines: seq<Line>): (r: Result<(seq<Vec4>, seq<Edge>), LoadError>)
    ensures lines == [] ==> r == Err(EmptyFile)
    ensures r.Ok? ==> |r.value.1| == |lines| && InRange(r.value.0, r.value.1)
    ensures r.Ok? ==> forall k :: 0 <= k < |r.value.0| ==> r.value.0[k].w == 1.0
  {
    if lines == [] then Err(EmptyFile)
    else if !SixValues(lines) then Err(RaggedPoints)
    else Ok((NodesOf(lines), EdgesOf(lines)))
  }

  /**
   * numpy's check: the distinct endpoints of a non-empty file all have the same length
   * iff every line holds exactly six values.
   */
  lemma UniformIffSix(lines: seq<Line>)
    requires lines != []
    ensures (forall k :: 0 <= k < |Points(lines)| ==> |Points(lines)[k]| == |Points(lines)[0]|)
        <==> SixValues(lines)
  {
    var ps := Points(lines);
    if SixValues(lines) {
      PointsOfSix(lines);
    } else {
      var j :| 0 <= j < |lines| && |lines[j]| != 6;
      EndpointsArePoints(lines, j);
      var a, b := IndexOf(ps, Source(lines[j])), IndexOf(ps, Target(lines[j]));
      assert |ps[a]| != |ps[b]|;
    }
  }

  /** The edge of line j joins the nodes (x1, y1, z1, 1) and (x2, y2, z2, 1) of that line. */
  lemma EdgeEnds(lines: seq<Line>, j: nat)
    requires SixValues(lines) && j < |lines|
    ensures NodesOf(lines)[EdgesOf(lines)[j].0] == Vec4(lines[j][0], lines[j][1], lines[j][2], 1.0)
    ensures NodesOf(lines)[EdgesOf(lines)[j].1] == Vec4(lines[j][3], lines[j][4], lines[j][5], 1.0)
  {
    EndpointsArePoints(lines, j);
  }

  /** No two nodes of a loaded file are the same point. */
  lemma NodesDistinct(lines: seq<Line>)
    requires SixValues(lines)
    ensures Distinct(NodesOf(lines))
  {
    var ps, nodes := Points(lines), NodesOf(lines);
    FirstSeenDistinct(Endpoints(lines));
    PointsOfSix(lines);
    forall a, b | 0 <= a < b < |nodes|
      ensures nodes[a] != nodes[b]
    {
      assert ps[a] != ps[b];
    }
  }

  /** Two edge ends share a node iff the lines give them equal coordinates. */
  lemma SharedNode(lines: seq<Line>, i: nat, j: nat)
    requires i < |lines| && j < |lines|
    ensures EdgesOf(lines)[i].0 == EdgesOf(lines)[j].0 <==> Source(lines[i]) == Source(lines[j])
    ensures EdgesOf(lines)[i].0 == EdgesOf(lines)[j].1 <==> Source(lines[i]) == Target(lines[j])
    ensures EdgesOf(lines)[i].1 == EdgesOf(lines)[j].0 <==> Target(lines[i]) == Source(lines[j])
    ensures EdgesOf(lines)[i].1 == EdgesOf(lines)[j].1 <==> Target(lines[i]) == Target(lines[j])
  {
    EndpointsArePoints(lines, i);
    EndpointsArePoints(lines, j);
  }

  /** Every node is an end of some edge: the loader keeps no point that no line mentions. */
  lemma EveryNodeUsed(lines: seq<Line>, k: nat)
    requires k < |Points(lines)|
    ensures exists j :: 0 <= j < |lines| && (EdgesOf(lines)[j].0 == k || EdgesOf(lines)[j].1 == k)
  {
    var ps := Points(lines);
    FirstSeenElements(Endpoints(lines));
    FirstSeenDistinct(Endpoints(lines));
    assert ps[k] in ps;
    EndpointOfSomeLine(lines, ps[k]);
    var j :| 0 <= j < |lines| && (ps[k] == Source(lines[j]) || ps[k] == Target(lines[j]));
    EndpointsArePoints(lines, j);
    IndexOfDistinct(ps, k);
    if ps[k] == Source(lines[j]) {
      assert EdgesOf(lines)[j].0 == k;
    } else {
      assert EdgesOf(lines)[j].1 == k;
    }
  }

  /**
   * Two lines a-b and b-c that share the point b give the three nodes a, b, c, numbered
   * in reading order, and the edges (0, 1) and (1, 2).
   */
  lemma LoadChain(a: Point, b: Point, c: Point)
    requires |a| == 3 && |b| == 3 && |c| == 3
    requires a != b && a != c && b != c
    ensures Load([a + b, b + c]) == Ok(([Homogeneous(a), Homogeneous(b), Homogeneous(c)], [(0, 1), (1, 2)]))
  {
    var lines: seq<Line> := [a + b, b + c];
    ChainPoints(a, b, c);
    var ps := [a, b, c];
    assert SixValues(lines);
    assert NodesOf(lines) == [Homogeneous(a), Homogeneous(b), Homogeneous(c)];
    IndexOfDistinct(ps, 0);
    IndexOfDistinct(ps, 1);
    IndexOfDistinct(ps, 2);
    assert EdgesOf(lines) == [(0, 1), (1, 2)];
  }

  /** The dictionary keys of the two lines of LoadChain. */
  lemma ChainPoints(a: Point, b: Point, c: Point)
    requires |a| == 3 && |b| == 3 && |c| == 3
    requires a != b && a != c && b != c
    ensures Source(a + b) == a && Target(a + b) == b && Source(b + c) == b && Target(b + c) == c
    ensures Points([a + b, b + c]) == [a, b, c]
  {
    ChainEndpoints(a, b, c);
    FirstSeenSnoc([a], b);
    assert [a] + [b] == [a, b];
    FirstSeenSnoc([a, b], b);
    assert [a, b] + [b] == [a, b, b];
    FirstSeenSnoc([a, b, b], c);
  }

  /** The endpoints of the two lines of LoadChain, in reading order. */
  lemma ChainEndpoints(a: Point, b: Point, c: Point)
    requires |a| == 3 && |b| == 3 && |c| == 3
    ensures Source(a + b) == a && Target(a + b) == b && Source(b + c) == b && Target(b + c) == c
    ensures Endpoints([a + b, b + c]) == [a, b, b] + [c]
  {
    var l0: Line, l1: Line := a + b, b + c;
    assert l0[..3] == a && l0[3..] == b && l1[..3] == b && l1[3..] == c;
    assert [l0, l1][..1] == [l0];
  }

  /** An empty file fails, and so does a line of three values, whose second point is empty. */
  lemma LoadFailures()
    ensures Load([]) == Err(EmptyFile)
    ensures Load([[1.0, 2.0, 3.0]]) == Err(RaggedPoints)
  {
    var lines: seq<Line> := [[1.0, 2.0, 3.0]];
    assert |lines[0]| == 3;
  }

  /** `loaded` maps each key to its position in `order`, the insertion order of the dictionary. */
  ghost predicate Indexes(loaded: map<Point, nat>, order: seq<Point>)
  {
    && (forall p :: p in loaded <==> p in order)
    && (forall k :: 0 <= k < |order| ==> order[k] in loaded && loaded[order[k]] == k)
  }

  /** The edges recorded for the first `j` lines hold the dictionary's indices of their endpoints. */
  ghost predicate Recorded(lines: seq<Line>, j: nat, loaded: map<Point, nat>, edges: seq<Edge>)
    requires j <= |lines|
  {
    && |edges| == j
    && forall e :: 0 <= e < j ==>
      && Source(lines[e]) in loaded && Target(lines[e]) in loaded
      && edges[e] == (loaded[Source(lines[e])], loaded[Target(lines[e])])
  }

  /**
   * `if not p in loaded_points: loaded_points[p] = i; i += 1`, where the counter `i`
   * is the number of keys so far.
   */
  function Intern(loaded: map<Point, nat>, order: seq<Point>, p: Point): (map<Point, nat>, seq<Point>)
  {
    if p in loaded then (loaded, order) else (loaded[p := |order|], order + [p])
  }

  /** Interning a point keeps the index of every key already there. */
  lemma InternKeeps(loaded: map<Point, nat>, order: seq<Point>, p: Point)
    requires Indexes(loaded, order)
    ensures var (l, o) := Intern(loaded, order, p);
      && Indexes(l, o) && p in l
      && (forall q :: q in loaded ==> q in l && l[q] == loaded[q])
  {
  }

  /** Recorded edges stay recorded when the dictionary only gains keys. */
  lemma RecordedKeeps(lines: seq<Line>, j: nat, loaded: map<Point, nat>, grown: map<Point, nat>, edges: seq<Edge>)
    requires j <= |lines| && Recorded(lines, j, loaded, edges)
    requires forall q :: q in loaded ==> q in grown && grown[q] == loaded[q]
    ensures Recorded(lines, j, grown, edges)
  {
  }

  /** Recording the edge of line `j` once both its endpoints are keys. */
  lemma RecordedAppend(lines: seq<Line>, j: nat, loaded: map<Point, nat>, edges: seq<Edge>)
    requires j < |lines| && Recorded(lines, j, loaded, edges)
    requires Source(lines[j]) in loaded && Target(lines[j]) in loaded
    ensures Recorded(lines, j + 1, loaded, edges + [(loaded[Source(lines[j])], loaded[Target(lines[j])])])
  {
  }

  /** Once every line is read, the recorded edges are those of the declarative edge list. */
  lemma RecordedEdges(lines: seq<Line>, loaded: map<Point, nat>, edges: seq<Edge>)
    requires Indexes(loaded, Points(lines)) && Recorded(lines, |lines|, loaded, edges)
    ensures edges == EdgesOf(lines)
  {
    var order := Points(lines);
    forall e | 0 <= e < |lines|
      ensures edges[e] == EdgesOf(lines)[e]
    {
      var a, b := IndexOf(order, Source(lines[e])), IndexOf(order, Target(lines[e]));
      assert loaded[order[a]] == a && loaded[order[b]] == b;
    }
  }

  /** One turn of the loop: both endpoints of line `j` interned and its edge recorded. */
  lemma LineStep(lines: seq<Line>, j: nat, loaded: map<Point, nat>, order: seq<Point>, edges: seq<Edge>)
    requires j < |lines|
    requires order == FirstSeen(Endpoints(lines[..j]))
    requires Indexes(loaded, order) && Recorded(lines, j, loaded, edges)
    ensures var (l1, o1) := Intern(loaded, order, Source(lines[j]));
      var (l2, o2) := Intern(l1, o1, Target(lines[j]));
      && o2 == FirstSeen(Endpoints(lines[..j + 1]))
      && Indexes(l2, o2) && Source(lines[j]) in l2 && Target(lines[j]) in l2
      && Recorded(lines, j + 1, l2, edges + [(l2[Source(lines[j])], l2[Target(lines[j])])])
  {
    var p1, p2 := Source(lines[j]), Target(lines[j]);
    var before := Endpoints(lines[..j]);
    EndpointsSnoc(lines, j);
    FirstSeenSnoc(before, p1);
    FirstSeenSnoc(before + [p1], p2);
    InternKeeps(loaded, order, p1);
    var (l1, o1) := Intern(loaded, order, p1);
    InternKeeps(l1, o1, p2);
    var (l2, o2) := Intern(l1, o1, p2);
    RecordedKeeps(lines, j, loaded, l1, edges);
    RecordedKeeps(lines, j, l1, l2, edges);
    RecordedAppend(lines, j, l2, edges);
  }

  /** The dictionary loop of `load_from_file`, with the node array built from its keys. */
  method IndexLines(lines: seq<Line>) returns (r: Result<(seq<Vec4>, seq<Edge>), LoadError>)
    ensures r == Load(lines)
  {
    var loaded: map<Point, nat> := map[];
    var order: seq<Point> := [];  // the insertion order the dictionary remembers
    var i: nat := 0;
    var edges: seq<Edge> := [];
    for j := 0 to |lines|
      invariant order == FirstSeen(Endpoints(lines[..j]))
      invariant i == |order|
      invariant Indexes(loaded, order)
      invariant Recorded(lines, j, loaded, edges)
    {
      var p1, p2 := Source(lines[j]), Target(lines[j]);
      LineStep(lines, j, loaded, order, edges);
      if p1 !in loaded {
        loaded := loaded[p1 := i];
        order := order + [p1];
        i := i + 1;
      }
      if p2 !in loaded {
        loaded := loaded[p2 := i];
        order := order + [p2];
        i := i + 1;
      }
      edges := edges + [(loaded[p1], loaded[p2])];
    }
    assert lines[..|lines|] == lines;
    if lines != [] {
      EndpointsArePoints(lines, 0);
    }
    if |order| == 0 {
      return Err(EmptyFile);
    }
    UniformIffSix(lines);
    if exists k :: 0 <= k < |order| && |order[k]| != |order[0]| {
      return Err(RaggedPoints);
    }
    PointsOfSix(lines);
    var nodes := seq(|order|, k requires 0 <= k < |order| => Homogeneous(order[k]));
    assert nodes == NodesOf(lines);
    RecordedEdges(lines, loaded, edges);
    r := Ok((nodes, edges));
  }

  /** A model: its node array (one row (x, y, z, 1) per node) and its edge list. */
  class Model {
    var nodes: seq<Vec4>
    var edges: seq<Edge>

    /** Every edge references existing nodes. */
    predicate Valid()
      reads this
    {
      InRange(nodes, edges)
    }

    /** `Model()`: no nodes and no edges. */
    constructor ()
      ensures nodes == [] && edges == [] && Valid()
    {
      nodes := [];
      edges := [];
    }

    /** `nodes = nodes @ matrix`; the edges are untouched. */
    method Transform(matrix: Mat4)
      modifies this
      ensures nodes == MulRows(old(nodes), matrix) && edges == old(edges)
      ensures old(Valid()) ==> Valid()
    {
      nodes := MulRows(nodes, matrix);
    }

    /** `Model.load_from_file`: a fresh model holding the file's nodes and edges, or the failure. */
    static method LoadFromFile(lines: seq<Line>) returns (r: Result<Model, LoadError>)
      ensures r.Err? <==> Load(lines).Err?
      ensures r.Err? ==> r.error == Load(lines).error
      ensures r.Ok? ==> && fresh(r.value) && r.value.Valid()
                        && (r.value.nodes, r.value.edges) == Load(lines).value
    {
      var indexed := IndexLines(lines);
      match indexed
      case Err(e) =>
        r := Err(e);
      case Ok((nodes, edges)) =>
        var model := new Model();
        model.nodes, model.edges := nodes, edges;
        r := Ok(model);
    }
  }
}
