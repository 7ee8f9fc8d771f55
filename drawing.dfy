/**
 * The picture `draw` of main.py puts on the canvas: for each model, a small oval on
 * every node in front of the camera, then a line for every edge whose two ends are
 * both in front of it. The canvas is the sequence of its items in creation order.
 */
module Drawing {
  import opened Geometry
  import opened Outcomes
  import opened Projection
  import opened ModelStore

  /** A canvas item: `create_oval` with its bounding box, or `create_line` between two points. */
  datatype Shape =
    | Oval(x0: real, y0: real, x1: real, y1: real)
    | Segment(x0: real, y0: real, x1: real, y1: real)

  /** The node marker: the oval in the box of half-width 1 around the projected point. */
  function Marker(c: (real, real)): (s: Shape)
    ensures s.Oval? && s.x1 - s.x0 == 2.0 && s.y1 - s.y0 == 2.0
    ensures (s.x0 + s.x1) / 2.0 == c.0 && (s.y0 + s.y1) / 2.0 == c.1
  {
    Oval(c.0 - 1.0, c.1 - 1.0, c.0 + 1.0, c.1 + 1.0)
  }

  /** The marker of one node: one oval if it is in front of the camera, none otherwise. */
  function MarkerOf(p: Vec4, w: int, h: int, focal: int): seq<Shape>
    requires focal >= 0
  {
    match Project(p, w, h, focal)
    case None => []
    case Some(c) => [Marker(c)]
  }

  /** The markers of a node array, in node order. */
  function Markers(nodes: seq<Vec4>, w: int, h: int, focal: int): (s: seq<Shape>)
    requires focal >= 0
    ensures |s| <= |nodes|
  {
    if nodes == [] then []
    else Markers(nodes[..|nodes| - 1], w, h, focal) + MarkerOf(nodes[|nodes| - 1], w, h, focal)
  }

  /** The line between two projected points. */
  function Line(a: (real, real), b: (real, real)): Shape
  {
    Segment(a.0, a.1, b.0, b.1)
  }

  /** The line of one edge: drawn only when both its ends are in front of the camera. */
  function SegmentOf(nodes: seq<Vec4>, edge: Edge, w: int, h: int, focal: int): seq<Shape>
    requires focal >= 0 && edge.0 < |nodes| && edge.1 < |nodes|
  {
    match (Project(nodes[edge.0], w, h, focal), Project(nodes[edge.1], w, h, focal))
    case (Some(a), Some(b)) => [Line(a, b)]
    case _ => []
  }

  /** The lines of an edge list, in edge order. */
  function Segments(nodes: seq<Vec4>, edges: seq<Edge>, w: int, h: int, focal: int): (s: seq<Shape>)
    requires focal >= 0 && InRange(nodes, edges)
    ensures |s| <= |edges|
  {
    if edges == [] then []
    else
      Segments(nodes, edges[..|edges| - 1], w, h, focal)
        + SegmentOf(nodes, edges[|edges| - 1], w, h, focal)
  }

  /** The items one model adds: its markers, then its lines. */
  function ModelShapes(nodes: seq<Vec4>, edges: seq<Edge>, w: int, h: int, focal: int): seq<Shape>
    requires focal >= 0 && InRange(nodes, edges)
  {
    Markers(nodes, w, h, focal) + Segments(nodes, edges, w, h, focal)
  }

  /** Every model in the list is well formed. */
  predicate AllValid(models: seq<Model>)
    reads models
  {
    forall k :: 0 <= k < |models| ==> models[k].Valid()
  }

  /** The node array and edge list of each model, as they are now. */
  function Snapshot(models: seq<Model>): (r: seq<Contents>)
    reads models
    ensures |r| == |models|
    ensures forall k :: 0 <= k < |models| ==> r[k] == (models[k].nodes, models[k].edges)
    ensures AllValid(models) ==> forall k :: 0 <= k < |r| ==> InRange(r[k].0, r[k].1)
  {
    seq(|models|, k reads models requires 0 <= k < |models| => (models[k].nodes, models[k].edges))
  }

  /** Every edge of every model references a node of that model. */
  predicate AllInRange(scenes: seq<Contents>)
  {
    forall k :: 0 <= k < |scenes| ==> InRange(scenes[k].0, scenes[k].1)
  }

  /** The whole canvas after `draw`: the items of each model in list order. */
  function Frame(scenes: seq<Contents>, w: int, h: int, focal: int): seq<Shape>
    requires focal >= 0 && AllInRange(scenes)
  {
    if scenes == [] then []
    else
      var last := scenes[|scenes| - 1];
      Frame(scenes[..|scenes| - 1], w, h, focal) + ModelShapes(last.0, last.1, w, h, focal)
  }

  /** Completeness: every node in front of the camera gets its marker. */
  lemma {:induction false} MarkerOfVisible(nodes: seq<Vec4>, k: nat, w: int, h: int, focal: int)
    requires focal >= 0 && k < |nodes| && Visible(nodes[k], focal)
    ensures Marker(Project(nodes[k], w, h, focal).value) in Markers(nodes, w, h, focal)
  {
    var init := nodes[..|nodes| - 1];
    if k < |init| {
      MarkerOfVisible(init, k, w, h, focal);
    }
  }

  /** Soundness: every marker is that of a node in front of the camera. */
  lemma {:induction false} MarkerIsOfVisible(nodes: seq<Vec4>, s: Shape, w: int, h: int, focal: int)
    requires focal >= 0 && s in Markers(nodes, w, h, focal)
    ensures exists k :: 0 <= k < |nodes| && Visible(nodes[k], focal)
                     && s == Marker(Project(nodes[k], w, h, focal).value)
  {
    var init := nodes[..|nodes| - 1];
    if s in Markers(init, w, h, focal) {
      MarkerIsOfVisible(init, s, w, h, focal);
      var k :| 0 <= k < |init| && Visible(init[k], focal) && s == Marker(Project(init[k], w, h, focal).value);
      assert init[k] == nodes[k];
    } else {
      assert Visible(nodes[|nodes| - 1], focal);
    }
  }

  /** Completeness: every edge with both ends in front of the camera gets its line. */
  lemma {:induction false} SegmentOfVisible(nodes: seq<Vec4>, edges: seq<Edge>, e: nat, w: int, h: int, focal: int)
    requires focal >= 0 && InRange(nodes, edges) && e < |edges|
    requires Visible(nodes[edges[e].0], focal) && Visible(nodes[edges[e].1], focal)
    ensures Line(Project(nodes[edges[e].0], w, h, focal).value, Project(nodes[edges[e].1], w, h, focal).value)
            in Segments(nodes, edges, w, h, focal)
  {
    var init := edges[..|edges| - 1];
    if e < |init| {
      assert InRange(nodes, init);
      SegmentOfVisible(nodes, init, e, w, h, focal);
    }
  }

  /** Soundness: every line is that of an edge with both ends in front of the camera. */
  lemma {:induction false} SegmentIsOfVisible(nodes: seq<Vec4>, edges: seq<Edge>, s: Shape, w: int, h: int, focal: int)
    requires focal >= 0 && InRange(nodes, edges) && s in Segments(nodes, edges, w, h, focal)
    ensures exists e :: 0 <= e < |edges| && VisibleEdge(nodes, edges[e], focal)
                     && s == Line(Project(nodes[edges[e].0], w, h, focal).value,
                                  Project(nodes[edges[e].1], w, h, focal).value)
  {
    var init := edges[..|edges| - 1];
    assert InRange(nodes, init);
    if s in Segments(nodes, init, w, h, focal) {
      SegmentIsOfVisible(nodes, init, s, w, h, focal);
      var e :| 0 <= e < |init| && VisibleEdge(nodes, init[e], focal)
        && s == Line(Project(nodes[init[e].0], w, h, focal).value, Project(nodes[init[e].1], w, h, focal).value);
      assert init[e] == edges[e];
    } else {
      assert VisibleEdge(nodes, edges[|edges| - 1], focal);
    }
  }

  /** Both ends of the edge are in front of the camera. */
  predicate VisibleEdge(nodes: seq<Vec4>, edge: Edge, focal: int)
    requires edge.0 < |nodes| && edge.1 < |nodes|
  {
    Visible(nodes[edge.0], focal) && Visible(nodes[edge.1], focal)
  }

  /** The positions of the nodes in front of the camera. */
  function VisibleNodes(nodes: seq<Vec4>, focal: int): set<nat>
  {
    set k: nat | k < |nodes| && Visible(nodes[k], focal)
  }

  /** The last node adds its own position, if it is in front of the camera. */
  lemma VisibleNodesSnoc(nodes: seq<Vec4>, focal: int)
    requires nodes != []
    ensures var n := |nodes| - 1;
      |VisibleNodes(nodes, focal)| == |VisibleNodes(nodes[..n], focal)| + if Visible(nodes[n], focal) then 1 else 0
  {
    var n := |nodes| - 1;
    var before := VisibleNodes(nodes[..n], focal);
    var mine: set<nat> := if Visible(nodes[n], focal) then {n} else {};
    assert VisibleNodes(nodes, focal) == before + mine;
    assert before * mine == {};
  }

  /** Multiplicity: exactly one marker per node in front of the camera. */
  lemma {:induction false} MarkerCount(nodes: seq<Vec4>, w: int, h: int, focal: int)
    requires focal >= 0
    ensures |Markers(nodes, w, h, focal)| == |VisibleNodes(nodes, focal)|
  {
    if nodes != [] {
      var n := |nodes| - 1;
      var init := nodes[..n];
      MarkerCount(init, w, h, focal);
      VisibleNodesSnoc(nodes, focal);
    }
  }

  /** The positions of the edges whose two ends are both in front of the camera. */
  function VisibleEdges(nodes: seq<Vec4>, edges: seq<Edge>, focal: int): set<nat>
    requires InRange(nodes, edges)
  {
    set e: nat | e < |edges| && VisibleEdge(nodes, edges[e], focal)
  }

  /** The last edge adds its own position, if both its ends are in front of the camera. */
  lemma VisibleEdgesSnoc(nodes: seq<Vec4>, edges: seq<Edge>, focal: int)
    requires InRange(nodes, edges) && edges != []
    ensures var n := |edges| - 1;
      && InRange(nodes, edges[..n])
      && |VisibleEdges(nodes, edges, focal)|
           == |VisibleEdges(nodes, edges[..n], focal)| + if VisibleEdge(nodes, edges[n], focal) then 1 else 0
  {
    var n := |edges| - 1;
    assert InRange(nodes, edges[..n]);
    var before := VisibleEdges(nodes, edges[..n], focal);
    var mine: set<nat> := if VisibleEdge(nodes, edges[n], focal) then {n} else {};
    assert VisibleEdges(nodes, edges, focal) == before + mine;
    assert before * mine == {};
  }

  /** Multiplicity: exactly one line per edge with both ends in front of the camera. */
  lemma {:induction false} SegmentCount(nodes: seq<Vec4>, edges: seq<Edge>, w: int, h: int, focal: int)
    requires focal >= 0 && InRange(nodes, edges)
    ensures |Segments(nodes, edges, w, h, focal)| == |VisibleEdges(nodes, edges, focal)|
  {
    if edges != [] {
      var n := |edges| - 1;
      var init := edges[..n];
      assert InRange(nodes, init);
      SegmentCount(nodes, init, w, h, focal);
      VisibleEdgesSnoc(nodes, edges, focal);
    }
  }

  /** No line dangles: each end of every line is the centre of a marker drawn for the same model. */
  lemma LinesEndAtMarkers(nodes: seq<Vec4>, edges: seq<Edge>, s: Shape, w: int, h: int, focal: int)
    requires focal >= 0 && InRange(nodes, edges) && s in Segments(nodes, edges, w, h, focal)
    ensures Marker((s.x0, s.y0)) in Markers(nodes, w, h, focal)
    ensures Marker((s.x1, s.y1)) in Markers(nodes, w, h, focal)
  {
    SegmentIsOfVisible(nodes, edges, s, w, h, focal);
    var e :| 0 <= e < |edges| && VisibleEdge(nodes, edges[e], focal)
      && s == Line(Project(nodes[edges[e].0], w, h, focal).value, Project(nodes[edges[e].1], w, h, focal).value);
    MarkerOfVisible(nodes, edges[e].0, w, h, focal);
    MarkerOfVisible(nodes, edges[e].1, w, h, focal);
  }

  /** Every item of every model in the list is on the canvas. */
  lemma {:induction false} ModelShapesInFrame(scenes: seq<Contents>, k: nat, s: Shape, w: int, h: int, focal: int)
    requires focal >= 0 && AllInRange(scenes) && k < |scenes|
    requires s in ModelShapes(scenes[k].0, scenes[k].1, w, h, focal)
    ensures s in Frame(scenes, w, h, focal)
  {
    var n := |scenes| - 1;
    var init := scenes[..n];
    var before, mine := Frame(init, w, h, focal), ModelShapes(scenes[n].0, scenes[n].1, w, h, focal);
    if k < n {
      assert init[k] == scenes[k];
      ModelShapesInFrame(init, k, s, w, h, focal);
      assert s in before;
    } else {
      assert s in mine;
    }
    assert s in before + mine;
  }

  /** Every item on the canvas is an item of some model in the list. */
  lemma {:induction false} FrameShapeOfModel(scenes: seq<Contents>, s: Shape, w: int, h: int, focal: int)
    requires focal >= 0 && AllInRange(scenes) && s in Frame(scenes, w, h, focal)
    ensures exists k :: 0 <= k < |scenes| && s in ModelShapes(scenes[k].0, scenes[k].1, w, h, focal)
  {
    var n := |scenes| - 1;
    var init := scenes[..n];
    if s !in ModelShapes(scenes[n].0, scenes[n].1, w, h, focal) {
      FrameShapeOfModel(init, s, w, h, focal);
      var k :| 0 <= k < n && s in ModelShapes(init[k].0, init[k].1, w, h, focal);
      assert init[k] == scenes[k];
    }
  }

  /** The canvas after one more model: its items come after those of the models before it. */
  lemma FrameSnoc(scenes: seq<Contents>, k: nat, w: int, h: int, focal: int)
    requires focal >= 0 && AllInRange(scenes) && k < |scenes|
    ensures AllInRange(scenes[..k]) && AllInRange(scenes[..k + 1])
    ensures Frame(scenes[..k + 1], w, h, focal)
         == Frame(scenes[..k], w, h, focal) + ModelShapes(scenes[k].0, scenes[k].1, w, h, focal)
  {
    assert scenes[..k + 1][..k] == scenes[..k];
  }

  /**
   * `draw(canvas, models, focal)` after `canvas.delete("all")`: the items it creates,
   * in creation order. `w` and `h` are `winfo_reqwidth()` and `winfo_reqheight()`.
   */
  method Draw(models: seq<Model>, w: int, h: int, focal: int) returns (shapes: seq<Shape>)
    requires focal >= 0 && AllValid(models)
    ensures shapes == Frame(Snapshot(models), w, h, focal)
  {
    ghost var scenes := Snapshot(models);
    shapes := [];
    for k := 0 to |models|
      invariant shapes == Frame(scenes[..k], w, h, focal)
    {
      var model := models[k];
      FrameSnoc(scenes, k, w, h, focal);
      var markers := DrawNodes(model.nodes, w, h, focal);
      var lines := DrawEdges(model.nodes, model.edges, w, h, focal);
      var items := markers + lines;
      assert items == ModelShapes(scenes[k].0, scenes[k].1, w, h, focal);
      shapes := shapes + items;
    }
    assert scenes[..|models|] == scenes;
  }

  /** The `for node in model.nodes` loop of `draw`: the markers of the visible nodes. */
  method DrawNodes(nodes: seq<Vec4>, w: int, h: int, focal: int) returns (markers: seq<Shape>)
    requires focal >= 0
    ensures markers == Markers(nodes, w, h, focal)
  {
    markers := [];
    for n := 0 to |nodes|
      invariant markers == Markers(nodes[..n], w, h, focal)
    {
      var center := Project(nodes[n], w, h, focal);
      if center.Some? {
        markers := markers + [Marker(center.value)];
      }
      assert nodes[..n + 1][..n] == nodes[..n];
    }
    assert nodes[..|nodes|] == nodes;
  }

  /** The `for edge in model.edges` loop of `draw`: the lines of the visible edges. */
  method DrawEdges(nodes: seq<Vec4>, edges: seq<Edge>, w: int, h: int, focal: int) returns (lines: seq<Shape>)
    requires focal >= 0 && InRange(nodes, edges)
    ensures lines == Segments(nodes, edges, w, h, focal)
  {
    lines := [];
    for e := 0 to |edges|
      invariant InRange(nodes, edges[..e])
      invariant lines == Segments(nodes, edges[..e], w, h, focal)
    {
      var node1, node2 := nodes[edges[e].0], nodes[edges[e].1];
      var p1 := Project(node1, w, h, focal);
      var p2 := Project(node2, w, h, focal);
      if p1.Some? && p2.Some? {
        lines := lines + [Line(p1.value, p2.value)];
      }
      assert edges[..e + 1][..e] == edges[..e];
    }
    assert edges[..|edges|] == edges;
  }
}
