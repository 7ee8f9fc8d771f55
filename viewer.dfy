/**
 * The running program of main.py: the models loaded from the model directory, the
 * global focal length, and the canvas, which every key press redraws.
 */
module Viewer {
  import opened Geometry
  import opened Outcomes
  import opened ModelStore
  import opened Drawing
  import opened Controls

  /** The contents of the files that load, in directory order. */
  function Loadable(files: seq<seq<Line>>): (r: seq<Contents>)
    ensures |r| <= |files|
  {
    if files == [] then []
    else
      var init, last := files[..|files| - 1], files[|files| - 1];
      match Load(last)
      case Ok(contents) => Loadable(init) + [contents]
      case Err(_) => Loadable(init)
  }

  /** The failure report of `load_models`: the position of each file that fails, and why. */
  function Failures(files: seq<seq<Line>>): (r: seq<(nat, LoadError)>)
    ensures |r| <= |files|
  {
    if files == [] then []
    else
      var init, last := files[..|files| - 1], files[|files| - 1];
      match Load(last)
      case Ok(_) => Failures(init)
      case Err(e) => Failures(init) + [(|files| - 1, e)]
  }

  /** Every file either loads or is reported, never both. */
  lemma {:induction false} LoadedOrReported(files: seq<seq<Line>>)
    ensures |Loadable(files)| + |Failures(files)| == |files|
  {
    if files != [] {
      LoadedOrReported(files[..|files| - 1]);
    }
  }

  /** A report names a file that fails, with the reason it fails. */
  lemma {:induction false} ReportsAreFailures(files: seq<seq<Line>>, i: nat)
    requires i < |Failures(files)|
    ensures Failures(files)[i].0 < |files|
    ensures Load(files[Failures(files)[i].0]) == Err(Failures(files)[i].1)
  {
    var init := files[..|files| - 1];
    if i < |Failures(init)| {
      ReportsAreFailures(init, i);
      assert files[Failures(init)[i].0] == init[Failures(init)[i].0];
    }
  }

  /** Every report names a position within the directory listing. */
  lemma {:induction false} ReportPositions(files: seq<seq<Line>>)
    ensures forall r :: r in Failures(files) ==> r.0 < |files|
  {
    if files != [] {
      ReportPositions(files[..|files| - 1]);
    }
  }

  /** A file is reported iff it fails to load. */
  lemma {:induction false} ReportedIffFails(files: seq<seq<Line>>, i: nat)
    requires i < |files|
    ensures Load(files[i]).Err? <==> exists r :: r in Failures(files) && r.0 == i
  {
    var n := |files| - 1;
    var init := files[..n];
    if i < n {
      ReportedIffFails(init, i);
      assert files[i] == init[i];
      if Load(files[i]).Err? {
        var r :| r in Failures(init) && r.0 == i;
        assert r in Failures(files);
      }
    } else {
      ReportPositions(init);
      if Load(files[n]).Err? {
        assert (n, Load(files[n]).error) in Failures(files);
      }
    }
  }

  /** Reports follow the directory order, so no file is reported twice. */
  lemma {:induction false} ReportsInOrder(files: seq<seq<Line>>)
    ensures forall a, b :: 0 <= a < b < |Failures(files)| ==> Failures(files)[a].0 < Failures(files)[b].0
  {
    if files != [] {
      var init := files[..|files| - 1];
      ReportsInOrder(init);
      ReportPositions(init);
      var before := Failures(init);
      forall a, b | 0 <= a < b < |Failures(files)|
        ensures Failures(files)[a].0 < Failures(files)[b].0
      {
        assert Failures(files)[a] == before[a];
        if b >= |before| {
          assert before[a] in before;
        }
      }
    }
  }

  /** Every loaded model holds the contents of a file that loads. */
  lemma {:induction false} LoadedFromFiles(files: seq<seq<Line>>, c: Contents)
    requires c in Loadable(files)
    ensures exists i :: 0 <= i < |files| && Load(files[i]) == Ok(c)
  {
    var n := |files| - 1;
    var init := files[..n];
    if c in Loadable(init) {
      LoadedFromFiles(init, c);
      var i :| 0 <= i < |init| && Load(init[i]) == Ok(c);
      assert files[i] == init[i];
    } else {
      assert Load(files[n]) == Ok(c);
    }
  }

  /** Every file that loads has its contents among the loaded models. */
  lemma {:induction false} FilesLoaded(files: seq<seq<Line>>, i: nat)
    requires i < |files| && Load(files[i]).Ok?
    ensures Load(files[i]).value in Loadable(files)
  {
    var n := |files| - 1;
    var init := files[..n];
    if i < n {
      assert files[i] == init[i];
      FilesLoaded(init, i);
    }
  }

  /** Reading one more file: its contents join the models, or its failure the report. */
  lemma LoadSnoc(files: seq<seq<Line>>, i: nat)
    requires i < |files|
    ensures Loadable(files[..i + 1]) == Loadable(files[..i]) + (if Load(files[i]).Ok? then [Load(files[i]).value] else [])
    ensures Failures(files[..i + 1]) == Failures(files[..i]) + (if Load(files[i]).Err? then [(i, Load(files[i]).error)] else [])
  {
    assert files[..i + 1][..i] == files[..i];
  }

  /** Appending a well-formed model that is not yet in the list. */
  lemma AppendModel(models: seq<Model>, model: Model)
    requires AllValid(models) && Separate(models) && model.Valid() && model !in models
    ensures AllValid(models + [model]) && Separate(models + [model])
    ensures Snapshot(models + [model]) == Snapshot(models) + [(model.nodes, model.edges)]
  {
  }

  /** No object occurs twice in the list. */
  predicate Separate(models: seq<Model>)
  {
    forall a, b :: 0 <= a < b < |models| ==> models[a] != models[b]
  }

  /**
   * `load_models`: a fresh model for each file that loads, in directory order, and a
   * report for each one that does not. `files` holds the regular files of the
   * directory, in the order `listdir` gives them.
   */
  method LoadModels(files: seq<seq<Line>>) returns (models: seq<Model>, failures: seq<(nat, LoadError)>)
    ensures failures == Failures(files)
    ensures Snapshot(models) == Loadable(files)
    ensures forall k :: 0 <= k < |models| ==> fresh(models[k])
    ensures AllValid(models) && Separate(models)
  {
    models, failures := [], [];
    for i := 0 to |files|
      invariant failures == Failures(files[..i])
      invariant Snapshot(models) == Loadable(files[..i])
      invariant forall k :: 0 <= k < |models| ==> fresh(models[k])
      invariant AllValid(models) && Separate(models)
    {
      LoadSnoc(files, i);
      var loaded := Model.LoadFromFile(files[i]);
      match loaded
      case Ok(model) =>
        assert model !in models;
        AppendModel(models, model);
        models := models + [model];
      case Err(e) =>
        failures := failures + [(i, e)];
    }
    assert files[..|files|] == files;
  }

  /** The loop of `transform_and_draw`: each model's nodes multiplied by the matrix. */
  method TransformAll(models: seq<Model>, matrix: Mat4)
    requires AllValid(models) && Separate(models)
    modifies models
    ensures AllValid(models)
    ensures forall k :: 0 <= k < |models| ==>
      models[k].nodes == MulRows(old(models[k].nodes), matrix) && models[k].edges == old(models[k].edges)
  {
    for k := 0 to |models|
      invariant AllValid(models)
      invariant forall i :: 0 <= i < k ==> models[i].nodes == MulRows(old(models[i].nodes), matrix)
      invariant forall i :: k <= i < |models| ==> models[i].nodes == old(models[i].nodes)
      invariant forall i :: 0 <= i < |models| ==> models[i].edges == old(models[i].edges)
    {
      models[k].Transform(matrix);
    }
  }

  /** The window of main.py: its models, the focal length, and the canvas items. */
  class Viewer {
    var focal: int
    var models: seq<Model>
    var canvas: seq<Shape>
    /** The keys pressed so far. */
    ghost var pressed: seq<Key>

    /** The focal length is within its bounds, and the models are well formed and separate. */
    ghost predicate Valid()
      reads this, models
    {
      InFocalRange(focal) && AllValid(models) && Separate(models)
    }

    /** The focal length is the one the keys pressed so far lead to. */
    ghost predicate Driven()
      reads this
    {
      focal == FocalAfter(pressed)
    }

    /** Start-up: the models on the canvas, drawn with the initial focal length. */
    constructor (models: seq<Model>, w: int, h: int)
      requires AllValid(models) && Separate(models)
      ensures this.models == models && focal == INIT_FOCAL && pressed == []
      ensures canvas == Frame(Snapshot(models), w, h, INIT_FOCAL)
      ensures Valid() && Driven()
    {
      var shapes := Draw(models, w, h, INIT_FOCAL);
      this.models := models;
      focal := INIT_FOCAL;
      canvas := shapes;
      pressed := [];
    }

    /**
     * `change_focal_and_draw(delta)`: when the new focal length is within the bounds,
     * take it and redraw; otherwise do nothing.
     */
    method ChangeFocal(delta: int, w: int, h: int)
      requires Valid()
      modifies this
      ensures models == old(models) && pressed == old(pressed) && Valid()
      ensures focal == NextFocal(old(focal), delta)
      ensures InFocalRange(old(focal) + delta) ==> canvas == Frame(Snapshot(models), w, h, focal)
      ensures !InFocalRange(old(focal) + delta) ==> canvas == old(canvas)
    {
      if FOCAL_MIN <= focal + delta <= FOCAL_MAX {
        focal := focal + delta;
        canvas := Draw(models, w, h, focal);
      }
    }

    /** `transform_and_draw(matrix)`: transform every model, then redraw. */
    method TransformAndDraw(matrix: Mat4, w: int, h: int)
      requires Valid()
      modifies this, models
      ensures models == old(models) && focal == old(focal) && pressed == old(pressed) && Valid()
      ensures forall k :: 0 <= k < |models| ==>
        models[k].nodes == MulRows(old(models[k].nodes), matrix) && models[k].edges == old(models[k].edges)
      ensures canvas == Frame(Snapshot(models), w, h, focal)
    {
      TransformAll(models, matrix);
      canvas := Draw(models, w, h, focal);
    }
    /**
     * The effect of one action, against the state before it: a zoom moves the focal
     * length as `change_focal_and_draw` does and redraws only when it moves it; a move
     * transforms every model's nodes by its matrix, keeps the edges and redraws.
     */
    twostate predicate Performed(action: Action, w: int, h: int)
      reads this, models
    {
      && models == old(models) && Valid()
      && focal == NextFocal(old(focal), if action.Zoom? then action.delta else 0)
      && (forall k :: 0 <= k < |models| ==> models[k].edges == old(models[k].edges))
      && (forall k :: 0 <= k < |models| ==> models[k].nodes == Moved(action, old(models[k].nodes)))
      && (action.Move? || InFocalRange(old(focal) + action.delta) ==> canvas == Frame(Snapshot(models), w, h, focal))
      && (action.Zoom? && !InFocalRange(old(focal) + action.delta) ==> canvas == old(canvas))
    }

    /** What a bound key does: `change_focal_and_draw` or `transform_and_draw`. */
    method Perform(action: Action, w: int, h: int)
      requires Valid()
      modifies this, models
      ensures pressed == old(pressed) && Performed(action, w, h)
    {
      if action.Zoom? {
        ChangeFocal(action.delta, w, h);
      } else {
        TransformAndDraw(action.matrix, w, h);
      }
    }

    /**
     * A key press: the zoom keys change the focal length by one step, the movement
     * keys transform every model by their matrix. `sin` and `cos` are those of the
     * five-degree rotation step.
     */
    method Press(key: Key, sin: real, cos: real, w: int, h: int)
      requires Valid()
      modifies this, models
      ensures pressed == old(pressed) + [key]
      ensures Performed(Binding(key, sin, cos), w, h)
      ensures focal == NextFocal(old(focal), ZoomDelta(key))
      ensures old(Driven()) ==> Driven()
    {
      ZoomKeys(key, sin, cos);
      FocalAfterSnoc(pressed, key);
      pressed := pressed + [key];
      Perform(Binding(key, sin, cos), w, h);
    }
  }

  /** Start-up of main.py: load the model directory, then draw it. */
  method Launch(files: seq<seq<Line>>, w: int, h: int) returns (viewer: Viewer, failures: seq<(nat, LoadError)>)
    ensures failures == Failures(files)
    ensures Snapshot(viewer.models) == Loadable(files)
    ensures viewer.Valid() && viewer.Driven()
    ensures viewer.focal == INIT_FOCAL && viewer.canvas == Frame(Snapshot(viewer.models), w, h, INIT_FOCAL)
  {
    var models;
    models, failures := LoadModels(files);
    viewer := new Viewer(models, w, h);
  }
}
