/**
 * The post-storm assessment filter view: given a dataset below the OPeNDAP
 * directory and a (latitude, longitude) coordinate, it finds the mesh face
 * nearest to the coordinate and returns the water depth there at every time
 * step of the dataset.
 */
module Views {
  import opened Wrappers
  import opened Paths

  type Point = (real, real)

  /** One time step of `mesh2d_waterdepth`: its time label and one value per mesh face. */
  datatype TimeStep = TimeStep(time: string, values: seq<real>)

  /** The parts of an opened dataset the view reads. */
  datatype Dataset = Dataset(faceY: seq<real>, faceX: seq<real>, waterDepth: seq<TimeStep>)

  /** One entry of the `water_depth` list of the response. */
  datatype DepthEntry = DepthEntry(name: string, value: real)

  /** A query-string coordinate, as `float(...)` sees it. */
  datatype CoordinateArg = Numeric(value: real) | NotNumeric(text: string)

  datatype Request = Request(datasetPath: string, coordinate: seq<CoordinateArg>)

  /** The `NotFound` responses of the view, one per check. */
  datatype NotFound =
    | PathMissing(absolutePath: string)
    | CoordinateCount
    | CoordinateNotNumeric

  /** A dataset over one non-empty mesh: parallel face coordinates, one value per face at each step. */
  predicate WellFormedDataset(d: Dataset) {
    && |d.faceY| == |d.faceX| > 0
    && forall s :: 0 <= s < |d.waterDepth| ==> |d.waterDepth[s].values| == |d.faceY|
  }

  // ---------------------------------------------------------------------
  // Argument checks
  // ---------------------------------------------------------------------

  /** `os.path.join(CWWED_DATA_DIR, CWWED_OPENDAP_DIR, dataset_path)` */
  function AbsolutePath(dataDir: string, opendapDir: string, datasetPath: string): (r: string)
    ensures OpenDir(dataDir) && Segment(opendapDir) && Segment(datasetPath) ==>
      r == dataDir + "/" + opendapDir + "/" + datasetPath
  {
    if OpenDir(dataDir) && Segment(opendapDir) && Segment(datasetPath) then
      JoinAllSegments(dataDir, [opendapDir, datasetPath]);
      assert Slashed([opendapDir, datasetPath]) == "/" + opendapDir + ("/" + datasetPath + "");
      JoinAll(dataDir, [opendapDir, datasetPath])
    else
      JoinAll(dataDir, [opendapDir, datasetPath])
  }

  predicate AllNumeric(args: seq<CoordinateArg>) {
    forall i :: 0 <= i < |args| ==> args[i].Numeric?
  }

  /**
   * The checks `get` makes before opening the dataset, in its order: the
   * path must exist (`existing` holds every path `os.path.exists` accepts,
   * directories and files of any kind), exactly two coordinates must be
   * given, and both must be numbers. On success, the path to open and the
   * point to look up.
   */
  function CheckArguments(dataDir: string, opendapDir: string, request: Request, existing: set<string>)
    : (r: Result<(string, Point), NotFound>)
    ensures var path := AbsolutePath(dataDir, opendapDir, request.datasetPath);
      && (r == Failure(PathMissing(path)) <==> path == "" || path !in existing)
      && (path != "" && path in existing && |request.coordinate| != 2 ==> r == Failure(CoordinateCount))
      && (r == Failure(CoordinateNotNumeric) <==>
            path != "" && path in existing && |request.coordinate| == 2 && !AllNumeric(request.coordinate))
      && (r.Success? ==>
            && r.value.0 == path && path in existing
            && |request.coordinate| == 2 && AllNumeric(request.coordinate)
            && r.value.1 == (request.coordinate[0].value, request.coordinate[1].value))
  {
    var path := AbsolutePath(dataDir, opendapDir, request.datasetPath);
    if path == "" || path !in existing then Failure(PathMissing(path))
    else if |request.coordinate| != 2 then Failure(CoordinateCount)
    else if !request.coordinate[0].Numeric? || !request.coordinate[1].Numeric? then Failure(CoordinateNotNumeric)
    else Success((path, (request.coordinate[0].value, request.coordinate[1].value)))
  }

  /**
   * Without a `dataset_path` the view joins an empty last part and so names
   * the OPeNDAP directory itself; that directory exists, so the request gets
   * past the path check and is refused for its coordinates instead.
   */
  lemma DefaultPathIsOpendapDir(dataDir: string, opendapDir: string, request: Request, existing: set<string>)
    requires OpenDir(dataDir) && Segment(opendapDir)
    requires request.datasetPath == "" && request.coordinate == []
    requires dataDir + "/" + opendapDir + "/" in existing
    ensures AbsolutePath(dataDir, opendapDir, "") == dataDir + "/" + opendapDir + "/"
    ensures CheckArguments(dataDir, opendapDir, request, existing) == Failure(CoordinateCount)
  {
    JoinSegment(dataDir, opendapDir);
    assert JoinAll(dataDir, [opendapDir, ""]) == JoinAll(Join(dataDir, opendapDir), [""]);
  }

  // ---------------------------------------------------------------------
  // Nearest mesh face
  // ---------------------------------------------------------------------

  /** `numpy.column_stack([face_y, face_x])`: one (y, x) row per face. */
  function ColumnStack(ys: seq<real>, xs: seq<real>): (rows: seq<Point>)
    requires |ys| == |xs|
    ensures |rows| == |ys|
    ensures forall i :: 0 <= i < |rows| ==> rows[i].0 == ys[i] && rows[i].1 == xs[i]
  {
    seq(|ys|, i requires 0 <= i < |ys| => (ys[i], xs[i]))
  }

  /** Squared Euclidean distance; it orders points as the distance itself does. */
  function SqDist(a: Point, b: Point): real {
    (a.0 - b.0) * (a.0 - b.0) + (a.1 - b.1) * (a.1 - b.1)
  }

  predicate IsNearest(nodes: seq<Point>, p: Point, i: int) {
    0 <= i < |nodes| && forall j :: 0 <= j < |nodes| ==> SqDist(nodes[i], p) <= SqDist(nodes[j], p)
  }

  /** The KD-tree query: the index of the row nearest to `p`, the first one on a tie. */
  function Nearest(nodes: seq<Point>, p: Point): (r: nat)
    requires |nodes| > 0
    ensures IsNearest(nodes, p, r)
    ensures forall j :: 0 <= j < r ==> SqDist(nodes[r], p) < SqDist(nodes[j], p)
    decreases |nodes|
  {
    if |nodes| == 1 then 0
    else
      var init := nodes[..|nodes| - 1];
      var best := Nearest(init, p);
      assert forall j :: 0 <= j < |init| ==> init[j] == nodes[j];
      if SqDist(nodes[|nodes| - 1], p) < SqDist(nodes[best], p) then |nodes| - 1 else best
  }

  /** A row equal to the target in the y column or in the x column. */
  predicate Matches(node: Point, target: Point) {
    node.0 == target.0 || node.1 == target.1
  }

  /**
   * The row indices of `numpy.where(coords == target)`: the element-wise
   * comparison is scanned row by row, so a row appears once for a matching y
   * and once more for a matching x.
   */
  function WhereRows(nodes: seq<Point>, target: Point): (rows: seq<nat>)
    ensures |rows| <= 2 * |nodes|
    decreases |nodes|
  {
    if nodes == [] then []
    else
      var n := |nodes| - 1;
      WhereRows(nodes[..n], target) + (if nodes[n].0 == target.0 then [n] else []) + (if nodes[n].1 == target.1 then [n] else [])
  }

  /** The reported rows are exactly the matching rows, in ascending order. */
  lemma {:induction false} WhereRowsMatching(nodes: seq<Point>, target: Point)
    ensures var rows := WhereRows(nodes, target);
      && (forall k :: 0 <= k < |rows| ==> rows[k] < |nodes| && Matches(nodes[rows[k]], target))
      && (forall i :: 0 <= i < |nodes| && Matches(nodes[i], target) ==> i in rows)
      && (forall a, b :: 0 <= a < b < |rows| ==> rows[a] <= rows[b])
  {
    WhereRowsSound(nodes, target);
    WhereRowsComplete(nodes, target);
    WhereRowsAscending(nodes, target);
  }

  /** The rows reported for the last node, after those of the nodes before it. */
  function LastRows(nodes: seq<Point>, target: Point): seq<nat>
    requires nodes != []
  {
    var n := |nodes| - 1;
    (if nodes[n].0 == target.0 then [n] else []) + (if nodes[n].1 == target.1 then [n] else [])
  }

  lemma WhereRowsSplit(nodes: seq<Point>, target: Point)
    requires nodes != []
    ensures WhereRows(nodes, target) == WhereRows(nodes[..|nodes| - 1], target) + LastRows(nodes, target)
    ensures forall k :: 0 <= k < |LastRows(nodes, target)| ==> LastRows(nodes, target)[k] == |nodes| - 1
    ensures Matches(nodes[|nodes| - 1], target) <==> LastRows(nodes, target) != []
  {
  }

  /** Every reported row is a row of the table that matches. */
  lemma {:induction false} WhereRowsSound(nodes: seq<Point>, target: Point)
    ensures var rows := WhereRows(nodes, target);
      forall k :: 0 <= k < |rows| ==> rows[k] < |nodes| && Matches(nodes[rows[k]], target)
    decreases |nodes|
  {
    if nodes != [] {
      var n := |nodes| - 1;
      var init := nodes[..n];
      var prev, last := WhereRows(init, target), LastRows(nodes, target);
      WhereRowsSound(init, target);
      WhereRowsSplit(nodes, target);
      forall k | 0 <= k < |prev + last|
        ensures (prev + last)[k] < |nodes| && Matches(nodes[(prev + last)[k]], target)
      {
        if k < |prev| {
          assert (prev + last)[k] == prev[k];
          assert nodes[prev[k]] == init[prev[k]];
        } else {
          assert (prev + last)[k] == last[k - |prev|];
        }
      }
    }
  }

  /** Every matching row of the table is reported. */
  lemma {:induction false} WhereRowsComplete(nodes: seq<Point>, target: Point)
    ensures forall i :: 0 <= i < |nodes| && Matches(nodes[i], target) ==> i in WhereRows(nodes, target)
    decreases |nodes|
  {
    if nodes != [] {
      var n := |nodes| - 1;
      var init := nodes[..n];
      var prev, last := WhereRows(init, target), LastRows(nodes, target);
      WhereRowsComplete(init, target);
      WhereRowsSplit(nodes, target);
      forall i | 0 <= i < |nodes| && Matches(nodes[i], target) ensures i in prev + last {
        if i < n {
          assert init[i] == nodes[i];
          assert i in prev;
        } else {
          assert last[0] == i;
        }
      }
    }
  }

  /** The rows are reported in ascending order. */
  lemma {:induction false} WhereRowsAscending(nodes: seq<Point>, target: Point)
    ensures var rows := WhereRows(nodes, target);
      forall a, b :: 0 <= a < b < |rows| ==> rows[a] <= rows[b]
    decreases |nodes|
  {
    if nodes != [] {
      var n := |nodes| - 1;
      var init := nodes[..n];
      var prev, last := WhereRows(init, target), LastRows(nodes, target);
      WhereRowsAscending(init, target);
      WhereRowsSound(init, target);
      WhereRowsSplit(nodes, target);
      forall a, b | 0 <= a < b < |prev + last| ensures (prev + last)[a] <= (prev + last)[b] {
        if b < |prev| {
          assert (prev + last)[a] == prev[a] && (prev + last)[b] == prev[b];
        } else if a < |prev| {
          assert (prev + last)[a] == prev[a] && (prev + last)[b] == last[b - |prev|];
        } else {
          assert (prev + last)[a] == last[a - |prev|] && (prev + last)[b] == last[b - |prev|];
        }
      }
    }
  }

  predicate AllZero(rows: seq<nat>) {
    forall k :: 0 <= k < |rows| ==> rows[k] == 0
  }

  /** `found[0][0] if found[0].any() else None` */
  function FirstIfAnyNonzero(rows: seq<nat>): (r: Option<nat>)
    ensures r.None? <==> AllZero(rows)
    ensures r.Some? ==> rows != [] && r.value == rows[0]
  {
    if exists k :: 0 <= k < |rows| && rows[k] != 0 then Some(rows[0]) else None
  }

  /**
   * `_nearest_node_index` as written: the first row index `numpy.where`
   * reports, or none when no reported row index is non-zero.
   */
  function NearestNodeIndex(nodes: seq<Point>, p: Point): (r: Option<nat>)
    requires |nodes| > 0
    ensures r.None? <==> AllZero(WhereRows(nodes, nodes[Nearest(nodes, p)]))
    ensures r.Some? ==>
      && r.value < |nodes| && Matches(nodes[r.value], nodes[Nearest(nodes, p)])
      && forall j :: 0 <= j < r.value ==> !Matches(nodes[j], nodes[Nearest(nodes, p)])
  {
    var target := nodes[Nearest(nodes, p)];
    var found := FirstIfAnyNonzero(WhereRows(nodes, target));
    if found.Some? then
      FirstRowIsSmallest(nodes, target);
      found
    else found
  }

  /** The first reported row is the smallest row matching in either column. */
  lemma FirstRowIsSmallest(nodes: seq<Point>, target: Point)
    requires WhereRows(nodes, target) != []
    ensures WhereRows(nodes, target)[0] < |nodes| && Matches(nodes[WhereRows(nodes, target)[0]], target)
    ensures forall j :: 0 <= j < WhereRows(nodes, target)[0] ==> !Matches(nodes[j], target)
  {
    var rows := WhereRows(nodes, target);
    WhereRowsMatching(nodes, target);
    forall j | 0 <= j < |nodes| && Matches(nodes[j], target) ensures rows[0] <= j {
      var k :| 0 <= k < |rows| && rows[k] == j;
      assert rows[0] <= rows[k];
    }
  }

  /** The first row equal to `target` in both columns. */
  function FirstIndexOf(nodes: seq<Point>, target: Point): (r: nat)
    requires target in nodes
    ensures r < |nodes| && nodes[r] == target
    ensures forall j :: 0 <= j < r ==> nodes[j] != target
  {
    if nodes[0] == target then 0
    else
      assert target in nodes[1..];
      1 + FirstIndexOf(nodes[1..], target)
  }

  /**
   * The lookup as intended: the first row equal to the nearest row in both
   * columns, which is itself a nearest row and is always found.
   */
  function NearestNodeIndexFixed(nodes: seq<Point>, p: Point): (r: nat)
    requires |nodes| > 0
    ensures IsNearest(nodes, p, r)
    ensures nodes[r] == nodes[Nearest(nodes, p)] && r <= Nearest(nodes, p)
  {
    var best := Nearest(nodes, p);
    FirstIndexOf(nodes, nodes[best])
  }

  /** As written, a nearest row at index 0 that shares no coordinate with another row is reported as missing. */
  lemma LookupLosesRowZero(nodes: seq<Point>, p: Point)
    requires |nodes| > 0 && Nearest(nodes, p) == 0
    requires forall i :: 0 < i < |nodes| ==> !Matches(nodes[i], nodes[0])
    ensures NearestNodeIndex(nodes, p) == None
    ensures NearestNodeIndexFixed(nodes, p) == 0
  {
    var rows := WhereRows(nodes, nodes[0]);
    WhereRowsMatching(nodes, nodes[0]);
    forall k | 0 <= k < |rows| ensures rows[k] == 0 {
      assert Matches(nodes[rows[k]], nodes[0]);
    }
  }

  /** Two faces, the query exactly on face 0: no data is reported. */
  lemma LookupMissesExactHit(nodes: seq<Point>, p: Point)
    requires nodes == [(0.0, 0.0), (1.0, 1.0)] && p == (0.0, 0.0)
    ensures Nearest(nodes, p) == 0
    ensures NearestNodeIndex(nodes, p) == None
  {
    assert SqDist(nodes[0], p) == 0.0;
    LookupLosesRowZero(nodes, p);
  }

  /**
   * As written, a row sharing only the x coordinate with the nearest row is
   * reported in its place: the query sits on face 1, face 0 is returned.
   */
  lemma LookupReturnsFartherRow(nodes: seq<Point>, p: Point)
    requires nodes == [(5.0, 0.0), (0.0, 0.0)] && p == (0.0, 0.0)
    ensures Nearest(nodes, p) == 1
    ensures NearestNodeIndex(nodes, p) == Some(0) && !IsNearest(nodes, p, 0)
    ensures NearestNodeIndexFixed(nodes, p) == 1
  {
    assert SqDist(nodes[1], p) < SqDist(nodes[0], p);
    var rows := WhereRows(nodes, nodes[1]);
    WhereRowsMatching(nodes, nodes[1]);
    assert 1 in rows;
  }

  // ---------------------------------------------------------------------
  // The response
  // ---------------------------------------------------------------------

  /** The loop over `mesh2d_waterdepth`: one entry per time step, in dataset order. */
  method WaterDepths(steps: seq<TimeStep>, node: nat) returns (depths: seq<DepthEntry>)
    requires forall s :: 0 <= s < |steps| ==> node < |steps[s].values|
    ensures |depths| == |steps|
    ensures forall s :: 0 <= s < |steps| ==> depths[s] == DepthEntry(steps[s].time, steps[s].values[node])
  {
    depths := [];
    for s := 0 to |steps|
      invariant |depths| == s
      invariant forall t :: 0 <= t < s ==> depths[t] == DepthEntry(steps[t].time, steps[t].values[node])
    {
      depths := depths + [DepthEntry(steps[s].time, steps[s].values[node])];
    }
  }

  /** How `get` ends without a response: a `NotFound`, or the failure of opening a path that is no dataset. */
  datatype ViewError = Rejected(reason: NotFound) | OpenFailed(path: string)

  /**
   * `PSAFilterView.get`: the argument checks, then `xr.open_dataset` on the
   * path (`datasets` holds the paths that open as a dataset), then the water
   * depth at the face nearest to the point at each time step of the dataset.
   */
  method Get(dataDir: string, opendapDir: string, request: Request, existing: set<string>, datasets: map<string, Dataset>)
    returns (r: Result<seq<DepthEntry>, ViewError>)
    requires var path := AbsolutePath(dataDir, opendapDir, request.datasetPath);
      path in datasets ==> WellFormedDataset(datasets[path])
    ensures var checked := CheckArguments(dataDir, opendapDir, request, existing);
      var path := AbsolutePath(dataDir, opendapDir, request.datasetPath);
      && (r.Failure? && r.error.Rejected? <==> checked.Failure?)
      && (checked.Failure? ==> r == Failure(Rejected(checked.error)))
      && (r == Failure(OpenFailed(path)) <==> checked.Success? && path !in datasets)
    ensures r.Success? ==>
      var checked := CheckArguments(dataDir, opendapDir, request, existing);
      && checked.Success? && checked.value.0 in datasets
      && var dataset := datasets[checked.value.0];
      var p := checked.value.1;
      var nodes := ColumnStack(dataset.faceY, dataset.faceX);
      var node := NearestNodeIndexFixed(nodes, p);
      && IsNearest(nodes, p, node)
      && |r.value| == |dataset.waterDepth|
      && forall s :: 0 <= s < |r.value| ==>
           r.value[s] == DepthEntry(dataset.waterDepth[s].time, dataset.waterDepth[s].values[node])
  {
    var checked := CheckArguments(dataDir, opendapDir, request, existing);
    if checked.Failure? {
      return Failure(Rejected(checked.error));
    }
    var (path, p) := checked.value;
    if path !in datasets {
      return Failure(OpenFailed(path));
    }
    var dataset := datasets[path];
    var nodes := ColumnStack(dataset.faceY, dataset.faceX);
    var node := NearestNodeIndexFixed(nodes, p);
    var depths := WaterDepths(dataset.waterDepth, node);
    return Success(depths);
  }
}
