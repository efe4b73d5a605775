/**
 * The dataset processors: the range-index resolver and extent normaliser
 * used to subset remote grids, the output-path convention, the structured
 * binary record filter, and the processor object whose `fetch` records
 * success or failure.
 */
module Processors {
  import opened Wrappers
  import opened Paths
  import opened Models
  import StorageBackends

  const DEFAULT_DIMENSION_TIME := "time"
  const DEFAULT_DIMENSION_LATITUDE := "latitude"
  const DEFAULT_DIMENSION_LONGITUDE := "longitude"
  const DEFAULT_DIMENSIONS: set<string> := {DEFAULT_DIMENSION_TIME, DEFAULT_DIMENSION_LATITUDE, DEFAULT_DIMENSION_LONGITUDE}

  const DEFAULT_LABEL := "data"
  const NETCDF_EXTENSION := "nc"

  const DATA_TYPE_TIME_KEY := "time"
  const DATA_TYPE_LAT_KEY := "lat"
  const DATA_TYPE_LON_KEY := "lon"
  const DATA_TYPE_KWARG_KEY := "data_type"

  // ---------------------------------------------------------------------
  // Range index resolver
  // ---------------------------------------------------------------------

  /** Index of the first value at or above `bound` (`next(...)` over `enumerate`). */
  function FirstAtLeast(values: seq<real>, bound: real): (r: Option<nat>)
    ensures r.Some? ==> r.value < |values| && values[r.value] >= bound
    ensures r.Some? ==> forall i :: 0 <= i < r.value ==> values[i] < bound
    ensures r.None? ==> forall i :: 0 <= i < |values| ==> values[i] < bound
  {
    if values == [] then None
    else if values[0] >= bound then Some(0)
    else match FirstAtLeast(values[1..], bound)
      case None => None
      case Some(k) => Some(k + 1)
  }

  /** A Python slice `[start:end]`; `end == None` is open-ended. */
  datatype IndexRange = IndexRange(start: nat, end: Option<nat>)

  /**
   * `_grid_constraint_indexes`: the first index at or above `start`, falling
   * back to 0, and the first index at or above `end`, falling back to None.
   */
  function GridConstraintIndexes(values: seq<real>, start: real, end: real): (r: IndexRange)
    ensures (exists i :: 0 <= i < |values| && values[i] >= start) ==>
      r.start < |values| && values[r.start] >= start && forall i :: 0 <= i < r.start ==> values[i] < start
    ensures (forall i :: 0 <= i < |values| ==> values[i] < start) ==> r.start == 0
    ensures r.end.Some? ==>
      r.end.value < |values| && values[r.end.value] >= end && forall i :: 0 <= i < r.end.value ==> values[i] < end
    ensures r.end.None? <==> forall i :: 0 <= i < |values| ==> values[i] < end
  {
    IndexRange(FirstAtLeast(values, start).GetOr(0), FirstAtLeast(values, end))
  }

  /** Python slicing with non-negative bounds: both are clamped to the length. */
  function Slice(values: seq<real>, range: IndexRange): seq<real> {
    var n := |values|;
    var lo := if range.start < n then range.start else n;
    var hi := match range.end
      case None => n
      case Some(e) => if e < n then e else n;
    if lo <= hi then values[lo..hi] else []
  }

  /** The axis values the server-side `isel` keeps for the constraint `[lo, hi]`. */
  function SliceAxis(values: seq<real>, lo: real, hi: real): seq<real> {
    Slice(values, GridConstraintIndexes(values, lo, hi))
  }

  predicate Ascending(values: seq<real>) {
    forall i, j :: 0 <= i < j < |values| ==> values[i] <= values[j]
  }

  /** The values `v` with `lo <= v < hi`, in axis order. */
  function InRange(values: seq<real>, lo: real, hi: real): (r: seq<real>)
    ensures forall v :: v in r ==> lo <= v < hi && v in values
  {
    if values == [] then []
    else (if lo <= values[0] < hi then [values[0]] else []) + InRange(values[1..], lo, hi)
  }

  lemma {:induction false} InRangeAppend(a: seq<real>, b: seq<real>, lo: real, hi: real)
    ensures InRange(a + b, lo, hi) == InRange(a, lo, hi) + InRange(b, lo, hi)
  {
    if a != [] {
      assert (a + b)[1..] == a[1..] + b;
      InRangeAppend(a[1..], b, lo, hi);
    } else {
      assert a + b == b;
    }
  }

  lemma {:induction false} InRangeAll(a: seq<real>, lo: real, hi: real)
    requires forall i :: 0 <= i < |a| ==> lo <= a[i] < hi
    ensures InRange(a, lo, hi) == a
  {
    if a != [] {
      InRangeAll(a[1..], lo, hi);
      assert [a[0]] + a[1..] == a;
    }
  }

  lemma {:induction false} InRangeNone(a: seq<real>, lo: real, hi: real)
    requires forall i :: 0 <= i < |a| ==> !(lo <= a[i] < hi)
    ensures InRange(a, lo, hi) == []
  {
    if a != [] {
      InRangeNone(a[1..], lo, hi);
    }
  }

  /**
   * On an ascending axis that reaches `lo`, the server-side slice is exactly
   * the values in `[lo, hi)`: a value equal to `hi` is left out.
   */
  lemma {:induction false} SliceIsWindow(values: seq<real>, lo: real, hi: real)
    requires Ascending(values) && lo <= hi
    requires exists i :: 0 <= i < |values| && values[i] >= lo
    ensures SliceAxis(values, lo, hi) == InRange(values, lo, hi)
  {
    var range := GridConstraintIndexes(values, lo, hi);
    var s := range.start;
    var e := if range.end.Some? then range.end.value else |values|;
    assert s < |values| && values[s] >= lo;
    assert s <= e;
    assert Slice(values, range) == values[s..e];
    assert forall i :: s <= i < e ==> lo <= values[i] < hi by {
      forall i | s <= i < e ensures lo <= values[i] < hi {
        assert values[s] <= values[i];
      }
    }
    assert forall i :: e <= i < |values| ==> values[i] >= hi by {
      forall i | e <= i < |values| ensures values[i] >= hi {
        assert values[e] <= values[i];
      }
    }
    InRangeWindow(values, lo, hi, s, e);
  }

  /** An axis below, inside, then above `[lo, hi)` filters to its middle part. */
  lemma InRangeWindow(values: seq<real>, lo: real, hi: real, s: nat, e: nat)
    requires s <= e <= |values|
    requires forall i :: 0 <= i < s ==> values[i] < lo
    requires forall i :: s <= i < e ==> lo <= values[i] < hi
    requires forall i :: e <= i < |values| ==> values[i] >= hi
    ensures InRange(values, lo, hi) == values[s..e]
  {
    var a, b, c := values[..s], values[s..e], values[e..];
    assert values == a + b + c;
    InRangeAppend(a + b, c, lo, hi);
    InRangeAppend(a, b, lo, hi);
    InRangeNone(a, lo, hi);
    InRangeAll(b, lo, hi);
    InRangeNone(c, lo, hi);
  }

  /** An axis with nothing at or above `lo` (an empty axis included) is not constrained at all. */
  lemma SliceWholeAxis(values: seq<real>, lo: real, hi: real)
    requires lo <= hi
    requires forall i :: 0 <= i < |values| ==> values[i] < lo
    ensures GridConstraintIndexes(values, lo, hi) == IndexRange(0, None)
    ensures SliceAxis(values, lo, hi) == values
  {
  }

  // ---------------------------------------------------------------------
  // Extent normaliser
  // ---------------------------------------------------------------------

  /** Signed longitude to the 0-360 "degrees east" convention; 0 becomes 360. */
  function NormaliseLongitude(x: real): (r: real)
    ensures r == x || r == x + 360.0
    ensures x > 0.0 ==> r == x
    ensures -360.0 < x ==> r > 0.0
    ensures x <= 360.0 ==> r <= 360.0
  {
    if x > 0.0 then x else 360.0 + x
  }

  /** `_covered_data_extent`: longitudes normalised, latitudes unchanged. */
  function CoveredDataExtent(e: Extent): (r: Extent)
    ensures r.south == e.south && r.north == e.north
    ensures r.west == NormaliseLongitude(e.west) && r.east == NormaliseLongitude(e.east)
  {
    Extent(NormaliseLongitude(e.west), e.south, NormaliseLongitude(e.east), e.north)
  }

  lemma CoveredDataExtentIdempotent(e: Extent)
    requires e.west > -360.0 && e.east > -360.0
    ensures CoveredDataExtent(CoveredDataExtent(e)) == CoveredDataExtent(e)
  {
  }

  lemma CoveredDataExtentExample()
    ensures CoveredDataExtent(Extent(-97.5, 28.2, -91.0, 33.3)) == Extent(262.5, 28.2, 269.0, 33.3)
  {
  }

  // ---------------------------------------------------------------------
  // Output path
  // ---------------------------------------------------------------------

  /** `label or DEFAULT_LABEL` */
  function EffectiveLabel(dataLabel: string): (r: string)
    ensures r != ""
    ensures dataLabel == "" ==> r == DEFAULT_LABEL
    ensures dataLabel != "" ==> r == dataLabel
  {
    if dataLabel == "" then DEFAULT_LABEL else dataLabel
  }

  /** The label, with `.extension` appended when an extension is declared. */
  function FileName(dataLabel: string, extension: string): (r: string)
    ensures extension == "" ==> r == dataLabel
    ensures extension != "" ==> StartsWith(r, dataLabel) && EndsWith(r, "." + extension) && |r| == |dataLabel| + 1 + |extension|
  {
    if extension != "" then dataLabel + "." + extension else dataLabel
  }

  /** `_output_path`: `incomplete_path / [group /] file_name`. */
  function OutputPath(incompletePath: string, group: string, dataLabel: string, extension: string): (r: string)
    ensures NoSlash(dataLabel) && NoSlash(extension) ==> Basename(r) == FileName(dataLabel, extension)
    ensures OpenDir(incompletePath) && Segment(group) && Segment(dataLabel) && NoSlash(extension) ==>
      r == incompletePath + "/" + group + "/" + FileName(dataLabel, extension)
    ensures OpenDir(incompletePath) && group == "" && Segment(dataLabel) && NoSlash(extension) ==>
      r == incompletePath + "/" + FileName(dataLabel, extension)
  {
    var dir := if group != "" then Join(incompletePath, group) else incompletePath;
    OutputPathParts(dir, incompletePath, group, dataLabel, extension);
    Join(dir, FileName(dataLabel, extension))
  }

  lemma OutputPathParts(dir: string, incompletePath: string, group: string, dataLabel: string, extension: string)
    requires dir == if group != "" then Join(incompletePath, group) else incompletePath
    ensures NoSlash(dataLabel) && NoSlash(extension) ==> Basename(Join(dir, FileName(dataLabel, extension))) == FileName(dataLabel, extension)
    ensures OpenDir(incompletePath) && Segment(group) && Segment(dataLabel) && NoSlash(extension) ==>
      Join(dir, FileName(dataLabel, extension)) == incompletePath + "/" + group + "/" + FileName(dataLabel, extension)
    ensures OpenDir(incompletePath) && group == "" && Segment(dataLabel) && NoSlash(extension) ==>
      Join(dir, FileName(dataLabel, extension)) == incompletePath + "/" + FileName(dataLabel, extension)
  {
    var name := FileName(dataLabel, extension);
    if NoSlash(dataLabel) && NoSlash(extension) {
      if extension != "" { DottedName(dataLabel, extension); }
      BasenameOfJoin(dir, name);
      if OpenDir(incompletePath) && dataLabel != "" {
        if group != "" && NoSlash(group) {
          JoinSegment(incompletePath, group);
          JoinSegment(dir, name);
        } else if group == "" {
          JoinSegment(dir, name);
        }
      }
    }
  }

  // ---------------------------------------------------------------------
  // Structured binary records
  // ---------------------------------------------------------------------

  /** A field value of a structured record: numpy integer or floating type. */
  datatype Num = Int(i: int) | Real(r: real)

  function AsReal(n: Num): real {
    match n
    case Int(i) => i as real
    case Real(r) => r
  }

  datatype Record = Record(fields: map<string, Num>)

  datatype Comparison = AtLeast | AtMost

  /** One boolean mask `array[field] >= limit` or `array[field] <= limit`. */
  datatype Bound = Bound(field: string, comparison: Comparison, limit: real)

  predicate Holds(rec: Record, b: Bound) {
    b.field in rec.fields &&
    match b.comparison
    case AtLeast => AsReal(rec.fields[b.field]) >= b.limit
    case AtMost => AsReal(rec.fields[b.field]) <= b.limit
  }

  predicate HoldsAll(rec: Record, bounds: seq<Bound>) {
    forall i :: 0 <= i < |bounds| ==> Holds(rec, bounds[i])
  }

  /** `array[mask]`: the records meeting one bound, in their order. */
  function Keep(records: seq<Record>, b: Bound): seq<Record> {
    if records == [] then []
    else (if Holds(records[0], b) then [records[0]] else []) + Keep(records[1..], b)
  }

  /** The records meeting every bound, in their order. */
  function KeepAll(records: seq<Record>, bounds: seq<Bound>): (r: seq<Record>)
    ensures |r| <= |records|
  {
    if records == [] then []
    else (if HoldsAll(records[0], bounds) then [records[0]] else []) + KeepAll(records[1..], bounds)
  }

  /** A record survives the filter exactly when it was present and meets every bound. */
  lemma {:induction false} KeepAllMembership(records: seq<Record>, bounds: seq<Bound>)
    ensures forall x :: x in KeepAll(records, bounds) <==> x in records && HoldsAll(x, bounds)
  {
    if records != [] {
      KeepAllMembership(records[1..], bounds);
      assert records == [records[0]] + records[1..];
    }
  }

  /** Filtering keeps the original order: it distributes over concatenation. */
  lemma {:induction false} KeepAllAppend(a: seq<Record>, b: seq<Record>, bounds: seq<Bound>)
    ensures KeepAll(a + b, bounds) == KeepAll(a, bounds) + KeepAll(b, bounds)
  {
    if a == [] {
      assert a + b == b;
    } else {
      var head := if HoldsAll(a[0], bounds) then [a[0]] else [];
      assert (a + b)[0] == a[0];
      assert (a + b)[1..] == a[1..] + b;
      KeepAllAppend(a[1..], b, bounds);
      calc {
        KeepAll(a + b, bounds);
        head + KeepAll(a[1..] + b, bounds);
        head + (KeepAll(a[1..], bounds) + KeepAll(b, bounds));
        (head + KeepAll(a[1..], bounds)) + KeepAll(b, bounds);
      }
    }
  }

  lemma {:induction false} KeepAllNothing(records: seq<Record>)
    ensures KeepAll(records, []) == records
  {
    if records != [] {
      KeepAllNothing(records[1..]);
      assert [records[0]] + records[1..] == records;
    }
  }

  /** Applying one more mask to a filtered array is filtering by one more bound. */
  lemma {:induction false} KeepNarrows(records: seq<Record>, bounds: seq<Bound>, b: Bound)
    ensures Keep(KeepAll(records, bounds), b) == KeepAll(records, bounds + [b])
  {
    if records != [] {
      var x := records[0];
      assert HoldsAll(x, bounds + [b]) <==> HoldsAll(x, bounds) && Holds(x, b) by {
        if HoldsAll(x, bounds) && Holds(x, b) {
          forall i | 0 <= i < |bounds + [b]| ensures Holds(x, (bounds + [b])[i]) {
            if i < |bounds| { assert (bounds + [b])[i] == bounds[i]; }
          }
        }
        if HoldsAll(x, bounds + [b]) {
          forall i | 0 <= i < |bounds| ensures Holds(x, bounds[i]) {
            assert (bounds + [b])[i] == bounds[i];
          }
          assert (bounds + [b])[|bounds|] == b;
        }
      }
      KeepNarrows(records[1..], bounds, b);
      var head := if HoldsAll(x, bounds) then [x] else [];
      assert KeepAll(records, bounds) == head + KeepAll(records[1..], bounds);
      KeepAppend(head, KeepAll(records[1..], bounds), b);
    }
  }

  lemma {:induction false} KeepAppend(a: seq<Record>, c: seq<Record>, b: Bound)
    ensures Keep(a + c, b) == Keep(a, b) + Keep(c, b)
  {
    if a == [] {
      assert a + c == c;
    } else {
      assert (a + c)[1..] == a[1..] + c;
      KeepAppend(a[1..], c, b);
    }
  }

  /** The six bounds of the binary filter: time window shifted by the epoch, then the normalised extent. */
  function BinaryBounds(cd: CoveredData, epoch: real): seq<Bound> {
    var e := CoveredDataExtent(cd.extent);
    [ Bound(DATA_TYPE_TIME_KEY, AtLeast, cd.dateStart - epoch),
      Bound(DATA_TYPE_TIME_KEY, AtMost, cd.dateEnd - epoch),
      Bound(DATA_TYPE_LAT_KEY, AtLeast, e.south),
      Bound(DATA_TYPE_LAT_KEY, AtMost, e.north),
      Bound(DATA_TYPE_LON_KEY, AtLeast, e.west),
      Bound(DATA_TYPE_LON_KEY, AtMost, e.east) ]
  }

  /** A record inside the covered data's time window and normalised extent, all bounds inclusive. */
  predicate InBinaryWindow(rec: Record, cd: CoveredData, epoch: real) {
    var e := CoveredDataExtent(cd.extent);
    && DATA_TYPE_TIME_KEY in rec.fields && DATA_TYPE_LAT_KEY in rec.fields && DATA_TYPE_LON_KEY in rec.fields
    && cd.dateStart - epoch <= AsReal(rec.fields[DATA_TYPE_TIME_KEY]) <= cd.dateEnd - epoch
    && e.south <= AsReal(rec.fields[DATA_TYPE_LAT_KEY]) <= e.north
    && e.west <= AsReal(rec.fields[DATA_TYPE_LON_KEY]) <= e.east
  }

  /** The binary filter keeps exactly the records in the window, in their original order. */
  lemma BinaryFilterIsWindow(records: seq<Record>, cd: CoveredData, epoch: real)
    ensures forall x :: x in KeepAll(records, BinaryBounds(cd, epoch)) <==> x in records && InBinaryWindow(x, cd, epoch)
  {
    var bs := BinaryBounds(cd, epoch);
    KeepAllMembership(records, bs);
    forall x | x in records ensures HoldsAll(x, bs) <==> InBinaryWindow(x, cd, epoch) {
      if InBinaryWindow(x, cd, epoch) {
        forall i | 0 <= i < 6 ensures Holds(x, bs[i]) { }
      }
      if HoldsAll(x, bs) {
        assert Holds(x, bs[0]) && Holds(x, bs[1]) && Holds(x, bs[2]);
        assert Holds(x, bs[3]) && Holds(x, bs[4]) && Holds(x, bs[5]);
      }
    }
  }

  /** `kwargs.get(epoch_stamp) or 0` */
  function EpochStamp(epochStamp: Option<real>): real {
    epochStamp.GetOr(0.0)
  }

  predicate HasRecordFields(fieldNames: seq<string>) {
    DATA_TYPE_TIME_KEY in fieldNames && DATA_TYPE_LAT_KEY in fieldNames && DATA_TYPE_LON_KEY in fieldNames
  }

  // ---------------------------------------------------------------------
  // Remote-subsettable datasets
  // ---------------------------------------------------------------------

  /** A dataset variable; a sequence variable lists its nested field names. */
  datatype Variable = Variable(name: string, fields: seq<string>)

  /** A remote dataset: its variables in order and the coordinate values of each dimension. */
  datatype RemoteDataset = RemoteDataset(variables: seq<Variable>, axes: map<string, seq<real>>)

  datatype OpenDapVariant = Grid | Sequence

  /** The sliced dataset and the data variables (all variables but the three dimensions). */
  datatype SlicedDataset = SlicedDataset(dataset: RemoteDataset, dataVariables: set<string>)

  datatype ProcessorError =
    | DownloadFailed(reason: string)
    | MissingKwarg(key: string)
    | DecodeFailed(reason: string)
    | MissingField(field: string)
    | MissingDimensions
    | MissingAxis(dimension: string)
    | NoVariables

  function SetOf(names: seq<string>): set<string> {
    set n | n in names
  }

  function VariableNames(vs: seq<Variable>): (r: seq<string>)
    ensures |r| == |vs| && forall i :: 0 <= i < |vs| ==> r[i] == vs[i].name
  {
    if vs == [] then [] else [vs[0].name] + VariableNames(vs[1..])
  }

  /** `_all_variables`: every variable of a grid; the nested fields of a sequence's first variable. */
  function AllVariables(variant: OpenDapVariant, ds: RemoteDataset): (r: Result<seq<string>, ProcessorError>)
    ensures variant.Grid? ==> r == Success(VariableNames(ds.variables))
    ensures variant.Sequence? ==> (r.Failure? <==> ds.variables == [])
    ensures variant.Sequence? && r.Success? ==> r.value == ds.variables[0].fields
  {
    match variant
    case Grid => Success(VariableNames(ds.variables))
    case Sequence => if ds.variables == [] then Failure(NoVariables) else Success(ds.variables[0].fields)
  }

  /** `_verify_dimensions`: raises unless all three default dimensions are variables. */
  function VerifyDimensions(variables: seq<string>): (r: Outcome<ProcessorError>)
    ensures r.Pass? <==> DEFAULT_DIMENSION_TIME in variables && DEFAULT_DIMENSION_LATITUDE in variables && DEFAULT_DIMENSION_LONGITUDE in variables
  {
    if DEFAULT_DIMENSIONS <= SetOf(variables) then Pass else Fail(MissingDimensions)
  }

  /**
   * `_slice_dataset`: checks the dimensions, computes the data variables and
   * slices the time, latitude and longitude axes by the covered data's window
   * and normalised extent. Other dimensions are untouched.
   */
  function SliceDataset(variant: OpenDapVariant, ds: RemoteDataset, cd: CoveredData): (r: Result<SlicedDataset, ProcessorError>)
    ensures r.Success? <==>
      && AllVariables(variant, ds).Success?
      && VerifyDimensions(AllVariables(variant, ds).value).Pass?
      && DEFAULT_DIMENSIONS <= ds.axes.Keys
    ensures r.Success? ==> forall v :: v in r.value.dataVariables <==> v in AllVariables(variant, ds).value && v !in DEFAULT_DIMENSIONS
    ensures r.Success? ==> r.value.dataset.axes.Keys == ds.axes.Keys && r.value.dataset.variables == ds.variables
    ensures r.Success? ==> forall d :: d in ds.axes && d !in DEFAULT_DIMENSIONS ==> r.value.dataset.axes[d] == ds.axes[d]
    ensures r.Success? ==>
      var e := CoveredDataExtent(cd.extent);
      && r.value.dataset.axes[DEFAULT_DIMENSION_TIME] == SliceAxis(ds.axes[DEFAULT_DIMENSION_TIME], cd.dateStart, cd.dateEnd)
      && r.value.dataset.axes[DEFAULT_DIMENSION_LATITUDE] == SliceAxis(ds.axes[DEFAULT_DIMENSION_LATITUDE], e.south, e.north)
      && r.value.dataset.axes[DEFAULT_DIMENSION_LONGITUDE] == SliceAxis(ds.axes[DEFAULT_DIMENSION_LONGITUDE], e.west, e.east)
  {
    match AllVariables(variant, ds)
    case Failure(err) => Failure(err)
    case Success(variables) =>
      if VerifyDimensions(variables).Fail? then Failure(MissingDimensions)
      else if DEFAULT_DIMENSION_TIME !in ds.axes then Failure(MissingAxis(DEFAULT_DIMENSION_TIME))
      else if DEFAULT_DIMENSION_LATITUDE !in ds.axes then Failure(MissingAxis(DEFAULT_DIMENSION_LATITUDE))
      else if DEFAULT_DIMENSION_LONGITUDE !in ds.axes then Failure(MissingAxis(DEFAULT_DIMENSION_LONGITUDE))
      else
        var e := CoveredDataExtent(cd.extent);
        var axes := ds.axes
          [DEFAULT_DIMENSION_TIME := SliceAxis(ds.axes[DEFAULT_DIMENSION_TIME], cd.dateStart, cd.dateEnd)]
          [DEFAULT_DIMENSION_LATITUDE := SliceAxis(ds.axes[DEFAULT_DIMENSION_LATITUDE], e.south, e.north)]
          [DEFAULT_DIMENSION_LONGITUDE := SliceAxis(ds.axes[DEFAULT_DIMENSION_LONGITUDE], e.west, e.east)];
        Success(SlicedDataset(RemoteDataset(ds.variables, axes), SetOf(variables) - DEFAULT_DIMENSIONS))
  }

  /** `_dataset_has_dimension_values`: every dimension has at least one value. */
  predicate HasDimensionValues(ds: RemoteDataset) {
    forall d :: d in ds.axes ==> |ds.axes[d]| > 0
  }

  // ---------------------------------------------------------------------
  // The processor object
  // ---------------------------------------------------------------------

  /** The processor variants; an OpenDAP processor carries the dataset it sliced on construction. */
  datatype Kind =
    | GenericFile
    | HierarchicalDataFormat
    | BinaryFile(dataType: Option<seq<string>>, epochStamp: Option<real>)
    | OpenDap(sliced: SlicedDataset)

  /** `_data_extension`: "nc" for OpenDAP processors, none otherwise. */
  function DataExtension(kind: Kind): string {
    if kind.OpenDap? then NETCDF_EXTENSION else ""
  }

  /** What the output path holds on the local disk. */
  datatype Artifact =
    | Downloaded(bytes: StorageBackends.Bytes)
    | RecordFile(records: seq<Record>)
    | NetCdf(dataset: RemoteDataset)

  /** What the network and numpy deliver: the streamed body and the records decoded from it. */
  datatype Remote = Remote(download: Result<StorageBackends.Bytes, string>, decoded: Result<seq<Record>, string>)

  /**
   * Whether `_fetch` raises for this variant and this remote answer, taking
   * the netCDF write of an OpenDAP dataset and the h5py opening of a
   * hierarchical file never to raise.
   */
  predicate FetchFails(kind: Kind, remote: Remote) {
    match kind
    case OpenDap(_) => false
    case BinaryFile(dataType, _) =>
      remote.download.Failure? || dataType.None? || remote.decoded.Failure? || !HasRecordFields(dataType.value)
    case _ => remote.download.Failure?
  }

  class Processor {
    const kind: Kind
    const coveredData: CoveredData
    const url: string
    const dataLabel: string
    const group: string
    var success: bool
    var outputPath: string
    var records: seq<Record>
    var output: Option<Artifact>

    /** `BaseProcessor.__init__`: binds the processor and computes its output path. */
    constructor (kind: Kind, coveredData: CoveredData, url: string, stagingRoot: string, dataLabel: string, group: string)
      ensures this.kind == kind && this.coveredData == coveredData && this.url == url
      ensures this.dataLabel == EffectiveLabel(dataLabel) && this.group == group
      ensures success
      ensures outputPath == OutputPath(Join(stagingRoot, coveredData.name), group, EffectiveLabel(dataLabel), DataExtension(kind))
      ensures records == [] && output == None
    {
      this.kind := kind;
      this.coveredData := coveredData;
      this.url := url;
      this.dataLabel := EffectiveLabel(dataLabel);
      this.group := group;
      success := true;
      outputPath := OutputPath(Join(stagingRoot, coveredData.name), group, EffectiveLabel(dataLabel), DataExtension(kind));
      records := [];
      output := None;
    }

    /** `fetch`: runs `_fetch`; an exception marks the processor unsuccessful and is raised again. */
    method Fetch(remote: Remote) returns (r: Outcome<ProcessorError>)
      modifies this
      ensures r.Fail? <==> FetchFails(kind, remote)
      ensures success == (old(success) && r.Pass?)
      ensures outputPath == old(outputPath)
      ensures r.Pass? && kind.BinaryFile? ==>
        && records == KeepAll(remote.decoded.value, BinaryBounds(coveredData, EpochStamp(kind.epochStamp)))
        && output == (if records == [] then None else Some(RecordFile(records)))
      ensures r.Pass? && (kind.GenericFile? || kind.HierarchicalDataFormat?) ==> output == Some(Downloaded(remote.download.value))
      ensures r.Fail? && !kind.OpenDap? ==>
        output == (if remote.download.Failure? then old(output) else Some(Downloaded(remote.download.value)))
      ensures kind.OpenDap? ==>
        output == (if HasDimensionValues(kind.sliced.dataset) then Some(NetCdf(kind.sliced.dataset)) else old(output))
    {
      r := FetchData(remote);
      if r.Fail? {
        success := false;
      }
    }

    /** `_fetch` of each variant. */
    method FetchData(remote: Remote) returns (r: Outcome<ProcessorError>)
      modifies this
      ensures r.Fail? <==> FetchFails(kind, remote)
      ensures success == old(success) && outputPath == old(outputPath)
      ensures r.Pass? && kind.BinaryFile? ==>
        && records == KeepAll(remote.decoded.value, BinaryBounds(coveredData, EpochStamp(kind.epochStamp)))
        && output == (if records == [] then None else Some(RecordFile(records)))
      ensures r.Pass? && (kind.GenericFile? || kind.HierarchicalDataFormat?) ==> output == Some(Downloaded(remote.download.value))
      ensures r.Fail? && !kind.OpenDap? ==>
        output == (if remote.download.Failure? then old(output) else Some(Downloaded(remote.download.value)))
      ensures kind.OpenDap? ==>
        output == (if HasDimensionValues(kind.sliced.dataset) then Some(NetCdf(kind.sliced.dataset)) else old(output))
    {
      if kind.OpenDap? {
        // skip a dataset with an empty dimension; otherwise write it as netCDF
        if HasDimensionValues(kind.sliced.dataset) {
          output := Some(NetCdf(kind.sliced.dataset));
        }
        return Pass;
      }
      r := FetchFile(remote);
      if r.Pass? && kind.BinaryFile? && records == [] {
        // an empty filtered dataset: remove the file
        output := None;
      }
    }

    /** `GenericFileProcessor._fetch`: download to a temporary file, move it into place, post-process. */
    method FetchFile(remote: Remote) returns (r: Outcome<ProcessorError>)
      requires !kind.OpenDap?
      modifies this
      ensures r.Fail? <==> FetchFails(kind, remote)
      ensures success == old(success) && outputPath == old(outputPath)
      ensures r.Pass? && kind.BinaryFile? ==>
        && records == KeepAll(remote.decoded.value, BinaryBounds(coveredData, EpochStamp(kind.epochStamp)))
        && output == Some(RecordFile(records))
      ensures r.Pass? && !kind.BinaryFile? ==> output == Some(Downloaded(remote.download.value))
      ensures r.Fail? ==> output == (if remote.download.Failure? then old(output) else Some(Downloaded(remote.download.value)))
    {
      if remote.download.Failure? {
        return Fail(DownloadFailed(remote.download.error));
      }
      output := Some(Downloaded(remote.download.value));
      if kind.BinaryFile? {
        r := PostProcessBinary(remote.decoded);
      } else {
        // the plain hook does nothing; the hierarchical one opens the file
        // with h5py, taken here never to raise
        r := Pass;
      }
    }

    /**
     * `BinaryFileProcessor._post_process`: decode the records, keep those
     * within the time window (shifted by the epoch stamp) and the normalised
     * extent, and write them back.
     */
    method PostProcessBinary(decoded: Result<seq<Record>, string>) returns (r: Outcome<ProcessorError>)
      requires kind.BinaryFile?
      requires output.Some?
      modifies this
      ensures r.Fail? <==> kind.dataType.None? || decoded.Failure? || !HasRecordFields(kind.dataType.value)
      ensures success == old(success) && outputPath == old(outputPath)
      ensures r.Pass? ==>
        && records == KeepAll(decoded.value, BinaryBounds(coveredData, EpochStamp(kind.epochStamp)))
        && output == Some(RecordFile(records))
      ensures r.Fail? ==> output == old(output)
    {
      if kind.dataType.None? {
        return Fail(MissingKwarg(DATA_TYPE_KWARG_KEY));
      }
      if decoded.Failure? {
        return Fail(DecodeFailed(decoded.error));
      }
      records := decoded.value;
      if !HasRecordFields(kind.dataType.value) {
        return Fail(MissingField(
          if DATA_TYPE_TIME_KEY !in kind.dataType.value then DATA_TYPE_TIME_KEY
          else if DATA_TYPE_LAT_KEY !in kind.dataType.value then DATA_TYPE_LAT_KEY
          else DATA_TYPE_LON_KEY));
      }
      var epochStamp := EpochStamp(kind.epochStamp);
      var cmpStartStamp := coveredData.dateStart - epochStamp;
      var cmpEndStamp := coveredData.dateEnd - epochStamp;
      records := Keep(records, Bound(DATA_TYPE_TIME_KEY, AtLeast, cmpStartStamp));
      records := Keep(records, Bound(DATA_TYPE_TIME_KEY, AtMost, cmpEndStamp));
      var stormExtent := CoveredDataExtent(coveredData.extent);
      records := Keep(records, Bound(DATA_TYPE_LAT_KEY, AtLeast, stormExtent.south));
      records := Keep(records, Bound(DATA_TYPE_LAT_KEY, AtMost, stormExtent.north));
      records := Keep(records, Bound(DATA_TYPE_LON_KEY, AtLeast, stormExtent.west));
      records := Keep(records, Bound(DATA_TYPE_LON_KEY, AtMost, stormExtent.east));
      SixMasks(decoded.value, BinaryBounds(coveredData, epochStamp));
      output := Some(RecordFile(records));
      return Pass;
    }
  }

  /** Six successive masks select what one conjunction of the six bounds selects. */
  lemma SixMasks(records: seq<Record>, bs: seq<Bound>)
    requires |bs| == 6
    ensures Keep(Keep(Keep(Keep(Keep(Keep(records, bs[0]), bs[1]), bs[2]), bs[3]), bs[4]), bs[5]) == KeepAll(records, bs)
  {
    KeepAllNothing(records);
    assert bs[..0] == [];
    assert KeepAll(records, bs[..0]) == records;
    var r1 := Keep(records, bs[0]);
    KeepPrefixStep(records, bs, 0);
    assert r1 == KeepAll(records, bs[..1]);
    var r2 := Keep(r1, bs[1]);
    KeepPrefixStep(records, bs, 1);
    assert r2 == KeepAll(records, bs[..2]);
    var r3 := Keep(r2, bs[2]);
    KeepPrefixStep(records, bs, 2);
    assert r3 == KeepAll(records, bs[..3]);
    var r4 := Keep(r3, bs[3]);
    KeepPrefixStep(records, bs, 3);
    assert r4 == KeepAll(records, bs[..4]);
    var r5 := Keep(r4, bs[4]);
    KeepPrefixStep(records, bs, 4);
    assert r5 == KeepAll(records, bs[..5]);
    KeepPrefixStep(records, bs, 5);
    assert Keep(r5, bs[5]) == KeepAll(records, bs[..6]);
    assert bs[..6] == bs;
  }

  /** One more mask extends the conjunction by the next bound. */
  lemma KeepPrefixStep(records: seq<Record>, bs: seq<Bound>, k: nat)
    requires k < |bs|
    ensures Keep(KeepAll(records, bs[..k]), bs[k]) == KeepAll(records, bs[..k + 1])
  {
    KeepNarrows(records, bs[..k], bs[k]);
    assert bs[..k] + [bs[k]] == bs[..k + 1];
  }

  /**
   * `OpenDapProcessor.__init__`: binds the processor and slices the remote
   * dataset; a missing dimension raises and no processor is made.
   */
  method NewOpenDapProcessor(variant: OpenDapVariant, remote: RemoteDataset, coveredData: CoveredData,
                             url: string, stagingRoot: string, dataLabel: string, group: string)
    returns (r: Result<Processor, ProcessorError>)
    ensures r.Success? <==> SliceDataset(variant, remote, coveredData).Success?
    ensures r.Success? ==>
      && fresh(r.value)
      && r.value.kind == OpenDap(SliceDataset(variant, remote, coveredData).value)
      && r.value.success
      && r.value.outputPath == OutputPath(Join(stagingRoot, coveredData.name), group, EffectiveLabel(dataLabel), NETCDF_EXTENSION)
  {
    var sliced := SliceDataset(variant, remote, coveredData);
    if sliced.Failure? {
      return Failure(sliced.error);
    }
    var p := new Processor(OpenDap(sliced.value), coveredData, url, stagingRoot, dataLabel, group);
    return Success(p);
  }
}
