/**
 * Record shapes of the storm database: the covered data a storm needs, the
 * log of each fetch attempt, the deployment's directory settings, and the
 * model run (NSEM) whose fields the tasks update in place.
 */
module Models {
  import opened Wrappers
  import opened Paths
  import opened Text

  /** Geographic bounding box `(xmin, ymin, xmax, ymax)` as GEOS reports `extent`. */
  datatype Extent = Extent(west: real, south: real, east: real, north: real)

  /** A storm's covered-data requirement: its name, time window (POSIX timestamps) and region. */
  datatype CoveredData = CoveredData(name: string, dateStart: real, dateEnd: real, extent: Extent)

  /** One fetch attempt for a covered-data requirement; `snapshot` is "" until archived. */
  datatype FetchLog = FetchLog(coveredDataName: string, date: int, success: bool, snapshot: string)

  /** The directory names and archive extension a deployment configures. */
  datatype Settings = Settings(
    nsemDir: string,
    uploadDir: string,
    psaDir: string,
    coveredDataDir: string,
    coveredArchiveDir: string,
    archiveExtension: string)

  /** The five directory names are single path segments and the extension has no slash. */
  predicate WellFormedSettings(s: Settings) {
    && Segment(s.nsemDir) && Segment(s.uploadDir) && Segment(s.psaDir)
    && Segment(s.coveredDataDir) && Segment(s.coveredArchiveDir)
    && NoSlash(s.archiveExtension)
  }

  /** The version directory or file stem of a model run: `'v{}'.format(nsem.id)`. */
  function VersionName(id: nat): (r: string)
    ensures Segment(r) && r[0] == 'v'
  {
    var digits := NatToString(id);
    assert forall i :: 0 <= i < |digits| ==> IsDigit(digits[i]);
    "v" + digits
  }

  /** A model run of a named storm (NSEM). */
  class Nsem {
    const id: nat
    const stormName: string
    var modelOutputSnapshot: string
    var extracted: bool
    var coveredDataSnapshot: string
    var dateReturned: Option<int>

    constructor (id: nat, stormName: string, modelOutputSnapshot: string)
      ensures this.id == id && this.stormName == stormName
      ensures this.modelOutputSnapshot == modelOutputSnapshot
      ensures !extracted && coveredDataSnapshot == "" && dateReturned == None
    {
      this.id := id;
      this.stormName := stormName;
      this.modelOutputSnapshot := modelOutputSnapshot;
      extracted := false;
      coveredDataSnapshot := "";
      dateReturned := None;
    }
  }
}
