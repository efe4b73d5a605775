/**
 * The orchestrator's tasks: archiving one covered-data fetch into durable
 * storage, combining the most recent archives of a storm into a model run's
 * versioned collection, and extracting an uploaded model output. Each task
 * reads and writes the default storage and updates the records it was given.
 */
module Tasks {
  import opened Wrappers
  import opened Paths
  import opened Text
  import opened Models
  import opened StorageBackends

  // ---------------------------------------------------------------------
  // Canonical storage paths
  // ---------------------------------------------------------------------

  /** `os.path.join(NSEM_DIR, storm, 'v<id>')`: the storage directory of one model run. */
  function NsemVersionPath(settings: Settings, storm: string, id: nat): (r: string)
    ensures Segment(settings.nsemDir) && Segment(storm) ==>
      r == settings.nsemDir + "/" + storm + "/" + VersionName(id) && OpenDir(r)
  {
    if Segment(settings.nsemDir) && Segment(storm) then
      JoinSegment(settings.nsemDir, storm);
      JoinSegment(Join(settings.nsemDir, storm), VersionName(id));
      Join(Join(settings.nsemDir, storm), VersionName(id))
    else
      Join(Join(settings.nsemDir, storm), VersionName(id))
  }

  /** The run's combined covered-data directory `NSEM_DIR/<storm>/v<id>/<COVERED_DATA_DIR>`. */
  function CoveredDataStoragePath(settings: Settings, storm: string, id: nat): (r: string)
    ensures WellFormedSettings(settings) && Segment(storm) ==>
      r == settings.nsemDir + "/" + storm + "/" + VersionName(id) + "/" + settings.coveredDataDir
  {
    if WellFormedSettings(settings) && Segment(storm) then
      JoinSegment(NsemVersionPath(settings, storm, id), settings.coveredDataDir);
      Join(NsemVersionPath(settings, storm, id), settings.coveredDataDir)
    else
      Join(NsemVersionPath(settings, storm, id), settings.coveredDataDir)
  }

  /** Where an extracted model output is kept: `NSEM_DIR/<storm>/v<id>/<PSA_DIR>/<basename>`. */
  function PsaStoragePath(settings: Settings, storm: string, id: nat, snapshot: string): (r: string)
    ensures Basename(r) == Basename(snapshot)
    ensures WellFormedSettings(settings) && Segment(storm) ==>
      r == settings.nsemDir + "/" + storm + "/" + VersionName(id) + "/" + settings.psaDir + "/" + Basename(snapshot)
  {
    var dir := Join(NsemVersionPath(settings, storm, id), settings.psaDir);
    BasenameOfJoin(dir, Basename(snapshot));
    if WellFormedSettings(settings) && Segment(storm) then
      JoinSegment(NsemVersionPath(settings, storm, id), settings.psaDir);
      assert !StartsWith(Basename(snapshot), "/") by {
        if |Basename(snapshot)| > 0 { assert Basename(snapshot)[..1][0] == Basename(snapshot)[0]; }
      }
      Join(dir, Basename(snapshot))
    else
      Join(dir, Basename(snapshot))
  }

  /** `'{}.{}'.format(join(dirname(archive_path), basename(archive_path)), ext)` */
  function TarPath(archivePath: string, extension: string): (r: string)
    ensures NoSlash(extension) ==> Basename(r) == Basename(archivePath) + "." + extension
  {
    var rejoined := Join(Dirname(archivePath), Basename(archivePath));
    if NoSlash(extension) then
      BasenameOfJoin(Dirname(archivePath), Basename(archivePath));
      TarBasename(rejoined, Basename(archivePath), extension);
      rejoined + "." + extension
    else
      rejoined + "." + extension
  }

  lemma TarBasename(rejoined: string, name: string, extension: string)
    requires Basename(rejoined) == name && NoSlash(extension)
    ensures Basename(rejoined + "." + extension) == name + "." + extension
  {
    DotSuffix(extension);
    BasenameAppend(rejoined, "." + extension);
    DotAssociates(rejoined, extension);
    DotAssociates(name, extension);
  }

  /** No two separators in a row. */
  predicate SingleSlashes(p: string) {
    forall i :: 0 <= i < |p| - 1 ==> !(p[i] == '/' && p[i + 1] == '/')
  }

  /**
   * Joining a path's dirname and basename gives the path back whenever it has
   * no doubled separator; a trailing slash survives it.
   */
  lemma RejoinIdentity(p: string)
    requires SingleSlashes(p)
    ensures Join(Dirname(p), Basename(p)) == p
  {
    var b := Basename(p);
    var h := p[..|p| - |b|];
    assert p == h + b;
    assert !StartsWith(b, "/") by {
      if |b| > 0 { assert b[..1][0] == b[0]; }
    }
    if |h| >= 2 {
      assert h[|h| - 1] == '/' by { assert p[|p| - |b| - 1] == h[|h| - 1]; }
      assert h[|h| - 2] != '/' by { assert p[|h| - 2] == h[|h| - 2] && p[|h| - 1] == h[|h| - 1]; }
      RejoinNestedHead(p, h, b);
    } else {
      assert Dirname(p) == h;
      assert h == "" || h == "/";
    }
  }

  /** A head of two or more characters loses exactly its final slash. */
  lemma RejoinNestedHead(p: string, h: string, b: string)
    requires b == Basename(p) && p == h + b && |h| >= 2
    requires h[|h| - 1] == '/' && h[|h| - 2] != '/'
    requires !StartsWith(b, "/")
    ensures Join(Dirname(p), b) == p
  {
    assert p[..|p| - |b|] == h;
    StripOneSlash(h);
    assert Dirname(p) == h[..|h| - 1];
    assert h[..|h| - 1] + "/" + b == p;
  }

  /** A head ending in one slash after a non-slash strips to what precedes that slash. */
  lemma StripOneSlash(h: string)
    requires |h| >= 2 && h[|h| - 1] == '/' && h[|h| - 2] != '/'
    ensures !AllSlashes(h) && h != ""
    ensures RStripSlashes(h) == h[..|h| - 1]
    ensures OpenDir(h[..|h| - 1])
  {
    var h' := h[..|h| - 1];
    assert h'[|h'| - 1] == h[|h| - 2];
    assert RStripSlashes(h') == h';
  }

  /** The tar of an archive directory sits beside it: `archive_path + "." + ext`. */
  lemma TarPathBeside(archivePath: string, extension: string)
    requires SingleSlashes(archivePath)
    ensures TarPath(archivePath, extension) == archivePath + "." + extension
  {
    RejoinIdentity(archivePath);
  }

  /**
   * The rejoin does not remove a trailing slash: the tar of "a/" is "a/.tgz",
   * inside the directory it archives, and its basename is ".tgz".
   */
  lemma TarPathTrailingSlash(p: string)
    requires p == "a/"
    ensures TarPath(p, "tgz") == "a/.tgz"
    ensures Basename(TarPath(p, "tgz")) == ".tgz"
  {
    assert Basename(p) == "";
    assert p[..|p| - 1] == "a";
    assert RStripSlashes("a") == "a";
    assert Dirname(p) == "a";
    assert Join("a", "") == "a/";
    assert "a/" + "." + "tgz" == "a/.tgz";
  }

  /** `os.path.join(COVERED_ARCHIVE_DIR, storm, basename(tar_path))` */
  function ArchiveStoragePath(settings: Settings, storm: string, tarPath: string): (r: string)
    ensures Basename(r) == Basename(tarPath)
    ensures WellFormedSettings(settings) && Segment(storm) && Segment(Basename(tarPath)) ==>
      r == settings.coveredArchiveDir + "/" + storm + "/" + Basename(tarPath)
  {
    var dir := Join(settings.coveredArchiveDir, storm);
    BasenameOfJoin(dir, Basename(tarPath));
    if WellFormedSettings(settings) && Segment(storm) && Segment(Basename(tarPath)) then
      JoinSegment(settings.coveredArchiveDir, storm);
      JoinSegment(dir, Basename(tarPath));
      Join(dir, Basename(tarPath))
    else
      Join(dir, Basename(tarPath))
  }

  /** The archive of `.../<name>` is stored as `COVERED_ARCHIVE_DIR/<storm>/<name>.<ext>`. */
  lemma ArchiveStoragePathShape(settings: Settings, storm: string, archivePath: string)
    requires WellFormedSettings(settings) && Segment(storm)
    ensures ArchiveStoragePath(settings, storm, TarPath(archivePath, settings.archiveExtension))
      == settings.coveredArchiveDir + "/" + storm + "/" + Basename(archivePath) + "." + settings.archiveExtension
  {
    var tarPath := TarPath(archivePath, settings.archiveExtension);
    assert Basename(tarPath) == Basename(archivePath) + "." + settings.archiveExtension;
    DottedName(Basename(archivePath), settings.archiveExtension);
    var dir := settings.coveredArchiveDir + "/" + storm + "/";
    assert ArchiveStoragePath(settings, storm, tarPath) == dir + Basename(tarPath);
    Regroup(dir, Basename(archivePath), settings.archiveExtension);
  }

  lemma Regroup(dir: string, stem: string, extension: string)
    ensures dir + (stem + "." + extension) == dir + stem + "." + extension
  {
  }


  // ---------------------------------------------------------------------
  // Archive stage
  // ---------------------------------------------------------------------

  /**
   * `archive_named_storm_covered_data`: the tar of the staging directory
   * (its bytes given as `tarContent`) is stored at its canonical path and the
   * log's snapshot is set to that path.
   */
  method ArchiveNamedStormCoveredData(storage: Storage, settings: Settings, stormName: string,
                                      archivePath: string, tarContent: Bytes, log: FetchLog)
    returns (updated: FetchLog)
    modifies storage
    ensures var path := ArchiveStoragePath(settings, stormName, TarPath(archivePath, settings.archiveExtension));
      && storage.files == old(storage.files)[path := tarContent]
      && updated == log.(snapshot := path)
  {
    var tarPath := TarPath(archivePath, settings.archiveExtension);
    var storagePath := ArchiveStoragePath(settings, stormName, tarPath);
    storage.Save(storagePath, tarContent);
    updated := log.(snapshot := storagePath);
  }

  // ---------------------------------------------------------------------
  // Combine stage: log selection
  // ---------------------------------------------------------------------

  /** A log the combine stage considers: successful and already archived. */
  predicate Archived(log: FetchLog) {
    log.success && log.snapshot != ""
  }

  /** `filter(success=True).exclude(snapshot='')`, keeping the query's order. */
  function Successful(logs: seq<FetchLog>): (r: seq<FetchLog>)
    ensures forall x :: x in r <==> x in logs && Archived(x)
  {
    if logs == [] then []
    else (if Archived(logs[0]) then [logs[0]] else []) + Successful(logs[1..])
  }

  /** `order_by('-date')` */
  predicate DateDescending(logs: seq<FetchLog>) {
    forall i, j :: 0 <= i < j < |logs| ==> logs[i].date >= logs[j].date
  }

  /** Filtering keeps a date-descending list date-descending. */
  lemma {:induction false} SuccessfulKeepsOrder(logs: seq<FetchLog>)
    requires DateDescending(logs)
    ensures DateDescending(Successful(logs))
  {
    if logs != [] {
      SuccessfulKeepsOrder(logs[1..]);
      var rest := Successful(logs[1..]);
      forall x | x in rest ensures x.date <= logs[0].date {
        assert x in logs[1..];
      }
    }
  }

  /** `[l.covered_data.name for l in logs]` */
  function Names(logs: seq<FetchLog>): (r: seq<string>)
    ensures |r| == |logs| && forall i :: 0 <= i < |logs| ==> r[i] == logs[i].coveredDataName
  {
    if logs == [] then [] else Names(logs[..|logs| - 1]) + [logs[|logs| - 1].coveredDataName]
  }

  /** What the selection loop holds after visiting `logs`: each log whose name it has not yet kept. */
  function FirstPerName(logs: seq<FetchLog>): (r: seq<FetchLog>)
    ensures forall x :: x in r ==> x in logs
  {
    if logs == [] then []
    else
      var kept := FirstPerName(logs[..|logs| - 1]);
      var last := logs[|logs| - 1];
      if last.coveredDataName in Names(kept) then kept else kept + [last]
  }

  /** `logs_to_archive`: the loop keeping the first log of each covered-data name. */
  method SelectLogsToArchive(logs: seq<FetchLog>) returns (selected: seq<FetchLog>)
    ensures selected == FirstPerName(logs)
  {
    selected := [];
    for i := 0 to |logs|
      invariant selected == FirstPerName(logs[..i])
    {
      assert logs[..i + 1][..i] == logs[..i];
      if logs[i].coveredDataName !in Names(selected) {
        selected := selected + [logs[i]];
      }
    }
    assert logs[..|logs|] == logs;
  }

  /** The log at `j` is the first of its covered-data name. */
  predicate FirstOfName(logs: seq<FetchLog>, j: int) {
    0 <= j < |logs| && forall k :: 0 <= k < j ==> logs[k].coveredDataName != logs[j].coveredDataName
  }

  /** Every covered-data name among the logs is kept. */
  lemma {:induction false} SelectionCoversNames(logs: seq<FetchLog>)
    ensures forall k :: 0 <= k < |logs| ==> logs[k].coveredDataName in Names(FirstPerName(logs))
  {
    if logs != [] {
      var init := logs[..|logs| - 1];
      SelectionCoversNames(init);
      var kept := FirstPerName(init);
      forall k | 0 <= k < |logs| ensures logs[k].coveredDataName in Names(FirstPerName(logs)) {
        var r := FirstPerName(logs);
        if k < |init| {
          assert logs[k] == init[k];
          var m :| 0 <= m < |kept| && Names(kept)[m] == init[k].coveredDataName;
          assert r[m] == kept[m];
          assert Names(r)[m] == logs[k].coveredDataName;
        } else if logs[k].coveredDataName !in Names(kept) {
          assert Names(r)[|kept|] == logs[k].coveredDataName;
        }
      }
    }
  }

  /** A log is kept exactly when it is the first log of its covered-data name. */
  lemma {:induction false} SelectionIsFirstOfName(logs: seq<FetchLog>)
    ensures forall x :: x in FirstPerName(logs) <==> exists j :: FirstOfName(logs, j) && logs[j] == x
  {
    if logs != [] {
      var init := logs[..|logs| - 1];
      var last := logs[|logs| - 1];
      var kept := FirstPerName(init);
      var r := FirstPerName(logs);
      SelectionIsFirstOfName(init);
      SelectionCoversNames(init);
      forall x | x in r ensures exists j :: FirstOfName(logs, j) && logs[j] == x {
        if x in kept {
          var j :| FirstOfName(init, j) && init[j] == x;
          assert logs[j] == x;
          assert FirstOfName(logs, j) by {
            forall k | 0 <= k < j ensures logs[k].coveredDataName != logs[j].coveredDataName {
              assert logs[k] == init[k];
            }
          }
        } else {
          assert x == last && last.coveredDataName !in Names(kept);
          assert FirstOfName(logs, |init|) by {
            forall k | 0 <= k < |init| ensures logs[k].coveredDataName != last.coveredDataName {
              assert logs[k] == init[k];
            }
          }
        }
      }
      forall x | exists j :: FirstOfName(logs, j) && logs[j] == x ensures x in r {
        var j :| FirstOfName(logs, j) && logs[j] == x;
        if j < |init| {
          assert init[j] == x;
          assert FirstOfName(init, j) by {
            forall k | 0 <= k < j ensures init[k].coveredDataName != init[j].coveredDataName {
              assert logs[k] == init[k];
            }
          }
        } else {
          assert x == last;
          forall m | 0 <= m < |kept| ensures Names(kept)[m] != last.coveredDataName {
            assert kept[m] in kept;
            var j' :| FirstOfName(init, j') && init[j'] == kept[m];
            assert logs[j'] == init[j'];
          }
          assert last.coveredDataName !in Names(kept);
        }
      }
    }
  }

  /** No covered-data name is kept twice. */
  lemma {:induction false} SelectionDistinctNames(logs: seq<FetchLog>)
    ensures forall i, j :: 0 <= i < j < |FirstPerName(logs)| ==>
      FirstPerName(logs)[i].coveredDataName != FirstPerName(logs)[j].coveredDataName
  {
    if logs != [] {
      var init := logs[..|logs| - 1];
      SelectionDistinctNames(init);
      var kept := FirstPerName(init);
      var r := FirstPerName(logs);
      if r != kept {
        var last := logs[|logs| - 1];
        assert r == kept + [last] && last.coveredDataName !in Names(kept);
        forall i, j | 0 <= i < j < |r| ensures r[i].coveredDataName != r[j].coveredDataName {
          if j == |kept| {
            assert r[i] == kept[i] && Names(kept)[i] == kept[i].coveredDataName;
          } else {
            assert r[i] == kept[i] && r[j] == kept[j];
          }
        }
      }
    }
  }

  /** On a date-descending list the kept log of each name is its most recent one. */
  lemma SelectionMostRecent(logs: seq<FetchLog>)
    requires DateDescending(logs)
    ensures forall x, k :: (x in FirstPerName(logs) && 0 <= k < |logs| && logs[k].coveredDataName == x.coveredDataName) ==>
      logs[k].date <= x.date
  {
    SelectionIsFirstOfName(logs);
    forall x, k | x in FirstPerName(logs) && 0 <= k < |logs| && logs[k].coveredDataName == x.coveredDataName
      ensures logs[k].date <= x.date
    {
      var j :| FirstOfName(logs, j) && logs[j] == x;
      assert j <= k;
    }
  }

  // ---------------------------------------------------------------------
  // Combine stage: copying snapshots
  // ---------------------------------------------------------------------

  datatype Transfer = Transfer(source: string, destination: string)

  /** A log's snapshot goes to `dir/basename(snapshot)`. */
  function TransferOf(log: FetchLog, dir: string): Transfer {
    Transfer(log.snapshot, Join(dir, Basename(log.snapshot)))
  }

  /** The transfers of a list of logs, in order. */
  function Transfers(logs: seq<FetchLog>, dir: string): (r: seq<Transfer>)
    ensures |r| == |logs|
    ensures forall i :: 0 <= i < |logs| ==> r[i] == TransferOf(logs[i], dir)
  {
    if logs == [] then []
    else Transfers(logs[..|logs| - 1], dir) + [TransferOf(logs[|logs| - 1], dir)]
  }

  /** The storage after copying each transfer in turn, stopping at the first copy that raises. */
  function CopyAll(backend: Backend, files: map<string, Bytes>, ts: seq<Transfer>): (r: CopyRun)
    ensures backend.Mixin? ==> r.files == files && (r.ok <==> ts == [])
  {
    if ts == [] then CopyRun(files, true)
    else
      var prev := CopyAll(backend, files, ts[..|ts| - 1]);
      if !prev.ok then prev
      else Copy(backend, prev.files, ts[|ts| - 1].source, ts[|ts| - 1].destination)
  }

  /**
   * When every source is present, the destinations are distinct and no
   * source is a destination, every copy succeeds: each destination holds its
   * source's content and nothing else changes.
   */
  lemma {:induction false} CopyAllDistinct(backend: Backend, files: map<string, Bytes>, ts: seq<Transfer>)
    requires !backend.Mixin?
    requires forall i :: 0 <= i < |ts| ==> ts[i].source in files
    requires forall i, j :: 0 <= i < j < |ts| ==> ts[i].destination != ts[j].destination
    requires forall i, j :: 0 <= i < |ts| && 0 <= j < |ts| ==> ts[i].source != ts[j].destination
    ensures var r := CopyAll(backend, files, ts);
      && r.ok
      && (forall i :: 0 <= i < |ts| ==> ts[i].destination in r.files && r.files[ts[i].destination] == files[ts[i].source])
      && (forall p :: p in files && (forall i :: 0 <= i < |ts| ==> ts[i].destination != p) ==> p in r.files && r.files[p] == files[p])
  {
    if ts != [] {
      var init := ts[..|ts| - 1];
      var t := ts[|ts| - 1];
      CopyAllDistinct(backend, files, init);
      var prev := CopyAll(backend, files, init);
      assert t.source in prev.files && prev.files[t.source] == files[t.source] by {
        assert forall i :: 0 <= i < |init| ==> init[i].destination != t.source;
      }
      assert t.source != t.destination;
      var r := CopyAll(backend, files, ts);
      forall i | 0 <= i < |ts| ensures ts[i].destination in r.files && r.files[ts[i].destination] == files[ts[i].source] {
        if i < |init| {
          assert init[i] == ts[i];
        }
      }
    }
  }

  /** Copies every log's snapshot into `dir`, as `default_storage.copy_within_storage` one at a time. */
  method CopySnapshots(storage: Storage, logs: seq<FetchLog>, dir: string) returns (r: Outcome<StorageError>)
    modifies storage
    ensures var run := CopyAll(storage.backend, old(storage.files), Transfers(logs, dir));
      storage.files == run.files && (r.Pass? <==> run.ok)
  {
    ghost var ts := Transfers(logs, dir);
    for i := 0 to |logs|
      invariant storage.files == CopyAll(storage.backend, old(storage.files), ts[..i]).files
      invariant CopyAll(storage.backend, old(storage.files), ts[..i]).ok
    {
      var src := logs[i].snapshot;
      assert ts[i] == Transfer(src, Join(dir, Basename(src)));
      CopyAllStep(storage.backend, old(storage.files), ts, i);
      var copied := storage.CopyWithinStorage(src, Join(dir, Basename(src)));
      if copied.Fail? {
        CopyAllStops(storage.backend, old(storage.files), ts[..i + 1], ts);
        return copied;
      }
    }
    assert ts[..|logs|] == ts;
    return Pass;
  }

  lemma CopyAllStep(backend: Backend, files: map<string, Bytes>, ts: seq<Transfer>, i: nat)
    requires i < |ts| && CopyAll(backend, files, ts[..i]).ok
    ensures CopyAll(backend, files, ts[..i + 1])
      == Copy(backend, CopyAll(backend, files, ts[..i]).files, ts[i].source, ts[i].destination)
  {
    assert ts[..i + 1][..i] == ts[..i];
  }

  /** Once a copy raises, later transfers are not attempted. */
  lemma {:induction false} CopyAllStops(backend: Backend, files: map<string, Bytes>, ts: seq<Transfer>, all: seq<Transfer>)
    requires !CopyAll(backend, files, ts).ok
    requires |ts| <= |all| && all[..|ts|] == ts
    ensures CopyAll(backend, files, all) == CopyAll(backend, files, ts)
    decreases |all|
  {
    if |all| > |ts| {
      assert all[..|all| - 1][..|ts|] == ts;
      CopyAllStops(backend, files, ts, all[..|all| - 1]);
    } else {
      assert all == ts;
    }
  }

  /**
   * Copies the snapshots of `toCopy` into the run's covered-data directory
   * and, when every copy succeeded, records that directory on the run.
   */
  method CopyIntoRun(storage: Storage, settings: Settings, nsem: Nsem, toCopy: seq<FetchLog>)
    returns (r: Result<Option<string>, StorageError>)
    modifies storage, nsem
    ensures nsem.modelOutputSnapshot == old(nsem.modelOutputSnapshot) && nsem.extracted == old(nsem.extracted)
    ensures nsem.dateReturned == old(nsem.dateReturned)
    ensures var path := CoveredDataStoragePath(settings, nsem.stormName, nsem.id);
      var run := CopyAll(storage.backend, old(storage.files), Transfers(toCopy, path));
      && storage.files == run.files
      && (r.Success? <==> run.ok)
      && (r.Success? ==> r.value == Some(path) && nsem.coveredDataSnapshot == path)
      && (r.Failure? ==> nsem.coveredDataSnapshot == old(nsem.coveredDataSnapshot))
  {
    var storagePath := CoveredDataStoragePath(settings, nsem.stormName, nsem.id);
    var copied := CopySnapshots(storage, toCopy, storagePath);
    if copied.Fail? {
      return Failure(copied.error);
    }
    nsem.coveredDataSnapshot := storagePath;
    return Success(Some(storagePath));
  }

  /**
   * `archive_nsem_covered_data` as written: it selects the most recent log
   * of each covered-data name, then copies the snapshot of every archived
   * log into the run's directory and records that directory on the run.
   */
  method ArchiveNsemCoveredData(storage: Storage, settings: Settings, nsem: Nsem, stormLogs: seq<FetchLog>)
    returns (r: Result<Option<string>, StorageError>)
    modifies storage, nsem
    ensures nsem.modelOutputSnapshot == old(nsem.modelOutputSnapshot) && nsem.extracted == old(nsem.extracted)
    ensures nsem.dateReturned == old(nsem.dateReturned)
    ensures Successful(stormLogs) == [] ==>
      r == Success(None) && storage.files == old(storage.files) && nsem.coveredDataSnapshot == old(nsem.coveredDataSnapshot)
    ensures Successful(stormLogs) != [] ==>
      var path := CoveredDataStoragePath(settings, nsem.stormName, nsem.id);
      var run := CopyAll(storage.backend, old(storage.files), Transfers(Successful(stormLogs), path));
      && storage.files == run.files
      && (r.Success? <==> run.ok)
      && (r.Success? ==> r.value == Some(path) && nsem.coveredDataSnapshot == path)
      && (r.Failure? ==> nsem.coveredDataSnapshot == old(nsem.coveredDataSnapshot))
  {
    var logs := Successful(stormLogs);
    if logs == [] {
      return Success(None);
    }
    var logsToArchive := SelectLogsToArchive(logs);
    r := CopyIntoRun(storage, settings, nsem, logs);
  }

  /**
   * The combine stage as intended: only the selected logs, the most recent
   * of each covered-data name, are copied.
   */
  method ArchiveNsemCoveredDataFixed(storage: Storage, settings: Settings, nsem: Nsem, stormLogs: seq<FetchLog>)
    returns (r: Result<Option<string>, StorageError>)
    modifies storage, nsem
    ensures nsem.modelOutputSnapshot == old(nsem.modelOutputSnapshot) && nsem.extracted == old(nsem.extracted)
    ensures nsem.dateReturned == old(nsem.dateReturned)
    ensures Successful(stormLogs) == [] ==>
      r == Success(None) && storage.files == old(storage.files) && nsem.coveredDataSnapshot == old(nsem.coveredDataSnapshot)
    ensures Successful(stormLogs) != [] ==>
      var path := CoveredDataStoragePath(settings, nsem.stormName, nsem.id);
      var run := CopyAll(storage.backend, old(storage.files), Transfers(FirstPerName(Successful(stormLogs)), path));
      && storage.files == run.files
      && (r.Success? <==> run.ok)
      && (r.Success? ==> r.value == Some(path) && nsem.coveredDataSnapshot == path)
      && (r.Failure? ==> nsem.coveredDataSnapshot == old(nsem.coveredDataSnapshot))
  {
    var logs := Successful(stormLogs);
    if logs == [] {
      return Success(None);
    }
    var logsToArchive := SelectLogsToArchive(logs);
    r := CopyIntoRun(storage, settings, nsem, logsToArchive);
  }

  /**
   * What the intended combine stage leaves in storage: for every covered-data
   * name, the most recent archived log's snapshot under the run's directory
   * (when the snapshots are present, logs of different names have snapshots
   * of different basenames, and no snapshot lies in the run's directory
   * already).
   */
  lemma CombineFixedCopiesMostRecent(backend: Backend, files: map<string, Bytes>, stormLogs: seq<FetchLog>, dir: string)
    requires !backend.Mixin?
    requires DateDescending(stormLogs)
    requires forall x :: x in stormLogs && Archived(x) ==> x.snapshot in files
    requires forall x, y :: (x in stormLogs && y in stormLogs && Archived(x) && Archived(y)
      && x.coveredDataName != y.coveredDataName) ==> Basename(x.snapshot) != Basename(y.snapshot)
    requires forall x, y :: (x in stormLogs && y in stormLogs && Archived(x) && Archived(y)) ==>
      x.snapshot != Join(dir, Basename(y.snapshot))
    ensures var selected := FirstPerName(Successful(stormLogs));
      var run := CopyAll(backend, files, Transfers(selected, dir));
      && run.ok
      && (forall x :: x in selected ==>
            (Join(dir, Basename(x.snapshot)) in run.files && run.files[Join(dir, Basename(x.snapshot))] == files[x.snapshot]))
      && (forall x, k :: (x in selected && 0 <= k < |stormLogs| && Archived(stormLogs[k])
            && stormLogs[k].coveredDataName == x.coveredDataName) ==> stormLogs[k].date <= x.date)
  {
    var selected := FirstPerName(Successful(stormLogs));
    var ts := Transfers(selected, dir);
    var run := CopyAll(backend, files, ts);
    assert run.ok && (forall i :: 0 <= i < |ts| ==> ts[i].source in files) && forall i :: 0 <= i < |ts| ==>
      ts[i].destination in run.files && run.files[ts[i].destination] == files[ts[i].source]
    by {
      SelectedTransfersApart(files, stormLogs, dir, ts);
      CopyAllDistinct(backend, files, ts);
    }
    TransfersLanded(files, run.files, selected, dir, ts);
    SelectedMostRecent(stormLogs);
  }

  /** Every transfer that landed puts its log's snapshot beside the run. */
  lemma TransfersLanded(files: map<string, Bytes>, landed: map<string, Bytes>, selected: seq<FetchLog>, dir: string, ts: seq<Transfer>)
    requires ts == Transfers(selected, dir)
    requires forall i :: 0 <= i < |ts| ==> ts[i].source in files
    requires forall i :: 0 <= i < |ts| ==>
      ts[i].destination in landed && landed[ts[i].destination] == files[ts[i].source]
    ensures forall x :: x in selected ==>
      x.snapshot in files && Join(dir, Basename(x.snapshot)) in landed && landed[Join(dir, Basename(x.snapshot))] == files[x.snapshot]
  {
    forall x | x in selected
      ensures x.snapshot in files && Join(dir, Basename(x.snapshot)) in landed && landed[Join(dir, Basename(x.snapshot))] == files[x.snapshot]
    {
      var i :| 0 <= i < |selected| && selected[i] == x;
      assert ts[i] == Transfer(x.snapshot, Join(dir, Basename(x.snapshot)));
    }
  }

  /** The selected logs' transfers meet the conditions under which every copy succeeds. */
  lemma SelectedTransfersApart(files: map<string, Bytes>, stormLogs: seq<FetchLog>, dir: string, ts: seq<Transfer>)
    requires forall x :: x in stormLogs && Archived(x) ==> x.snapshot in files
    requires forall x, y :: (x in stormLogs && y in stormLogs && Archived(x) && Archived(y)
      && x.coveredDataName != y.coveredDataName) ==> Basename(x.snapshot) != Basename(y.snapshot)
    requires forall x, y :: (x in stormLogs && y in stormLogs && Archived(x) && Archived(y)) ==>
      x.snapshot != Join(dir, Basename(y.snapshot))
    requires ts == Transfers(FirstPerName(Successful(stormLogs)), dir)
    ensures forall i :: 0 <= i < |ts| ==> ts[i].source in files
    ensures (forall i, j :: 0 <= i < j < |ts| ==> ts[i].destination != ts[j].destination)
    ensures (forall i, j :: 0 <= i < |ts| && 0 <= j < |ts| ==> ts[i].source != ts[j].destination)
  {
    var logs := Successful(stormLogs);
    var selected := FirstPerName(logs);
    SelectionDistinctNames(logs);
    forall i | 0 <= i < |ts| ensures ts[i].source == selected[i].snapshot && selected[i] in stormLogs && Archived(selected[i]) {
      assert selected[i] in logs;
    }
    forall i, j | 0 <= i < |ts| && 0 <= j < |ts| ensures ts[i].source != ts[j].destination {
      assert ts[j].destination == Join(dir, Basename(selected[j].snapshot));
    }
    forall i, j | 0 <= i < j < |ts| ensures ts[i].destination != ts[j].destination {
      assert ts[i].destination == Join(dir, Basename(selected[i].snapshot));
      assert ts[j].destination == Join(dir, Basename(selected[j].snapshot));
      BasenameOfJoin(dir, Basename(selected[i].snapshot));
      BasenameOfJoin(dir, Basename(selected[j].snapshot));
    }
  }

  /** Among all archived logs, the selected log of each name is the most recent. */
  lemma SelectedMostRecent(stormLogs: seq<FetchLog>)
    requires DateDescending(stormLogs)
    ensures forall x, k :: (x in FirstPerName(Successful(stormLogs)) && 0 <= k < |stormLogs| && Archived(stormLogs[k])
      && stormLogs[k].coveredDataName == x.coveredDataName) ==> stormLogs[k].date <= x.date
  {
    var logs := Successful(stormLogs);
    SuccessfulKeepsOrder(stormLogs);
    SelectionMostRecent(logs);
    forall x, k | x in FirstPerName(logs) && 0 <= k < |stormLogs| && Archived(stormLogs[k])
      && stormLogs[k].coveredDataName == x.coveredDataName
      ensures stormLogs[k].date <= x.date
    {
      assert stormLogs[k] in logs;
      var m :| 0 <= m < |logs| && logs[m] == stormLogs[k];
    }
  }

  /**
   * The copy loop as written also copies stale snapshots: with two archived
   * logs of one covered-data name, the older one's snapshot "y" lands in the
   * run's directory next to the newer one's "x", which the intended stage
   * would not copy.
   */
  lemma CombineCopiesStaleSnapshot(logs: seq<FetchLog>, files: map<string, Bytes>)
    requires logs == [FetchLog("Winds", 2, true, "x"), FetchLog("Winds", 1, true, "y")]
    requires files == map["x" := [1 as bv8], "y" := [2 as bv8]]
    ensures DateDescending(logs)
    ensures "d/y" in CopyAll(LocalFileSystem(""), files, Transfers(Successful(logs), "d")).files
    ensures "d/y" !in CopyAll(LocalFileSystem(""), files, Transfers(FirstPerName(Successful(logs)), "d")).files
  {
    StaleExampleSelection(logs);
    StaleExampleTransfers(logs);
    StaleCopyRuns(files, Transfer("x", "d/x"), Transfer("y", "d/y"));
  }

  lemma StaleExampleSelection(logs: seq<FetchLog>)
    requires logs == [FetchLog("Winds", 2, true, "x"), FetchLog("Winds", 1, true, "y")]
    ensures DateDescending(logs) && Successful(logs) == logs && FirstPerName(logs) == [logs[0]]
  {
    forall i, j | 0 <= i < j < |logs| ensures logs[i].date >= logs[j].date {
      assert i == 0 && j == 1;
    }
    assert Successful(logs[1..]) == [logs[1]] by {
      assert logs[1..][1..] == [];
    }
    assert FirstPerName(logs[..1]) == [logs[0]] by {
      assert logs[..1][..0] == [];
    }
    assert Names([logs[0]]) == ["Winds"];
  }

  lemma StaleExampleTransfers(logs: seq<FetchLog>)
    requires logs == [FetchLog("Winds", 2, true, "x"), FetchLog("Winds", 1, true, "y")]
    ensures Transfers(logs, "d") == [Transfer("x", "d/x"), Transfer("y", "d/y")]
    ensures Transfers([logs[0]], "d") == [Transfer("x", "d/x")]
  {
    var tx := SnapshotTransfer(logs[0], 'x');
    var ty := SnapshotTransfer(logs[1], 'y');
    TransfersOfTwo(logs, "d", tx, ty);
    TransfersOfTwo([logs[0]], "d", tx, ty);
  }

  lemma TransfersOfTwo(logs: seq<FetchLog>, dir: string, tx: Transfer, ty: Transfer)
    requires 1 <= |logs| <= 2
    requires tx == TransferOf(logs[0], dir)
    requires |logs| == 2 ==> ty == TransferOf(logs[1], dir)
    ensures Transfers(logs, dir) == if |logs| == 1 then [tx] else [tx, ty]
  {
    var t := Transfers(logs, dir);
    assert t[0] == tx;
  }

  lemma SnapshotTransfer(log: FetchLog, c: char) returns (t: Transfer)
    requires log.snapshot == [c] && c != '/'
    ensures t == TransferOf(log, "d")
    ensures t == Transfer([c], ['d', '/', c])
  {
    NameInDir(log.snapshot, c);
    t := Transfer([c], ['d', '/', c]);
  }

  lemma NameInDir(name: string, c: char)
    requires name == [c] && c != '/'
    ensures Basename(name) == name && Join("d", name) == ['d', '/', c]
  {
    assert name[..0] == "";
    assert Join("d", name) == "d" + "/" + name;
  }

  lemma StaleCopyRuns(files: map<string, Bytes>, tx: Transfer, ty: Transfer)
    requires files == map["x" := [1 as bv8], "y" := [2 as bv8]]
    requires tx == Transfer("x", "d/x") && ty == Transfer("y", "d/y")
    ensures "d/y" in CopyAll(LocalFileSystem(""), files, [tx, ty]).files
    ensures "d/y" !in CopyAll(LocalFileSystem(""), files, [tx]).files
  {
    var backend := LocalFileSystem("");
    assert "x" != "d/x" && "y" != "d/x" && "d/y" != "d/x" && "d/y" !in files;
    assert [tx, ty][..1] == [tx];
    assert [tx][..0] == [];
    assert CopyAll(backend, files, []) == CopyRun(files, true);
    var first := CopyAll(backend, files, [tx]);
    assert first == Copy(backend, files, "x", "d/x");
    assert first.ok && "y" in first.files && "d/y" !in first.files;
    assert CopyAll(backend, files, [tx, ty]) == Copy(backend, first.files, "y", "d/y");
  }

  // ---------------------------------------------------------------------
  // Extraction stage
  // ---------------------------------------------------------------------

  datatype ExtractError =
    | NotInStorage(path: string)
    | CopyFailed(error: StorageError)
    | UnpackFailed(message: string)

  /**
   * `extract_nsem_model_output`: a no-op on an extracted run; an error when
   * the upload is missing; otherwise the upload is copied to the run's
   * versioned directory and the uploaded copy deleted, the copy is unpacked
   * on the local file system (`unpacked` is how that goes: `tarfile` raises
   * on an upload that is no archive), and only then is the run marked
   * extracted at `now`.
   */
  method ExtractNsemModelOutput(storage: Storage, settings: Settings, nsem: Nsem, now: int, unpacked: Outcome<string>)
    returns (r: Result<Option<string>, ExtractError>)
    modifies storage, nsem
    ensures nsem.coveredDataSnapshot == old(nsem.coveredDataSnapshot)
    ensures old(nsem.extracted) ==>
      && r == Success(None) && storage.files == old(storage.files)
      && nsem.modelOutputSnapshot == old(nsem.modelOutputSnapshot) && nsem.extracted && nsem.dateReturned == old(nsem.dateReturned)
    ensures !old(nsem.extracted) && old(nsem.modelOutputSnapshot) !in old(storage.files) ==>
      && r == Failure(NotInStorage(old(nsem.modelOutputSnapshot))) && storage.files == old(storage.files)
      && nsem.modelOutputSnapshot == old(nsem.modelOutputSnapshot) && !nsem.extracted && nsem.dateReturned == old(nsem.dateReturned)
    ensures !old(nsem.extracted) && old(nsem.modelOutputSnapshot) in old(storage.files) ==>
      var upload := old(nsem.modelOutputSnapshot);
      var path := PsaStoragePath(settings, nsem.stormName, nsem.id, upload);
      var run := Copy(storage.backend, old(storage.files), upload, path);
      && (r.Success? <==> run.ok && unpacked.Pass?)
      && (r.Success? ==>
            && r.value == Some(path)
            && storage.files == run.files - {upload}
            && path in storage.files && storage.files[path] == old(storage.files)[upload]
            && nsem.modelOutputSnapshot == path && nsem.extracted && nsem.dateReturned == Some(now))
      && (!run.ok ==>
            && r.Failure? && r.error.CopyFailed?
            && storage.files == run.files
            && nsem.modelOutputSnapshot == upload && !nsem.extracted && nsem.dateReturned == old(nsem.dateReturned))
      && (run.ok && unpacked.Fail? ==>
            && r == Failure(UnpackFailed(unpacked.error))
            && storage.files == run.files - {upload} && upload !in storage.files
            && nsem.modelOutputSnapshot == upload && !nsem.extracted && nsem.dateReturned == old(nsem.dateReturned))
  {
    if nsem.extracted {
      return Success(None);
    } else if !storage.Exists(nsem.modelOutputSnapshot) {
      return Failure(NotInStorage(nsem.modelOutputSnapshot));
    }
    r := MoveUpload(storage, nsem, PsaStoragePath(settings, nsem.stormName, nsem.id, nsem.modelOutputSnapshot), now, unpacked);
  }

  /**
   * The second half of `extract_nsem_model_output`, for a run not yet
   * extracted whose upload is stored: copy the upload to `destination`,
   * delete it, unpack it, and mark the run extracted at `now`.
   */
  method MoveUpload(storage: Storage, nsem: Nsem, destination: string, now: int, unpacked: Outcome<string>)
    returns (r: Result<Option<string>, ExtractError>)
    requires !nsem.extracted && nsem.modelOutputSnapshot in storage.files
    modifies storage, nsem
    ensures nsem.coveredDataSnapshot == old(nsem.coveredDataSnapshot)
    ensures var upload := old(nsem.modelOutputSnapshot);
      var run := Copy(storage.backend, old(storage.files), upload, destination);
      && (r.Success? <==> run.ok && unpacked.Pass?)
      && (r.Success? ==>
            && r.value == Some(destination)
            && storage.files == run.files - {upload}
            && destination in storage.files && storage.files[destination] == old(storage.files)[upload]
            && nsem.modelOutputSnapshot == destination && nsem.extracted && nsem.dateReturned == Some(now))
      && (!run.ok ==>
            && r.Failure? && r.error.CopyFailed?
            && storage.files == run.files
            && nsem.modelOutputSnapshot == upload && !nsem.extracted && nsem.dateReturned == old(nsem.dateReturned))
      && (run.ok && unpacked.Fail? ==>
            && r == Failure(UnpackFailed(unpacked.error))
            && storage.files == run.files - {upload} && upload !in storage.files
            && nsem.modelOutputSnapshot == upload && !nsem.extracted && nsem.dateReturned == old(nsem.dateReturned))
  {
    var copied := storage.CopyWithinStorage(nsem.modelOutputSnapshot, destination);
    if copied.Fail? {
      return Failure(CopyFailed(copied.error));
    }
    storage.Delete(nsem.modelOutputSnapshot);
    if unpacked.Fail? {
      return Failure(UnpackFailed(unpacked.error));
    }
    nsem.modelOutputSnapshot := destination;
    nsem.extracted := true;
    nsem.dateReturned := Some(now);
    return Success(Some(destination));
  }

  /**
   * A retry after the unpacking failed: the upload is gone from storage but
   * the run still names it and is not marked extracted, so every later
   * attempt stops at the existence check.
   */
  method RetryAfterUnpackFails(storage: Storage, settings: Settings, nsem: Nsem, now: int, unpacked: Outcome<string>,
                               later: int, unpackedLater: Outcome<string>)
    returns (first: Result<Option<string>, ExtractError>, retry: Result<Option<string>, ExtractError>)
    modifies storage, nsem
    ensures first.Failure? && first.error.UnpackFailed? ==>
      && retry == Failure(NotInStorage(old(nsem.modelOutputSnapshot)))
      && !nsem.extracted && nsem.modelOutputSnapshot == old(nsem.modelOutputSnapshot)
      && nsem.modelOutputSnapshot !in storage.files
  {
    first := ExtractNsemModelOutput(storage, settings, nsem, now, unpacked);
    retry := ExtractNsemModelOutput(storage, settings, nsem, later, unpackedLater);
  }
}
