# Storm-data pipeline core, modelled in Dafny

This project models the core of a coastal-storm data pipeline.

- **Processors.** They subset remote gridded and sequence datasets to a named storm's time window and region. They filter structured binary records and decide each dataset's staging path.
- **Orchestrator tasks.**
  - Archive one fetched dataset into durable storage.
  - Combine the latest archive of every covered-data requirement into a model run's (NSEM) versioned directory.
  - Extract an uploaded model output into that directory.
- **Storage backends.** The local file system and the object store, with their copy and URL operations.
- **Model-run serializer.** It validates an uploaded output path and builds the run's URLs.
- **Post-storm assessment view.** It finds the mesh face nearest to a coordinate and returns its water depth at every time step.

Modules:

| module | what it holds |
|---|---|
| `Wrappers` | `Option`, `Result` and `Outcome`, used for the exceptions the pipeline raises |
| `Paths` | `posixpath` `join`, `basename` and `dirname`, exactly as Python computes them |
| `Text` | decimal rendering of ids, `str.replace(p, '')`, `urllib.parse.quote` |
| `Models` | record shapes, the deployment's directory settings, and the `Nsem` model run (a class, because the tasks update its fields in place) |
| `StorageBackends` | `copy_within_storage` and `storage_url` of each backend; the `Storage` class holds the stored files as a map from path to bytes |
| `Processors` | the range-index resolver, longitude normalisation, the output path, the binary record filter, the dataset slice and the `Processor` class |
| `Tasks` | the three tasks, proved against the store and the `Nsem` record they update |
| `Serializers` | the NSEM serializer's path validation and URL fields |
| `Views` | the filter view's argument checks, nearest-node lookup and depth series |

The archive task builds its tar path as `join(dirname(p), basename(p)) + "." + ext`. The source comment says this "guarantees no trailing slash". `Tasks.RejoinIdentity` shows the rejoin returns `p` itself whenever `p` has no doubled slash, so the tar sits beside the archive directory (`Tasks.TarPathBeside`) unless `p` ends in '/'. `Tasks.TarPathTrailingSlash` shows that a trailing slash survives the rejoin: the tar is then written inside the directory it archives and is stored under the name `.<ext>`. The comment is therefore inaccurate. Whether the archive directory ever carries a trailing slash is decided by the fetch that produces it, which is not part of this model.

## Model

| member | source | states |
|---|---|---|
| `Paths.Join` | named_storms/tasks.py:89-93 | an absolute component replaces the path; otherwise the result starts with the first part and ends with the second, with exactly one slash between them when the first part is non-empty and has no trailing slash |
| `Paths.JoinAll` | named_storms/api/serializers.py:68-78 | the multi-argument join ends with its last component |
| `Paths.JoinAllSegments` | named_storms/api/serializers.py:68-78 | joining slash-free, non-empty components onto a directory separates them by single slashes |
| `Paths.JoinSegment` | named_storms/tasks.py:126-131 | joining a segment onto a directory inserts exactly one separator and gives a directory again |
| `Paths.Basename` | named_storms/tasks.py:92 | the basename has no slash, is a suffix of the path, and is preceded by a slash when shorter than the path |
| `Paths.Dirname` | named_storms/tasks.py:80 | the dirname is a prefix of the path |
| `Paths.BasenameOfJoin` | named_storms/tasks.py:135 | the basename of `join(a, b)` is `b` for any slash-free `b` |
| `Text.NatToString` | named_storms/tasks.py:129 | the decimal form of an id is non-empty, all digits, with no leading zero |
| `Text.NatToStringRoundTrip` | named_storms/tasks.py:129 | reading the decimal form back gives the id |
| `Text.NatToStringInjective` | named_storms/tasks.py:129 | distinct ids give distinct version names |
| `Text.RemoveAll` | named_storms/api/serializers.py:106 | removing every occurrence of a pattern never lengthens the string |
| `Text.RemoveAllAbsent` | named_storms/api/serializers.py:106 | removing a pattern that does not occur changes nothing |
| `Text.RemoveAllLeading` | named_storms/api/serializers.py:104-106 | removing the prefix from `prefix + rest` gives `rest` when the prefix does not recur in `rest` |
| `Text.Quote` | named_storms/api/serializers.py:73 | quoting yields only safe characters and `%`, and never shortens |
| `Text.QuoteSafeIdentity` | named_storms/api/serializers.py:73 | a string of safe characters is left unchanged |
| `Text.QuoteAddsNoSlash` | named_storms/api/serializers.py:73-76 | quoting a slash-free name yields a slash-free name |
| `Models.VersionName` | named_storms/tasks.py:129 | `v<id>` is a single path segment starting with `v` |
| `StorageBackends.Copy` | cwwed/storage_backends.py:14-42 | the copy succeeds iff the backend is concrete, the source exists and differs from the destination. The mixin changes nothing. Success leaves the source's bytes at the destination. Failure leaves the destination deleted |
| `StorageBackends.CopyKeepsOthers` | cwwed/storage_backends.py:14-42 | a copy keeps every path other than the destination, with its bytes, and adds no other path |
| `StorageBackends.StorageUrl` | cwwed/storage_backends.py:44-45 | the URL fails exactly for the mixin; it is the media URL followed by the path for local storage, and starts with `s3://<bucket>/` for the object store |
| `StorageBackends.ObjectUrlRoundTrip` | cwwed/storage_backends.py:83-84 | an object-store URL parses back to its bucket and path |
| `StorageBackends.Storage.Path` | cwwed/storage_backends.py:21-84 | on the file system a relative name is placed below the storage location with one separator; object storage and the bare mixin raise `NotImplementedError` |
| `StorageBackends.Storage.Delete` | cwwed/storage_backends.py:36-37 | the name is removed and every other file is kept |
| `StorageBackends.Storage.Save` | named_storms/tasks.py:96 | the content is stored under the name and every other file is kept |
| `StorageBackends.Storage.CopyWithinStorage` | cwwed/storage_backends.py:26-81 | the store after the chunked local copy or the single object copy is exactly `Copy`'s result, and the call reports success iff `Copy` does |
| `Processors.FirstAtLeast` | named_storms/data/processors.py:327 | the index found is the smallest whose value is at or above the bound; there is none only when every value is below it |
| `Processors.GridConstraintIndexes` | named_storms/data/processors.py:320-330 | the start is the first index at or above `start`, or 0 when there is none. The end is the first index at or above `end`. The end is None iff every value is below `end` |
| `Processors.SliceIsWindow` | named_storms/data/processors.py:307-315 | on an ascending axis that reaches `start`, with `start <= end`, the slice is exactly the values in `[start, end)`, in order |
| `Processors.SliceWholeAxis` | named_storms/data/processors.py:326-330 | when no value reaches `start` (an empty axis included) the range is `(0, None)` and the whole axis is kept |
| `Processors.NormaliseLongitude` | named_storms/data/processors.py:124-129 | a positive longitude is kept and any other gets 360 added, so 0 becomes 360. Longitudes in (-360, 360] land in (0, 360] |
| `Processors.CoveredDataExtent` | named_storms/data/processors.py:117-130 | both longitudes are normalised and both latitudes pass through unchanged |
| `Processors.CoveredDataExtentIdempotent` | named_storms/data/processors.py:124-129 | normalising an already normalised extent changes nothing |
| `Processors.CoveredDataExtentExample` | named_storms/data/processors.py:119-123 | the documented example extent maps west -97.5 to 262.5 and east -91.0 to 269.0 |
| `Processors.EffectiveLabel` | named_storms/data/processors.py:55 | a missing label becomes `data`; a given one is kept |
| `Processors.FileName` | named_storms/data/processors.py:107-113 | the label, followed by `.ext` only when an extension is declared |
| `Processors.OutputPath` | named_storms/data/processors.py:98-115 | the path is `incomplete/[group/]label[.ext]`, with the group segment only when set; its basename is the file name |
| `Processors.KeepAll` | named_storms/data/processors.py:223-237 | filtering never adds records |
| `Processors.KeepAllMembership` | named_storms/data/processors.py:223-237 | a record survives exactly when it was present and meets every bound |
| `Processors.KeepAllAppend` | named_storms/data/processors.py:223-237 | filtering distributes over concatenation, so the original order is kept |
| `Processors.KeepNarrows` | named_storms/data/processors.py:223-237 | one more mask on a filtered array is a filter by one more bound |
| `Processors.SixMasks` | named_storms/data/processors.py:223-237 | the six successive masks select what their conjunction selects |
| `Processors.BinaryFilterIsWindow` | named_storms/data/processors.py:217-237 | the binary filter keeps exactly the records with start-epoch <= time <= end-epoch and inside the normalised extent, all bounds inclusive |
| `Processors.VariableNames` | named_storms/data/processors.py:348-349 | one name per variable, in order |
| `Processors.AllVariables` | named_storms/data/processors.py:346-358 | a grid lists all its variables; a sequence lists the fields of its first variable and fails when it has none |
| `Processors.VerifyDimensions` | named_storms/data/processors.py:332-335 | passes iff time, latitude and longitude are all among the variables |
| `Processors.SliceDataset` | named_storms/data/processors.py:279-315 | succeeds iff the variables list and carry the three dimensions (with axes). On success: the data variables are the variables minus the dimensions; the time axis is sliced by the time window and the latitude and longitude axes by the normalised extent; every other axis is unchanged |
| `Processors.Processor.constructor` | named_storms/data/processors.py:51-67 | the processor starts successful, with the default label when none is given and its output path computed |
| `Processors.Processor.Fetch` | named_storms/data/processors.py:80-86 | the fetch fails exactly when the modelled `_fetch` raises (a failed download, a binary file's decode or field error), and then leaves the processor unsuccessful; the output path never changes. h5py opening and netCDF writing are taken never to raise |
| `Processors.Processor.FetchData` | named_storms/data/processors.py:200-206 | a binary dataset that filters to no records leaves no output file. An OpenDAP dataset is written only when every dimension has a value (lines 268-277) |
| `Processors.Processor.FetchFile` | named_storms/data/processors.py:152-166 | a failed download leaves the output untouched; otherwise the download is moved into place and post-processed |
| `Processors.Processor.PostProcessBinary` | named_storms/data/processors.py:208-240 | raises on a missing dtype, an undecodable file or a missing time/lat/lon field; otherwise the written records are exactly the binary filter of the decoded ones |
| `Processors.NewOpenDapProcessor` | named_storms/data/processors.py:255-266 | a processor is made exactly when the slice succeeds, carrying the sliced dataset and a `.nc` output path |
| `Tasks.NsemVersionPath` | named_storms/tasks.py:126-129 | a run's directory is `NSEM/<storm>/v<id>` |
| `Tasks.CoveredDataStoragePath` | named_storms/tasks.py:126-131 | the combined directory is `NSEM/<storm>/v<id>/<covered-data dir>` |
| `Tasks.PsaStoragePath` | named_storms/tasks.py:160-166 | the extracted output keeps the upload's basename under `NSEM/<storm>/v<id>/<PSA dir>` |
| `Tasks.TarPath` | named_storms/tasks.py:79-82 | the tar's basename is the archive's basename with `.ext` added |
| `Tasks.RejoinIdentity` | named_storms/tasks.py:80 | rejoining dirname and basename gives the path back whenever it has no doubled slash |
| `Tasks.TarPathBeside` | named_storms/tasks.py:79-82 | the tar path is the archive path followed by `.ext` |
| `Tasks.TarPathTrailingSlash` | named_storms/tasks.py:80 | a trailing slash is not removed: the tar of `a/` is `a/.tgz`, inside the directory it archives, with basename `.tgz` |
| `Tasks.ArchiveStoragePath` | named_storms/tasks.py:89-93 | the storage path keeps the tar's basename under `<covered archive dir>/<storm>` |
| `Tasks.ArchiveStoragePathShape` | named_storms/tasks.py:78-93 | the archive of `.../<name>` is stored at `<covered archive dir>/<storm>/<name>.<ext>` |
| `Tasks.ArchiveNamedStormCoveredData` | named_storms/tasks.py:67-105 | the tar's bytes are stored at that path, nothing else in storage changes, and the log's snapshot becomes that path |
| `Tasks.Successful` | named_storms/tasks.py:118 | the logs kept are exactly the successful ones with a snapshot |
| `Tasks.SuccessfulKeepsOrder` | named_storms/tasks.py:118 | filtering keeps the date-descending order |
| `Tasks.Names` | named_storms/tasks.py:123 | one covered-data name per log, in order |
| `Tasks.FirstPerName` | named_storms/tasks.py:121-124 | the selection only holds given logs |
| `Tasks.SelectLogsToArchive` | named_storms/tasks.py:121-124 | the loop's result is the first-per-name selection |
| `Tasks.SelectionCoversNames` | named_storms/tasks.py:121-124 | every covered-data name among the logs is selected |
| `Tasks.SelectionIsFirstOfName` | named_storms/tasks.py:121-124 | a log is selected iff it is the first log of its name |
| `Tasks.SelectionDistinctNames` | named_storms/tasks.py:121-124 | no covered-data name is selected twice |
| `Tasks.SelectionMostRecent` | named_storms/tasks.py:114-124 | on date-descending logs each selected log is the most recent of its name |
| `Tasks.Transfers` | named_storms/tasks.py:133-135 | one transfer per log, from its snapshot to `dir/basename(snapshot)`, in order |
| `Tasks.CopyAll` | named_storms/tasks.py:133-137 | with the mixin nothing changes and only an empty loop completes |
| `Tasks.CopyAllDistinct` | named_storms/tasks.py:133-137 | with sources present, distinct destinations and no source overwritten, every copy succeeds. Each destination then holds its source's bytes, and every other file is unchanged |
| `Tasks.CopyAllStops` | named_storms/tasks.py:133-137 | once a copy raises, the later copies are not attempted |
| `Tasks.CopySnapshots` | named_storms/tasks.py:133-137 | the loop's store is the sequential copy of every snapshot, stopping at the first copy that raises, and it reports success iff all copies completed |
| `Tasks.CopyIntoRun` | named_storms/tasks.py:133-142 | after the copies, the run's combined snapshot is set to its directory iff they all completed; no other field of the run changes |
| `Tasks.ArchiveNsemCoveredData` | named_storms/tasks.py:108-142 | as written: with no archived logs nothing changes; otherwise every archived log's snapshot, not only the selected ones, is copied into the run's directory, which is then recorded |
| `Tasks.ArchiveNsemCoveredDataFixed` | named_storms/tasks.py:121-140 | as intended: only the first-per-name selection is copied, then the directory is recorded |
| `Tasks.CombineFixedCopiesMostRecent` | named_storms/tasks.py:114-137 | the intended stage completes. For each covered-data name, the run's directory then holds the most recent archived snapshot's bytes |
| `Tasks.CombineCopiesStaleSnapshot` | named_storms/tasks.py:121-137 | two archived logs of one name: the as-written loop also copies the older snapshot, which the intended stage leaves out |
| `Tasks.ExtractNsemModelOutput` | named_storms/tasks.py:145-202 | an extracted run is left alone, and a missing upload raises with nothing changed. Otherwise a completed copy moves the upload's bytes to the run's PSA path and deletes the upload. After a completed unpacking it then marks the run extracted at the given time with the new path. A failed copy leaves the run unchanged. A failed unpacking leaves the upload deleted and the run unchanged, still naming the upload |
| `Tasks.MoveUpload` | named_storms/tasks.py:168-202 | for a stored upload of a run not yet extracted: the result is a success exactly when the copy to the destination and the unpacking both succeed. Success leaves the upload's bytes at the destination, deletes the upload, and marks the run extracted at the given time with the destination as its snapshot. A failed copy leaves the run as it was. A failed unpacking leaves the upload deleted and the run as it was |
| `Tasks.RetryAfterUnpackFails` | named_storms/tasks.py:154-172 | after an unpacking failure the run still names the deleted upload and is not extracted, so the next attempt fails the existence check |
| `Serializers.UploadName` | named_storms/api/serializers.py:120-124 | the upload name is `NSEM/<upload dir>/v<id>.<ext>` |
| `Serializers.ModelOutputUploadPath` | named_storms/api/serializers.py:118-124 | on the file system the expected upload path is the upload name below the storage location; any other backend raises |
| `Serializers.StripLocation` | named_storms/api/serializers.py:103-106 | a path without the location prefix is unchanged; stripping never lengthens |
| `Serializers.StripLocationOfPath` | named_storms/api/serializers.py:103-106 | stripping the location from a path below it gives the relative name back |
| `Serializers.ValidateModelOutputSnapshot` | named_storms/api/serializers.py:85-113 | a create passes the value through. An extracted run is rejected first. Then `storage.path` raises unless the backend is the file system. Then any value other than the expected path is rejected, then a missing file. An accepted value is the expected path on the file system, returned without the location and present in storage |
| `Serializers.ValidateCanonicalUpload` | named_storms/api/serializers.py:97-112 | on the file-system backend, for an unextracted run, the expected path is accepted iff the upload name is stored, and the accepted value is that name |
| `Serializers.ObjectStorageRejectsEveryUpdate` | named_storms/api/serializers.py:97 | on object storage, every update of an unextracted run fails with the exception `storage.path` raises, whatever the value |
| `Serializers.ThreddsUrlNsem` | named_storms/api/serializers.py:63-78 | there is no URL until the run is extracted. The URL then starts with `<scheme>://` and is the host followed by `thredds/catalog/cwwed/<storm>/<NSEM dir>/v<id>/<PSA dir>/catalog.html`, each part after one slash |
| `Serializers.CatalogPathShape` | named_storms/api/serializers.py:68-78 | the joined catalog path separates its quoted parts by single slashes |
| `Serializers.CoveredDataStorageUrl` | named_storms/api/serializers.py:80-83 | there is no URL iff the run has no combined snapshot. Otherwise the URL is the backend's storage URL, and the mixin raises |
| `Views.AbsolutePath` | named_storms/api/views.py:17 | the dataset path is `<data dir>/<opendap dir>/<dataset path>` |
| `Views.CheckArguments` | named_storms/api/views.py:16-26 | NotFound is raised, in this order, for an empty or non-existent path (any existing directory or file passes), a coordinate count other than 2, and a non-numeric coordinate. Success yields the path and the two numbers |
| `Views.DefaultPathIsOpendapDir` | named_storms/api/views.py:16-22 | without a dataset path the view names the OPeNDAP directory itself, which passes the path check, so a request without coordinates is refused for its coordinates |
| `Views.ColumnStack` | named_storms/api/views.py:52 | one `(y, x)` row per face, from the parallel arrays |
| `Views.Nearest` | named_storms/api/views.py:53 | the chosen row minimises the distance to the point, and no earlier row is as near |
| `Views.WhereRowsMatching` | named_storms/api/views.py:54 | the reported rows are exactly the rows equal to the target in y or in x, in ascending order |
| `Views.FirstIfAnyNonzero` | named_storms/api/views.py:55-57 | none iff every reported row index is 0; otherwise the first reported row |
| `Views.FirstRowIsSmallest` | named_storms/api/views.py:54-56 | the first reported row is the smallest row matching in either column |
| `Views.NearestNodeIndex` | named_storms/api/views.py:51-57 | as written: none iff every matching row index is 0. Otherwise the smallest row sharing y or x with the nearest row |
| `Views.NearestNodeIndexFixed` | named_storms/api/views.py:51-57 | as intended: a nearest row, equal to the query's row in both columns, never missing |
| `Views.LookupLosesRowZero` | named_storms/api/views.py:55-57 | as written, a nearest row 0 sharing no coordinate with another row is reported as no data |
| `Views.LookupMissesExactHit` | named_storms/api/views.py:31-34 | a point exactly on face 0 of a two-face mesh gets "No data found" |
| `Views.LookupReturnsFartherRow` | named_storms/api/views.py:54-56 | a row sharing only x with the nearest row is returned instead of it |
| `Views.WaterDepths` | named_storms/api/views.py:36-43 | one entry per time step, in dataset order, holding the step's time and its value at the node |
| `Views.Get` | named_storms/api/views.py:15-49 | is rejected exactly as the argument checks reject; an existing path that is no dataset fails at opening. Otherwise it returns, for every time step, the depth at a face nearest to the point |

## Left out

- Network I/O is a parameter: HTTP downloads, the PyDAP session and `xarray.open_dataset`. The remote answer (bytes, decoded records, variables and axes) is given.
- Foreign-library file formats are not modelled, and their calls are taken never to raise (the h5py opening in the hierarchical post-processing, the netCDF write of an OpenDAP dataset): h5py, numpy `fromfile`/`tofile` byte layout, netCDF writing, `tarfile`, temporary files, `chmod` and moves. An artifact records what the output path would hold.
- The SSL verification toggle is left out. It patches process-global `ssl` state.
- Celery scheduling is left out: the task decorators, the retry policy, `fetch_url_task` and `process_dataset_task`.
- Django plumbing is left out: ORM queries, `get_object_or_404`, `save()`, request and response objects and `to_dict`. Query results are sequences, records are datatypes, and the model run is the `Nsem` class.
- `default_storage.url(...)` is not modelled. The combine and extract tasks return the storage path whose URL the source would return.
- `named_storms/utils.py` is not part of this model:
  - The archive path of a covered-data fetch is a parameter.
  - The staging directory is the staging root joined with the covered-data name.
  - `copy_path_to_default_storage` is `Storage.Save` of the tar's bytes at the storage path, returning that path.
  - `create_directory` has no effect on the store.
- Tasks.ExtractNsemModelOutput: the local download into the run's version directory, the tar extraction and the removal of the local tar are file-system effects and are left out. Whether that stage raises is the `unpacked` parameter; its failure is modelled, after the copy and the delete and before the run is marked. `datetime.utcnow()` is the `now` parameter.
- StorageBackends.Storage.Path: Django's `safe_join` checks (a name escaping the root raises) are not modelled; the file-system path is a plain join below the location. Object storage inherits Django's default `path`, which raises, and is modelled as that failure.
- `StaticStorage`, the object store's credentials and bucket creation, and the local copy's `create_directory` calls are configuration, not logic.
- Floating-point numbers are modelled as mathematical reals: coordinates, timestamps, extents and depths. Rounding, NaN and infinities are not modelled. Dates of fetch logs are integers.
- Processors.Processor: `BaseProcessor._fetch` is abstract and raises; only the four concrete variants are modelled. The HDF post-processing opens the file with h5py and runs an empty filter; it changes nothing and is modelled as never raising.
- Views.Nearest: the KD-tree is modelled as a linear argmin of squared distance. That minimises the same quantity as the Euclidean distance. On a tie it picks the first row, whereas the KD-tree may pick another nearest row.
- Views.Get: uses the corrected lookup `Views.NearestNodeIndexFixed`, so its "No data found" path does not arise. The as-written lookup, including that path, is `Views.NearestNodeIndex`.
- Views.Get: requires the requested dataset, when it opens, to be well formed: parallel face coordinate arrays of one non-empty mesh, and one value per face at each time step. On other inputs numpy raises.
- Views.Get: `os.path.exists` is the `existing` set of paths and `xr.open_dataset` is the `datasets` map; an existing path that does not open is one `OpenFailed` error, not the server's exception text.
- Views.WaterDepths: `parse_datetime(...).isoformat()` is not modelled. Each step's time label is taken as given.
- The remaining serializers only declare model fields and have no logic. The request's scheme and host are parameters.

## Findings

| source | as written | input that shows it | evidently intended | confidence | as-written member | corrected member |
|---|---|---|---|---|---|---|
| named_storms/tasks.py:133-137 | The copy loop runs over `logs`, all successful archived logs. The `logs_to_archive` selection built just above (lines 121-124) is never used. | Two archived logs of covered data "Winds": date 2 with snapshot `x`, and date 1 with snapshot `y`. Both `d/x` and `d/y` are copied into the run's directory. | Copy only the most recent archived log of each covered-data name. `Tasks.CombineFixedCopiesMostRecent` proves that every copy then completes and the directory holds each name's most recent snapshot. | high; not executed | `Tasks.CombineCopiesStaleSnapshot` | `Tasks.ArchiveNsemCoveredDataFixed` |
| named_storms/api/views.py:54-57 | `numpy.where(coords == nearest)` reports rows equal to the nearest row in y OR in x, and the first of these is returned. `found[0].any()` is false when the only reported row is 0. | Faces `[(5,0), (0,0)]`, point `(0,0)`: the nearest face is 1, but face 0 shares x and is returned (`Views.LookupReturnsFartherRow`). Faces `[(0,0), (1,1)]`, point `(0,0)`: "No data found" (`Views.LookupMissesExactHit`). | Return the index of the nearest face itself: the first row equal to the nearest row in both columns, which is never missing. | high; not executed | `Views.LookupReturnsFartherRow` | `Views.NearestNodeIndexFixed` |
