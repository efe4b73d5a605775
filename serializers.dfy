/**
 * The model-run (NSEM) serializer of the storm API: the canonical upload path
 * of a run's model output, the validation of an uploaded path, and the two
 * URL fields that stay empty until there is something to point at.
 */
module Serializers {
  import opened Wrappers
  import opened Paths
  import opened Text
  import opened Models
  import opened StorageBackends

  // ---------------------------------------------------------------------
  // Canonical upload path
  // ---------------------------------------------------------------------

  /** `os.path.join(NSEM_DIR, UPLOAD_DIR, 'v<id>.<ext>')` */
  function UploadName(settings: Settings, id: nat): (r: string)
    ensures WellFormedSettings(settings) ==>
      r == settings.nsemDir + "/" + settings.uploadDir + "/" + VersionName(id) + "." + settings.archiveExtension
  {
    var file := VersionName(id) + "." + settings.archiveExtension;
    if WellFormedSettings(settings) then
      JoinSegment(settings.nsemDir, settings.uploadDir);
      DottedName(VersionName(id), settings.archiveExtension);
      JoinSegment(Join(settings.nsemDir, settings.uploadDir), file);
      Join(Join(settings.nsemDir, settings.uploadDir), file)
    else
      Join(Join(settings.nsemDir, settings.uploadDir), file)
  }

  /**
   * `_get_model_output_upload_path`: the upload name below the storage root,
   * or the error `storage.path` raises on a backend without local paths.
   */
  function ModelOutputUploadPath(storage: Storage, settings: Settings, id: nat): (r: Result<string, StorageError>)
    reads storage
    ensures r.Success? <==> storage.backend.LocalFileSystem?
    ensures r.Failure? ==> r.error == NotImplemented("path")
    ensures r.Success? && OpenDir(storage.location) && WellFormedSettings(settings) ==>
      r.value == storage.location + "/" + UploadName(settings, id)
  {
    if OpenDir(storage.location) && WellFormedSettings(settings) then
      assert !StartsWith(UploadName(settings, id), "/") by {
        assert UploadName(settings, id)[..1][0] == settings.nsemDir[0];
      }
      storage.Path(UploadName(settings, id))
    else
      storage.Path(UploadName(settings, id))
  }

  /** `s3_path.replace(location + '/', '')` when the path starts with that prefix. */
  function StripLocation(path: string, location: string): (r: string)
    ensures !StartsWith(path, location + "/") ==> r == path
    ensures |r| <= |path|
  {
    var prefix := location + "/";
    if StartsWith(path, prefix) then RemoveAll(path, prefix) else path
  }

  /** A path below the storage root loses its root prefix, unless the prefix recurs inside it. */
  lemma StripLocationOfPath(location: string, name: string)
    requires !Contains(name, location + "/")
    ensures StripLocation(location + "/" + name, location) == name
  {
    var prefix := location + "/";
    assert location + "/" + name == prefix + name;
    assert StartsWith(prefix + name, prefix) by {
      assert (prefix + name)[..|prefix|] == prefix;
    }
    RemoveAllLeading(prefix, name);
  }

  // ---------------------------------------------------------------------
  // Validation of an uploaded model output path
  // ---------------------------------------------------------------------

  /**
   * How validation ends without a value: the three `ValidationError`s, or the
   * storage backend's own exception, which is no validation error.
   */
  datatype ValidationError =
    | AlreadyProcessed
    | UnexpectedPath(expected: string)
    | MissingFromStorage(path: string)
    | StorageRaised(error: StorageError)

  /**
   * `validate_model_output_snapshot`: on an update, rejects an extracted run,
   * then computes the canonical upload path (which raises on a backend
   * without local paths), then rejects any other path, then a path missing
   * from storage; the accepted path is returned without the storage root. On
   * a create (no instance) the value passes unchanged.
   */
  function ValidateModelOutputSnapshot(instance: Nsem?, value: string, settings: Settings, storage: Storage)
    : (r: Result<string, ValidationError>)
    reads instance, storage
    ensures instance == null ==> r == Success(value)
    ensures instance != null ==> (r == Failure(AlreadyProcessed) <==> instance.extracted)
    ensures instance != null && !instance.extracted ==>
      (r == Failure(StorageRaised(NotImplemented("path"))) <==> !storage.backend.LocalFileSystem?)
    ensures (instance != null && !instance.extracted && storage.backend.LocalFileSystem?
             && value != ModelOutputUploadPath(storage, settings, instance.id).value) ==>
      r == Failure(UnexpectedPath(ModelOutputUploadPath(storage, settings, instance.id).value))
    ensures instance != null && r.Success? ==>
      && storage.backend.LocalFileSystem?
      && value == ModelOutputUploadPath(storage, settings, instance.id).value
      && r.value == StripLocation(value, storage.location)
      && r.value in storage.files
    ensures instance != null && r.Failure? && r.error.MissingFromStorage? ==>
      && storage.backend.LocalFileSystem?
      && value == ModelOutputUploadPath(storage, settings, instance.id).value && r.error.path !in storage.files
  {
    if instance == null then Success(value)
    else if instance.extracted then Failure(AlreadyProcessed)
    else
      match ModelOutputUploadPath(storage, settings, instance.id)
      case Failure(err) => Failure(StorageRaised(err))
      case Success(s3Path) =>
        if s3Path != value then Failure(UnexpectedPath(s3Path))
        else
          var stripped := StripLocation(s3Path, storage.location);
          if !storage.Exists(stripped) then Failure(MissingFromStorage(stripped))
          else Success(stripped)
  }

  /**
   * On the file-system backend, for a run not yet extracted, with a storage
   * root that does not recur in the upload name, the canonical path is
   * accepted exactly when the upload name is stored, and the validated value
   * is that upload name.
   */
  lemma ValidateCanonicalUpload(instance: Nsem, settings: Settings, storage: Storage)
    requires !instance.extracted && storage.backend.LocalFileSystem?
    requires OpenDir(storage.location) && WellFormedSettings(settings)
    requires !Contains(UploadName(settings, instance.id), storage.location + "/")
    ensures var r := ValidateModelOutputSnapshot(instance, storage.location + "/" + UploadName(settings, instance.id), settings, storage);
      && (r.Success? <==> UploadName(settings, instance.id) in storage.files)
      && (r.Success? ==> r.value == UploadName(settings, instance.id))
      && (r.Failure? ==> r == Failure(MissingFromStorage(UploadName(settings, instance.id))))
  {
    StripLocationOfPath(storage.location, UploadName(settings, instance.id));
  }

  /**
   * On object storage every update of a run not yet extracted fails, whatever
   * the value: `storage.path` raises before the value is looked at.
   */
  lemma ObjectStorageRejectsEveryUpdate(instance: Nsem, value: string, settings: Settings, storage: Storage)
    requires !instance.extracted && storage.backend.ObjectStorage?
    ensures ValidateModelOutputSnapshot(instance, value, settings, storage) == Failure(StorageRaised(NotImplemented("path")))
  {
  }

  // ---------------------------------------------------------------------
  // URL fields
  // ---------------------------------------------------------------------

  /** The path components of a run's THREDDS catalog page below the host. */
  function CatalogParts(nsem: Nsem, settings: Settings): seq<string>
    reads nsem
  {
    ["thredds", "catalog", "cwwed", Quote(nsem.stormName), Quote(settings.nsemDir),
     VersionName(nsem.id), Quote(settings.psaDir), "catalog.html"]
  }

  /**
   * `get_thredds_url_nsem`: none until the run is extracted; then the THREDDS
   * catalog page of the run's extracted output on the request's host.
   */
  function ThreddsUrlNsem(scheme: string, host: string, nsem: Nsem, settings: Settings): (r: Option<string>)
    reads nsem
    ensures r.None? <==> !nsem.extracted
    ensures r.Some? ==> StartsWith(r.value, scheme + "://") && EndsWith(r.value, "catalog.html")
    ensures nsem.extracted && OpenDir(host) && Segment(nsem.stormName) && WellFormedSettings(settings) ==>
      r == Some(scheme + "://" + host + Slashed(CatalogParts(nsem, settings)))
  {
    if !nsem.extracted then None
    else
      var parts := CatalogParts(nsem, settings);
      var path := JoinAll(host, parts);
      if OpenDir(host) && Segment(nsem.stormName) && WellFormedSettings(settings) then
        CatalogPathShape(host, nsem, settings);
        assert scheme + "://" + path == scheme + "://" + host + Slashed(parts);
        Some(scheme + "://" + path)
      else
        Some(scheme + "://" + path)
  }

  /** The catalog path on a host: the parts below it, each after a single slash. */
  lemma CatalogPathShape(host: string, nsem: Nsem, settings: Settings)
    requires OpenDir(host) && Segment(nsem.stormName) && WellFormedSettings(settings)
    ensures JoinAll(host, CatalogParts(nsem, settings)) == host + Slashed(CatalogParts(nsem, settings))
  {
    var parts := CatalogParts(nsem, settings);
    QuoteAddsNoSlash(nsem.stormName);
    QuoteAddsNoSlash(settings.nsemDir);
    QuoteAddsNoSlash(settings.psaDir);
    assert forall i :: 0 <= i < |parts| ==> Segment(parts[i]);
    JoinAllSegments(host, parts);
  }

  /**
   * `get_covered_data_storage_url`: none while the run has no combined
   * snapshot; otherwise the storage backend's URL of that snapshot.
   */
  function CoveredDataStorageUrl(nsem: Nsem, backend: Backend): (r: Result<Option<string>, StorageError>)
    reads nsem
    ensures r == Success(None) <==> nsem.coveredDataSnapshot == ""
    ensures nsem.coveredDataSnapshot != "" && !backend.Mixin? ==>
      r.Success? && r.value.Some? && r.value.value == StorageUrl(backend, nsem.coveredDataSnapshot).value
    ensures nsem.coveredDataSnapshot != "" && backend.Mixin? ==> r.Failure?
  {
    if nsem.coveredDataSnapshot == "" then Success(None)
    else
      match StorageUrl(backend, nsem.coveredDataSnapshot)
      case Success(url) => Success(Some(url))
      case Failure(err) => Failure(err)
  }
}
