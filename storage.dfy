/**
 * The storage helpers of the serverless handler (`docker/utils.py`): how an S3 path
 * splits into bucket and key, how an upload key is composed, which model entries
 * `download_models` fetches and to where, and which files `cleanup_outputs` removes.
 * The network, S3 and the file system are not modelled: the file system is the set of
 * paths that exist, and each loop returns the downloads or removals it would perform.
 */
module Storage {
  import opened Wrappers
  import Paths

  // ---------------------------------------------------------------------------
  // S3 paths and keys

  const S3Scheme: string := "s3://"

  /** `s3_path[5:]` when the path starts with `s3://`, the path itself otherwise. */
  function StripScheme(p: string): (r: string)
    ensures |p| >= 5 && p[..5] == S3Scheme ==> p == S3Scheme + r
    ensures !(|p| >= 5 && p[..5] == S3Scheme) ==> r == p
  {
    if |p| >= 5 && p[..5] == S3Scheme then
      assert p == p[..5] + p[5..];
      p[5..]
    else p
  }

  /** `s.find(c)`: the index of the first `c` in `s`, or -1 when there is none. */
  function IndexOf(s: string, c: char): (r: int)
    ensures -1 <= r < |s|
    ensures r >= 0 ==> s[r] == c
    ensures forall i :: 0 <= i < |s| && (r < 0 || i < r) ==> s[i] != c
  {
    if |s| == 0 then -1
    else if s[0] == c then 0
    else
      var r := IndexOf(s[1..], c);
      if r < 0 then -1 else r + 1
  }

  /**
   * `download_from_s3`'s parsing: strip the scheme, then `split("/", 1)`. The bucket
   * is everything before the first '/', the key everything after it; with no '/',
   * the whole text is the bucket and the key is empty.
   */
  function ParseS3Path(p: string): (r: (string, string))
    ensures '/' !in r.0
    ensures '/' in StripScheme(p) ==> StripScheme(p) == r.0 + "/" + r.1
    ensures '/' !in StripScheme(p) ==> r == (StripScheme(p), "")
  {
    var s := StripScheme(p);
    var i := IndexOf(s, '/');
    if i < 0 then (s, "")
    else
      assert s == s[..i] + "/" + s[i + 1..];
      (s[..i], s[i + 1..])
  }

  /** The first '/' of `bucket + "/" + key` is the one after the bucket. */
  lemma IndexOfAfterBucket(bucket: string, key: string)
    requires '/' !in bucket
    ensures IndexOf(bucket + "/" + key, '/') == |bucket|
  {
    var s := bucket + "/" + key;
    assert s[|bucket|] == '/';
    assert forall i :: 0 <= i < |bucket| ==> s[i] == bucket[i];
  }

  /** Parsing `s3://bucket/key` gives back the bucket and the key, for any bucket without '/'. */
  lemma ParseS3RoundTrip(bucket: string, key: string)
    requires '/' !in bucket
    ensures ParseS3Path(S3Scheme + bucket + "/" + key) == (bucket, key)
  {
    var s := bucket + "/" + key;
    assert S3Scheme + bucket + "/" + key == S3Scheme + s;
    assert (S3Scheme + s)[..5] == S3Scheme;
    assert StripScheme(S3Scheme + s) == s;
    IndexOfAfterBucket(bucket, key);
    assert s[..|bucket|] == bucket;
    assert s[|bucket| + 1..] == key;
  }

  /**
   * Without the scheme the text parses the same way, `bucket/key` giving the bucket
   * and the key, except for the bucket "s3:", which makes the text look like a
   * scheme.
   */
  lemma ParseBareRoundTrip(bucket: string, key: string)
    requires '/' !in bucket && bucket != "s3:"
    ensures ParseS3Path(bucket + "/" + key) == (bucket, key)
  {
    var s := bucket + "/" + key;
    if |s| >= 5 {
      if |bucket| >= 4 {
        assert s[..5][3] == bucket[3] != S3Scheme[3];
      } else if |bucket| == 3 {
        assert s[..5][..3] == bucket;
      } else {
        assert s[..5][|bucket|] == '/' != S3Scheme[|bucket|];
      }
    }
    IndexOfAfterBucket(bucket, key);
    assert s[..|bucket|] == bucket;
    assert s[|bucket| + 1..] == key;
  }

  /** `upload_to_s3`'s key: the prefix, with no separator added, then the file's basename. */
  function UploadKey(filepath: string, prefix: string): (key: string)
    ensures |key| == |prefix| + |Paths.Basename(filepath)|
    ensures key[..|prefix|] == prefix && key[|prefix|..] == Paths.Basename(filepath)
  {
    var filename := Paths.Basename(filepath);
    var key := if prefix != "" then prefix + filename else filename;
    assert key[..|prefix|] == prefix && key[|prefix|..] == filename;
    key
  }

  /** With an empty prefix or one ending in '/', the key's last component is the file's basename. */
  lemma UploadKeyBasename(filepath: string, prefix: string)
    requires prefix == "" || prefix[|prefix| - 1] == '/'
    ensures Paths.Basename(UploadKey(filepath, prefix)) == Paths.Basename(filepath)
  {
    var name := Paths.Basename(filepath);
    if prefix == "" {
      assert UploadKey(filepath, prefix) == Paths.Join(prefix, name);
    } else {
      assert UploadKey(filepath, prefix) == prefix + name;
      assert Paths.Join(prefix, name) == prefix + name by {
        if |name| > 0 { assert name[0] != '/' by { assert name[0] in name; } }
      }
    }
    Paths.BasenameOfJoin(prefix, name);
  }

  // ---------------------------------------------------------------------------
  // Model downloads

  const ComfyUIPath: string := "/comfyui"

  /** The model types `download_models` knows and the directory each one is stored in. */
  function ModelDir(modelType: string): (r: Option<string>)
    ensures r.Some? <==> modelType in {"checkpoints", "loras", "vae", "embeddings", "controlnet"}
    ensures r.Some? ==> r.value == "/comfyui/models/" + modelType
  {
    if modelType in {"checkpoints", "loras", "vae", "embeddings", "controlnet"}
    then Some(ComfyUIPath + "/models/" + modelType)
    else None
  }

  /**
   * One entry of a model list: a bare URL, a dict with the keys it has among
   * `filename`, `url` and `s3`, or anything else (which is ignored).
   */
  datatype ModelEntry =
    | UrlString(link: string)
    | Spec(filename: Option<string>, url: Option<string>, s3: Option<string>)
    | Other

  datatype Source = FromUrl(url: string) | FromS3(path: string)

  /** A planned `download_file` or `download_from_s3` call. */
  datatype Download = Download(source: Source, destination: string)

  function Destinations(ds: seq<Download>): set<string> {
    set i | 0 <= i < |ds| :: ds[i].destination
  }

  lemma DestinationsAppend(a: seq<Download>, b: seq<Download>)
    ensures Destinations(a + b) == Destinations(a) + Destinations(b)
  {
    forall p | p in Destinations(a) + Destinations(b)
      ensures p in Destinations(a + b)
    {
      if p in Destinations(a) {
        var i :| 0 <= i < |a| && a[i].destination == p;
        assert (a + b)[i] == a[i];
      } else {
        var i :| 0 <= i < |b| && b[i].destination == p;
        assert (a + b)[|a| + i] == b[i];
      }
    }
  }

  /**
   * What one entry does, given the directory of its type and the paths that exist:
   * a bare URL is fetched to `dir/basename(url)`; a dict needs a non-empty
   * `filename`, is fetched to `dir/filename` from `url` if it has one, else from
   * `s3`, else not at all; an existing destination is never fetched again.
   */
  function PlanEntry(dir: string, entry: ModelEntry, present: set<string>): (r: Option<Download>)
    ensures r.Some? ==> r.value.destination !in present
    ensures entry.UrlString? ==>
      var dest := Paths.Join(dir, Paths.Basename(entry.link));
      (r.Some? <==> dest !in present) && (r.Some? ==> r.value == Download(FromUrl(entry.link), dest))
    ensures entry.Spec? ==>
      (r.Some? <==> entry.filename.Some? && entry.filename.value != "" &&
                    Paths.Join(dir, entry.filename.value) !in present &&
                    (entry.url.Some? || entry.s3.Some?))
    ensures entry.Spec? && r.Some? ==>
      r.value.destination == Paths.Join(dir, entry.filename.value) &&
      r.value.source == (if entry.url.Some? then FromUrl(entry.url.value) else FromS3(entry.s3.value))
    ensures entry.Other? ==> r.None?
  {
    match entry
      case UrlString(url) =>
        var dest := Paths.Join(dir, Paths.Basename(url));
        if dest in present then None else Some(Download(FromUrl(url), dest))
      case Spec(filename, url, s3) =>
        if filename.None? || filename.value == "" then None
        else
          var dest := Paths.Join(dir, filename.value);
          if dest in present then None
          else if url.Some? then Some(Download(FromUrl(url.value), dest))
          else if s3.Some? then Some(Download(FromS3(s3.value), dest))
          else None
      case Other => None
  }

  function OptionSeq(o: Option<Download>): seq<Download> {
    if o.Some? then [o.value] else []
  }

  /** The downloads for one model list, in order; each one's destination exists for the entries after it. */
  function PlanModels(dir: string, entries: seq<ModelEntry>, existing: set<string>): seq<Download> {
    if entries == [] then []
    else
      var prev := PlanModels(dir, entries[..|entries| - 1], existing);
      prev + OptionSeq(PlanEntry(dir, entries[|entries| - 1], existing + Destinations(prev)))
  }

  /** The downloads for the whole configuration, type by type in the dict's order. */
  function PlanConfig(config: seq<(string, seq<ModelEntry>)>, existing: set<string>): seq<Download> {
    if config == [] then []
    else
      var prev := PlanConfig(config[..|config| - 1], existing);
      var (modelType, entries) := config[|config| - 1];
      var dir := ModelDir(modelType);
      prev + (if dir.Some? then PlanModels(dir.value, entries, existing + Destinations(prev)) else [])
  }

  /** PlanModels on one more entry. */
  lemma PlanModelsStep(dir: string, entries: seq<ModelEntry>, j: nat, existing: set<string>)
    requires j < |entries|
    ensures var prev := PlanModels(dir, entries[..j], existing);
      PlanModels(dir, entries[..j + 1], existing) ==
      prev + OptionSeq(PlanEntry(dir, entries[j], existing + Destinations(prev)))
  {
    assert entries[..j + 1][..j] == entries[..j];
  }

  /** The inner loop of `download_models`, over one model list whose type is known. */
  method DownloadModelList(dir: string, entries: seq<ModelEntry>, existing: set<string>)
    returns (downloads: seq<Download>)
    ensures downloads == PlanModels(dir, entries, existing)
  {
    downloads := [];
    var present := existing;
    var j := 0;
    while j < |entries|
      invariant 0 <= j <= |entries|
      invariant downloads == PlanModels(dir, entries[..j], existing)
      invariant present == existing + Destinations(downloads)
    {
      PlanModelsStep(dir, entries, j, existing);
      var d := PlanEntry(dir, entries[j], present);
      DestinationsAppend(downloads, OptionSeq(d));
      downloads := downloads + OptionSeq(d);
      present := present + Destinations(OptionSeq(d));  // the downloaded file now exists
      j := j + 1;
    }
    assert entries[..j] == entries;
  }

  /**
   * `download_models`: the outer loop over the configuration, returning the
   * downloads in the order they are made. `existing` is the file system beforehand.
   */
  method DownloadModels(config: seq<(string, seq<ModelEntry>)>, existing: set<string>)
    returns (downloads: seq<Download>)
    ensures downloads == PlanConfig(config, existing)
  {
    downloads := [];
    var present := existing;
    var i := 0;
    while i < |config|
      invariant 0 <= i <= |config|
      invariant downloads == PlanConfig(config[..i], existing)
      invariant present == existing + Destinations(downloads)
    {
      var (modelType, entries) := config[i];
      assert config[..i + 1][..i] == config[..i];
      var dir := ModelDir(modelType);
      if dir.Some? {
        var planned := DownloadModelList(dir.value, entries, present);
        DestinationsAppend(downloads, planned);
        downloads := downloads + planned;
        present := present + Destinations(planned);
      }
      i := i + 1;
    }
    assert config[..i] == config;
  }

  /** No download overwrites a path that existed, and no two downloads share a destination. */
  predicate FreshDistinct(ds: seq<Download>, existing: set<string>) {
    && (forall i :: 0 <= i < |ds| ==> ds[i].destination !in existing)
    && (forall i, j :: 0 <= i < j < |ds| ==> ds[i].destination != ds[j].destination)
  }

  lemma FreshDistinctAppend(a: seq<Download>, b: seq<Download>, existing: set<string>)
    requires FreshDistinct(a, existing) && FreshDistinct(b, existing + Destinations(a))
    ensures FreshDistinct(a + b, existing)
  {
    forall i, j | 0 <= i < j < |a + b|
      ensures (a + b)[i].destination != (a + b)[j].destination
    {
      if j >= |a| && i < |a| {
        assert (a + b)[j] == b[j - |a|];
        assert a[i].destination in Destinations(a);
      }
    }
  }

  lemma {:induction false} PlanModelsFreshDistinct(dir: string, entries: seq<ModelEntry>, existing: set<string>)
    ensures FreshDistinct(PlanModels(dir, entries, existing), existing)
  {
    if entries != [] {
      var prev := PlanModels(dir, entries[..|entries| - 1], existing);
      PlanModelsFreshDistinct(dir, entries[..|entries| - 1], existing);
      FreshDistinctAppend(prev, OptionSeq(PlanEntry(dir, entries[|entries| - 1], existing + Destinations(prev))), existing);
    }
  }

  /**
   * Downloading never overwrites a model file that was already present, and no
   * destination is written twice, even when two entries name the same file.
   */
  lemma {:induction false} PlanConfigFreshDistinct(config: seq<(string, seq<ModelEntry>)>, existing: set<string>)
    ensures FreshDistinct(PlanConfig(config, existing), existing)
  {
    if config != [] {
      var prev := PlanConfig(config[..|config| - 1], existing);
      PlanConfigFreshDistinct(config[..|config| - 1], existing);
      var (modelType, entries) := config[|config| - 1];
      if ModelDir(modelType).Some? {
        PlanModelsFreshDistinct(ModelDir(modelType).value, entries, existing + Destinations(prev));
        assert existing + Destinations(prev) + Destinations([]) == existing + Destinations(prev);
        FreshDistinctAppend(prev, PlanModels(ModelDir(modelType).value, entries, existing + Destinations(prev)), existing);
      } else {
        assert PlanConfig(config, existing) == prev + [];
      }
    }
  }

  /** The configuration without the model types `download_models` does not know. */
  function KnownOnly(config: seq<(string, seq<ModelEntry>)>): (r: seq<(string, seq<ModelEntry>)>)
    ensures forall i :: 0 <= i < |r| ==> ModelDir(r[i].0).Some?
  {
    if config == [] then []
    else
      var last := config[|config| - 1];
      KnownOnly(config[..|config| - 1]) + (if ModelDir(last.0).Some? then [last] else [])
  }

  /** Unknown model types are skipped entirely: dropping them changes no download. */
  lemma {:induction false} UnknownTypesIgnored(config: seq<(string, seq<ModelEntry>)>, existing: set<string>)
    ensures PlanConfig(config, existing) == PlanConfig(KnownOnly(config), existing)
  {
    if config != [] {
      var init, last := config[..|config| - 1], config[|config| - 1];
      UnknownTypesIgnored(init, existing);
      var prev := PlanConfig(init, existing);
      if ModelDir(last.0).Some? {
        var k := KnownOnly(init) + [last];
        assert KnownOnly(config) == k;
        assert k[..|k| - 1] == KnownOnly(init) && k[|k| - 1] == last;
        var tail := PlanModels(ModelDir(last.0).value, last.1, existing + Destinations(prev));
        assert PlanConfig(config, existing) == prev + tail;
        assert PlanConfig(k, existing) == PlanConfig(KnownOnly(init), existing) + tail;
      } else {
        assert KnownOnly(init) + [] == KnownOnly(init);
        assert KnownOnly(config) == KnownOnly(init);
        assert prev + [] == prev;
        assert PlanConfig(config, existing) == prev;
      }
    }
  }

  /** A bare URL is saved under its own file name. */
  lemma UrlEntryKeepsName(dir: string, link: string, present: set<string>)
    requires PlanEntry(dir, UrlString(link), present).Some?
    ensures Paths.Basename(PlanEntry(dir, UrlString(link), present).value.destination) == Paths.Basename(link)
  {
    Paths.BasenameOfJoin(dir, Paths.Basename(link));
  }

  /**
   * A dict entry lands in its type's directory when its filename is relative; an
   * absolute filename replaces the directory, as `os.path.join` does.
   */
  lemma DictEntryDestination(modelType: string, filename: string, link: Option<string>, s3: Option<string>,
                             present: set<string>)
    requires ModelDir(modelType).Some?
    requires PlanEntry(ModelDir(modelType).value, Spec(Some(filename), link, s3), present).Some?
    ensures var d := PlanEntry(ModelDir(modelType).value, Spec(Some(filename), link, s3), present).value;
      d.destination == if filename[0] == '/' then filename else "/comfyui/models/" + modelType + "/" + filename
  {
    var dir := ModelDir(modelType).value;
    assert dir[|dir| - 1] == modelType[|modelType| - 1] != '/' by {
      assert modelType in {"checkpoints", "loras", "vae", "embeddings", "controlnet"};
    }
  }

  // ---------------------------------------------------------------------------
  // Output cleanup

  /**
   * One name in `os.listdir(output_dir)`: whether it is a regular file and its
   * modification time, in microseconds (the resolution of `datetime`).
   */
  datatype DirEntry = DirEntry(name: string, isFile: bool, mtime: int)

  const MicrosPerMinute: int := 60 * 1000 * 1000
  const DefaultMaxAgeMinutes: int := 60

  /** `age > timedelta(minutes=max_age_minutes)` for a regular file, with `age = now - file_time`. */
  predicate Expired(e: DirEntry, now: int, maxAgeMinutes: int) {
    e.isFile && now - e.mtime > maxAgeMinutes * MicrosPerMinute
  }

  /** The paths `cleanup_outputs` removes, in listing order. */
  function CleanupPlan(outputDir: string, listing: seq<DirEntry>, now: int, maxAgeMinutes: int): seq<string> {
    if listing == [] then []
    else
      var e := listing[|listing| - 1];
      CleanupPlan(outputDir, listing[..|listing| - 1], now, maxAgeMinutes) +
      (if Expired(e, now, maxAgeMinutes) then [Paths.Join(outputDir, e.name)] else [])
  }

  /**
   * `cleanup_outputs`: the loop over the listing, returning the paths it removes.
   * `now` is `datetime.now()`, in microseconds.
   */
  method CleanupOutputs(outputDir: string, listing: seq<DirEntry>, now: int, maxAgeMinutes: int)
    returns (removed: seq<string>)
    ensures removed == CleanupPlan(outputDir, listing, now, maxAgeMinutes)
  {
    removed := [];
    var i := 0;
    while i < |listing|
      invariant 0 <= i <= |listing|
      invariant removed == CleanupPlan(outputDir, listing[..i], now, maxAgeMinutes)
    {
      assert listing[..i + 1][..i] == listing[..i];
      var e := listing[i];
      var filepath := Paths.Join(outputDir, e.name);
      if e.isFile {
        var age := now - e.mtime;
        if age > maxAgeMinutes * MicrosPerMinute {
          removed := removed + [filepath];
        }
      }
      i := i + 1;
    }
    assert listing[..i] == listing;
  }

  /**
   * Cleanup removes exactly the regular files older than the limit: a path is
   * removed if and only if some listed regular file at that path has expired.
   * Directories are never removed.
   */
  lemma {:induction false} CleanupExact(outputDir: string, listing: seq<DirEntry>, now: int, maxAgeMinutes: int,
                                        path: string)
    ensures path in CleanupPlan(outputDir, listing, now, maxAgeMinutes) <==>
      exists i :: 0 <= i < |listing| && Expired(listing[i], now, maxAgeMinutes) &&
                  Paths.Join(outputDir, listing[i].name) == path
  {
    if listing != [] {
      var init := listing[..|listing| - 1];
      CleanupExact(outputDir, init, now, maxAgeMinutes, path);
      assert forall i :: 0 <= i < |init| ==> init[i] == listing[i];
    }
  }

  /** A longer age limit removes no file a shorter one keeps: the removals shrink as the limit grows. */
  lemma {:induction false} CleanupMonotone(outputDir: string, listing: seq<DirEntry>, now: int, shorter: int, longer: int)
    requires shorter <= longer
    ensures forall p :: p in CleanupPlan(outputDir, listing, now, longer) ==> p in CleanupPlan(outputDir, listing, now, shorter)
  {
    if listing != [] {
      CleanupMonotone(outputDir, listing[..|listing| - 1], now, shorter, longer);
      assert shorter * MicrosPerMinute <= longer * MicrosPerMinute;
    }
  }

  /** With the default limit, a file last modified exactly an hour ago stays; one a microsecond older goes. */
  lemma DefaultLimitIsStrict(outputDir: string, name: string, now: int)
    ensures CleanupPlan(outputDir, [DirEntry(name, true, now - 3600000000)], now, DefaultMaxAgeMinutes) == []
    ensures CleanupPlan(outputDir, [DirEntry(name, true, now - 3600000001)], now, DefaultMaxAgeMinutes) ==
      [Paths.Join(outputDir, name)]
  {
    var one := [DirEntry(name, true, now - 3600000000)];
    assert one[..0] == [];
    var two := [DirEntry(name, true, now - 3600000001)];
    assert two[..0] == [];
  }
}
