/**
 * `main()`: one run of the page. The roster comes through the cache, the
 * page shows either the no-data notice or the lookup answer, and then the
 * admin panel runs, so an upload takes effect on the next run.
 */
module App {
  import opened Wrappers
  import opened Paths
  import opened Loader
  import opened Lookup
  import opened Cache
  import opened Admin

  /** What a run of `load_df` through the cache returns at time `now`. */
  function Served(cache: RosterCache, fs: FileSystem, root: Path, read: (Bytes, Reader) -> ParseOutcome, now: real): LoadResult
    reads cache, fs
  {
    if cache.Fresh(now) then cache.value else LoadDf(fs.files, root, read)
  }

  /** One run of the page with the widgets' values as parameters. */
  method Page(fs: FileSystem, cache: RosterCache, root: Path, read: (Bytes, Reader) -> ParseOutcome, now: real,
              configured: Option<string>, sid: string, clicked: bool, pw: string, upload: Option<Upload>)
    returns (view: View, admin: AdminOutcome)
    modifies fs, cache
    ensures view == MainView(old(Served(cache, fs, root, read, now)), root, sid, clicked)
    ensures admin == Decide(configured, pw, upload)
    ensures admin.Written? ==> fs.files == old(fs.files)[admin.target := upload.value.data] && !cache.valid
    ensures !admin.Written? ==> fs.files == old(fs.files) && cache.Fresh(now)
    ensures !admin.Written? ==> cache.value == old(Served(cache, fs, root, read, now))
    ensures !admin.Written? ==> cache.stamp == if old(cache.Fresh(now)) then old(cache.stamp) else now
  {
    var files := fs.files;
    var loaded, _ := cache.Get(now, () => LoadDf(files, root, read));
    view := MainView(loaded, root, sid, clicked);
    admin := AdminPanel(fs, cache, configured, pw, upload);
  }

  /** A run that writes an upload, followed by any later run (whatever its
      password box and uploader hold, since the widgets keep their values
      across reruns): the second run reloads from the updated files, however
      little time has passed. */
  method UploadThenRerun(fs: FileSystem, cache: RosterCache, root: Path, read: (Bytes, Reader) -> ParseOutcome,
                         now1: real, now2: real, configured: Option<string>, pw: string, upload: Upload,
                         sid: string, clicked: bool, pw2: string, upload2: Option<Upload>)
    returns (admin: AdminOutcome, view: View)
    requires configured.Some? && configured.value != "" && pw == configured.value
    modifies fs, cache
    ensures admin == Written(UploadTarget(upload.name))
    ensures view == MainView(LoadDf(old(fs.files)[admin.target := upload.data], root, read), root, sid, clicked)
  {
    var _, a := Page(fs, cache, root, read, now1, configured, "", false, pw, Some(upload));
    admin := a;
    var v, _ := Page(fs, cache, root, read, now2, configured, sid, clicked, pw2, upload2);
    view := v;
  }

  /** Two runs without an upload, the second less than `Ttl` seconds after
      the first one loaded: the second is served the same roster from the
      cache, even if the files changed in between. */
  method RerunWithinTtl(fs: FileSystem, cache: RosterCache, root: Path, read: (Bytes, Reader) -> ParseOutcome,
                        now1: real, now2: real, configured: Option<string>, sid: string, clicked: bool,
                        pw1: string, pw2: string, upload2: Option<Upload>, files2: map<Path, Bytes>)
    returns (view1: View, view2: View)
    requires !cache.Fresh(now1) && now1 <= now2 < now1 + Ttl
    modifies fs, cache
    ensures view1 == MainView(old(LoadDf(fs.files, root, read)), root, sid, clicked)
    ensures view2 == view1
  {
    var a1;
    view1, a1 := Page(fs, cache, root, read, now1, configured, sid, clicked, pw1, None);
    fs.files := files2;  // the files on disk change outside the script
    assert cache.Fresh(now2);
    var a2;
    view2, a2 := Page(fs, cache, root, read, now2, configured, sid, clicked, pw2, upload2);
  }
}
