// The image objects, which cache the partition of their ID (internal/core/image.go, user_profile_image.go,
// stream_image.go).
module ImageObjects {
  import opened Common
  import opened IdPartition
  import opened ImagePaths

  const STATIC := "/static"
  const PROFILE_PREFIX := "/user_profile_images"
  const PROFILE_DIR := STATIC + PROFILE_PREFIX
  const STREAM_PREFIX := "/stream_images"
  const STREAM_DIR := STATIC + STREAM_PREFIX
  const URL_HEAD := "/rs/fit/760/760/sm/0/plain/local://"

  /** What the outside world answers during an upload: the parsed form, the directory, the file, the copy. */
  datatype Upload = Upload(form: Option<string>, directoryMade: bool, fileOpened: bool, copied: bool)

  /** What an upload leaves on disk: the directory asked for and the file opened in it. */
  datatype Disk = Disk(directory: Option<string>, file: Option<string>)

  const UNTOUCHED := Disk(None, None)

  datatype UploadError = BadForm | NotSaved | BadId | DiskFailed

  // ---- What the objects answer ----

  /** The object answers with the partition of `k`: its own ID, or the one it cached before its ID changed. */
  predicate AnswersFor(cache: seq<string>, id: GoInt, k: GoInt) {
    k > 0 && (cache == Parts(k) || (cache == [] && id == k))
  }

  /** The cache is empty or belongs to the ID. */
  predicate FreshCache(cache: seq<string>, id: GoInt) { cache == [] || (id > 0 && cache == Parts(id)) }

  /** A path the object gives out names the ID it answers for; it gives out none iff it has neither a cache nor
      a positive ID. */
  ghost predicate PathNames(r: Result<string, PartitionError>, cache: seq<string>, id: GoInt, filename: string,
                            prefix: string)
  {
    && (r.Err? <==> cache == [] && id <= 0)
    && forall k: GoInt :: AnswersFor(cache, id, k) ==>
         r == Ok(PathIn(prefix, Parts(k), filename)) && ParsePath(prefix, r.value) == k
  }

  /** And so does an address. */
  ghost predicate AddressNames(r: Result<string, PartitionError>, cache: seq<string>, id: GoInt, filename: string,
                               head: string, prefix: string, after: string)
  {
    && (r.Err? <==> cache == [] && id <= 0)
    && forall k: GoInt :: AnswersFor(cache, id, k) ==>
         && r == Ok(Address(head, PathIn(prefix, Parts(k), filename), after))
         && ParsePath(head + prefix, r.value) == k
  }

  lemma PathIsNamed(cache: seq<string>, id: GoInt, filename: string, prefix: string)
    ensures PathNames(PathOf(cache, id, filename, prefix), cache, id, filename, prefix)
  {
    forall k: GoInt | AnswersFor(cache, id, k)
      ensures PathOf(cache, id, filename, prefix) == Ok(PathIn(prefix, Parts(k), filename))
      ensures ParsePath(prefix, PathIn(prefix, Parts(k), filename)) == k
    {
      PartsFacts(k);
      PathNamesId(prefix, k, filename, "");
      assert PathIn(prefix, Parts(k), filename) + "" == PathIn(prefix, Parts(k), filename);
    }
  }

  function Link(cache: seq<string>, id: GoInt, filename: string, head: string, prefix: string, after: string)
    : (r: Result<string, PartitionError>)
    ensures AddressNames(r, cache, id, filename, head, prefix, after)
  {
    LinkIsNamed(cache, id, filename, head, prefix, after);
    match PathOf(cache, id, filename, prefix)
    case Ok(path) => Ok(Address(head, path, after))
    case Err(e) => Err(e)
  }

  lemma LinkIsNamed(cache: seq<string>, id: GoInt, filename: string, head: string, prefix: string, after: string)
    ensures PathOf(cache, id, filename, prefix).Err? <==> cache == [] && id <= 0
    ensures forall k: GoInt :: AnswersFor(cache, id, k) ==>
      && PathOf(cache, id, filename, prefix) == Ok(PathIn(prefix, Parts(k), filename))
      && ParsePath(head + prefix, Address(head, PathIn(prefix, Parts(k), filename), after)) == k
  {
    PathIsNamed(cache, id, filename, prefix);
    forall k: GoInt | AnswersFor(cache, id, k)
      ensures ParsePath(head + prefix, Address(head, PathIn(prefix, Parts(k), filename), after)) == k
    {
      AddressNamesId(head, prefix, k, filename, after);
    }
  }

  /** The addresses written out: what is served for a profile image and for a stream's cover. */
  lemma AddressText(id: GoInt, filename: string, stamp: string)
    requires id > 0
    ensures Link([], id, filename, URL_HEAD, PROFILE_PREFIX, "?" + stamp) ==
            Ok(("/rs/fit/760/760/sm/0/plain/local://" + "/user_profile_images" + "/") +
               (Join(Parts(id)) + "_original" + Ext(filename) + "?" + stamp))
    ensures Link([], id, filename, URL_HEAD, STREAM_PREFIX, "?" + stamp) ==
            Ok(("/rs/fit/760/760/sm/0/plain/local://" + "/stream_images" + "/") +
               (Join(Parts(id)) + "_original" + Ext(filename) + "?" + stamp))
  {
    LinkText(id, filename, URL_HEAD, PROFILE_PREFIX, stamp);
    LinkText(id, filename, URL_HEAD, STREAM_PREFIX, stamp);
  }

  lemma LinkText(id: GoInt, filename: string, head: string, prefix: string, stamp: string)
    requires id > 0
    ensures Link([], id, filename, head, prefix, "?" + stamp) ==
            Ok((head + prefix + "/") + (Join(Parts(id)) + "_original" + Ext(filename) + "?" + stamp))
  {
    PartsFacts(id);
    PathShape(prefix, Parts(id), filename);
    AddressParts(head, prefix, Join(Parts(id)), Ext(filename), stamp);
  }

  lemma AddressParts(head: string, prefix: string, joined: string, ext: string, stamp: string)
    ensures Address(head, prefix + "/" + joined + "_original" + ext, "?" + stamp) ==
            (head + prefix + "/") + (joined + "_original" + ext + "?" + stamp)
  {
  }

  /** Files are stored in the directories below the static one that these prefixes name. */
  lemma DirectoriesServed(root: string)
    ensures root + PROFILE_DIR == root + "/static/user_profile_images"
    ensures root + STREAM_DIR == root + "/static/stream_images"
  {
    assert PROFILE_DIR == "/static/user_profile_images" && STREAM_DIR == "/static/stream_images";
  }

  // ---- Uploads ----

  /** The stored file is the one the object serves under its prefix, seen from the static directory, and its
      path names the ID. */
  predicate Serves(disk: Disk, root: string, prefix: string, cache: seq<string>, id: GoInt, filename: string) {
    && PathOf(cache, id, filename, prefix).Ok?
    && disk.file == Some(root + STATIC + PathOf(cache, id, filename, prefix).value)
    && ParsePath(root + (STATIC + prefix), disk.file.value) == id
  }

  /** How far the writing came decides what is on disk and what is reported. */
  predicate Wrote(r: Result<(), UploadError>, disk: Disk, saveDir: string, parts: seq<string>, filename: string,
                  u: Upload)
  {
    && parts != [] && disk.directory == Some(DirIn(saveDir, parts))
    && disk.file == (if u.directoryMade && u.fileOpened then Some(PathIn(saveDir, parts, filename)) else None)
    && (r == if disk.file.Some? && u.copied then Ok(()) else Err(DiskFailed))
  }

  lemma StoredIsServed(disk: Disk, root: string, prefix: string, id: GoInt, filename: string)
    requires id > 0 && disk.file == Some(PathIn(root + (STATIC + prefix), Parts(id), filename))
    requires ParsePath(root + (STATIC + prefix), disk.file.value) == id
    ensures Serves(disk, root, prefix, Parts(id), id, filename)
  {
    PartsFacts(id);
    assert root + (STATIC + prefix) == root + STATIC + prefix;
    PrefixMoves(root + STATIC, prefix, Parts(id), filename);
  }

  /** The cached partition, or one computed by the loop. */
  method PartsOf(cache: seq<string>, id: GoInt) returns (r: Result<seq<string>, PartitionError>)
    ensures r == Cached(cache, id)
  {
    if |cache| > 0 {
      return Ok(cache);
    }
    r := IdPartition.IdPartition(id);
  }

  /** The part of every upload after the row was saved: cache the partition, make the directory, write the
      file. */
  method Store(cache: seq<string>, id: GoInt, filename: string, saveDir: string, u: Upload)
    returns (r: Result<(), UploadError>, disk: Disk, parts: seq<string>)
    ensures r == Err(BadId) <==> cache == [] && id <= 0
    ensures r == Err(BadId) ==> parts == cache && disk == UNTOUCHED
    ensures r != Err(BadId) ==>
      Cached(cache, id) == Ok(parts) && Wrote(r, disk, saveDir, parts, filename, u)
    ensures r.Ok? && FreshCache(cache, id) ==>
      && id > 0 && parts == Parts(id) && disk.file == Some(PathIn(saveDir, Parts(id), filename))
      && ParsePath(saveDir, disk.file.value) == id
  {
    disk, parts := UNTOUCHED, cache;
    var found := PartsOf(cache, id);
    if found.Err? {
      return Err(BadId), disk, parts;
    }
    parts := found.value;
    PathIsNamed(cache, id, filename, saveDir);
    assert FreshCache(cache, id) ==> AnswersFor(cache, id, id);
    disk := Disk(Some(DirIn(saveDir, parts)), None);
    if !u.directoryMade || !u.fileOpened {
      return Err(DiskFailed), disk, parts;
    }
    disk := disk.(file := Some(PathIn(saveDir, parts, filename)));
    r := if u.copied then Ok(()) else Err(DiskFailed);
  }

  // ---- The objects ----

  class UserProfileImage {
    var id: GoInt
    var filename: string
    const stamp: string
    const rootDir: string
    var idPartitions: seq<string>

    constructor (rootDir: string, stamp: string)
      ensures this.rootDir == rootDir && this.stamp == stamp && id == 0 && filename == "" && idPartitions == []
    {
      this.rootDir, this.stamp := rootDir, stamp;
      id, filename, idPartitions := 0, "", [];
    }

    function Path(prefix: string): (r: Result<string, PartitionError>)
      reads this
      ensures PathNames(r, idPartitions, id, filename, prefix)
    {
      PathIsNamed(idPartitions, id, filename, prefix);
      PathOf(idPartitions, id, filename, prefix)
    }

    /** The directory of that path. */
    function Dir(prefix: string): (r: Result<string, PartitionError>)
      reads this
      ensures r.Ok? <==> Path(prefix).Ok?
      ensures r.Ok? ==> r.value + "/" <= Path(prefix).value
    {
      DirOf(idPartitions, id, prefix)
    }

    function URL(): (r: Result<string, PartitionError>)
      reads this
      ensures AddressNames(r, idPartitions, id, filename, URL_HEAD, PROFILE_PREFIX, "?" + stamp)
    {
      Link(idPartitions, id, filename, URL_HEAD, PROFILE_PREFIX, "?" + stamp)
    }

    /** The row is saved first; its new ID names the file, which is then served. An object that has already
        cached a partition keeps using that one. */
    method UploadHandle(u: Upload, saved: Option<GoInt>) returns (r: Result<(), UploadError>, disk: Disk)
      modifies this
      ensures u.form.None? ==> r == Err(BadForm) && disk == UNTOUCHED && unchanged(this)
      ensures u.form.Some? ==> filename == u.form.value
      ensures u.form.Some? && saved.None? ==>
        r == Err(NotSaved) && disk == UNTOUCHED && id == old(id) && idPartitions == old(idPartitions)
      ensures u.form.Some? && saved.Some? ==> id == saved.value
      ensures r.Ok? <==>
        && u.form.Some? && saved.Some? && (old(idPartitions) != [] || saved.value > 0)
        && u.directoryMade && u.fileOpened && u.copied
      ensures r == Err(BadId) ==> id <= 0 && idPartitions == [] && disk == UNTOUCHED
      ensures r == Err(DiskFailed) || r.Ok? ==>
        && Cached(old(idPartitions), id) == Ok(idPartitions)
        && Wrote(r, disk, rootDir + PROFILE_DIR, idPartitions, filename, u)
      ensures r.Ok? && FreshCache(old(idPartitions), id) ==>
        FreshCache(idPartitions, id) && Serves(disk, rootDir, PROFILE_PREFIX, idPartitions, id, filename)
    {
      if u.form.None? {
        return Err(BadForm), UNTOUCHED;
      }
      filename := u.form.value;
      if saved.None? {
        return Err(NotSaved), UNTOUCHED;
      }
      id := saved.value;
      r, disk, idPartitions := Store(idPartitions, id, filename, rootDir + PROFILE_DIR, u);
      if r.Ok? && FreshCache(old(idPartitions), id) {
        StoredIsServed(disk, rootDir, PROFILE_PREFIX, id, filename);
      }
    }
  }

  class Session {
    var id: GoInt
    var imageFilename: Option<string>
    var stamp: string

    constructor (id: GoInt, imageFilename: Option<string>, stamp: string)
      ensures this.id == id && this.imageFilename == imageFilename && this.stamp == stamp
    {
      this.id, this.imageFilename, this.stamp := id, imageFilename, stamp;
    }
  }

  /** The cover of a stream: the ID is that of the session it belongs to. */
  class StreamImage {
    const session: Session
    var description: string
    var filename: string
    const rootDir: string
    var idPartitions: seq<string>

    constructor (session: Session, rootDir: string)
      ensures this.session == session && this.rootDir == rootDir && description == "" && idPartitions == []
      ensures filename == match session.imageFilename case Some(name) => name case None => ""
    {
      this.session, this.rootDir := session, rootDir;
      filename := match session.imageFilename case Some(name) => name case None => "";
      description, idPartitions := "", [];
    }

    function URL(): (r: Result<string, PartitionError>)
      reads this, session
      ensures AddressNames(r, idPartitions, session.id, filename, URL_HEAD, STREAM_PREFIX, "?" + session.stamp)
    {
      Link(idPartitions, session.id, filename, URL_HEAD, STREAM_PREFIX, "?" + session.stamp)
    }

    /** The session's row is updated, under the ID it already has. */
    method UploadHandle(u: Upload, text: string, saved: bool) returns (r: Result<(), UploadError>, disk: Disk)
      modifies this
      ensures u.form.None? ==> r == Err(BadForm) && disk == UNTOUCHED && unchanged(this)
      ensures u.form.Some? ==> filename == u.form.value && description == text
      ensures u.form.Some? && !saved ==> r == Err(NotSaved) && disk == UNTOUCHED && idPartitions == old(idPartitions)
      ensures r.Ok? <==>
        && u.form.Some? && saved && (old(idPartitions) != [] || session.id > 0)
        && u.directoryMade && u.fileOpened && u.copied
      ensures r == Err(BadId) ==> session.id <= 0 && idPartitions == [] && disk == UNTOUCHED
      ensures r == Err(DiskFailed) || r.Ok? ==>
        && Cached(old(idPartitions), session.id) == Ok(idPartitions)
        && Wrote(r, disk, rootDir + STREAM_DIR, idPartitions, filename, u)
      ensures r.Ok? && FreshCache(old(idPartitions), session.id) ==>
        && FreshCache(idPartitions, session.id)
        && Serves(disk, rootDir, STREAM_PREFIX, idPartitions, session.id, filename)
    {
      if u.form.None? {
        return Err(BadForm), UNTOUCHED;
      }
      filename, description := u.form.value, text;
      if !saved {
        return Err(NotSaved), UNTOUCHED;
      }
      r, disk, idPartitions := Store(idPartitions, session.id, filename, rootDir + STREAM_DIR, u);
      if r.Ok? && FreshCache(old(idPartitions), session.id) {
        StoredIsServed(disk, rootDir, STREAM_PREFIX, session.id, filename);
      }
    }
  }

  /** The general form, with directories and address pattern chosen by its creator. The pattern has a place for
      the path, then one for the time stamp, and any text before, between and after them. */
  class Image {
    const id: GoInt
    var description: string
    var filename: string
    const stamp: string
    const rootDir: string
    const imageDir: string
    const prefixPath: string
    const urlHead: string
    const urlMiddle: string
    const urlTail: string
    var idPartitions: seq<string>

    constructor (id: GoInt, filename: string, description: string, stamp: string, rootDir: string, imageDir: string,
                 prefixPath: string, urlHead: string, urlMiddle: string, urlTail: string)
      ensures this.id == id && this.filename == filename && this.description == description && this.stamp == stamp
      ensures this.rootDir == rootDir && this.imageDir == imageDir && this.prefixPath == prefixPath
      ensures this.urlHead == urlHead && this.urlMiddle == urlMiddle && this.urlTail == urlTail && idPartitions == []
    {
      this.id, this.filename, this.description, this.stamp := id, filename, description, stamp;
      this.rootDir, this.imageDir, this.prefixPath := rootDir, imageDir, prefixPath;
      this.urlHead, this.urlMiddle, this.urlTail := urlHead, urlMiddle, urlTail;
      idPartitions := [];
    }

    function URL(): (r: Result<string, PartitionError>)
      reads this
      ensures AddressNames(r, idPartitions, id, filename, urlHead, prefixPath, urlMiddle + stamp + urlTail)
    {
      Link(idPartitions, id, filename, urlHead, prefixPath, urlMiddle + stamp + urlTail)
    }

    /** Whatever the directories, the stored file names the ID; with the image directory being the prefix below
        the static one, it is the file served. */
    method HandleUpload(u: Upload, text: string, saved: bool) returns (r: Result<(), UploadError>, disk: Disk)
      modifies this
      ensures u.form.None? ==> r == Err(BadForm) && disk == UNTOUCHED && unchanged(this)
      ensures u.form.Some? ==> filename == u.form.value && description == text
      ensures u.form.Some? && !saved ==> r == Err(NotSaved) && disk == UNTOUCHED && idPartitions == old(idPartitions)
      ensures r.Ok? <==>
        && u.form.Some? && saved && (old(idPartitions) != [] || id > 0)
        && u.directoryMade && u.fileOpened && u.copied
      ensures r == Err(BadId) ==> id <= 0 && idPartitions == [] && disk == UNTOUCHED
      ensures r == Err(DiskFailed) || r.Ok? ==>
        && Cached(old(idPartitions), id) == Ok(idPartitions)
        && Wrote(r, disk, rootDir + imageDir, idPartitions, filename, u)
      ensures r.Ok? && FreshCache(old(idPartitions), id) ==>
        && FreshCache(idPartitions, id) && disk.file.Some? && ParsePath(rootDir + imageDir, disk.file.value) == id
        && (imageDir == STATIC + prefixPath ==> Serves(disk, rootDir, prefixPath, idPartitions, id, filename))
    {
      if u.form.None? {
        return Err(BadForm), UNTOUCHED;
      }
      filename, description := u.form.value, text;
      if !saved {
        return Err(NotSaved), UNTOUCHED;
      }
      r, disk, idPartitions := Store(idPartitions, id, filename, rootDir + imageDir, u);
      if r.Ok? && FreshCache(old(idPartitions), id) && imageDir == STATIC + prefixPath {
        StoredIsServed(disk, rootDir, prefixPath, id, filename);
      }
    }
  }
}
