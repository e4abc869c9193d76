/**
 * The `hydroshare` session class: the download directory, the authenticated
 * client handle and the map from content file name to local path. The
 * credential readers, the file system (`os.path.exists`, `glob`,
 * `os.path.abspath`, `os.path.relpath`), the overwrite prompt and the clock
 * are parameters.
 */
module Session {
  import opened Wrappers
  import opened Text
  import opened Remote

  /** The environment variable naming the default download directory. */
  const DownloadsVariable := "JUPYTER_DOWNLOADS"

  const MissingDirectoryMessage :=
    "HS resource download directory " + "does not exist"
    + "! Set this using the 'save_dir' input argument or the JUPYTER_DOWNLOADS environment variable"

  /** The two credential readers, in the order the constructor tries them. */
  datatype AuthMethod = OAuth2 | Basic

  /** The download directory: the one given, else the environment's, else the current directory. */
  function DownloadDir(saveDir: Option<string>, env: map<string, string>): string {
    if saveDir.Some? then saveDir.value
    else if DownloadsVariable in env then env[DownloadsVariable]
    else "."
  }

  /** The error raised for a missing download directory says that it does not exist. */
  lemma MissingDirectoryMessageSaysSo()
    ensures HasSubstring(MissingDirectoryMessage, "does not exist")
  {
    assert MissingDirectoryMessage[31..45] == "does not exist";
    assert OccursAt(MissingDirectoryMessage, "does not exist", 31);
    HasSubstringIff(MissingDirectoryMessage, "does not exist");
  }

  // ---------------------------------------------------------------------------
  // Resource types
  // ---------------------------------------------------------------------------

  /** `{r.lower(): r for r in types}`, built one type at a time. */
  function TypeTable(types: seq<string>): map<string, string> {
    if types == [] then map[]
    else
      var last := types[|types| - 1];
      TypeTable(types[..|types| - 1])[Lower(last) := last]
  }

  /** Every entry of the table is a server type, filed under its own lower case. */
  lemma {:induction false} TypeTableEntries(types: seq<string>)
    ensures forall k :: k in TypeTable(types) ==> TypeTable(types)[k] in types && Lower(TypeTable(types)[k]) == k
  {
    if types != [] {
      var init := types[..|types| - 1];
      TypeTableEntries(init);
      assert types == init + [types[|types| - 1]];
    }
  }

  /** Every server type is in the table under its lower-cased name. */
  lemma {:induction false} TypeTableCovers(types: seq<string>)
    ensures forall i :: 0 <= i < |types| ==> Lower(types[i]) in TypeTable(types)
  {
    if types != [] {
      var init := types[..|types| - 1];
      TypeTableCovers(init);
      assert forall i :: 0 <= i < |types| - 1 ==> init[i] == types[i];
    }
  }

  /** When several server types lower-case alike, the table keeps the last of them. */
  lemma {:induction false} TypeTableLastWins(types: seq<string>, i: nat)
    requires i < |types|
    requires forall j :: i < j < |types| ==> Lower(types[j]) != Lower(types[i])
    ensures Lower(types[i]) in TypeTable(types) && TypeTable(types)[Lower(types[i])] == types[i]
  {
    if i < |types| - 1 {
      var init := types[..|types| - 1];
      assert init[i] == types[i];
      assert forall j :: i < j < |init| ==> init[j] == types[j];
      TypeTableLastWins(init, i);
    }
  }

  /**
   * The lookup uses the requested name exactly as given, against lower-cased
   * keys: a name matches exactly when some server type lower-cases to it, so
   * only an all-lower-case name can match.
   */
  lemma {:induction false} TypeMatchIsLowerCase(types: seq<string>, name: string)
    ensures name in TypeTable(types) <==> exists i :: 0 <= i < |types| && Lower(types[i]) == name
    ensures name in TypeTable(types) ==> Lower(name) == name
  {
    TypeTableEntries(types);
    TypeTableCovers(types);
    var t := TypeTable(types);
    if name in t {
      var r := t[name];
      var i :| 0 <= i < |types| && types[i] == r;
      LowerIdempotent(r);
    }
  }

  /** The default type name, `GenericResource`, is not lower case, so it never matches a server type. */
  lemma DefaultTypeNeverMatches(types: seq<string>)
    ensures "GenericResource" !in TypeTable(types)
  {
    TypeMatchIsLowerCase(types, "GenericResource");
    assert Lower("GenericResource")[0] == 'g';
  }

  // ---------------------------------------------------------------------------
  // Derived resources
  // ---------------------------------------------------------------------------

  /** The line inserted between the parent's abstract and the new one. */
  function ModifiedNote(now: string): string {
    "\n\n[Modified in JupyterHub on " + now + "]\n"
  }

  /** Python values a `set` can hold: the immutable ones. */
  predicate Hashable(v: Value) {
    v.Str? || v.Int? || v.Null?
  }

  /**
   * The abstract and keywords of a resource derived from `parent`: the
   * parent's abstract, the note and the new abstract; the set union of the
   * given and the parent's keywords. None when Python would raise: the parent
   * lacks either attribute, its abstract is not a string, its keywords are not
   * a list, or one of them cannot go into a set.
   */
  function Derive(parent: Attrs, abstractText: string, keywords: seq<string>, now: string)
    : Option<(string, set<Value>)>
  {
    if "abstract" !in parent || !parent["abstract"].Str? then None
    else if "keywords" !in parent || !parent["keywords"].List? then None
    else
      var inherited := parent["keywords"].items;
      if exists v :: v in inherited && !Hashable(v) then None
      else
        Some((parent["abstract"].s + ModifiedNote(now) + abstractText,
              (set k | k in keywords :: Str(k)) + (set v | v in inherited)))
  }

  /**
   * Deriving succeeds exactly when the parent has a string abstract and a list
   * of hashable keywords; the new abstract starts with the parent's, then the
   * note, and ends with the given one; the keywords are exactly the given ones
   * and the parent's.
   */
  lemma DeriveSpec(parent: Attrs, abstractText: string, keywords: seq<string>, now: string)
    ensures Derive(parent, abstractText, keywords, now).Some? <==>
      && "abstract" in parent && parent["abstract"].Str?
      && "keywords" in parent && parent["keywords"].List?
      && forall v :: v in parent["keywords"].items ==> Hashable(v)
    ensures Derive(parent, abstractText, keywords, now).Some? ==>
      var (a, kws) := Derive(parent, abstractText, keywords, now).value;
      && StartsWith(a, parent["abstract"].s + ModifiedNote(now))
      && a[|parent["abstract"].s + ModifiedNote(now)|..] == abstractText
      && (forall k :: k in keywords ==> Str(k) in kws)
      && (forall v :: v in parent["keywords"].items ==> v in kws)
      && (forall v :: v in kws ==> v in parent["keywords"].items || (v.Str? && v.s in keywords))
  {
  }

  // ---------------------------------------------------------------------------
  // Uploads and content maps
  // ---------------------------------------------------------------------------

  /** The position of the first file the service refuses, or `|files|` when it takes them all. */
  function FirstRejected(files: seq<string>, rejected: set<string>): (k: nat)
    ensures k <= |files|
    ensures forall i :: 0 <= i < k ==> files[i] !in rejected
    ensures k < |files| ==> files[k] in rejected
  {
    if files == [] || files[0] in rejected then 0
    else 1 + FirstRejected(files[1..], rejected)
  }

  /**
   * `{basename(f): path(f) for f in files}` built one file at a time: the keys
   * are the base names, and a later file with the same base name replaces an
   * earlier one.
   */
  function ContentMap(files: seq<string>, path: string -> string): map<string, string> {
    if files == [] then map[]
    else
      var last := files[|files| - 1];
      ContentMap(files[..|files| - 1], path)[Basename(last) := path(last)]
  }

  /** The keys of a content map are exactly the base names of its files. */
  lemma {:induction false} ContentMapKeys(files: seq<string>, path: string -> string)
    ensures forall i :: 0 <= i < |files| ==> Basename(files[i]) in ContentMap(files, path)
    ensures forall k :: k in ContentMap(files, path) ==> exists i :: 0 <= i < |files| && Basename(files[i]) == k
  {
    if files != [] {
      var init := files[..|files| - 1];
      ContentMapKeys(init, path);
      forall i | 0 <= i < |files| - 1
        ensures files[i] == init[i]
      {
      }
    }
  }

  /** The entry for a base name comes from the last file with that base name. */
  lemma {:induction false} ContentMapLastWins(files: seq<string>, path: string -> string, i: nat)
    requires i < |files|
    requires forall j :: i < j < |files| ==> Basename(files[j]) != Basename(files[i])
    ensures Basename(files[i]) in ContentMap(files, path)
    ensures ContentMap(files, path)[Basename(files[i])] == path(files[i])
  {
    if i < |files| - 1 {
      var init := files[..|files| - 1];
      assert init[i] == files[i];
      ContentMapLastWins(init, path, i);
    }
  }

  /** The path of a content file found by a search: the file name `glob` returned. */
  function Verbatim(f: string): string { f }

  /**
   * Where a local copy of a resource keeps its content files. Two layouts
   * exist, so every file under `<resdir>/<id>/data/contents` and then every
   * file under `<resdir>/data/contents` is searched for, in that order.
   */
  function SearchPaths(resdir: string, resourceId: string): (ps: seq<string>)
    ensures |ps| == 2
  {
    [PathJoin(resdir, resourceId + "/data/contents/*"), PathJoin(resdir, "data/contents/*")]
  }

  /** `getContentPath`: `<resdir>/<id>/data/contents` when the resource directory was found. */
  function ContentPath(resdir: Option<string>, resourceId: string): (p: Option<string>)
    ensures p.Some? <==> resdir.Some?
  {
    if resdir.Some? then Some(PathJoin(PathJoin(resdir.value, resourceId), "data/contents"))
    else None
  }

  /**
   * For an ordinary resource id (non-empty, no leading or trailing '/'), the
   * first search path is the content path followed by a wildcard: the two agree on
   * where the content of a downloaded resource lives.
   */
  lemma ContentPathIsFirstSearchPath(resdir: string, resourceId: string)
    requires resourceId != [] && resourceId[0] != '/' && resourceId[|resourceId| - 1] != '/'
    ensures PathJoin(ContentPath(Some(resdir), resourceId).value, "*")
         == SearchPaths(resdir, resourceId)[0]
  {
    var tail := resourceId + "/data/contents/*";
    var sep := if resdir == [] || resdir[|resdir| - 1] == '/' then "" else "/";
    assert !StartsWith(resourceId, "/") by { assert resourceId[..1][0] == resourceId[0]; }
    assert !StartsWith(tail, "/") by { assert tail[..1][0] == resourceId[0]; }
    var base := PathJoin(resdir, resourceId);
    assert base == resdir + sep + resourceId;
    assert PathJoin(resdir, tail) == resdir + sep + tail;
    assert base[|base| - 1] == resourceId[|resourceId| - 1];
    var p := PathJoin(base, "data/contents");
    assert p == base + "/" + "data/contents";
    assert PathJoin(p, "*") == p + "/" + "*";
    ContentsPatternSplits();
    RegroupPath(resdir, sep, resourceId, "data/contents", "/data/contents/*");
  }

  /** The pattern of the first search path, cut where the content path and the wildcard meet. */
  lemma ContentsPatternSplits()
    ensures "/data/contents/*" == "/" + "data/contents" + "/" + "*"
  {
  }

  /** Regrouping the concatenations of a joined path. */
  lemma RegroupPath(root: string, sep: string, id: string, dir: string, tail: string)
    requires tail == "/" + dir + "/" + "*"
    ensures ((root + sep + id) + "/" + dir) + "/" + "*" == root + sep + (id + tail)
  {
  }

  /** Where `getResource` looks for the content of a fresh download under `dst`. */
  function DownloadedContents(dst: string, resourceId: string): string {
    PathJoin(PathJoin(dst, resourceId + "/" + resourceId), "data/contents/*")
  }

  /** What `createResource` did; the Python method returns None in every case. */
  datatype CreateStatus =
    | InvalidType                  // the requested type is not one of the service's
    | ParentUnavailable            // the parent's metadata could not be read
    | Raised                       // an exception escaped: no client, or the create request failed
    | Created(resid: string, uploaded: seq<string>, uploadFailed: bool)

  /** What `getResource` did; the Python method returns None in every case. */
  datatype GetStatus = DownloadFailed | Loaded

  /** The requests `createResource` sends before the create request itself. */
  function Lookups(derivedFromId: Option<string>): seq<Call> {
    [GetResourceTypes] + (if derivedFromId.Some? then [GetResourceMetadata(derivedFromId.value)] else [])
  }

  class HydroShare {
    var downloadDir: string
    var hs: Option<Handle>
    var content: map<string, string>

    constructor (dir: string, client: Option<Handle>)
      ensures downloadDir == dir && hs == client && content == map[]
    {
      downloadDir := dir;
      hs := client;
      content := map[];
    }

    /**
     * `hydroshare(save_dir)`: choose the download directory and fail if it is
     * missing, before any credentials are tried; then try OAuth2 and, only if
     * that gives no handle, basic authentication. When neither gives a handle
     * the session is still created, without a client.
     */
    static method Open(saveDir: Option<string>, env: map<string, string>, existing: set<string>,
                       oauth2: Option<Handle>, basic: Option<Handle>)
      returns (r: Result<HydroShare, string>, attempted: seq<AuthMethod>)
      ensures DownloadDir(saveDir, env) !in existing ==> r == Err(MissingDirectoryMessage) && attempted == []
      ensures DownloadDir(saveDir, env) in existing ==>
        && r.Ok? && fresh(r.value)
        && r.value.downloadDir == DownloadDir(saveDir, env)
        && r.value.hs == (if oauth2.Some? then oauth2 else basic)
        && r.value.content == map[]
        && attempted == (if oauth2.Some? then [OAuth2] else [OAuth2, Basic])
    {
      var dir := DownloadDir(saveDir, env);
      if dir !in existing {
        return Err(MissingDirectoryMessage), [];
      }
      var client := oauth2;
      attempted := [OAuth2];
      if client.None? {
        client := basic;
        attempted := attempted + [Basic];
      }
      var session := new HydroShare(dir, client);
      r := Ok(session);
    }

    /** `getResourceMetadata`: the metadata object of a resource, None when fetching it raises. */
    function Metadata(service: Service, resid: string): (m: Option<Attrs>)
      reads this
      ensures m.Some? <==> hs.Some? && resid in service.metadata
      ensures m.Some? ==> m.value == service.metadata[resid]
    {
      if hs.Some? && resid in service.metadata then Some(service.metadata[resid]) else None
    }

    /**
     * `addContentToExistingResource`: one upload request per file, in order.
     * The first refusal raises and stops the remaining uploads; the files
     * uploaded before it stay attached. Without a client the first upload
     * raises before any request is sent.
     */
    method AddContentToExistingResource(resid: string, files: seq<string>, service: Service)
      returns (uploaded: seq<string>, failed: bool, calls: seq<Call>)
      ensures hs.None? ==> uploaded == [] && calls == [] && failed == (files != [])
      ensures hs.Some? ==>
        var k := FirstRejected(files, service.rejectedFiles);
        && uploaded == files[..k]
        && failed == (k < |files|)
        && calls == Uploads(resid, files[..if failed then k + 1 else k])
    {
      uploaded, failed, calls := [], false, [];
      var i := 0;
      while i < |files|
        invariant 0 <= i <= |files|
        invariant hs.None? ==> i == 0
        invariant i <= FirstRejected(files, service.rejectedFiles)
        invariant uploaded == files[..i] && calls == Uploads(resid, files[..i])
      {
        if hs.None? {
          failed := true;
          return;
        }
        calls := calls + [AddResourceFile(resid, files[i])];
        if files[i] in service.rejectedFiles {
          assert files[..i + 1] == files[..i] + [files[i]];
          failed := true;
          return;
        }
        uploaded := uploaded + [files[i]];
        assert files[..i + 1] == files[..i] + [files[i]];
        i := i + 1;
      }
    }

    /**
     * `createResource`: check the type against the service's list, merge in a
     * parent's abstract and keywords, create the resource with the first
     * content file, then upload the remaining files; a failure of those
     * uploads is reported and swallowed.
     */
    method CreateResource(abstractText: string, title: string, derivedFromId: Option<string>,
                          keywords: seq<string>, resourceType: string, contentFiles: seq<string>,
                          public: bool, service: Service, now: string)
      returns (status: CreateStatus, calls: seq<Call>)
      // no client: the type query itself raises
      ensures hs.None? ==> status == Raised && calls == []
      // an unknown type: only the type query is sent
      ensures status == InvalidType <==> hs.Some? && resourceType !in TypeTable(service.resourceTypes)
      ensures status == InvalidType ==> calls == [GetResourceTypes]
      // an unreadable parent: nothing is created
      ensures status == ParentUnavailable <==>
        && hs.Some? && resourceType in TypeTable(service.resourceTypes) && derivedFromId.Some?
        && (Metadata(service, derivedFromId.value).None?
            || Derive(Metadata(service, derivedFromId.value).value, abstractText, keywords, now).None?)
      ensures status == ParentUnavailable ==> calls == Lookups(derivedFromId)
      // otherwise exactly one create request follows the lookups
      ensures status.Created? || (status == Raised && hs.Some?) ==>
        && |calls| > |Lookups(derivedFromId)|
        && calls[..|Lookups(derivedFromId)|] == Lookups(derivedFromId)
        && var create := calls[|Lookups(derivedFromId)|];
        && create.CreateResource?
        && create.resourceType in service.resourceTypes && Lower(create.resourceType) == resourceType
        && create.resourceType == TypeTable(service.resourceTypes)[resourceType]
        && create.title == title
        && create.resourceFile == (if contentFiles == [] then None else Some(contentFiles[0]))
        && (derivedFromId.None? ==> create.abstractText == abstractText && create.keywords == KeywordList(keywords))
        && (derivedFromId.Some? ==>
              create.keywords.KeywordSet?
              && Some((create.abstractText, create.keywords.merged))
                 == Derive(Metadata(service, derivedFromId.value).value, abstractText, keywords, now))
      ensures status == Raised && hs.Some? ==> service.createdId.None? && |calls| == |Lookups(derivedFromId)| + 1
      // the remaining files are uploaded after the create request, up to the first refusal
      ensures status.Created? ==>
        && service.createdId == Some(status.resid)
        && var rest := if |contentFiles| > 1 then contentFiles[1..] else [];
        && var k := FirstRejected(rest, service.rejectedFiles);
        && status.uploaded == rest[..k]
        && status.uploadFailed == (k < |rest|)
        && calls[|Lookups(derivedFromId)| + 1..]
           == Uploads(status.resid, rest[..if status.uploadFailed then k + 1 else k])
    {
      if hs.None? {
        return Raised, [];
      }
      calls := [GetResourceTypes];
      var table := TypeTable(service.resourceTypes);
      if resourceType !in table {
        return InvalidType, calls;
      }
      var resType := table[resourceType];
      TypeTableEntries(service.resourceTypes);
      var abs, kws := abstractText, KeywordList(keywords);
      if derivedFromId.Some? {
        calls := calls + [GetResourceMetadata(derivedFromId.value)];
        var meta := Metadata(service, derivedFromId.value);
        var derived := if meta.Some? then Derive(meta.value, abstractText, keywords, now) else None;
        if derived.None? {
          return ParentUnavailable, calls;
        }
        abs, kws := derived.value.0, KeywordSet(derived.value.1);
      }
      assert calls == Lookups(derivedFromId);
      var first := if |contentFiles| == 0 then None else Some(contentFiles[0]);
      calls := calls + [Call.CreateResource(resType, title, abs, first, kws)];
      if service.createdId.None? {
        return Raised, calls;
      }
      var resid := service.createdId.value;
      var uploaded: seq<string> := [];
      var failed := false;
      if |contentFiles| > 1 {
        var more;
        uploaded, failed, more := AddContentToExistingResource(resid, contentFiles[1..], service);
        calls := calls + more;
      }
      status := Created(resid, uploaded, failed);
    }

    /**
     * Files added one at a time to a content map that already holds the
     * files `prior`: the result is the content map of all of them.
     */
    static method IndexContent(found: map<string, string>, ghost prior: seq<string>,
                               files: seq<string>, path: string -> string)
      returns (m: map<string, string>)
      requires found == ContentMap(prior, path)
      ensures m == ContentMap(prior + files, path)
    {
      m := found;
      assert prior + files[..0] == prior;
      for i := 0 to |files|
        invariant m == ContentMap(prior + files[..i], path)
      {
        assert (prior + files[..i + 1])[..|prior| + i] == prior + files[..i];
        m := m[Basename(files[i]) := path(files[i])];
      }
      assert files[..|files|] == files;
    }

    /**
     * `getResource`: if the resource folder already exists, ask before
     * overwriting; any answer but `n` removes the folder and downloads again,
     * `n` keeps it and skips the download. A failed download returns with the
     * content map untouched; otherwise the files found under the download are
     * merged into the content map by base name, keeping unrelated entries.
     * `absPath` stands for `os.path.abspath`, `localPath` for the relative-path
     * trimming of each file, `existing` for the paths that exist beforehand and
     * `glob` for the listing after the download.
     */
    method GetResource(resourceId: string, destination: string, answer: string, service: Service,
                       existing: set<string>, absPath: string -> string,
                       glob: string -> seq<string>, localPath: string -> string)
      returns (status: GetStatus, removed: Option<string>, calls: seq<Call>)
      modifies this`content
      ensures
        var dst := absPath(PathJoin(downloadDir, destination));
        var folder := PathJoin(dst, resourceId);
        var download := !(folder in existing && answer == "n");
        && removed == (if folder in existing && answer != "n" then Some(folder) else None)
        && calls == (if download && hs.Some? then [Call.GetResource(resourceId, dst)] else [])
        && (status == DownloadFailed <==> download && (hs.None? || resourceId !in service.downloadable))
        && (status == DownloadFailed ==> content == old(content))
        && (status == Loaded ==>
              content == old(content) + ContentMap(glob(DownloadedContents(dst, resourceId)), localPath))
    {
      var dst := absPath(PathJoin(downloadDir, destination));
      var folder := PathJoin(dst, resourceId);
      var download := true;
      removed, calls := None, [];
      if folder in existing {
        if answer != "n" {
          removed := Some(folder);
        } else {
          download := false;
        }
      }
      if download {
        if hs.None? {
          return DownloadFailed, removed, calls;
        }
        calls := [Call.GetResource(resourceId, dst)];
        if resourceId !in service.downloadable {
          return DownloadFailed, removed, calls;
        }
      }
      var found := IndexContent(map[], [], glob(DownloadedContents(dst, resourceId)), localPath);
      assert [] + glob(DownloadedContents(dst, resourceId)) == glob(DownloadedContents(dst, resourceId));
      content := content + found;
      status := Loaded;
    }

    /**
     * `loadResourceFromLocal`: when the resource directory is found, replace
     * the content map with the files of both search paths, the second path's
     * files overriding the first's on equal base names; otherwise leave it as
     * it is.
     */
    method LoadResourceFromLocal(resourceId: string, resdir: Option<string>, glob: string -> seq<string>)
      modifies this`content
      ensures resdir.None? ==> content == old(content)
      ensures resdir.Some? ==>
        var ps := SearchPaths(resdir.value, resourceId);
        content == ContentMap(glob(ps[0]) + glob(ps[1]), Verbatim)
    {
      if resdir.None? {
        return;
      }
      var paths := SearchPaths(resdir.value, resourceId);
      var found: map<string, string> := map[];
      ghost var scanned: seq<string> := [];
      for j := 0 to |paths|
        invariant scanned == (if j == 0 then [] else if j == 1 then glob(paths[0]) else glob(paths[0]) + glob(paths[1]))
        invariant found == ContentMap(scanned, Verbatim)
      {
        var files := glob(paths[j]);
        found := IndexContent(found, scanned, files, Verbatim);
        scanned := scanned + files;
      }
      content := found;
    }
  }

  /**
   * After a local load, a file of the second search path wins over every
   * file of the first with the same base name (unless a later file of the
   * second path shares it too).
   */
  lemma SecondSearchPathWins(first: seq<string>, second: seq<string>, i: nat)
    requires i < |second|
    requires forall j :: i < j < |second| ==> Basename(second[j]) != Basename(second[i])
    ensures Basename(second[i]) in ContentMap(first + second, Verbatim)
    ensures ContentMap(first + second, Verbatim)[Basename(second[i])] == second[i]
  {
    var all := first + second;
    assert all[|first| + i] == second[i];
    forall j | |first| + i < j < |all|
      ensures Basename(all[j]) != Basename(all[|first| + i])
    {
      assert all[j] == second[j - |first|];
    }
    ContentMapLastWins(all, Verbatim, |first| + i);
  }

  /**
   * Merging new files into the content map keeps every entry whose base name
   * none of the new files has.
   */
  lemma MergeKeepsUnrelated(before: map<string, string>, files: seq<string>, path: string -> string, name: string)
    requires name in before
    requires forall i :: 0 <= i < |files| ==> Basename(files[i]) != name
    ensures name in before + ContentMap(files, path)
    ensures (before + ContentMap(files, path))[name] == before[name]
  {
    ContentMapKeys(files, path);
  }
}
