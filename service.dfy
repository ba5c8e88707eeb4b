/**
 * FilePondService: request classification, and the staging operations that
 * turn a request into backend effects (store, look up, remove, move).
 *
 * Every storage operation has a specification function over `Fs`, the
 * service's backend state; the methods of `FilePondService` perform the
 * same steps one backend call at a time and are proved to have exactly that
 * effect.
 */
module FilePond {
  import opened PhpValues
  import opened TransferIds
  import opened FileHelper
  import opened Posts
  import opened Transfers
  import opened Storage
  import opened FilesystemAware

  /** A server's configuration, as the service and the upload trait read it. */
  datatype ServerConfig = ServerConfig(route: string, filesystemIdent: string, uploadPath: string, transferDir: string)

  /** `METADATA_FILENAME`. */
  const MetadataFilename: string := ".metadata"

  /** `$path.DIRECTORY_SEPARATOR.$name`. */
  function Join(path: string, name: string): string
  {
    path + "/" + name
  }

  /** The backend state: every mount, and the idents of the current and the target backend. */
  datatype Fs = Fs(mounts: Mounts, current: string, target: string)

  /** The current ident names a backend (otherwise every call on it is a PHP `Error`). */
  predicate Mounted(fs: Fs)
  {
    fs.current in fs.mounts
  }

  function Current(fs: Fs): Backend
    requires Mounted(fs)
  {
    fs.mounts[fs.current]
  }

  function WithCurrent(fs: Fs, b: Backend): (r: Fs)
    requires Mounted(fs)
    ensures Mounted(r) && Current(r) == b
  {
    fs.(mounts := fs.mounts[fs.current := b])
  }

  /** The result of a storage operation: the state afterwards and the reported success. */
  datatype Outcome = Outcome(fs: Fs, ok: bool)

  /** The staging directory of one transfer: `$path/$id`. */
  function TransferDir(path: string, id: string): string
  {
    Join(path, id)
  }

  // removeTransferDirectory
  // =========================================================================

  /**
   * `removeTransferDirectory($path, $id)`: nothing happens for an invalid id;
   * otherwise the backend's `deleteDir` runs on exactly `path/id` and its
   * result is returned.
   */
  function RemoveEffect(fs: Fs, path: string, id: Value): (o: Outcome)
    requires IsValidId(id) ==> Mounted(fs)
    ensures !IsValidId(id) ==> o == Outcome(fs, false)
    ensures IsValidId(id) ==> o.fs == WithCurrent(fs, DeleteDir(Current(fs), TransferDir(path, id.s)).backend)
    ensures IsValidId(id) ==> o.ok == (TransferDir(path, id.s) in Current(fs).dirs)
  {
    if !IsValidId(id) then Outcome(fs, false)
    else
      var s := DeleteDir(Current(fs), TransferDir(path, id.s));
      Outcome(WithCurrent(fs, s.backend), s.ok)
  }

  // moveFile
  // =========================================================================

  /** The file's temporary or staged location, `$file['tmp_name']`. */
  function TmpName(file: Value): string
  {
    ToStr(Field(file, "tmp_name"))
  }

  /** The file's name, `$file['name']`. */
  function FileName(file: Value): string
  {
    ToStr(Field(file, "name"))
  }

  /** A target backend is set (`!empty`) and differs from the current one. */
  predicate CrossBackend(fs: Fs)
  {
    NonEmptyString(fs.target) && fs.target != fs.current
  }

  /** The "OVERWRITE FILES" step: an existing `path` on the current backend is deleted. */
  function ClearDestination(b: Backend, path: string): (r: Backend)
    ensures path !in r.files && r.dirs == b.dirs && r.files == b.files - {path}
  {
    if Has(b, path) then Delete(b, path).backend else b
  }

  /**
   * `moveFile($file, $path)`. An uploaded temporary file is written to
   * `path/name` on the current backend. Any other file is a backend path:
   * an existing `path/name` on the current backend is deleted first; then,
   * with a distinct target backend, the file is copied across and its
   * source deleted only if the copy succeeded; without one, it is renamed.
   */
  function MoveFileEffect(fs: Fs, uploads: map<string, string>, file: Value, path: string): (o: Outcome)
    requires Mounted(fs)
    ensures Mounted(o.fs) && o.fs.current == fs.current && o.fs.target == fs.target
    ensures o.fs.mounts.Keys == fs.mounts.Keys
    ensures Current(o.fs).dirs == Current(fs).dirs
  {
    var dest := Join(path, FileName(file));
    if TmpName(file) in uploads then
      var s := Write(Current(fs), dest, uploads[TmpName(file)]);
      Outcome(WithCurrent(fs, s.backend), s.ok)
    else
      var cleared := WithCurrent(fs, ClearDestination(Current(fs), dest));
      if CrossBackend(fs) then
        var c := MountCopy(cleared.mounts, fs.current, TmpName(file), fs.target, dest);
        if c.ok then
          var moved := cleared.(mounts := c.mounts);
          Outcome(WithCurrent(moved, Delete(Current(moved), TmpName(file)).backend), true)
        else
          Outcome(cleared, false)
      else
        var s := Rename(Current(cleared), TmpName(file), dest);
        Outcome(WithCurrent(cleared, s.backend), s.ok)
  }

  // storeTransfer
  // =========================================================================

  /** The first two steps of `storeTransfer`: the staging directory, then the metadata file. */
  function PrepareStaging(b: Backend, json: Json, dir: string, metadata: Value): (r: Backend)
    ensures Has(r, dir)
    ensures !Truthy(metadata) ==> r.files == b.files
    ensures r.dirs == if Has(b, dir) then b.dirs else b.dirs + {dir}
  {
    var withDir := if !Has(b, dir) then CreateDir(b, dir).backend else b;
    if Truthy(metadata) then Write(withDir, Join(dir, MetadataFilename), json.encode(metadata)).backend
    else withDir
  }

  /**
   * `storeTransfer($path, $transfer)`: ensure `path/id` exists, write the
   * JSON metadata beside the file when the metadata is truthy, then move the
   * main file (and only it) into the directory. The move's result is dropped.
   */
  function StoreEffect(fs: Fs, uploads: map<string, string>, json: Json, path: string,
                       id: string, metadata: Value, main: Value): (r: Fs)
    requires Mounted(fs)
    ensures Mounted(r) && r.current == fs.current && r.target == fs.target
    // the staging directory is the only directory that storing can create
    ensures var b := Current(fs);
      Current(r).dirs == if Has(b, TransferDir(path, id)) then b.dirs else b.dirs + {TransferDir(path, id)}
  {
    var dir := TransferDir(path, id);
    var staged := WithCurrent(fs, PrepareStaging(Current(fs), json, dir, metadata));
    MoveFileEffect(staged, uploads, main, dir).fs
  }

  // getTransfer
  // =========================================================================

  datatype FilePattern =
    | MainFilePattern      // '.+\..+'
    | MetadataFilePattern  // '\.metadata'

  /**
   * A name directly in the listed directory matches the pattern: for the main
   * file, a dot with at least one character before and after it (and no line
   * break before it or right after it, as `.` does not match one); for the
   * metadata file, the name starts with ".metadata". Neither is anchored at
   * the end of the name.
   */
  predicate NameMatches(pattern: FilePattern, name: string)
  {
    match pattern
    case MainFilePattern =>
      exists i :: 1 <= i < |name| - 1 && name[i] == '.' && name[i + 1] != '\n' && '\n' !in name[..i]
    case MetadataFilePattern =>
      |name| >= |MetadataFilename| && name[..|MetadataFilename|] == MetadataFilename
  }

  /**
   * A main-file name has a dot that is neither its first nor its last
   * character; a metadata name starts with a dot and is at least as long as
   * `.metadata`.
   */
  lemma MatchedNameShape(pattern: FilePattern, name: string)
    requires NameMatches(pattern, name)
    ensures pattern.MainFilePattern? ==> |name| >= 3 && '.' in name[1..|name| - 1]
    ensures pattern.MetadataFilePattern? ==> |name| >= 9 && name[0] == '.'
  {
    if pattern.MainFilePattern? {
      var i :| 1 <= i < |name| - 1 && name[i] == '.' && name[i + 1] != '\n' && '\n' !in name[..i];
      assert name[1..|name| - 1][i - 1] == '.';
    } else {
      assert name[0] == name[..|MetadataFilename|][0];
    }
  }

  /** The name of a path directly inside `dir`. */
  function NameIn(dir: string, path: string): string
    requires Under(path, dir)
  {
    path[|dir| + 1..]
  }

  /** The files listed directly inside `dir` whose names match the pattern. */
  function Matching(b: Backend, dir: string, pattern: FilePattern): (s: set<string>)
    ensures forall p :: p in s ==> p in b.files && Under(p, dir)
    ensures forall p :: p in s ==> '/' !in NameIn(dir, p) && NameMatches(pattern, NameIn(dir, p))
  {
    set p | p in b.files && Under(p, dir) && '/' !in NameIn(dir, p) && NameMatches(pattern, NameIn(dir, p))
  }

  /**
   * `createFileObject($path)`: the staged path, its name, its size and error
   * 0. The MIME type comes from backend metadata, which is not modelled.
   */
  function FileObject(b: Backend, dir: string, path: string): (r: Value)
    requires path in b.files && Under(path, dir)
    ensures Field(r, "tmp_name") == Str(path) && Field(r, "name") == Str(NameIn(dir, path))
  {
    var e := [
      (StrKey("tmp_name"), Str(path)),
      (StrKey("name"), Str(NameIn(dir, path))),
      (StrKey("type"), Null),
      (StrKey("length"), Int(|b.files[path]|)),
      (StrKey("error"), Int(0))
    ];
    assert Get(e, StrKey("name")) == Get(e[1..], StrKey("name"));
    Arr(e)
  }

  /** `getFile($dir, $pattern)`: the first listed match, or `null` when nothing matches. */
  ghost function FirstFile(b: Backend, dir: string, pattern: FilePattern): (r: Value)
    ensures r == Null <==> Matching(b, dir, pattern) == {}
    ensures r != Null ==> exists p :: p in Matching(b, dir, pattern) && r == FileObject(b, dir, p)
    ensures r != Null ==>
      && Field(r, "name").Str? && '/' !in Field(r, "name").s && NameMatches(pattern, Field(r, "name").s)
      && Field(r, "tmp_name") == Str(Join(dir, Field(r, "name").s))
  {
    var m := Matching(b, dir, pattern);
    if m == {} then Null else FileObject(b, dir, Least(m))
  }

  /** The fields of a rehydrated transfer. */
  datatype Restored = Restored(file: Value, variants: seq<Value>, metadata: Value)

  /**
   * What `getTransfer` restores from `path/id`: the first main-file match, no
   * variants, and the metadata file's RECORD (not its decoded contents), or
   * the empty array when there is none.
   */
  ghost function RestoredTransfer(b: Backend, path: string, id: string): (r: Restored)
    ensures r.variants == []
  {
    var dir := TransferDir(path, id);
    var meta := FirstFile(b, dir, MetadataFilePattern);
    Restored(FirstFile(b, dir, MainFilePattern), [], if meta == Null then Arr([]) else meta)
  }

  /**
   * What a rehydrated transfer holds: a main file exactly when one matches,
   * named by a matching name and staged directly in `path/id`; a metadata
   * record exactly when a `.metadata` file exists.
   */
  lemma RestoredTransferShape(b: Backend, path: string, id: string)
    ensures var r := RestoredTransfer(b, path, id);
      && (r.file == Null <==> Matching(b, TransferDir(path, id), MainFilePattern) == {})
      && (r.file != Null ==>
            && Field(r.file, "name").Str? && '/' !in Field(r.file, "name").s
            && NameMatches(MainFilePattern, Field(r.file, "name").s)
            && Field(r.file, "tmp_name") == Str(Join(TransferDir(path, id), Field(r.file, "name").s)))
      && (r.metadata == Arr([]) <==> Matching(b, TransferDir(path, id), MetadataFilePattern) == {})
      && (r.metadata != Arr([]) ==>
            Field(r.metadata, "name").Str? && NameMatches(MetadataFilePattern, Field(r.metadata, "name").s))
  {
  }

  // readFile
  // =========================================================================

  /** The text after the last `/`. */
  function LastComponent(path: string): (r: string)
    ensures '/' !in r && |r| <= |path|
  {
    if |path| == 0 then ""
    else if path[|path| - 1] == '/' then ""
    else LastComponent(path[..|path| - 1]) + [path[|path| - 1]]
  }

  /** `basename($path)`: trailing separators are dropped, then the last component is taken. */
  function Basename(path: string): (r: string)
    ensures '/' !in r && |r| <= |path|
  {
    if |path| > 0 && path[|path| - 1] == '/' then Basename(path[..|path| - 1])
    else LastComponent(path)
  }

  /** The base name of `dir/name` is `name`, for a name without separators. */
  lemma {:induction false} BasenameOfJoin(dir: string, name: string)
    requires '/' !in name && name != ""
    ensures Basename(Join(dir, name)) == name
  {
    LastComponentAfterSeparator(dir, name);
  }

  lemma {:induction false} LastComponentAfterSeparator(dir: string, name: string)
    requires '/' !in name
    ensures LastComponent(dir + "/" + name) == name
    decreases |name|
  {
    var p := dir + "/" + name;
    if name != [] {
      var init := name[..|name| - 1];
      assert p[..|p| - 1] == dir + "/" + init;
      assert name == init + [name[|name| - 1]];
      LastComponentAfterSeparator(dir, init);
    }
  }

  /**
   * `readFile($filename)`: the file's record with its contents, or `false`
   * when the backend cannot read it. The MIME type is not modelled.
   */
  function ReadFileResult(b: Backend, filename: string): (r: Value)
    ensures filename !in b.files <==> r == Bool(false)
    ensures filename in b.files ==>
      && Field(r, "tmp_name") == Str(filename)
      && Field(r, "name") == Str(Basename(filename))
      && Field(r, "content") == Str(b.files[filename])
  {
    if filename !in b.files then Bool(false)
    else
      var details := [
        (StrKey("content"), Str(b.files[filename])),
        (StrKey("type"), Null),
        (StrKey("length"), Int(|b.files[filename]|)),
        (StrKey("error"), Int(0))
      ];
      var named := [(StrKey("name"), Str(Basename(filename)))] + details;
      var entries := [(StrKey("tmp_name"), Str(filename))] + named;
      assert entries[1..] == named && named[1..] == details;
      assert StrKey("tmp_name") != StrKey("name") && StrKey("tmp_name") != StrKey("content");
      assert StrKey("name") != StrKey("content");
      assert Get(entries, StrKey("name")) == Get(named, StrKey("name")) == Str(Basename(filename));
      assert Get(entries, StrKey("content")) == Get(named, StrKey("content")) == Get(details, StrKey("content"));
      Arr(entries)
  }

  // Request classification
  // =========================================================================

  /** A request as the service reads it: method, parameters in order, and the raw body. */
  datatype Request = Request(verb: string, params: seq<(string, Value)>, body: string)

  datatype Ident = FileTransfer | RevertFileTransfer | FetchRemoteFile | RestoreFileTransfer | FileLoad

  datatype Payload = Staged(transfer: Transfer) | Raw(value: Value)

  /**
   * What `parseApiRequest` returns: `[]`, `null` (from `get`), or an
   * `['ident' => ..., 'data' => ...]` pair.
   */
  datatype Intent = NoIntent | NullIntent | Intent(ident: Ident, data: Payload)

  /** `$params[$name]`, `Null` when absent. */
  function Param(params: seq<(string, Value)>, name: string): Value
  {
    if params == [] then Null
    else if params[0].0 == name then params[0].1
    else Param(params[1..], name)
  }

  /** `array_keys($params)`. */
  function ParamNames(params: seq<(string, Value)>): (names: seq<string>)
    ensures |names| == |params| && forall i :: 0 <= i < |params| ==> names[i] == params[i].0
  {
    seq(|params|, i requires 0 <= i < |params| => params[i].0)
  }

  /**
   * `get($request)`: the first parameter set among `fetch`, `restore`,
   * `load`, in that order, with its value; `null` when none is set.
   */
  function GetIntent(params: seq<(string, Value)>): (r: Intent)
    ensures r == NullIntent <==>
      !IsSet(Param(params, "fetch")) && !IsSet(Param(params, "restore")) && !IsSet(Param(params, "load"))
    ensures IsSet(Param(params, "fetch")) ==> r == Intent(FetchRemoteFile, Raw(Param(params, "fetch")))
    ensures !IsSet(Param(params, "fetch")) && IsSet(Param(params, "restore")) ==>
      r == Intent(RestoreFileTransfer, Raw(Param(params, "restore")))
    ensures !IsSet(Param(params, "fetch")) && !IsSet(Param(params, "restore")) && IsSet(Param(params, "load")) ==>
      r == Intent(FileLoad, Raw(Param(params, "load")))
  {
    if IsSet(Param(params, "fetch")) then Intent(FetchRemoteFile, Raw(Param(params, "fetch")))
    else if IsSet(Param(params, "restore")) then Intent(RestoreFileTransfer, Raw(Param(params, "restore")))
    else if IsSet(Param(params, "load")) then Intent(FileLoad, Raw(Param(params, "load")))
    else NullIntent
  }

  /**
   * `parseApiRequest` for every method but `POST`: `DELETE` reverts the
   * transfer named by the raw body, `GET` and `HEAD` go to `get`, and any
   * other method yields `[]`.
   */
  function NonPostIntent(request: Request): (r: Intent)
    requires request.verb != "POST"
    ensures request.verb == "DELETE" ==> r == Intent(RevertFileTransfer, Raw(Str(request.body)))
    ensures request.verb in {"GET", "HEAD"} ==> r == GetIntent(request.params)
    ensures request.verb !in {"DELETE", "GET", "HEAD"} ==> r == NoIntent
  {
    match request.verb
    case "DELETE" => Intent(RevertFileTransfer, Raw(Str(request.body)))
    case "GET" => GetIntent(request.params)
    case "HEAD" => GetIntent(request.params)
    case _ => NoIntent
  }

  /**
   * The index of the first entry that `getPost` finds submitted, searching
   * from `k`: the loop of `post` and `parsePostFiles`.
   */
  function FirstSubmittedFrom(entries: seq<string>, g: Globals, k: nat): (r: Option<nat>)
    requires k <= |entries|
    ensures r.Some? ==> k <= r.value < |entries| && IsSubmitted(g, entries[r.value])
    ensures r.Some? ==> forall j :: k <= j < r.value ==> !IsSubmitted(g, entries[j])
    ensures r.None? <==> forall j :: k <= j < |entries| ==> !IsSubmitted(g, entries[j])
    decreases |entries| - k
  {
    if k == |entries| then None
    else if IsSubmitted(g, entries[k]) then Some(k)
    else FirstSubmittedFrom(entries, g, k + 1)
  }

  /** The entries `parsePostFiles` accepts: one field name, or a list of them. */
  datatype Entries = OneEntry(name: string) | EntryList(names: seq<string>)

  /** A single field name becomes a one-element list. */
  function EntryNames(entries: Entries): (names: seq<string>)
    ensures entries.OneEntry? ==> names == [entries.name]
    ensures entries.EntryList? ==> names == entries.names
  {
    match entries
    case OneEntry(name) => [name]
    case EntryList(names) => names
  }

  /** The files a `POST` of `entry` stages, in `getFiles` order. */
  function PostedFiles(g: Globals, entry: string): seq<Value>
  {
    FileList(Head(ArrayOfFiles(FilePart(g, entry))), Tail(ArrayOfFiles(FilePart(g, entry))))
  }

  /** The `Post` for the first submitted entry, or `[]` (`None`) when none is submitted. */
  function ParsedPost(names: seq<string>, g: Globals, json: Json): Option<Post>
  {
    match FirstSubmittedFrom(names, g, 0)
    case None => None
    case Some(k) => Some(NewPost(names[k], g, json))
  }

  // Properties of the staging operations
  // =========================================================================

  /**
   * Within one backend, moving a staged file onto a name that is taken
   * replaces it: the last write wins, and the staged source is gone.
   */
  lemma {:induction false} MoveOverwritesWithinBackend(fs: Fs, uploads: map<string, string>, file: Value, path: string)
    requires Mounted(fs) && !CrossBackend(fs)
    requires TmpName(file) !in uploads && TmpName(file) in Current(fs).files
    requires TmpName(file) != Join(path, FileName(file))
    ensures var o := MoveFileEffect(fs, uploads, file, path);
      var b := Current(fs);
      && o.ok
      && o.fs.mounts == fs.mounts[fs.current := Backend((b.files - {TmpName(file)})[Join(path, FileName(file)) := b.files[TmpName(file)]], b.dirs)]
  {
    var dest := Join(path, FileName(file));
    var b := Current(fs);
    var cleared := ClearDestination(b, dest);
    assert TmpName(file) in cleared.files && dest !in cleared.files;
    assert (cleared.files - {TmpName(file)})[dest := cleared.files[TmpName(file)]]
        == (b.files - {TmpName(file)})[dest := b.files[TmpName(file)]];
  }

  /**
   * Within one backend, a move whose source is gone once the destination
   * has been cleared fails, but the clearing has already happened: the file
   * that was at the destination is lost, and nothing else changes.
   */
  lemma {:induction false} FailedRenameStillClearsDestination(fs: Fs, uploads: map<string, string>, file: Value, path: string)
    requires Mounted(fs) && !CrossBackend(fs) && TmpName(file) !in uploads
    requires TmpName(file) !in Current(fs).files || TmpName(file) == Join(path, FileName(file))
    ensures var o := MoveFileEffect(fs, uploads, file, path);
      && !o.ok
      && o.fs.mounts == fs.mounts[fs.current := Backend(Current(fs).files - {Join(path, FileName(file))}, Current(fs).dirs)]
  {
    var cleared := ClearDestination(Current(fs), Join(path, FileName(file)));
    assert TmpName(file) !in cleared.files;
  }

  /**
   * Moving a file onto its own path deletes it: the destination is cleared
   * first, and the rename then finds no source.
   */
  lemma MoveOntoItselfLosesFile(fs: Fs, uploads: map<string, string>, file: Value, path: string)
    requires Mounted(fs) && !CrossBackend(fs)
    requires TmpName(file) !in uploads && TmpName(file) == Join(path, FileName(file))
    ensures var o := MoveFileEffect(fs, uploads, file, path);
      !o.ok && TmpName(file) !in Current(o.fs).files
  {
    FailedRenameStillClearsDestination(fs, uploads, file, path);
  }

  /**
   * Across backends, a failed copy leaves the source where it was, and a
   * successful one places its content on the target and deletes the source.
   * Either way the destination path on the current backend has been
   * cleared, and no other file of either backend changes.
   */
  lemma {:induction false} CrossBackendMove(fs: Fs, uploads: map<string, string>, file: Value, path: string)
    requires Mounted(fs) && CrossBackend(fs)
    requires TmpName(file) !in uploads && TmpName(file) != Join(path, FileName(file))
    ensures var o := MoveFileEffect(fs, uploads, file, path);
      var b := Current(fs);
      var dest := Join(path, FileName(file));
      && (o.ok <==> fs.target in fs.mounts && TmpName(file) in b.files && dest !in fs.mounts[fs.target].files)
      && (!o.ok ==> o.fs.mounts == fs.mounts[fs.current := Backend(b.files - {dest}, b.dirs)])
      && (o.ok ==>
            var t := fs.mounts[fs.target];
            o.fs.mounts == fs.mounts[fs.target := Backend(t.files[dest := b.files[TmpName(file)]], t.dirs)]
                                    [fs.current := Backend(b.files - {dest, TmpName(file)}, b.dirs)])
  {
    var dest := Join(path, FileName(file));
    var b := Current(fs);
    var cleared := WithCurrent(fs, ClearDestination(b, dest));
    assert cleared.mounts[fs.current].files == b.files - {dest};
    assert fs.target in fs.mounts ==> cleared.mounts[fs.target] == fs.mounts[fs.target];
    assert b.files - {dest} - {TmpName(file)} == b.files - {dest, TmpName(file)};
  }

  /**
   * The "overwrite" step clears the destination on the current backend, not
   * on the target: a file already at the destination on the target makes a
   * cross-backend move fail, and the source stays put.
   */
  lemma ExistingTargetFileBlocksCrossBackendMove(fs: Fs, uploads: map<string, string>, file: Value, path: string)
    requires Mounted(fs) && CrossBackend(fs) && TmpName(file) !in uploads
    requires TmpName(file) != Join(path, FileName(file))
    requires fs.target in fs.mounts && Join(path, FileName(file)) in fs.mounts[fs.target].files
    ensures var o := MoveFileEffect(fs, uploads, file, path);
      !o.ok && o.fs.mounts[fs.target] == fs.mounts[fs.target]
      && (TmpName(file) in Current(fs).files ==> TmpName(file) in Current(o.fs).files)
  {
    CrossBackendMove(fs, uploads, file, path);
  }

  /** A name containing no dot never matches the main-file pattern. */
  lemma DotlessNameNeverMatches(name: string)
    requires '.' !in name
    ensures !NameMatches(MainFilePattern, name)
  {
  }

  /** The metadata file's own name does not match the main-file pattern. */
  lemma MetadataNameIsNotMain()
    ensures !NameMatches(MainFilePattern, MetadataFilename)
  {
  }

  /** The name of `dir/name` inside `dir` is `name`. */
  lemma NameInJoin(dir: string, name: string)
    requires name != ""
    ensures Under(Join(dir, name), dir) && NameIn(dir, Join(dir, name)) == name
  {
    assert Join(dir, name)[..|dir| + 1] == dir + "/";
  }

  /** The one file in a directory holding a single match is that match. */
  lemma {:induction false} SingleMatchIsFirst(b: Backend, dir: string, pattern: FilePattern, p: string)
    requires Matching(b, dir, pattern) == {p}
    ensures FirstFile(b, dir, pattern) == FileObject(b, dir, p)
  {
    BelowTotal(p, p);
    LeastUnique(p, {p});
  }

  /** A staging directory with a single main-file match restores that file. */
  lemma RestoredSingleMatch(b: Backend, path: string, id: string, p: string)
    requires Matching(b, TransferDir(path, id), MainFilePattern) == {p}
    ensures p in b.files && Under(p, TransferDir(path, id))
    ensures RestoredTransfer(b, path, id).file == FileObject(b, TransferDir(path, id), p)
  {
    SingleMatchIsFirst(b, TransferDir(path, id), MainFilePattern, p);
  }

  /**
   * The backend after `storeTransfer` of one uploaded file: the staging
   * directory prepared, then the upload written under its own name.
   */
  lemma {:induction false} StoredUpload(fs: Fs, uploads: map<string, string>, json: Json, path: string,
                                        id: string, metadata: Value, main: Value)
    requires Mounted(fs) && TmpName(main) in uploads
    requires forall q :: q in Current(fs).files ==> !Under(q, TransferDir(path, id))
    requires FileName(main) != "" && FileName(main) != MetadataFilename
    ensures var dir := TransferDir(path, id);
      var staged := PrepareStaging(Current(fs), json, dir, metadata);
      && Current(StoreEffect(fs, uploads, json, path, id, metadata, main)).files
         == staged.files[Join(dir, FileName(main)) := uploads[TmpName(main)]]
      && (Truthy(metadata) ==> staged.files == Current(fs).files[Join(dir, MetadataFilename) := json.encode(metadata)])
      && (!Truthy(metadata) ==> staged.files == Current(fs).files)
  {
    var dir := TransferDir(path, id);
    NameInJoin(dir, MetadataFilename);
    NameInJoin(dir, FileName(main));
    assert Join(dir, FileName(main)) != Join(dir, MetadataFilename);
    assert Join(dir, FileName(main)) !in PrepareStaging(Current(fs), json, dir, metadata).files;
  }

  /** The files directly in the staging directory after that store. */
  lemma {:induction false} StagedFiles(fs: Fs, uploads: map<string, string>, json: Json, path: string,
                                       id: string, metadata: Value, main: Value, p: string)
    requires Mounted(fs) && TmpName(main) in uploads
    requires forall q :: q in Current(fs).files ==> !Under(q, TransferDir(path, id))
    requires FileName(main) != "" && FileName(main) != MetadataFilename
    requires p in Current(StoreEffect(fs, uploads, json, path, id, metadata, main)).files
    requires Under(p, TransferDir(path, id))
    ensures p == Join(TransferDir(path, id), FileName(main))
      || (Truthy(metadata) && p == Join(TransferDir(path, id), MetadataFilename))
  {
    StoredUpload(fs, uploads, json, path, id, metadata, main);
  }

  /** The main-file matches after that store: the upload alone, when its name matches. */
  lemma {:induction false} MainMatchAfterStore(fs: Fs, uploads: map<string, string>, json: Json, path: string,
                                               id: string, metadata: Value, main: Value)
    requires Mounted(fs) && TmpName(main) in uploads
    requires forall q :: q in Current(fs).files ==> !Under(q, TransferDir(path, id))
    requires '/' !in FileName(main) && FileName(main) != "" && FileName(main) != MetadataFilename
    ensures var after := Current(StoreEffect(fs, uploads, json, path, id, metadata, main));
      var dir := TransferDir(path, id);
      Matching(after, dir, MainFilePattern) ==
        if NameMatches(MainFilePattern, FileName(main)) then {Join(dir, FileName(main))} else {}
  {
    var dir := TransferDir(path, id);
    var after := Current(StoreEffect(fs, uploads, json, path, id, metadata, main));
    StoredUpload(fs, uploads, json, path, id, metadata, main);
    NameInJoin(dir, FileName(main));
    NameInJoin(dir, MetadataFilename);
    MetadataNameIsNotMain();
    forall p | p in Matching(after, dir, MainFilePattern)
      ensures p == Join(dir, FileName(main))
    {
      StagedFiles(fs, uploads, json, path, id, metadata, main, p);
    }
  }

  /** The metadata matches after that store: the metadata file, when one was written. */
  lemma {:induction false} MetadataMatchAfterStore(fs: Fs, uploads: map<string, string>, json: Json, path: string,
                                                   id: string, metadata: Value, main: Value)
    requires Mounted(fs) && TmpName(main) in uploads
    requires forall q :: q in Current(fs).files ==> !Under(q, TransferDir(path, id))
    requires '/' !in FileName(main) && FileName(main) != "" && !NameMatches(MetadataFilePattern, FileName(main))
    ensures var after := Current(StoreEffect(fs, uploads, json, path, id, metadata, main));
      var dir := TransferDir(path, id);
      Matching(after, dir, MetadataFilePattern) ==
        if Truthy(metadata) then {Join(dir, MetadataFilename)} else {}
  {
    var dir := TransferDir(path, id);
    var after := Current(StoreEffect(fs, uploads, json, path, id, metadata, main));
    assert NameMatches(MetadataFilePattern, MetadataFilename);
    StoredUpload(fs, uploads, json, path, id, metadata, main);
    NameInJoin(dir, FileName(main));
    NameInJoin(dir, MetadataFilename);
    forall p | p in Matching(after, dir, MetadataFilePattern)
      ensures Truthy(metadata) && p == Join(dir, MetadataFilename)
    {
      StagedFiles(fs, uploads, json, path, id, metadata, main, p);
    }
    if Truthy(metadata) {
      assert Join(dir, MetadataFilename) in after.files;
    }
  }

  /**
   * Round trip of one upload through the staging directory: after
   * `storeTransfer` into an unused id, `getTransfer` finds the uploaded file
   * again under its own name, provided that name matches the main-file
   * pattern; the metadata record is found exactly when metadata was written.
   */
  lemma {:induction false} StoreThenRestore(fs: Fs, uploads: map<string, string>, json: Json, path: string,
                                            id: string, metadata: Value, main: Value)
    requires Mounted(fs) && TmpName(main) in uploads
    requires forall q :: q in Current(fs).files ==> !Under(q, TransferDir(path, id))
    requires '/' !in FileName(main) && NameMatches(MainFilePattern, FileName(main))
    requires !NameMatches(MetadataFilePattern, FileName(main))
    ensures var restored := RestoredTransfer(Current(StoreEffect(fs, uploads, json, path, id, metadata, main)), path, id);
      && Field(restored.file, "name") == Str(FileName(main))
      && Field(restored.file, "tmp_name") == Str(Join(TransferDir(path, id), FileName(main)))
      && (Truthy(metadata) <==> restored.metadata != Arr([]))
      && (Truthy(metadata) ==> Field(restored.metadata, "name") == Str(MetadataFilename))
  {
    var dir := TransferDir(path, id);
    var after := Current(StoreEffect(fs, uploads, json, path, id, metadata, main));
    assert NameMatches(MetadataFilePattern, MetadataFilename);
    MainMatchAfterStore(fs, uploads, json, path, id, metadata, main);
    MetadataMatchAfterStore(fs, uploads, json, path, id, metadata, main);
    NameInJoin(dir, FileName(main));
    NameInJoin(dir, MetadataFilename);
    SingleMatchIsFirst(after, dir, MainFilePattern, Join(dir, FileName(main)));
    if Truthy(metadata) {
      SingleMatchIsFirst(after, dir, MetadataFilePattern, Join(dir, MetadataFilename));
    }
  }

  /**
   * An uploaded file whose name has no dot is written to the staging
   * directory but never restored: `getTransfer` finds no file for that id.
   */
  lemma {:induction false} DotlessUploadIsNotRestored(fs: Fs, uploads: map<string, string>, json: Json, path: string,
                                                      id: string, metadata: Value, main: Value)
    requires Mounted(fs) && TmpName(main) in uploads
    requires forall q :: q in Current(fs).files ==> !Under(q, TransferDir(path, id))
    requires '/' !in FileName(main) && '.' !in FileName(main) && FileName(main) != ""
    ensures Join(TransferDir(path, id), FileName(main)) in Current(StoreEffect(fs, uploads, json, path, id, metadata, main)).files
    ensures RestoredTransfer(Current(StoreEffect(fs, uploads, json, path, id, metadata, main)), path, id).file == Null
  {
    assert FileName(main) != MetadataFilename by {
      assert MetadataFilename[0] in MetadataFilename;
    }
    DotlessNameNeverMatches(FileName(main));
    StoredUpload(fs, uploads, json, path, id, metadata, main);
    MainMatchAfterStore(fs, uploads, json, path, id, metadata, main);
  }

  /** `getTransfer` on a directory without files restores an empty transfer. */
  lemma EmptyDirectoryRestoresEmptyTransfer(b: Backend, path: string, id: string)
    requires forall q :: q in b.files ==> !Under(q, TransferDir(path, id))
    ensures RestoredTransfer(b, path, id) == Restored(Null, [], Arr([]))
  {
    assert Matching(b, TransferDir(path, id), MainFilePattern) == {};
    assert Matching(b, TransferDir(path, id), MetadataFilePattern) == {};
  }

  /**
   * After a transfer is reverted, nothing remains of its staging directory,
   * and files outside it are untouched.
   */
  lemma RevertRemovesStaging(fs: Fs, path: string, id: Value)
    requires IsValidId(id) && Mounted(fs)
    ensures var after := Current(RemoveEffect(fs, path, id).fs);
      && TransferDir(path, id.s) !in after.dirs
      && (forall q :: q in after.files ==> !Under(q, TransferDir(path, id.s)))
      && (forall q :: q in Current(fs).files && !Under(q, TransferDir(path, id.s)) ==>
            q in after.files && after.files[q] == Current(fs).files[q])
  {
  }

  /** A single field name is searched exactly like a one-element list. */
  lemma OneEntryIsOneElementList(name: string, g: Globals, json: Json)
    ensures ParsedPost(EntryNames(OneEntry(name)), g, json) ==
      (if IsSubmitted(g, name) then Some(NewPost(name, g, json)) else None)
  {
  }

  class FilePondService {
    const server: ServerConfig
    /** The filesystem configuration (`connections` per ident). */
    const filesystemConfig: Value
    /** The mounted backends; the container and the mount manager hold the same ones. */
    var mounts: Mounts
    var currentIdent: string
    var targetIdent: string

    function State(): Fs
      reads this
    {
      Fs(mounts, currentIdent, targetIdent)
    }

    /** The constructor selects the server's backend as the current one; no target is set. */
    constructor (server: ServerConfig, mounts: Mounts, filesystemConfig: Value)
      ensures this.server == server && this.filesystemConfig == filesystemConfig
      ensures State() == Fs(mounts, server.filesystemIdent, "")
    {
      this.server := server;
      this.filesystemConfig := filesystemConfig;
      this.mounts := mounts;
      this.currentIdent := server.filesystemIdent;
      this.targetIdent := "";
    }

    /** `setCurrentFilesystem($ident)`: a falsy ident falls back to the server's backend. */
    method SetCurrentFilesystem(ident: string)
      modifies this`currentIdent
      ensures currentIdent == (if NonEmptyString(ident) then ident else server.filesystemIdent)
    {
      currentIdent := if NonEmptyString(ident) then ident else server.filesystemIdent;
    }

    /** `setTargetFilesystem($ident)`. */
    method SetTargetFilesystem(ident: string)
      modifies this`targetIdent
      ensures targetIdent == ident
    {
      targetIdent := ident;
    }

    /** `isValidTransferId($id)`. */
    method IsValidTransferIdCall(id: Value) returns (valid: bool)
      ensures valid <==> id.Str? && HasTransferIdShape(id.s)
    {
      valid := id.Str? && IsValidTransferId(id.s);
      if id.Str? {
        ValidTransferIdShape(id.s);
      }
    }

    /** `removeTransferDirectory($path, $id)`. */
    method RemoveTransferDirectory(path: string, id: Value) returns (ok: bool)
      requires IsValidId(id) ==> Mounted(State())
      modifies this`mounts
      ensures Outcome(State(), ok) == RemoveEffect(old(State()), path, id)
    {
      if !IsValidId(id) {
        return false;
      }
      var s := DeleteDir(mounts[currentIdent], TransferDir(path, id.s));
      mounts := mounts[currentIdent := s.backend];
      ok := s.ok;
    }

    /** `moveFile($file, $path)`, one backend call at a time. */
    method MoveFile(file: Value, path: string, uploads: map<string, string>) returns (ok: bool)
      requires Mounted(State())
      modifies this`mounts
      ensures Outcome(State(), ok) == MoveFileEffect(old(State()), uploads, file, path)
    {
      var fs := State();
      var tmp := TmpName(file);
      var filePath := Join(path, FileName(file));
      if tmp in uploads {
        // moveTempFile
        var written := Write(Current(fs), filePath, uploads[tmp]);
        mounts := WithCurrent(fs, written.backend).mounts;
        return written.ok;
      }
      var cleared := WithCurrent(fs, ClearDestination(Current(fs), filePath));
      mounts := cleared.mounts;
      if CrossBackend(fs) {
        var copied := MountCopy(cleared.mounts, currentIdent, tmp, targetIdent, filePath);
        mounts := copied.mounts;
        if copied.ok {
          var moved := cleared.(mounts := copied.mounts);
          mounts := WithCurrent(moved, Delete(Current(moved), tmp).backend).mounts;
        }
        return copied.ok;
      }
      var renamed := Rename(Current(cleared), tmp, filePath);
      mounts := WithCurrent(cleared, renamed.backend).mounts;
      ok := renamed.ok;
    }

    /**
     * `storeTransfer($path, $transfer)`. The transfer must have a file:
     * with none, `$files[0]` is `null` and passing it to `moveFile` is a
     * `TypeError`.
     */
    method StoreTransfer(path: string, transfer: Transfer, json: Json, uploads: map<string, string>)
      requires Mounted(State()) && |transfer.Files()| > 0
      modifies this`mounts
      ensures State() == StoreEffect(old(State()), uploads, json, path, transfer.id, transfer.metadata, transfer.Files()[0])
    {
      var dir := TransferDir(path, transfer.id);
      var b := Current(State());
      if !Has(b, dir) {
        b := CreateDir(b, dir).backend;
      }
      if Truthy(transfer.metadata) {
        b := Write(b, Join(dir, MetadataFilename), json.encode(transfer.metadata)).backend;
      }
      assert b == PrepareStaging(Current(State()), json, dir, transfer.metadata);
      mounts := WithCurrent(State(), b).mounts;
      var files := transfer.Files();
      var moved := MoveFile(files[0], dir, uploads);
    }

    /** `getFile($dir, $pattern)` on the current backend. */
    method GetFile(dir: string, pattern: FilePattern) returns (r: Value)
      requires Mounted(State())
      ensures r == FirstFile(Current(State()), dir, pattern)
    {
      var b := mounts[currentIdent];
      var matching := Matching(b, dir, pattern);
      if matching == {} {
        return Null;
      }
      var first := FirstListed(matching);
      r := FileObject(b, dir, first);
    }

    /**
     * `getTransfer($path, $id)`: `false` (here `None`) for an invalid id;
     * otherwise always a transfer, with the given id, no variants, and the
     * main file and metadata record found in `path/id`, which may be absent.
     */
    method GetTransfer(path: string, id: Value) returns (r: Option<Transfer>)
      requires IsValidId(id) ==> Mounted(State())
      ensures !IsValidId(id) <==> r.None?
      ensures r.Some? ==> fresh(r.value) && r.value.id == id.s
      ensures r.Some? ==>
        Restored(r.value.file, r.value.variants, r.value.metadata) == RestoredTransfer(Current(State()), path, id.s)
    {
      if !IsValidId(id) {
        return None;
      }
      var dir := Join(path, id.s);
      var file := GetFile(dir, MainFilePattern);
      var metadata := GetFile(dir, MetadataFilePattern);
      var transfer := new Transfer(id.s, "");
      transfer.Restore(file, [], if metadata == Null then Arr([]) else metadata);
      r := Some(transfer);
    }

    /** `readFile($filename)` on the current backend. */
    method ReadFile(filename: string) returns (r: Value)
      requires Mounted(State())
      ensures r == ReadFileResult(Current(State()), filename)
    {
      r := ReadFileResult(mounts[currentIdent], filename);
    }

    /** The `foreach` of `post` and `parsePostFiles`: the first entry `getPost` accepts. */
    static method FindSubmitted(entries: seq<string>, g: Globals) returns (r: Option<nat>)
      ensures r == FirstSubmittedFrom(entries, g, 0)
    {
      var i := 0;
      while i < |entries|
        invariant 0 <= i <= |entries|
        invariant FirstSubmittedFrom(entries, g, 0) == FirstSubmittedFrom(entries, g, i)
      {
        if IsSubmitted(g, entries[i]) {
          return Some(i);
        }
        i := i + 1;
      }
      return None;
    }

    /** `parsePostFiles($entries)`: the format and values of the first submitted entry, or `[]`. */
    method ParsePostFiles(entries: Entries, g: Globals, json: Json) returns (r: Option<Post>)
      ensures r == ParsedPost(EntryNames(entries), g, json)
    {
      var names := match entries case OneEntry(name) => [name] case EntryList(names) => names;
      var k := FindSubmitted(names, g);
      match k {
        case None => r := None;
        case Some(i) => r := Some(NewPost(names[i], g, json));
      }
    }

    /**
     * `post($request)`: a new transfer (with the dispensed id) populated
     * from the first submitted parameter, or `[]` when none is submitted.
     */
    method Post(request: Request, g: Globals, json: Json, dispensed: string) returns (r: Intent)
      requires IsMd5Digest(dispensed)
      ensures FirstSubmittedFrom(ParamNames(request.params), g, 0).None? ==> r == NoIntent
      ensures FirstSubmittedFrom(ParamNames(request.params), g, 0).Some? ==>
        var entry := ParamNames(request.params)[FirstSubmittedFrom(ParamNames(request.params), g, 0).value];
        && r.Intent? && r.ident == FileTransfer && r.data.Staged?
        && fresh(r.data.transfer)
        && r.data.transfer.id == dispensed
        && r.data.transfer.file == Head(ArrayOfFiles(FilePart(g, entry)))
        && r.data.transfer.variants == Tail(ArrayOfFiles(FilePart(g, entry)))
        && r.data.transfer.metadata == PopulatedMetadata(entry, g, json, Arr([]))
    {
      var entries := ParamNames(request.params);
      var k := FindSubmitted(entries, g);
      if k.None? {
        return NoIntent;
      }
      var transfer := new Transfer("", dispensed);
      transfer.Populate(entries[k.value], g, json);
      r := Intent(FileTransfer, Staged(transfer));
    }

    /** `parseApiRequest($request)`: dispatch on the request method. */
    method ParseApiRequest(request: Request, g: Globals, json: Json, dispensed: string) returns (r: Intent)
      requires IsMd5Digest(dispensed)
      ensures request.verb != "POST" ==> r == NonPostIntent(request)
      ensures request.verb == "POST" ==>
        (r == NoIntent <==> FirstSubmittedFrom(ParamNames(request.params), g, 0).None?)
      ensures request.verb == "POST" && r != NoIntent ==>
        var entry := ParamNames(request.params)[FirstSubmittedFrom(ParamNames(request.params), g, 0).value];
        && r.Intent? && r.ident == FileTransfer && r.data.Staged?
        && fresh(r.data.transfer)
        && r.data.transfer.id == dispensed
        && r.data.transfer.Files() == PostedFiles(g, entry)
        && r.data.transfer.metadata == PopulatedMetadata(entry, g, json, Arr([]))
    {
      if request.verb == "POST" {
        r := Post(request, g, json, dispensed);
      } else {
        r := NonPostIntent(request);
      }
    }
  }
}
