/**
 * FilePondAwareTrait: what a consuming action does with FilePond ids when
 * the surrounding form is saved. Each staged transfer is rehydrated, its
 * files are moved into the final upload path, and its staging directory is
 * removed; the result lists the final paths of the files that moved, with
 * every unrecognised id echoed back as it was given.
 */
module FilePondAware {
  import opened PhpValues
  import opened TransferIds
  import opened Posts
  import opened Transfers
  import opened Storage
  import opened FilePond

  /**
   * The two settings the trait reads from its configuration object:
   * `transferDir()` and `uploadPath()`.
   */
  datatype FilePondConfig = FilePondConfig(transferDir: string, uploadPath: string)

  /** The state of the backends and the ids or paths reported so far. */
  datatype Commit = Commit(fs: Fs, out: seq<Value>)

  /** The reported final path of a moved file: `$uploadPath.DIRECTORY_SEPARATOR.$file['name']`. */
  function MovedPath(uploadPath: string, file: Value): Value
  {
    Str(Join(uploadPath, FileName(file)))
  }

  /**
   * Moving the files of one transfer into `uploadPath` in order, reporting
   * the final path of each file whose move succeeded.
   */
  function CommitFiles(fs: Fs, files: seq<Value>, uploadPath: string, uploads: map<string, string>): (c: Commit)
    requires Mounted(fs)
    ensures Mounted(c.fs) && c.fs.current == fs.current && c.fs.target == fs.target
    ensures |c.out| <= |files|
    ensures forall v :: v in c.out ==> exists f :: f in files && v == MovedPath(uploadPath, f)
    decreases |files|
  {
    if files == [] then Commit(fs, [])
    else
      var previous := CommitFiles(fs, files[..|files| - 1], uploadPath, uploads);
      var last := files[|files| - 1];
      var moved := MoveFileEffect(previous.fs, uploads, last, uploadPath);
      Commit(moved.fs, previous.out + if moved.ok then [MovedPath(uploadPath, last)] else [])
  }

  /**
   * Files a same-backend commit can move: each is a staged file of the
   * current backend (not a fresh upload), no two share a temporary name, and
   * no temporary name is also a destination.
   */
  predicate ReadyToMove(fs: Fs, files: seq<Value>, uploadPath: string, uploads: map<string, string>)
  {
    && Mounted(fs) && !CrossBackend(fs)
    && (forall i :: 0 <= i < |files| ==> TmpName(files[i]) !in uploads && TmpName(files[i]) in Current(fs).files)
    && (forall i, j :: 0 <= i < |files| && 0 <= j < |files| ==> TmpName(files[i]) != Join(uploadPath, FileName(files[j])))
    && (forall i, j :: 0 <= i < j < |files| ==> TmpName(files[i]) != TmpName(files[j]))
  }

  /**
   * Completeness of a commit on one backend: when the files are ready to
   * move, every one of them is moved and reported, in order.
   */
  lemma CommitFilesMovesEveryFile(fs: Fs, files: seq<Value>, uploadPath: string, uploads: map<string, string>)
    requires ReadyToMove(fs, files, uploadPath, uploads)
    ensures var c := CommitFiles(fs, files, uploadPath, uploads);
      && |c.out| == |files|
      && forall i :: 0 <= i < |files| ==> c.out[i] == MovedPath(uploadPath, files[i])
  {
    MovedPathsAreInOrder(uploadPath, files);
    assert files + [] == files;
    CommitFilesPrefix(fs, files, [], uploadPath, uploads);
  }

  /** The induction behind `CommitFilesMovesEveryFile`: the files still to come stay in place. */
  lemma {:induction false} CommitFilesPrefix(fs: Fs, done: seq<Value>, rest: seq<Value>, uploadPath: string,
                                             uploads: map<string, string>)
    requires ReadyToMove(fs, done + rest, uploadPath, uploads)
    ensures var c := CommitFiles(fs, done, uploadPath, uploads);
      && c.out == MovedPaths(uploadPath, done)
      && (forall f :: f in rest ==> TmpName(f) in Current(c.fs).files)
    decreases |done|
  {
    var all := done + rest;
    if done == [] {
      forall f | f in rest ensures TmpName(f) in Current(fs).files {
        var i :| 0 <= i < |rest| && rest[i] == f;
        assert all[i] == f;
      }
    } else {
      var init := done[..|done| - 1];
      var last := done[|done| - 1];
      assert init + ([last] + rest) == all;
      CommitFilesPrefix(fs, init, [last] + rest, uploadPath, uploads);
      var previous := CommitFiles(fs, init, uploadPath, uploads);
      assert all[|done| - 1] == last;
      assert TmpName(last) in Current(previous.fs).files by {
        assert last in [last] + rest;
      }
      MoveKeepsOtherFiles(previous.fs, uploads, last, uploadPath);
      var moved := MoveFileEffect(previous.fs, uploads, last, uploadPath);
      assert CommitFiles(fs, done, uploadPath, uploads) == Commit(moved.fs, previous.out + [MovedPath(uploadPath, last)]);
      forall f | f in rest ensures TmpName(f) in Current(moved.fs).files {
        var i :| 0 <= i < |rest| && rest[i] == f;
        assert all[|done| + i] == f;
        assert f in [last] + rest;
      }
    }
  }

  /** The final paths of `files`, in order. */
  function MovedPaths(uploadPath: string, files: seq<Value>): seq<Value>
  {
    if files == [] then [] else MovedPaths(uploadPath, files[..|files| - 1]) + [MovedPath(uploadPath, files[|files| - 1])]
  }

  lemma {:induction false} MovedPathsAreInOrder(uploadPath: string, files: seq<Value>)
    ensures |MovedPaths(uploadPath, files)| == |files|
    ensures forall i :: 0 <= i < |files| ==> MovedPaths(uploadPath, files)[i] == MovedPath(uploadPath, files[i])
  {
    if files != [] {
      MovedPathsAreInOrder(uploadPath, files[..|files| - 1]);
    }
  }

  /** A successful same-backend move leaves every other file where it was. */
  lemma MoveKeepsOtherFiles(fs: Fs, uploads: map<string, string>, file: Value, path: string)
    requires Mounted(fs) && !CrossBackend(fs)
    requires TmpName(file) !in uploads && TmpName(file) in Current(fs).files
    requires TmpName(file) != Join(path, FileName(file))
    ensures var o := MoveFileEffect(fs, uploads, file, path);
      && o.ok && !CrossBackend(o.fs)
      && forall n :: n in Current(fs).files && n != TmpName(file) ==> n in Current(o.fs).files
  {
    MoveOverwritesWithinBackend(fs, uploads, file, path);
  }

  /**
   * One id: an invalid id is echoed and nothing changes; a valid one has its
   * transfer rehydrated from `transferDir`, its files moved, and its staging
   * directory removed whatever the moves reported.
   */
  ghost function CommitId(fs: Fs, transferDir: string, uploadPath: string, id: Value, uploads: map<string, string>): (c: Commit)
    requires IsValidId(id) ==> Mounted(fs)
    ensures !IsValidId(id) ==> c == Commit(fs, [id])
    ensures IsValidId(id) ==> Mounted(c.fs) && c.fs.current == fs.current && c.fs.target == fs.target
  {
    if !IsValidId(id) then Commit(fs, [id])
    else
      var transfer := RestoredTransfer(Current(fs), transferDir, id.s);
      var moved := CommitFiles(fs, FileList(transfer.file, transfer.variants), uploadPath, uploads);
      Commit(RemoveEffect(moved.fs, transferDir, id).fs, moved.out)
  }

  /** All the ids in order: the outputs are concatenated and the effects chained. */
  ghost function CommitIds(fs: Fs, transferDir: string, uploadPath: string, ids: seq<Value>,
                           uploads: map<string, string>): (c: Commit)
    requires Mounted(fs) || forall i :: 0 <= i < |ids| ==> !IsValidId(ids[i])
    ensures Mounted(fs) ==> Mounted(c.fs)
    ensures !Mounted(fs) ==> c == Commit(fs, ids)
    decreases |ids|
  {
    if ids == [] then Commit(fs, [])
    else
      var previous := CommitIds(fs, transferDir, uploadPath, ids[..|ids| - 1], uploads);
      var step := CommitId(previous.fs, transferDir, uploadPath, ids[|ids| - 1], uploads);
      assert !Mounted(fs) ==> ids == ids[..|ids| - 1] + [ids[|ids| - 1]];
      Commit(step.fs, previous.out + step.out)
  }

  /** Committing `a + b` is committing `a`, then `b` from the state `a` left. */
  lemma {:induction false} CommitIdsAppend(fs: Fs, transferDir: string, uploadPath: string,
                                           a: seq<Value>, b: seq<Value>, uploads: map<string, string>)
    requires Mounted(fs)
    ensures var first := CommitIds(fs, transferDir, uploadPath, a, uploads);
      var second := CommitIds(first.fs, transferDir, uploadPath, b, uploads);
      CommitIds(fs, transferDir, uploadPath, a + b, uploads) == Commit(second.fs, first.out + second.out)
    decreases |b|
  {
    if b == [] {
      assert a + b == a;
    } else {
      var init := b[..|b| - 1];
      var last := b[|b| - 1];
      assert b == init + [last];
      assert a + b == (a + init) + [last];
      CommitIdsAppend(fs, transferDir, uploadPath, a, init, uploads);
      var first := CommitIds(fs, transferDir, uploadPath, a, uploads);
      var middle := CommitIds(first.fs, transferDir, uploadPath, init, uploads);
      var step := CommitId(middle.fs, transferDir, uploadPath, last, uploads);
      CommitIdsSnoc(first.fs, transferDir, uploadPath, init, last, uploads);
      CommitIdsSnoc(fs, transferDir, uploadPath, a + init, last, uploads);
      assert (first.out + middle.out) + step.out == first.out + (middle.out + step.out);
    }
  }

  /** The last id is committed from the state the others left. */
  lemma CommitIdsSnoc(fs: Fs, transferDir: string, uploadPath: string, ids: seq<Value>, id: Value,
                      uploads: map<string, string>)
    requires Mounted(fs)
    ensures var previous := CommitIds(fs, transferDir, uploadPath, ids, uploads);
      var step := CommitId(previous.fs, transferDir, uploadPath, id, uploads);
      CommitIds(fs, transferDir, uploadPath, ids + [id], uploads) == Commit(step.fs, previous.out + step.out)
  {
    assert (ids + [id])[..|ids|] == ids;
  }

  /** Ids that are all invalid are echoed back in order, and nothing is touched. */
  lemma {:induction false} InvalidIdsAreEchoed(fs: Fs, transferDir: string, uploadPath: string,
                                               ids: seq<Value>, uploads: map<string, string>)
    requires forall i :: 0 <= i < |ids| ==> !IsValidId(ids[i])
    ensures CommitIds(fs, transferDir, uploadPath, ids, uploads) == Commit(fs, ids)
    decreases |ids|
  {
    if ids != [] {
      InvalidIdsAreEchoed(fs, transferDir, uploadPath, ids[..|ids| - 1], uploads);
      assert ids[..|ids| - 1] + [ids[|ids| - 1]] == ids;
    }
  }

  /**
   * Every reported value is either an invalid id echoed back or the final
   * path of a file inside `uploadPath`.
   */
  lemma {:induction false} OutputsAreEchoesOrFinalPaths(fs: Fs, transferDir: string, uploadPath: string,
                                                        ids: seq<Value>, uploads: map<string, string>)
    requires Mounted(fs)
    ensures forall v :: v in CommitIds(fs, transferDir, uploadPath, ids, uploads).out ==>
      (v in ids && !IsValidId(v)) || (v.Str? && Under(v.s, uploadPath))
    decreases |ids|
  {
    if ids != [] {
      var init := ids[..|ids| - 1];
      OutputsAreEchoesOrFinalPaths(fs, transferDir, uploadPath, init, uploads);
      var previous := CommitIds(fs, transferDir, uploadPath, init, uploads);
      var step := CommitId(previous.fs, transferDir, uploadPath, ids[|ids| - 1], uploads);
      CommitIdOutputs(previous.fs, transferDir, uploadPath, ids[|ids| - 1], uploads);
      forall v | v in previous.out ensures (v in ids && !IsValidId(v)) || (v.Str? && Under(v.s, uploadPath)) {
        if v in init {
          assert v in ids;
        }
      }
    }
  }

  /** What one id reports: the id itself when it is invalid, final paths otherwise. */
  lemma CommitIdOutputs(fs: Fs, transferDir: string, uploadPath: string, id: Value, uploads: map<string, string>)
    requires Mounted(fs)
    ensures forall v :: v in CommitId(fs, transferDir, uploadPath, id, uploads).out ==>
      (v == id && !IsValidId(id)) || (v.Str? && Under(v.s, uploadPath))
  {
    if IsValidId(id) {
      var transfer := RestoredTransfer(Current(fs), transferDir, id.s);
      var moved := CommitFiles(fs, FileList(transfer.file, transfer.variants), uploadPath, uploads);
      forall v | v in moved.out ensures v.Str? && Under(v.s, uploadPath) {
        var f :| v == MovedPath(uploadPath, f);
        assert Join(uploadPath, FileName(f))[..|uploadPath| + 1] == uploadPath + "/";
      }
    }
  }

  /**
   * After a valid id is committed, nothing remains of its staging
   * directory, whatever happened to the moves.
   */
  lemma StagingClearedAfterCommit(fs: Fs, transferDir: string, uploadPath: string, id: Value, uploads: map<string, string>)
    requires IsValidId(id) && Mounted(fs)
    ensures var after := Current(CommitId(fs, transferDir, uploadPath, id, uploads).fs);
      && TransferDir(transferDir, id.s) !in after.dirs
      && forall q :: q in after.files ==> !Under(q, TransferDir(transferDir, id.s))
  {
    var transfer := RestoredTransfer(Current(fs), transferDir, id.s);
    var moved := CommitFiles(fs, FileList(transfer.file, transfer.variants), uploadPath, uploads);
    RevertRemovesStaging(moved.fs, transferDir, id);
  }

  /** A valid id whose staging directory holds no file reports nothing, and its directory is removed. */
  lemma EmptyTransferReportsNothing(fs: Fs, transferDir: string, uploadPath: string, id: Value, uploads: map<string, string>)
    requires IsValidId(id) && Mounted(fs)
    requires forall q :: q in Current(fs).files ==> !Under(q, TransferDir(transferDir, id.s))
    ensures CommitId(fs, transferDir, uploadPath, id, uploads) == Commit(RemoveEffect(fs, transferDir, id).fs, [])
  {
    EmptyDirectoryRestoresEmptyTransfer(Current(fs), transferDir, id.s);
  }

  // The trait's path handling
  // =========================================================================

  /** The characters of the charlist `'/\t'`: in single quotes, a slash, a backslash and the letter t. */
  const SuffixTrimChars: set<char> := {'/', '\\', 't'}

  /** `rtrim($s, $chars)`: the longest prefix not ending in one of the characters. */
  function Rtrim(s: string, chars: set<char>): (r: string)
    ensures |r| <= |s| && r == s[..|r|]
    ensures r == "" || r[|r| - 1] !in chars
    ensures forall i :: |r| <= i < |s| ==> s[i] in chars
  {
    if s == [] || s[|s| - 1] !in chars then s
    else Rtrim(s[..|s| - 1], chars)
  }

  /** A path suffix that ends in the letter t loses it, along with any slashes. */
  lemma SuffixLosesTrailingT()
    ensures Rtrim("/abstract/", SuffixTrimChars) == "/abstrac"
  {
    assert "/abstract/"[..9] == "/abstract";
    assert "/abstract"[..8] == "/abstrac";
  }

  /** How `handleTransfer` was told where to put the files. */
  datatype Property =
    | NoProperty                                                // null
    | PropertyIdent(ident: string)                              // a property ident without a context
    | FileProperty(uploadPath: string, filesystem: string)      // a resolved file property
    | OtherProperty                                             // any other resolved property

  predicate IsTruthyProperty(p: Property)
  {
    match p
    case NoProperty => false
    case PropertyIdent(ident) => NonEmptyString(ident)
    case _ => true
  }

  class FilePondAwareAction {
    /** `$filePondUploadPath`; the empty string stands for unset. */
    var uploadPathOverride: string
    const config: FilePondConfig
    const service: FilePondService

    constructor (config: FilePondConfig, service: FilePondService)
      ensures this.config == config && this.service == service && uploadPathOverride == ""
    {
      this.config := config;
      this.service := service;
      uploadPathOverride := "";
    }

    /** `filePondUploadPath()`: the override when truthy, the configured path otherwise. */
    function FilePondUploadPath(): (r: string)
      reads this
      ensures NonEmptyString(uploadPathOverride) ==> r == uploadPathOverride
      ensures !NonEmptyString(uploadPathOverride) ==> r == config.uploadPath
    {
      if NonEmptyString(uploadPathOverride) then uploadPathOverride else config.uploadPath
    }

    /** `setFilePondUploadPath($path)`. */
    method SetFilePondUploadPath(path: string)
      modifies this`uploadPathOverride
      ensures uploadPathOverride == path
    {
      uploadPathOverride := path;
    }

    /** The body of the loop over ids: rehydrate, move, remove. */
    method CommitTransfer(id: Value, uploadPath: string, uploads: map<string, string>) returns (out: seq<Value>)
      requires IsValidId(id) ==> Mounted(service.State())
      modifies service`mounts
      ensures Commit(service.State(), out) == CommitId(old(service.State()), config.transferDir, uploadPath, id, uploads)
    {
      var transfer := service.GetTransfer(config.transferDir, id);
      if transfer.None? {
        return [id];
      }
      var files := transfer.value.Files();
      ghost var fs0 := service.State();
      out := [];
      for k := 0 to |files|
        invariant Mounted(service.State())
        invariant Commit(service.State(), out) == CommitFiles(fs0, files[..k], uploadPath, uploads)
      {
        var moved := service.MoveFile(files[k], uploadPath, uploads);
        if moved {
          out := out + [MovedPath(uploadPath, files[k])];
        }
        assert files[..k + 1][..k] == files[..k];
      }
      assert files[..|files|] == files;
      var _ := service.RemoveTransferDirectory(config.transferDir, id);
    }

    /** `handleTransferIds($ids)`. */
    method HandleTransferIds(ids: seq<Value>, uploads: map<string, string>) returns (out: seq<Value>)
      requires Mounted(service.State()) || forall i :: 0 <= i < |ids| ==> !IsValidId(ids[i])
      modifies service`mounts
      ensures Commit(service.State(), out) ==
        CommitIds(old(service.State()), config.transferDir, old(FilePondUploadPath()), ids, uploads)
    {
      out := [];
      var uploadPath := FilePondUploadPath();
      ghost var fs0 := service.State();
      for i := 0 to |ids|
        invariant Mounted(service.State()) || forall j :: i <= j < |ids| ==> !IsValidId(ids[j])
        invariant Commit(service.State(), out) == CommitIds(fs0, config.transferDir, uploadPath, ids[..i], uploads)
      {
        var reported := CommitTransfer(ids[i], uploadPath, uploads);
        out := out + reported;
        assert ids[..i + 1][..i] == ids[..i];
      }
      assert ids[..|ids|] == ids;
    }

    /** `handleSingleTransferId($id)`: the same as a list holding only that id. */
    method HandleSingleTransferId(id: Value, uploads: map<string, string>) returns (out: seq<Value>)
      requires IsValidId(id) ==> Mounted(service.State())
      modifies service`mounts
      ensures Commit(service.State(), out) ==
        CommitIds(old(service.State()), config.transferDir, old(FilePondUploadPath()), [id], uploads)
    {
      out := CommitTransfer(id, FilePondUploadPath(), uploads);
      assert [id][..0] == [];
    }

    /**
     * `parseFilePondPost($post)`: only a submitted list of transfer ids is
     * handled; files or encoded files posted under that name yield nothing.
     */
    method ParseFilePondPost(post: string, g: Globals, json: Json, uploads: map<string, string>) returns (out: seq<Value>)
      requires Mounted(service.State())
      modifies service`mounts
      ensures var parsed := ParsedPost([post], g, json);
        && (parsed.None? || parsed.value.format != Some(TransferIds) ==>
              out == [] && service.State() == old(service.State()))
        && (parsed.Some? && parsed.value.format == Some(TransferIds) ==>
              Commit(service.State(), out) ==
                CommitIds(old(service.State()), config.transferDir, old(FilePondUploadPath()), parsed.value.values.value, uploads))
    {
      var handler := service.ParsePostFiles(OneEntry(post), g, json);
      if handler.None? || handler.value.format != Some(TransferIds) {
        return [];
      }
      out := HandleTransferIds(handler.value.values.value, uploads);
    }

    /**
     * `handleTransfer($ids, $property, $context, $pathSuffix)`. A file
     * property sets the upload path (with the trimmed suffix appended) and
     * the target backend. Then: no ids and a property ident parse the
     * posted field of that name; a list of ids or a single id is committed;
     * anything else yields nothing.
     */
    method HandleTransfer(ids: Value, property: Property, pathSuffix: Option<string>,
                          g: Globals, json: Json, uploads: map<string, string>) returns (out: seq<Value>)
      requires Mounted(service.State())
      modifies this`uploadPathOverride, service`mounts, service`targetIdent
      ensures property.FileProperty? ==>
        && uploadPathOverride == property.uploadPath + (if pathSuffix.Some? then Rtrim(pathSuffix.value, SuffixTrimChars) else "")
        && service.targetIdent == property.filesystem
      ensures !property.FileProperty? ==>
        uploadPathOverride == old(uploadPathOverride) && service.targetIdent == old(service.targetIdent)
      ensures var before := old(service.State()).(target := service.targetIdent);
        && (!Truthy(ids) && property.PropertyIdent? ==>
              var parsed := ParsedPost([property.ident], g, json);
              (parsed.Some? && parsed.value.format == Some(TransferIds) ==>
                 Commit(service.State(), out) ==
                   CommitIds(before, config.transferDir, FilePondUploadPath(), parsed.value.values.value, uploads))
              && (parsed.None? || parsed.value.format != Some(TransferIds) ==> out == [] && service.State() == before))
        && (!(!Truthy(ids) && property.PropertyIdent?) && ids.Arr? ==>
              Commit(service.State(), out) == CommitIds(before, config.transferDir, FilePondUploadPath(), Values(ids.entries), uploads))
        && (!(!Truthy(ids) && property.PropertyIdent?) && ids.Str? ==>
              Commit(service.State(), out) == CommitIds(before, config.transferDir, FilePondUploadPath(), [ids], uploads))
        && (!(!Truthy(ids) && property.PropertyIdent?) && !ids.Arr? && !ids.Str? ==>
              out == [] && service.State() == before)
    {
      if IsTruthyProperty(property) && property.FileProperty? {
        var uploadPath := property.uploadPath;
        if pathSuffix.Some? {
          uploadPath := uploadPath + Rtrim(pathSuffix.value, SuffixTrimChars);
        }
        SetFilePondUploadPath(uploadPath);
        service.SetTargetFilesystem(property.filesystem);
      }
      if !Truthy(ids) && property.PropertyIdent? {
        out := ParseFilePondPost(property.ident, g, json, uploads);
        return;
      }
      match ids {
        case Arr(entries) =>
          out := HandleTransferIds(Values(entries), uploads);
        case Str(id) =>
          out := HandleSingleTransferId(ids, uploads);
        case _ =>
          out := [];
      }
    }
  }

  /**
   * Committing a valid id whose staging directory yields a staged file on
   * one backend: the file lands at `uploadPath/name` with its staged content
   * and is reported there, provided that path lies outside the staging
   * directory, which is left empty.
   */
  lemma {:induction false} CommitRestoredFile(fs: Fs, transferDir: string, uploadPath: string, id: Value,
                                              uploads: map<string, string>)
    requires Mounted(fs) && !CrossBackend(fs) && IsValidId(id)
    requires var t := RestoredTransfer(Current(fs), transferDir, id.s);
      && t.file != Null
      && TmpName(t.file) !in uploads && TmpName(t.file) in Current(fs).files
      && TmpName(t.file) != Join(uploadPath, FileName(t.file))
      && !Under(Join(uploadPath, FileName(t.file)), TransferDir(transferDir, id.s))
    ensures var t := RestoredTransfer(Current(fs), transferDir, id.s);
      var committed := CommitId(fs, transferDir, uploadPath, id, uploads);
      && committed.out == [MovedPath(uploadPath, t.file)]
      && Join(uploadPath, FileName(t.file)) in Current(committed.fs).files
      && Current(committed.fs).files[Join(uploadPath, FileName(t.file))] == Current(fs).files[TmpName(t.file)]
      && forall q :: q in Current(committed.fs).files ==> !Under(q, TransferDir(transferDir, id.s))
  {
    StagingClearedAfterCommit(fs, transferDir, uploadPath, id, uploads);
    var t := RestoredTransfer(Current(fs), transferDir, id.s);
    var file := t.file;
    assert FileList(file, t.variants) == [file];
    assert [file][..0] == [];
    MoveOverwritesWithinBackend(fs, uploads, file, uploadPath);
    var o := MoveFileEffect(fs, uploads, file, uploadPath);
    assert o.ok;
    assert CommitFiles(fs, [], uploadPath, uploads) == Commit(fs, []);
    var moved := CommitFiles(fs, [file], uploadPath, uploads);
    assert moved == Commit(o.fs, [] + [MovedPath(uploadPath, file)]);
  }

  /** After staging one upload into an unused id, the restored main file is that upload, staged. */
  lemma {:induction false} StagedUploadIsRestored(fs: Fs, uploads: map<string, string>, json: Json,
                                                  transferDir: string, id: string, metadata: Value, main: Value)
    requires Mounted(fs) && TmpName(main) in uploads
    requires forall q :: q in Current(fs).files ==> !Under(q, TransferDir(transferDir, id))
    requires '/' !in FileName(main) && NameMatches(MainFilePattern, FileName(main))
    requires !NameMatches(MetadataFilePattern, FileName(main))
    ensures var staged := Current(StoreEffect(fs, uploads, json, transferDir, id, metadata, main));
      var file := RestoredTransfer(staged, transferDir, id).file;
      && file != Null && FileName(file) == FileName(main)
      && TmpName(file) == Join(TransferDir(transferDir, id), FileName(main))
      && TmpName(file) in staged.files && staged.files[TmpName(file)] == uploads[TmpName(main)]
  {
    var dir := TransferDir(transferDir, id);
    var name := FileName(main);
    var staged := Current(StoreEffect(fs, uploads, json, transferDir, id, metadata, main));
    StagedMainFile(fs, uploads, json, transferDir, id, metadata, main);
    RestoredSingleMatch(staged, transferDir, id, Join(dir, name));
    NameInJoin(dir, name);
  }

  /** After staging, the upload is the only main-file match, and it holds the upload's content. */
  lemma StagedMainFile(fs: Fs, uploads: map<string, string>, json: Json,
                       transferDir: string, id: string, metadata: Value, main: Value)
    requires Mounted(fs) && TmpName(main) in uploads
    requires forall q :: q in Current(fs).files ==> !Under(q, TransferDir(transferDir, id))
    requires '/' !in FileName(main) && NameMatches(MainFilePattern, FileName(main))
    requires !NameMatches(MetadataFilePattern, FileName(main))
    ensures var staged := Current(StoreEffect(fs, uploads, json, transferDir, id, metadata, main));
      var p := Join(TransferDir(transferDir, id), FileName(main));
      && Matching(staged, TransferDir(transferDir, id), MainFilePattern) == {p}
      && p in staged.files && staged.files[p] == uploads[TmpName(main)]
  {
    assert FileName(main) != MetadataFilename by {
      assert NameMatches(MetadataFilePattern, MetadataFilename);
    }
    MainMatchAfterStore(fs, uploads, json, transferDir, id, metadata, main);
    StoredUpload(fs, uploads, json, transferDir, id, metadata, main);
  }

  /**
   * End to end on one backend: an upload staged into an unused id and then
   * committed lands at `uploadPath/name` with its content, is reported
   * there, and leaves no trace in the staging directory.
   */
  lemma {:induction false} StagedUploadIsCommitted(fs: Fs, uploads: map<string, string>, json: Json,
                                                   transferDir: string, uploadPath: string,
                                                   id: Value, metadata: Value, main: Value)
    requires Mounted(fs) && !CrossBackend(fs) && IsValidId(id) && TmpName(main) in uploads
    requires forall q :: q in Current(fs).files ==> !Under(q, TransferDir(transferDir, id.s))
    requires '/' !in FileName(main) && NameMatches(MainFilePattern, FileName(main))
    requires !NameMatches(MetadataFilePattern, FileName(main))
    requires Join(TransferDir(transferDir, id.s), FileName(main)) !in uploads
    requires !Under(Join(uploadPath, FileName(main)), TransferDir(transferDir, id.s))
    ensures var staged := StoreEffect(fs, uploads, json, transferDir, id.s, metadata, main);
      var committed := CommitId(staged, transferDir, uploadPath, id, uploads);
      && committed.out == [Str(Join(uploadPath, FileName(main)))]
      && Join(uploadPath, FileName(main)) in Current(committed.fs).files
      && Current(committed.fs).files[Join(uploadPath, FileName(main))] == uploads[TmpName(main)]
      && forall q :: q in Current(committed.fs).files ==> !Under(q, TransferDir(transferDir, id.s))
  {
    StagedUploadIsRestored(fs, uploads, json, transferDir, id.s, metadata, main);
    var staged := StoreEffect(fs, uploads, json, transferDir, id.s, metadata, main);
    assert Join(uploadPath, FileName(main)) != Join(TransferDir(transferDir, id.s), FileName(main)) by {
      NameInJoin(TransferDir(transferDir, id.s), FileName(main));
    }
    CommitRestoredFile(staged, transferDir, uploadPath, id, uploads);
  }
}
