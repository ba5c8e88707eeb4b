# FilePond server endpoint — a Dafny model

This project models the server side of the FilePond upload protocol as a
Charcoal module implements it. It covers these parts:

- **The endpoint action (`RequestAction`).** It classifies each request and
  dispatches it:
  - a `POST` stages a new upload;
  - a `DELETE` reverts a staged upload;
  - a `GET`/`HEAD` with `load` streams a stored file back.
- **The service (`FilePondService`).** It keeps a *current* and a *target*
  storage backend and offers the operations the action relies on:
  - parse the request;
  - store a transfer in the staging directory;
  - validate transfer ids;
  - rehydrate a transfer from its staging directory;
  - move a file, within one backend or across two;
  - remove a staging directory;
  - read a file.
- **The value objects (`Transfer`, `Post`).** A `Transfer` is one staged
  upload: an id, a main file, its variants and metadata. A `Post` classifies
  one submitted field as file objects, base64-encoded file objects, or
  transfer ids.
- **The helpers:**
  - `FileHelperTrait` (list detection, normalisation of PHP's multi-file
    `$_FILES` shape);
  - `FilesystemAwareTrait` (backend lookup and configuration).
- **The consumer side (`FilePondAwareTrait`).** When a form is saved, each
  transfer id is rehydrated, its files are moved to the final upload path,
  its staging directory is removed, and the final paths are reported. Ids
  that are not valid are echoed back unchanged.

## How the model is built

**Modules.** The model follows the program's structure:

| module | file | role |
|---|---|---|
| `PhpValues` | `php_values.dfy` | PHP values and the superglobals |
| `TransferIds` | `transfer_ids.dfy` | the id guard |
| `FileHelper` | `file_helper.dfy` | the file-helper trait |
| `Posts` | `post.dfy` | `Post` |
| `Transfers` | `transfer.dfy` | `Transfer` |
| `Storage` | `storage.dfy` | the backends and the mount manager |
| `FilesystemAware` | `filesystem_aware.dfy` | the filesystem-aware trait |
| `FilePond` | `service.dfy` | the service |
| `Actions` | `request_action.dfy` | the action |
| `FilePondAware` | `filepond_aware.dfy` | the consumer trait |

**Classes.** Objects whose fields the source updates in place are classes:
`Transfer`, `FilePondService`, `RequestAction`, and `FilePondAwareAction`
(the state the trait adds to its host).

**Storage effects.** Each operation on storage has a specification function
over the backends' state (`RemoveEffect`, `MoveFileEffect`, `StoreEffect`,
`CommitId`, `CommitIds`). The imperative methods are proved to produce
exactly that effect. The properties are proved as lemmas about the
functions.

**PHP quirks kept as the code has them:**

- **The id guard.** `/^[0-9a-fA-F]{32}$/` has no `D` modifier, so it also
  accepts 32 hex digits followed by one newline.
- **Associative arrays.** `isAssociativeArray([])` is true, because
  `range(0, -1)` is `[0, -1]`. So `toArray([])` wraps the empty array.
- **`rtrim($s, '/\t')`.** In single quotes `\t` is not a tab. The charlist
  is `/`, `\` and `t`, so a trailing `t` is trimmed from a path suffix.
- **The metadata fallback.** `getTransfer` restores `$metadata ?? []`. The
  metadata "record" is the file object of `.metadata`, not its decoded
  content.

**External inputs.** I/O and other outside sources become explicit inputs:

- the superglobals (`Globals`);
- the content of uploaded temporary files, a map from temporary path to
  content (`uploads`). It models `is_uploaded_file` and `file_get_contents`.
- `json_decode`/`json_encode`, as a pair of functions (`Json`);
- the body of a `DELETE` request (`Request.body`);
- the id the dispenser returns (`dispensed`). The only assumption about it
  is that it has the form of an MD5 digest.

**Where the code and its documentation differ, the model follows the code:**

- **Ids with a trailing newline.** An id followed by a newline passes the
  guard. The storage layer probably strips the newline again (see "Path
  normalisation" under "## Left out").
- **`getTransfer` never reports "not found" for a valid id.** It returns a
  transfer whose file may be absent.
- **Dotless file names.** A main file whose name has no dot is not found
  again when the transfer is rehydrated. The pattern is `.+\..+`.
- **Clearing the destination before a move.** This happens on the current
  backend, even when the file goes to a different target backend.

## Model

| member | source | states |
|---|---|---|
| `TransferIds.MatchHexRunShape` | src/Charcoal/FilePond/Service/FilePondService.php:338 | The anchored matcher for `n` hex digits accepts exactly `n` hex digits, optionally followed by one newline. |
| `TransferIds.ValidTransferIdShape` | src/Charcoal/FilePond/Service/FilePondService.php:336-339 | `isValidTransferId` holds exactly for 32 hex digits (either case), optionally followed by one `"\n"`. |
| `TransferIds.TrailingNewlineAccepted` | src/Charcoal/FilePond/Service/FilePondService.php:338 | 32 hex digits plus `"\n"` pass the guard. Two newlines, or a leading newline, do not. |
| `TransferIds.ValidIdIsPathComponent` | src/Charcoal/FilePond/Service/FilePondService.php:355-365 | An id that passes the guard is 32 or 33 characters long and contains no `/`, `\` or `.`, so `path/id` stays inside `path`. |
| `TransferIds.DispensedIdIsValid` | src/Charcoal/FilePond/Service/Helper/UniqueIdDispenser.php:11-14 | Every MD5-shaped dispensed id passes the guard, so a fresh upload can later be reverted. |
| `PhpValues.JsonDecode` | src/Charcoal/FilePond/Service/Helper/Transfer.php:64 | A string is decoded by `json_decode`. An array or object is refused and gives `null`. |
| `FileHelper.AscendingRange` | src/Charcoal/FilePond/Service/Helper/FileHelperTrait.php:17 | `range(a, b)` for `a <= b` is `a, a+1, …, b`. |
| `FileHelper.IsAssociativeArray` | src/Charcoal/FilePond/Service/Helper/FileHelperTrait.php:15-18 | An array is associative exactly when it is not a non-empty list keyed `0..n-1` in order. The empty array counts as associative. |
| `FileHelper.ToArray` | src/Charcoal/FilePond/Service/Helper/FileHelperTrait.php:24-30 | `null` gives the empty list. A non-empty list is returned as it is. Anything else is wrapped in a one-element list. |
| `FileHelper.FileRecordAt` | src/Charcoal/FilePond/Service/Helper/FileHelperTrait.php:41-47 | Each of the five fields of the record is the entry at the given index of the parallel array of the same name. |
| `FileHelper.ArrayOfFiles` | src/Charcoal/FilePond/Service/Helper/FileHelperTrait.php:36-53 | With an array `tmp_name`: one record per `tmp_name` entry, in order, built from that entry's key. Otherwise: `toArray` of the value. |
| `FileHelper.ToArrayOfFiles` | src/Charcoal/FilePond/Service/Helper/FileHelperTrait.php:36-53 | The loop builds exactly the records `ArrayOfFiles` specifies. |
| `FileHelper.IsEncodedFile` | src/Charcoal/FilePond/Service/Helper/FileHelperTrait.php:59-63 | An array or object is never an encoded file. A string is one iff it JSON-decodes to an object. |
| `Posts.NewPost` | src/Charcoal/FilePond/Service/Helper/Post.php:26-40 | A format is set iff the entry was submitted, and values are set iff a format is. With only a file part: `FILE_OBJECTS` and the normalised files. With a form field: its values, never empty, and `BASE64_ENCODED_FILE_OBJECTS` iff the first value decodes to an object, else `TRANSFER_IDS`. |
| `Posts.FormFieldOverridesFilePart` | src/Charcoal/FilePond/Service/Helper/Post.php:28-39 | When both parts are submitted and the form value is not an encoded file, the post is `TRANSFER_IDS` with the form values. The file part is discarded. |
| `Transfers.FileList` | src/Charcoal/FilePond/Service/Helper/Transfer.php:93-97 | The list is empty iff there is neither a main file nor variants. When the main file is set it comes first, followed by the variants. |
| `Transfers.PopulateThenGetFiles` | src/Charcoal/FilePond/Service/Helper/Transfer.php:58-71 | Splitting the normalised files into a main file and variants, then joining them with `getFiles`, gives the list back whenever its first record is set. |
| `Transfers.PopulatedMetadata` | src/Charcoal/FilePond/Service/Helper/Transfer.php:61-65 | Without a form value the metadata is left as it was. A single string is JSON-decoded. An array gives the decoding of the first value `toArray` lists, so a list of values decodes its first one. An object cannot be decoded and gives `null`. |
| `Transfers.Transfer.constructor` | src/Charcoal/FilePond/Service/Helper/Transfer.php:36-39 | A truthy id is kept, otherwise the dispensed id is used. There is no file, no variants, and metadata `[]`. |
| `Transfers.Transfer.Restore` | src/Charcoal/FilePond/Service/Helper/Transfer.php:47-52 | The file, variants and metadata are set as given. The id is unchanged. |
| `Transfers.Transfer.Populate` | src/Charcoal/FilePond/Service/Helper/Transfer.php:58-71 | The main file is the first normalised file and the variants are the rest. The metadata is the decoded first form value when the field is set, else unchanged. Without a file part there are no files. |
| `Transfers.Transfer.Files` | src/Charcoal/FilePond/Service/Helper/Transfer.php:93-97 | `getFiles(null)` is the main file, when set, followed by the variants: `FileList` of the fields. |
| `Transfers.Transfer.FilesThrough` | src/Charcoal/FilePond/Service/Helper/Transfer.php:93-97 | `getFiles($mutator)` is the mutator applied to the file list and the metadata. |
| `Storage.Write` | src/Charcoal/FilePond/Service/FilePondService.php:413 | Writing succeeds iff the path is free. It then adds the file, and on refusal nothing changes. |
| `Storage.CreateDir` | src/Charcoal/FilePond/Service/FilePondService.php:311-313 | Creating a directory adds it and keeps every file. |
| `Storage.Delete` | src/Charcoal/FilePond/Service/FilePondService.php:393 | Deleting succeeds iff the file exists. The file is gone afterwards and everything else is kept. |
| `Storage.Rename` | src/Charcoal/FilePond/Service/FilePondService.php:399 | Renaming succeeds iff the source exists and the destination is free. It moves the content, and on refusal nothing changes. |
| `Storage.DeleteDir` | src/Charcoal/FilePond/Service/FilePondService.php:345-348 | Removes the directory and everything below it. Everything else is kept unchanged. Reports whether the directory existed. |
| `Storage.MountCopy` | src/Charcoal/FilePond/Service/FilePondService.php:387-390 | The copy succeeds iff both backends are mounted, the source exists and the destination is free. It writes the source's content at the destination on the target backend, and on refusal nothing changes. |
| `Storage.LeastExists` | src/Charcoal/FilePond/Service/FilePondService.php:492-493 | Every non-empty listing has a first element in the model's listing order. |
| `Storage.FirstListed` | src/Charcoal/FilePond/Service/FilePondService.php:488-495 | The scan over the matching paths returns exactly the first listed one. |
| `FilesystemAware.GetFilesystem` | src/Charcoal/FilePond/Service/Helper/FilesystemAwareTrait.php:35-42 | A backend is found iff its ident is in the container, and it is that backend. |
| `FilesystemAware.HasFilesystem` | src/Charcoal/FilePond/Service/Helper/FilesystemAwareTrait.php:50-53 | `hasFilesystem` holds iff the ident is in the container. |
| `FilesystemAware.GetFilesystemConfig` | src/Charcoal/FilePond/Service/Helper/FilesystemAwareTrait.php:62-73 | `null` iff the backend is unknown. Otherwise its configured configset if set, and `[]` if not. |
| `FilesystemAware.PublicUnlessStrictlyFalse` | src/Charcoal/FilePond/Service/Helper/FilesystemAwareTrait.php:81-93 | A backend is public iff it is known and its configset's `public` is not the boolean `false`. A known backend without a configset is public. |
| `FilePond.RemoveEffect` | src/Charcoal/FilePond/Service/FilePondService.php:355-365 | An invalid id changes nothing and reports `false`. A valid id deletes `path/id` on the current backend and reports whether it existed. |
| `FilePond.MoveFileEffect` | src/Charcoal/FilePond/Service/FilePondService.php:372-415 | A move keeps the set of mounted backends, the current and target idents, and the current backend's directories. |
| `FilePond.ClearDestination` | src/Charcoal/FilePond/Service/FilePondService.php:379-382 | Any file at the destination is removed from the current backend. The other files and all directories are kept. |
| `FilePond.MoveOverwritesWithinBackend` | src/Charcoal/FilePond/Service/FilePondService.php:378-399 | On one backend, a stored file moves to `path/name` with its content and overwrites any file there. The move reports success. The current backend's files are exactly the old ones without the source, plus the destination. The directories and every other backend are unchanged. |
| `FilePond.FailedRenameStillClearsDestination` | src/Charcoal/FilePond/Service/FilePondService.php:379-399 | On one backend, when the source is missing or is the destination itself, the rename fails. The destination has still been deleted by the overwrite step. Nothing else changes on any backend. |
| `FilePond.MoveOntoItselfLosesFile` | src/Charcoal/FilePond/Service/FilePondService.php:378-399 | Moving a stored file onto its own path deletes it (the overwrite step) and then fails the rename. |
| `FilePond.CrossBackendMove` | src/Charcoal/FilePond/Service/FilePondService.php:378-397 | Across backends, the move succeeds iff the target is mounted, the source exists and the target path is free there. On success the target gains the destination with the source's content, and the current backend loses the source and its own copy of the destination. On failure only the current backend's copy of the destination is removed. Directories and other backends are unchanged in both cases. |
| `FilePond.ExistingTargetFileBlocksCrossBackendMove` | src/Charcoal/FilePond/Service/FilePondService.php:380-396 | A file already at the destination on the target backend makes the copy fail. The target is untouched and the source stays. |
| `FilePond.PrepareStaging` | src/Charcoal/FilePond/Service/FilePondService.php:308-320 | The staging directory exists afterwards and is the only directory that can be added. Falsy metadata writes no file. |
| `FilePond.StoreEffect` | src/Charcoal/FilePond/Service/FilePondService.php:305-330 | Storing keeps the current backend mounted and both idents. The staging directory is the only directory it can create. |
| `FilePond.DotlessNameNeverMatches` | src/Charcoal/FilePond/Service/FilePondService.php:442 | A name without a dot never matches the main-file pattern `.+\..+`. |
| `FilePond.MatchedNameShape` | src/Charcoal/FilePond/Service/FilePondService.php:442-443 | A name the main-file pattern `.+\..+` accepts has at least three characters and a dot that is neither first nor last. A name the metadata pattern accepts starts with `.` and has at least nine characters. |
| `FilePond.MetadataNameIsNotMain` | src/Charcoal/FilePond/Service/FilePondService.php:34-37 | `.metadata` is not taken for the main file. |
| `FilePond.Matching` | src/Charcoal/FilePond/Service/FilePondService.php:460-475 | The matching paths are files on the backend that lie below the directory. The name after the directory has no `/` and matches the pattern. |
| `FilePond.FileObject` | src/Charcoal/FilePond/Service/FilePondService.php:502-515 | The file object's `tmp_name` is the path and its `name` is the path's base name. |
| `FilePond.Basename` | src/Charcoal/FilePond/Service/FilePondService.php:510 | `basename($path)`: the result contains no `/`. Trailing separators are dropped before the last component is taken. |
| `FilePond.BasenameOfJoin` | src/Charcoal/FilePond/Service/FilePondService.php:510 | The base name of `dir/name` is `name`, for a non-empty name without `/`. |
| `FilePond.FirstFile` | src/Charcoal/FilePond/Service/FilePondService.php:488-495 | `null` iff nothing matches. Otherwise the file object of one matching path, whose name matches the pattern, has no `/`, and is staged directly in the directory. |
| `FilePond.SingleMatchIsFirst` | src/Charcoal/FilePond/Service/FilePondService.php:488-495 | When exactly one path matches, `getFile` returns its file object. |
| `FilePond.RestoredTransfer` | src/Charcoal/FilePond/Service/FilePondService.php:433-449 | `getTransfer` restores no variants (`[]`), whatever the staging directory holds. |
| `FilePond.RestoredTransferShape` | src/Charcoal/FilePond/Service/FilePondService.php:439-446 | The file is `null` iff nothing matches the main-file pattern. Otherwise its name matches the pattern, has no `/`, and its `tmp_name` is that name directly inside `path/id`. The metadata is `[]` iff no `.metadata` file exists, and otherwise its name matches the metadata pattern. |
| `FilePond.ReadFileResult` | src/Charcoal/FilePond/Service/FilePondService.php:521-546 | `false` iff the file is missing from the backend. Otherwise the record's `tmp_name` is the path, its `name` the base name and its `content` the stored content. A stream is always truthy, so an empty file still gives a record. |
| `FilePond.StoredUpload` | src/Charcoal/FilePond/Service/FilePondService.php:305-330 | Staging an upload into an unused id writes its content at `path/id/name`. The metadata file is added iff the metadata is truthy, and nothing else changes. |
| `FilePond.StagedFiles` | src/Charcoal/FilePond/Service/FilePondService.php:305-330 | After staging, the only files in the staging directory are the upload and, with truthy metadata, `.metadata`. |
| `FilePond.MainMatchAfterStore` | src/Charcoal/FilePond/Service/FilePondService.php:442 | After staging, the main-file pattern matches the upload alone when its name matches, and nothing otherwise. |
| `FilePond.MetadataMatchAfterStore` | src/Charcoal/FilePond/Service/FilePondService.php:443 | After staging, the metadata pattern matches `.metadata` alone when the metadata is truthy, and nothing otherwise. |
| `FilePond.StoreThenRestore` | src/Charcoal/FilePond/Service/FilePondService.php:305-330 | For an upload whose name has no `/`, matches `.+\..+` and is not a `.metadata` name, staged into an id whose directory holds no file yet: rehydrating finds the upload (same name, staged path). The metadata record is set iff the metadata was truthy, and it is then the `.metadata` file. |
| `FilePond.DotlessUploadIsNotRestored` | src/Charcoal/FilePond/Service/FilePondService.php:439-446 | A staged upload whose name has no dot is stored but not found again. The rehydrated transfer has no file. |
| `FilePond.EmptyDirectoryRestoresEmptyTransfer` | src/Charcoal/FilePond/Service/FilePondService.php:439-448 | A missing or empty staging directory rehydrates to no file, no variants and metadata `[]`. |
| `FilePond.RevertRemovesStaging` | src/Charcoal/FilePond/Service/FilePondService.php:355-365 | Reverting a valid id removes the staging directory and everything below it. Every other file keeps its content. |
| `FilePond.GetIntent` | src/Charcoal/FilePond/Service/FilePondService.php:278-297 | `fetch` takes priority over `restore`, which takes priority over `load`, and the value passes through. With none of them set the result is `null`. |
| `FilePond.NonPostIntent` | src/Charcoal/FilePond/Service/FilePondService.php:216-233 | `DELETE` gives a revert of the request body. `GET`/`HEAD` gives the parameter intent, and any other method gives `[]`. |
| `FilePond.FirstSubmittedFrom` | src/Charcoal/FilePond/Service/FilePondService.php:245-250 | The index of the first submitted entry from `k` on. None iff no entry from `k` on was submitted. |
| `FilePond.OneEntryIsOneElementList` | src/Charcoal/FilePond/Service/FilePondService.php:195 | A single entry name is parsed like a one-element list. |
| `FilePond.FilePondService.constructor` | src/Charcoal/FilePond/Service/FilePondService.php:83-96 | The server's backend is current and no target is set. |
| `FilePond.FilePondService.SetCurrentFilesystem` | src/Charcoal/FilePond/Service/FilePondService.php:146-155 | A falsy ident falls back to the server's backend. |
| `FilePond.FilePondService.SetTargetFilesystem` | src/Charcoal/FilePond/Service/FilePondService.php:169-175 | The target ident is set as given. |
| `FilePond.FilePondService.IsValidTransferIdCall` | src/Charcoal/FilePond/Service/FilePondService.php:336-339 | Valid iff the id is a string of 32 hex digits, optionally followed by one newline. |
| `FilePond.FilePondService.RemoveTransferDirectory` | src/Charcoal/FilePond/Service/FilePondService.php:355-365 | The new state and the result are those of `RemoveEffect`. |
| `FilePond.FilePondService.MoveFile` | src/Charcoal/FilePond/Service/FilePondService.php:372-415 | The new state and the result are those of `MoveFileEffect`. |
| `FilePond.FilePondService.StoreTransfer` | src/Charcoal/FilePond/Service/FilePondService.php:305-330 | The new state is `StoreEffect` for the transfer's id, metadata and main file. |
| `FilePond.FilePondService.GetFile` | src/Charcoal/FilePond/Service/FilePondService.php:488-495 | Returns the first listed match's file object, or `null`. |
| `FilePond.FilePondService.GetTransfer` | src/Charcoal/FilePond/Service/FilePondService.php:433-449 | `false` iff the id is invalid. Otherwise a fresh transfer with that id whose parts are the restored ones. |
| `FilePond.FilePondService.ReadFile` | src/Charcoal/FilePond/Service/FilePondService.php:521-546 | Returns the record for the file on the current backend, or `false`. |
| `FilePond.FilePondService.FindSubmitted` | src/Charcoal/FilePond/Service/FilePondService.php:197-209 | The loop stops at the first submitted entry. |
| `FilePond.FilePondService.ParsePostFiles` | src/Charcoal/FilePond/Service/FilePondService.php:192-210 | Returns the format and values of the first submitted entry, or `[]`. |
| `FilePond.FilePondService.Post` | src/Charcoal/FilePond/Service/FilePondService.php:239-261 | No submitted parameter gives `[]`. Otherwise a `FILE_TRANSFER` of a fresh transfer with the dispensed id, whose main file, variants and metadata are populated from the first submitted parameter. |
| `FilePond.FilePondService.ParseApiRequest` | src/Charcoal/FilePond/Service/FilePondService.php:216-233 | A non-`POST` is classified by `NonPostIntent`. A `POST` gives `[]` iff nothing was submitted, and otherwise a fresh transfer whose files are the normalised posted files. |
| `Actions.EscapeQuotes` | src/Charcoal/FilePond/Action/RequestAction.php:184 | Escaping never shortens the value, and a value without `"` is left as it is. |
| `Actions.EscapedValueReadsBack` | src/Charcoal/FilePond/Action/RequestAction.php:184 | A value without backslashes, quote-escaped and closed with `"`, reads back as the value followed by the rest. |
| `Actions.Utf8Char` | src/Charcoal/FilePond/Action/RequestAction.php:187 | One to four bytes. A single byte equal to the code iff the code is ASCII, and otherwise all bytes are ≥ 0x80. |
| `Actions.EncodeByte` | src/Charcoal/FilePond/Action/RequestAction.php:187 | An unreserved byte is kept as itself. Any other byte becomes `%` and two hex digits of its value. |
| `Actions.DecodeEncodedBytes` | src/Charcoal/FilePond/Action/RequestAction.php:187 | Percent-decoding inverts the byte encoding. |
| `Actions.RawUrlEncodeRoundTrip` | src/Charcoal/FilePond/Action/RequestAction.php:187 | Percent-decoding `rawurlencode($filename)` gives the filename's UTF-8 bytes. |
| `Actions.RawUrlEncode` | src/Charcoal/FilePond/Action/RequestAction.php:187 | The encoding is at least as long as the text and holds only unreserved characters, `%` and upper-case hex digits. |
| `Actions.EncodedIsHeaderSafe` | src/Charcoal/FilePond/Action/RequestAction.php:187 | The encoded filename holds only unreserved characters, `%` and upper-case hex digits. |
| `Actions.GenerateHttpDisposition` | src/Charcoal/FilePond/Action/RequestAction.php:163-191 | The `%` error iff the fallback (the filename when empty) holds `%`. The separator error iff it does not, but either name holds `/` or `\`. Otherwise success. |
| `Actions.DispositionReadsBack` | src/Charcoal/FilePond/Action/RequestAction.php:163-191 | A generated value starts with the disposition and reads back the fallback as the quoted `filename`. An extended `filename*` follows iff the filename differs from the fallback, and it decodes to the filename's UTF-8 bytes. |
| `Actions.NoFallbackMeansNoExtendedParameter` | src/Charcoal/FilePond/Action/RequestAction.php:165-167 | Without a fallback, the value is the quoted parameter alone. |
| `Actions.InlineDispositionReadsBack` | src/Charcoal/FilePond/Action/RequestAction.php:136 | An inline disposition without fallback starts with `inline; filename="` and reads back as exactly the file name, with nothing after it. |
| `Actions.IsHandled` | src/Charcoal/FilePond/Action/RequestAction.php:27-31 | `HANDLERS`: of the intents the service recognises, only fetch and restore are not handled. `[]` and `null` are not handled. |
| `Actions.LoadedResponse` | src/Charcoal/FilePond/Action/RequestAction.php:139-144 | The status is kept and the body is the file's content. The exposed-headers list, `Content-Type` (the file's type), `Content-Length` (its length) and `Content-Disposition` (the given value) are set. Every other header is kept. |
| `Actions.FileLoadReply` | src/Charcoal/FilePond/Action/RequestAction.php:119-145 | A string missing from the backend gives a 500. A falsy non-string gives a 500 and a truthy one throws (no stream). For a stored file it throws iff the disposition for its base name is refused. Otherwise it keeps the status, sends the stored content as the body, and the disposition reads back as the base name. |
| `Actions.RequestAction.constructor` | src/Charcoal/FilePond/Action/RequestAction.php:37-42 | The action holds the given service. |
| `Actions.RequestAction.HandleFileTransfer` | src/Charcoal/FilePond/Action/RequestAction.php:75-93 | Sets mode `custom`. No files gives a 400, no success and no change (and needs no mounted backend). Otherwise it stages the transfer under the server's transfer directory, keeps success, and answers with the id as a `text/plain` body. |
| `Actions.RequestAction.HandleRevertFileTransfer` | src/Charcoal/FilePond/Action/RequestAction.php:100-112 | An invalid id gives a 400 and no change. A valid id gives a 204 after `RemoveEffect` on the transfer directory. |
| `Actions.RequestAction.HandleFileLoad` | src/Charcoal/FilePond/Action/RequestAction.php:119-145 | The reply is `FileLoadReply` for the file on the current backend. A falsy read sets no success and keeps the mode. A truthy read sets mode `inline` and keeps the success flag. |
| `Actions.RequestAction.Run` | src/Charcoal/FilePond/Action/RequestAction.php:53-68 | An unhandled intent returns the response unchanged with success, and keeps the mode. `DELETE` answers 204/400 by id validity, removes only for a valid id, and keeps success and mode. A `GET`/`HEAD` load answers `FileLoadReply` for the `load` parameter, with the same success and mode as `HandleFileLoad`, and changes no storage. A `POST` with nothing submitted returns the response with success and the mode kept. Otherwise it sets mode `custom`, and stages the first submitted entry's first file under the dispensed id, keeping success; with no files it answers 400 without success. |
| `FilePondAware.CommitFiles` | src/Charcoal/FilePond/Service/Helper/FilePondAwareTrait.php:136-140 | Moves keep the backends mounted and the idents unchanged. No more paths are reported than there are files, and every reported path is `uploadPath/name` of one of the files. |
| `FilePondAware.CommitFilesMovesEveryFile` | src/Charcoal/FilePond/Service/Helper/FilePondAwareTrait.php:136-140 | Completeness on one backend: when every file is staged on the current backend, is not a fresh upload, has its own temporary name and is not at any destination, every file is moved and reported, in order. |
| `FilePondAware.MoveKeepsOtherFiles` | src/Charcoal/FilePond/Service/FilePondService.php:399 | A successful same-backend move keeps every other file of the current backend and stays on one backend. |
| `FilePondAware.CommitId` | src/Charcoal/FilePond/Service/Helper/FilePondAwareTrait.php:121-145 | An invalid id is echoed and changes nothing. A valid one keeps the backends mounted and the idents unchanged. |
| `FilePondAware.CommitIds` | src/Charcoal/FilePond/Service/Helper/FilePondAwareTrait.php:151-179 | A mounted current backend stays mounted. With no backend mounted, every id is echoed. |
| `FilePondAware.CommitIdsAppend` | src/Charcoal/FilePond/Service/Helper/FilePondAwareTrait.php:157-176 | Committing `ids1 + ids2` commits `ids1`, then `ids2` from the resulting state, and concatenates the outputs. |
| `FilePondAware.InvalidIdsAreEchoed` | src/Charcoal/FilePond/Service/Helper/FilePondAwareTrait.php:159-165 | A list of invalid ids is echoed unchanged and touches no storage. |
| `FilePondAware.OutputsAreEchoesOrFinalPaths` | src/Charcoal/FilePond/Service/Helper/FilePondAwareTrait.php:157-176 | Every output is either one of the given invalid ids or a path below the upload path. |
| `FilePondAware.StagingClearedAfterCommit` | src/Charcoal/FilePond/Service/Helper/FilePondAwareTrait.php:174-175 | After a valid id is committed, its staging directory and everything below it are gone. |
| `FilePondAware.EmptyTransferReportsNothing` | src/Charcoal/FilePond/Service/Helper/FilePondAwareTrait.php:121-145 | A valid id with an empty staging directory reports nothing. Its only effect is the removal. |
| `FilePondAware.Rtrim` | src/Charcoal/FilePond/Service/Helper/FilePondAwareTrait.php:76 | The result is a prefix of the input that does not end with a trimmed character. Everything removed is in the charlist. |
| `FilePondAware.SuffixLosesTrailingT` | src/Charcoal/FilePond/Service/Helper/FilePondAwareTrait.php:76 | `rtrim("/abstract/", '/\t')` is `"/abstrac"`. |
| `FilePondAware.FilePondAwareAction.constructor` | src/Charcoal/FilePond/Service/Helper/FilePondAwareTrait.php:36-39 | No upload-path override is set. |
| `FilePondAware.FilePondAwareAction.FilePondUploadPath` | src/Charcoal/FilePond/Service/Helper/FilePondAwareTrait.php:186-189 | A non-empty override wins. Otherwise the configured upload path is used. |
| `FilePondAware.FilePondAwareAction.SetFilePondUploadPath` | src/Charcoal/FilePond/Service/Helper/FilePondAwareTrait.php:195-200 | The override is set as given. |
| `FilePondAware.FilePondAwareAction.CommitTransfer` | src/Charcoal/FilePond/Service/Helper/FilePondAwareTrait.php:159-175 | The loop over one transfer's files produces exactly `CommitId`'s state and output. |
| `FilePondAware.FilePondAwareAction.HandleTransferIds` | src/Charcoal/FilePond/Service/Helper/FilePondAwareTrait.php:151-179 | The loop over the ids produces exactly `CommitIds`'s state and output. |
| `FilePondAware.FilePondAwareAction.HandleSingleTransferId` | src/Charcoal/FilePond/Service/Helper/FilePondAwareTrait.php:121-145 | Same state and output as committing the one-element list. |
| `FilePondAware.FilePondAwareAction.ParseFilePondPost` | src/Charcoal/FilePond/Service/Helper/FilePondAwareTrait.php:104-115 | Only a submitted `TRANSFER_IDS` field is committed. Anything else yields `[]` and no change. |
| `FilePondAware.FilePondAwareAction.HandleTransfer` | src/Charcoal/FilePond/Service/Helper/FilePondAwareTrait.php:54-98 | A file property sets the upload path (plus the trimmed suffix) and the target backend. No ids with a property ident parse that field. A list of ids or a single id is committed, and anything else yields `[]`. |
| `FilePondAware.CommitRestoredFile` | src/Charcoal/FilePond/Service/Helper/FilePondAwareTrait.php:121-145 | On one backend, a rehydrated file lands at `uploadPath/name` with its staged content and is the only path reported. The staging directory is left empty. |
| `FilePondAware.StagedUploadIsRestored` | src/Charcoal/FilePond/Service/FilePondService.php:305-330 | For an upload whose name has no `/`, matches `.+\..+` and is not a `.metadata` name, staged into an id whose directory holds no file yet: the rehydrated main file is the upload, at its staged path, with the upload's content. |
| `FilePondAware.StagedMainFile` | src/Charcoal/FilePond/Service/FilePondService.php:305-330 | For an upload whose name has no `/`, matches `.+\..+` and is not a `.metadata` name, staged into an id whose directory holds no file yet: `path/id/name` is the only main-file match and holds the upload's content. |
| `FilePondAware.StagedUploadIsCommitted` | src/Charcoal/FilePond/Service/Helper/FilePondAwareTrait.php:121-145 | End to end, on one backend (no cross-backend target), for a valid id and an upload as in `StoreThenRestore`, whose staged path is not itself an upload and whose final path `uploadPath/name` is outside the staging directory: once committed, the upload is at `uploadPath/name` with its original content and is the only path reported. Nothing is left below the staging directory. |

## Left out

- **Path normalisation.** `applyPathPrefix`, `removePathPrefix` and
  `Util::normalizePath` are not modelled. Paths are the strings
  `path/name` as built, on one prefix-free namespace per backend.
  `normalizePath` very likely strips control characters, so an id with the
  trailing newline the guard accepts probably reaches the same directory as
  the id without it. In the model the two are different directories.
- **MIME types and backend metadata.** A file object's `type` is `null`
  in the model. Its `name` is the base name of the path.
- **Flysystem exceptions.** Every refusal of a storage primitive reports
  `false` and changes nothing, where Flysystem throws instead:
  - writing over an existing file (`FileExistsException`);
  - renaming a missing source (`FileNotFoundException`, the case of
    `MoveOntoItselfLosesFile` and `FailedRenameStillClearsDestination`);
  - renaming onto an existing file (`FileExistsException`);
  - deleting a missing file (`FileNotFoundException`);
  - a mount-manager copy from a missing file (`FileNotFoundException`),
    onto an existing file (`FileExistsException`, the case of
    `ExistingTargetFileBlocksCrossBackendMove`), or to an unmounted prefix
    (`FilesystemNotFoundException`).

  In the source such an exception escapes `moveFile` and aborts its caller:
  `storeTransfer` stops, and in `handleSingleTransferId` and
  `handleTransferIds` no later file or id is processed, no
  `removeTransferDirectory` runs and no output is returned. The model's
  `CommitFiles`, `CommitId` and `CommitIds` carry on after a failed move
  instead, so `StagingClearedAfterCommit` holds only under this
  abstraction. A file already on the target backend when saving across
  backends is an ordinary input that, in the source, aborts the save.
- **Existence checks see files only.** `Write`, `Rename` and `MountCopy`
  refuse a destination that is a file. Flysystem's `assertAbsent` uses
  `has()`, which also sees a directory at that path. A destination that is
  a directory is accepted by the model.
- **Where the trait's settings come from.** The trait reads
  `transferDir()` and `uploadPath()` from its configuration object
  (`FilePondAwareTrait.php` lines 124, 155 and 188). `FilePondConfig.php`
  declares neither method; `ServerConfig.php` declares both, and the
  config base class is not part of this model. The model gives the trait
  a `FilePondConfig` record holding the two values as given. The action
  stages uploads under the service's `server.transferDir`, while the trait
  commits from its own `config.transferDir`. The end-to-end lemmas
  (`StagedUploadIsRestored`, `StagedUploadIsCommitted`) take one
  `transferDir` for both, so they hold only when the trait's transfer
  directory is the server's.
- **PHP version.** `json_decode` of an array or object gives `null`, as in
  PHP 7 with the `@` operator. PHP 8 throws a `TypeError` instead.
- **Listing order.** The order of a directory listing is the backend's
  choice. The model fixes it to ascending lexicographic order.
- **Listings are not recursive.** Only files below the transfer directory
  are listed. Directory entries never match.
- **The adapter cache.** The `currentFileAdapter` cache, `__invoke`,
  `setServer` and the loading of server configurations are not modelled.
  The service is built with a given server configuration.
- **Resolving the property.** `handleTransfer` resolves a context model and
  a property ident to a property object. The model takes the property
  already resolved (`Property`). Model factories are not part of this
  model.
- **The backend objects.** The `targetFilesystem` and `currentFilesystem`
  object fields are represented by their idents over the mounted backends.
- **HTTP details.** Header names are case-sensitive map keys. The PSR-7
  message stack is reduced to status, headers and body.
- **Fetch and restore.** `FETCH_REMOTE_FILE` and `RESTORE_FILE_TRANSFER`
  are classified but have no handler, as in the source.
- **Streams.** `new Stream($file['content'])` with a string throws in the
  source. The model returns the `Threw` case for a non-string payload and
  sends a read file's content as the body.
- **Accessors and logging.** `results()`, the service and config getters
  and setters of the trait, and the `error_log` call are not modelled.
- **The dispenser.** `uniqid` and `md5` are left out. The dispensed id is
  an input that has the form of an MD5 digest.
- `Actions.RequestAction.Run`: requires the current backend to be mounted.
  In the source a missing backend is a PHP `Error` on the first storage call.
- `Actions.RequestAction.HandleFileLoad`: requires the current backend to
  be mounted even for a value that is not a string, which the source never
  reads from storage.
- `FilePondAware.FilePondAwareAction.HandleTransfer`: requires the current
  backend to be mounted, for the same reason.
- `FilePondAware.FilePondAwareAction.ParseFilePondPost`: requires the
  current backend to be mounted, for the same reason.
- `FilePond.FilePondService.StoreTransfer`: requires at least one file. With
  none, `moveFile(null, …)` is a `TypeError` in the source.
