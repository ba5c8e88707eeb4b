/**
 * Transfer: the staged unit of one upload. Its fields are assigned by the
 * constructor, by `restore` (rehydration from the staging directory) and by
 * `populate` (from the request superglobals); `getFiles` reads them.
 */
module Transfers {
  import opened PhpValues
  import opened FileHelper

  /**
   * `getFiles(null)`: the main file followed by the variants, the main file
   * left out when it is unset (`null`).
   */
  function FileList(file: Value, variants: seq<Value>): (r: seq<Value>)
    ensures r == [] <==> file == Null && variants == []
    ensures file != Null ==> |r| == |variants| + 1 && r[0] == file && r[1..] == variants
    ensures file == Null ==> r == variants
  {
    (if file != Null then [file] else []) + variants
  }

  /** The first normalised file, or `null` when there is none (`$files[0]` on an empty list). */
  function Head(files: seq<Value>): Value
  {
    if |files| > 0 then files[0] else Null
  }

  /** `array_slice($files, 1)`. */
  function Tail(files: seq<Value>): seq<Value>
  {
    if |files| > 0 then files[1..] else []
  }

  /**
   * `populate` splits the normalised files into a main file and variants, and
   * `getFiles` joins them again: the round trip returns the normalised list
   * whenever its first record is set.
   */
  lemma {:induction false} PopulateThenGetFiles(files: seq<Value>)
    requires files == [] || files[0] != Null
    ensures FileList(Head(files), Tail(files)) == files
  {
    if files != [] {
      assert [files[0]] + files[1..] == files;
    }
  }

  /** The metadata `populate` keeps: the decoded first form value, when the form field is set. */
  function PopulatedMetadata(entry: string, g: Globals, json: Json, previous: Value): (r: Value)
    // without a form value the metadata is left as it was
    ensures !HasFormField(g, entry) || FormField(g, entry) == Null ==> r == previous
    // a single string is JSON-decoded; an object cannot be decoded and yields null
    ensures HasFormField(g, entry) && FormField(g, entry).Str? ==> r == json.decode(FormField(g, entry).s)
    ensures HasFormField(g, entry) && FormField(g, entry).Obj? ==> r == Null
    // an array gives the decoding of its first value as `toArray` lists it
    ensures HasFormField(g, entry) && FormField(g, entry).Arr? ==> r == JsonDecode(json, ToArray(FormField(g, entry))[0])
  {
    var form := if HasFormField(g, entry) then ToArray(FormField(g, entry)) else [];
    if |form| > 0 then JsonDecode(json, form[0]) else previous
  }

  class Transfer {
    var id: string
    var file: Value
    var variants: seq<Value>
    var metadata: Value

    /**
     * `new Transfer($id)`: a truthy id is kept, otherwise the transfer takes
     * the freshly dispensed one. `dispensed` is the dispenser's output.
     */
    constructor (id: string, dispensed: string)
      ensures this.id == (if NonEmptyString(id) then id else dispensed)
      ensures file == Null && variants == [] && metadata == Arr([])
    {
      this.id := if NonEmptyString(id) then id else dispensed;
      file := Null;
      variants := [];
      metadata := Arr([]);
    }

    /** `restore`: the three parts are set exactly as given; the id is kept. */
    method Restore(file: Value, variants: seq<Value>, metadata: Value)
      modifies this
      ensures id == old(id)
      ensures this.file == file && this.variants == variants && this.metadata == metadata
    {
      this.file := file;
      this.variants := variants;
      this.metadata := metadata;
    }

    /**
     * `populate($entry)`: the first normalised file of `$_FILES[$entry]` is
     * the main file and the rest are variants, in order; the metadata is
     * replaced by the decoded first value of `$_POST[$entry]` when that field
     * is set.
     */
    method Populate(entry: string, g: Globals, json: Json)
      modifies this
      ensures id == old(id)
      ensures file == Head(ArrayOfFiles(FilePart(g, entry)))
      ensures variants == Tail(ArrayOfFiles(FilePart(g, entry)))
      ensures metadata == PopulatedMetadata(entry, g, json, old(metadata))
      ensures !HasFilePart(g, entry) ==> file == Null && Files() == []
    {
      var files := ToArrayOfFiles(FilePart(g, entry));
      var form := if HasFormField(g, entry) then ToArray(FormField(g, entry)) else [];
      if |form| > 0 {
        metadata := JsonDecode(json, form[0]);
      }
      file := Head(files);
      variants := Tail(files);
    }

    /** `getFiles(null)`. */
    function Files(): (r: seq<Value>)
      reads this
      ensures r == FileList(file, variants)
    {
      FileList(file, variants)
    }

    /** `getFiles($mutator)` with a callable: the mutator sees the file list and the metadata. */
    function FilesThrough<R>(mutator: (seq<Value>, Value) -> R): (r: R)
      reads this
      ensures r == mutator(FileList(file, variants), metadata)
    {
      mutator(Files(), metadata)
    }
  }
}
