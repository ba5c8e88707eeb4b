/**
 * Post: the classification of one submitted field. The source's constructor
 * assigns `values` and `format` from `$_FILES[$entry]`, then lets
 * `$_POST[$entry]`, when present, overwrite both. Here the constructor's
 * effect is a function from the superglobals to a `Post` value; `getFormat`
 * and `getValues` are its two fields.
 */
module Posts {
  import opened PhpValues
  import opened FileHelper

  datatype Format = FileObjects | Base64EncodedFileObjects | TransferIds

  /** The fields of a `Post`; both stay `null` when the entry was not submitted. */
  datatype Post = Post(format: Option<Format>, values: Option<seq<Value>>)

  /** `getPost($entry)` yields a `Post` (rather than `false`) for this entry. */
  predicate IsSubmitted(g: Globals, entry: string)
  {
    HasFilePart(g, entry) || HasFormField(g, entry)
  }

  /** `new Post($entry)`. */
  function NewPost(entry: string, g: Globals, json: Json): (p: Post)
    ensures p.format.Some? <==> IsSubmitted(g, entry)
    ensures p.format.Some? <==> p.values.Some?
    // with only a file part: the normalised files
    ensures HasFilePart(g, entry) && !HasFormField(g, entry) ==>
      p.format == Some(FileObjects) && p.values == Some(ArrayOfFiles(FilePart(g, entry)))
    // a form field takes precedence over a file part of the same name
    ensures HasFormField(g, entry) ==>
      && p.values == Some(ToArray(FormField(g, entry)))
      && |p.values.value| > 0
      && (p.format == Some(Base64EncodedFileObjects) <==> IsEncodedFile(json, p.values.value[0]))
      && (p.format == Some(TransferIds) <==> !IsEncodedFile(json, p.values.value[0]))
  {
    if HasFormField(g, entry) then
      var values := ToArray(FormField(g, entry));
      Post(Some(if IsEncodedFile(json, values[0]) then Base64EncodedFileObjects else TransferIds), Some(values))
    else if HasFilePart(g, entry) then
      Post(Some(FileObjects), Some(ArrayOfFiles(FilePart(g, entry))))
    else
      Post(None, None)
  }

  /**
   * A form field whose first value does not decode to a JSON object is a list
   * of transfer ids, whatever file part was sent under the same name.
   */
  lemma FormFieldOverridesFilePart(entry: string, g: Globals, json: Json)
    requires HasFilePart(g, entry) && HasFormField(g, entry)
    requires !IsEncodedFile(json, ToArray(FormField(g, entry))[0])
    ensures NewPost(entry, g, json) == Post(Some(TransferIds), Some(ToArray(FormField(g, entry))))
  {
  }
}
