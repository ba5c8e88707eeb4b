/**
 * FileHelperTrait: normalising `$_FILES`- and `$_POST`-shaped values into
 * ordered lists, and recognising a JSON-encoded file object.
 */
module FileHelper {
  import opened PhpValues

  /**
   * PHP's `range($start, $end)` on integers with the default step: counts up
   * when `start <= end` and DOWN otherwise, so `range(0, -1)` is `[0, -1]`.
   */
  function PhpRange(start: int, end: int): (r: seq<int>)
    ensures |r| > 0 && r[0] == start
    decreases if start <= end then end - start else start - end
  {
    if start == end then [start]
    else if start < end then [start] + PhpRange(start + 1, end)
    else [start] + PhpRange(start - 1, end)
  }

  lemma {:induction false} AscendingRange(start: int, end: int)
    requires start <= end
    ensures |PhpRange(start, end)| == end - start + 1
    ensures forall i :: 0 <= i < end - start + 1 ==> PhpRange(start, end)[i] == start + i
    decreases end - start
  {
    if start < end {
      AscendingRange(start + 1, end);
    }
  }

  function IntKeys(ns: seq<int>): (ks: seq<Key>)
    ensures |ks| == |ns| && forall i :: 0 <= i < |ns| ==> ks[i] == IntKey(ns[i])
  {
    seq(|ns|, i requires 0 <= i < |ns| => IntKey(ns[i]))
  }

  /** The keys are exactly 0, 1, ..., n-1 in this order, with n at least one. */
  predicate IsNonEmptyList(entries: seq<(Key, Value)>)
  {
    |entries| > 0 && forall i :: 0 <= i < |entries| ==> entries[i].0 == IntKey(i)
  }

  /**
   * `isAssociativeArray($arr)`: `array_keys($arr) !== range(0, count($arr) - 1)`.
   * It is false exactly for a non-empty list; the empty array counts as
   * associative, because `range(0, -1)` has two elements.
   */
  function IsAssociativeArray(entries: seq<(Key, Value)>): (r: bool)
    ensures r <==> !IsNonEmptyList(entries)
    ensures entries == [] ==> r
  {
    var r := Keys(entries) != IntKeys(PhpRange(0, |entries| - 1));
    if |entries| == 0 then
      assert |IntKeys(PhpRange(0, -1))| == 2;
      r
    else
      AscendingRange(0, |entries| - 1);
      if IsNonEmptyList(entries) then
        assert Keys(entries) == IntKeys(PhpRange(0, |entries| - 1));
        r
      else
        r
  }

  /**
   * `toArray($value)`: a list is returned as it is, `null` becomes the empty
   * list and anything else (including an associative or empty array) is
   * wrapped into a one-element list.
   */
  function ToArray(v: Value): (r: seq<Value>)
    ensures v == Null <==> r == []
    ensures v.Arr? && IsNonEmptyList(v.entries) ==> ListOf(r) == v
    ensures !(v.Arr? && IsNonEmptyList(v.entries)) && v != Null ==> r == [v]
  {
    if v.Arr? && !IsAssociativeArray(v.entries) then
      var r := Values(v.entries);
      assert ListOf(r).entries == v.entries;
      r
    else if IsSet(v) then [v]
    else []
  }

  /**
   * Each field of the record `rec` is the entry at `index` of the parallel
   * array of the same name in the multi-file entry `value`.
   */
  predicate IsRecordAt(rec: Value, value: Value, index: Key)
  {
    && Field(rec, "tmp_name") == Lookup(Field(value, "tmp_name"), index)
    && Field(rec, "name") == Lookup(Field(value, "name"), index)
    && Field(rec, "size") == Lookup(Field(value, "size"), index)
    && Field(rec, "error") == Lookup(Field(value, "error"), index)
    && Field(rec, "type") == Lookup(Field(value, "type"), index)
  }

  /** The file record `toArrayOfFiles` builds for one index of a multi-file entry. */
  function FileRecordAt(value: Value, index: Key): (rec: Value)
    ensures IsRecordAt(rec, value, index)
  {
    var e := [
      (StrKey("tmp_name"), Lookup(Field(value, "tmp_name"), index)),
      (StrKey("name"), Lookup(Field(value, "name"), index)),
      (StrKey("size"), Lookup(Field(value, "size"), index)),
      (StrKey("error"), Lookup(Field(value, "error"), index)),
      (StrKey("type"), Lookup(Field(value, "type"), index))
    ];
    assert Get(e, StrKey("name")) == Get(e[1..], StrKey("name")) == e[1].1;
    assert Get(e, StrKey("size")) == Get(e[1..], StrKey("size")) == Get(e[2..], StrKey("size"));
    assert Get(e[2..], StrKey("size")) == e[2].1;
    assert Get(e, StrKey("error")) == Get(e[1..], StrKey("error")) == Get(e[2..], StrKey("error"));
    assert Get(e[2..], StrKey("error")) == Get(e[3..], StrKey("error")) == e[3].1;
    assert Get(e, StrKey("type")) == Get(e[1..], StrKey("type")) == Get(e[2..], StrKey("type"));
    assert Get(e[2..], StrKey("type")) == Get(e[3..], StrKey("type")) == Get(e[4..], StrKey("type"));
    Arr(e)
  }

  /**
   * `toArrayOfFiles($value)`: when `tmp_name` is an array, one record per
   * entry of `tmp_name`, in its order, each built from that entry's key;
   * otherwise `toArray($value)`.
   */
  function ArrayOfFiles(value: Value): (r: seq<Value>)
    ensures Field(value, "tmp_name").Arr? ==>
      var tmp := Field(value, "tmp_name").entries;
      && |r| == |tmp|
      && forall i :: 0 <= i < |r| ==> IsRecordAt(r[i], value, tmp[i].0)
    ensures !Field(value, "tmp_name").Arr? ==> r == ToArray(value)
  {
    var tmp := Field(value, "tmp_name");
    if tmp.Arr? then
      seq(|tmp.entries|, i requires 0 <= i < |tmp.entries| => FileRecordAt(value, tmp.entries[i].0))
    else
      ToArray(value)
  }

  /** `toArrayOfFiles` as the source runs it: a loop appending one record per index. */
  method ToArrayOfFiles(value: Value) returns (results: seq<Value>)
    ensures results == ArrayOfFiles(value)
  {
    var tmp := Field(value, "tmp_name");
    if tmp.Arr? {
      results := [];
      var i := 0;
      while i < |tmp.entries|
        invariant 0 <= i <= |tmp.entries|
        invariant |results| == i
        invariant forall j :: 0 <= j < i ==> results[j] == FileRecordAt(value, tmp.entries[j].0)
      {
        var file := FileRecordAt(value, tmp.entries[i].0);
        results := results + [file];
        i := i + 1;
      }
    } else {
      results := ToArray(value);
    }
  }

  /** `isEncodedFile($value)`: the value JSON-decodes to an object. */
  predicate IsEncodedFile(json: Json, v: Value)
    // arrays and objects are refused by the decoder, so they are never encoded files
    ensures (v.Arr? || v.Obj?) ==> !IsEncodedFile(json, v)
    ensures v.Str? ==> (IsEncodedFile(json, v) <==> json.decode(v.s).Obj?)
  {
    JsonDecode(json, v).Obj?
  }
}
