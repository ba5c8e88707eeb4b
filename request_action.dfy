/**
 * RequestAction: the HTTP endpoint. `run` asks the service to classify the
 * request and hands the result to one of three handlers (file transfer,
 * revert, load); everything else is answered with the response unchanged.
 *
 * A `string` here is text; its PHP representation is the UTF-8 encoding of
 * that text, which is what `rawurlencode` sees.
 */
module Actions {
  import opened PhpValues
  import opened TransferIds
  import opened FileHelper
  import opened Transfers
  import opened FilePond

  datatype Result<T> = Success(value: T) | Failure(error: string)

  // Quoting
  // =========================================================================

  /** `str_replace('"', '\\"', $s)`: a backslash before every double quote. */
  function EscapeQuotes(s: string): (r: string)
    ensures |r| >= |s|
    ensures '"' !in s ==> r == s
  {
    if s == [] then []
    else EscapeChar(s[0]) + EscapeQuotes(s[1..])
  }

  /**
   * Reading a quoted-string body up to its closing quote, as an HTTP client
   * does: a backslash makes the next character literal. Yields the value and
   * what follows the closing quote.
   */
  function ReadQuoted(s: string): Option<(string, string)>
  {
    if s == [] then None
    else if s[0] == '"' then Some(([], s[1..]))
    else if s[0] == '\\' && |s| >= 2 then
      match ReadQuoted(s[2..])
      case None => None
      case Some(p) => Some(([s[1]] + p.0, p.1))
    else
      match ReadQuoted(s[1..])
      case None => None
      case Some(p) => Some(([s[0]] + p.0, p.1))
  }

  /** The escaped form of one character. */
  function EscapeChar(c: char): string
  {
    if c == '"' then ['\\', '"'] else [c]
  }

  /** Reading an escaped character then continuing: the character is read back. */
  lemma ReadEscapedChar(c: char, tail: string)
    requires c != '\\' && ReadQuoted(tail).Some?
    ensures ReadQuoted(EscapeChar(c) + tail) == Some(([c] + ReadQuoted(tail).value.0, ReadQuoted(tail).value.1))
  {
    if c == '"' {
      assert (EscapeChar(c) + tail)[2..] == tail;
    } else {
      assert (EscapeChar(c) + tail)[1..] == tail;
    }
  }

  /**
   * A value without backslashes, escaped and closed with a quote, reads back
   * as itself, and reading stops right after the closing quote.
   */
  lemma {:induction false} EscapedValueReadsBack(v: string, rest: string)
    requires '\\' !in v
    ensures ReadQuoted(EscapeQuotes(v) + "\"" + rest) == Some((v, rest))
  {
    if v == [] {
      assert EscapeQuotes(v) + "\"" + rest == ['"'] + rest;
    } else {
      var tail := EscapeQuotes(v[1..]) + "\"" + rest;
      assert ReadQuoted(tail) == Some((v[1..], rest)) by {
        assert '\\' !in v[1..] by {
          assert v == [v[0]] + v[1..];
        }
        EscapedValueReadsBack(v[1..], rest);
      }
      assert EscapeQuotes(v) + "\"" + rest == EscapeChar(v[0]) + tail by {
        assert EscapeQuotes(v) == EscapeChar(v[0]) + EscapeQuotes(v[1..]);
      }
      ReadEscapedChar(v[0], tail);
      assert [v[0]] + v[1..] == v;
    }
  }

  // rawurlencode over UTF-8
  // =========================================================================

  type Byte = b: int | 0 <= b < 256

  /** The UTF-8 encoding of one character. */
  function Utf8Char(c: char): (bs: seq<Byte>)
    ensures 1 <= |bs| <= 4
    ensures c as int < 0x80 <==> |bs| == 1
    ensures c as int < 0x80 ==> bs == [c as int]
    ensures c as int >= 0x80 ==> forall i :: 0 <= i < |bs| ==> bs[i] >= 0x80
  {
    var n := c as int;
    if n < 0x80 then [n]
    else if n < 0x800 then [0xC0 + n / 0x40, 0x80 + n % 0x40]
    else if n < 0x10000 then [0xE0 + n / 0x1000, 0x80 + (n / 0x40) % 0x40, 0x80 + n % 0x40]
    else [0xF0 + n / 0x40000, 0x80 + (n / 0x1000) % 0x40, 0x80 + (n / 0x40) % 0x40, 0x80 + n % 0x40]
  }

  /** The bytes PHP holds for a text. */
  function Utf8(s: string): (bs: seq<Byte>)
    ensures |bs| >= |s|
  {
    if s == [] then [] else Utf8Char(s[0]) + Utf8(s[1..])
  }

  /** The bytes `rawurlencode` keeps as they are (RFC 3986 unreserved characters). */
  predicate IsUnreserved(b: int)
  {
    ('A' as int <= b <= 'Z' as int) || ('a' as int <= b <= 'z' as int) || ('0' as int <= b <= '9' as int)
    || b == '-' as int || b == '_' as int || b == '.' as int || b == '~' as int
  }

  const UpperHex: string := "0123456789ABCDEF"

  /** The value of an uppercase hexadecimal digit. */
  function HexValue(c: char): nat
  {
    if '0' <= c <= '9' then c as int - '0' as int
    else if 'A' <= c <= 'F' then c as int - 'A' as int + 10
    else 0
  }

  /** One byte, encoded: itself when unreserved, `%XX` in uppercase hexadecimal otherwise. */
  function EncodeByte(b: Byte): (r: string)
    ensures |r| == 1 || |r| == 3
    ensures |r| == 1 <==> IsUnreserved(b)
    ensures |r| == 1 ==> r[0] as int == b && r[0] != '%'
    ensures |r| == 3 ==> r[0] == '%' && HexValue(r[1]) * 16 + HexValue(r[2]) == b
  {
    if IsUnreserved(b) then [b as char]
    else
      assert HexValue(UpperHex[b / 16]) == b / 16 && HexValue(UpperHex[b % 16]) == b % 16;
      ['%', UpperHex[b / 16], UpperHex[b % 16]]
  }

  function EncodeBytes(bs: seq<Byte>): (r: string)
    ensures |r| >= |bs|
  {
    if bs == [] then [] else EncodeByte(bs[0]) + EncodeBytes(bs[1..])
  }

  /** `rawurlencode($s)`: only unreserved characters, `%` and upper-case hex digits appear. */
  function RawUrlEncode(s: string): (r: string)
    ensures |r| >= |s|
    ensures forall i :: 0 <= i < |r| ==> IsUnreserved(r[i] as int) || r[i] == '%' || r[i] in UpperHex
  {
    EncodedIsHeaderSafe(Utf8(s));
    EncodeBytes(Utf8(s))
  }

  /** Percent-decoding, as a client reads an extended parameter value. */
  function PercentDecode(t: string): seq<int>
  {
    if t == [] then []
    else if t[0] == '%' && |t| >= 3 then [HexValue(t[1]) * 16 + HexValue(t[2])] + PercentDecode(t[3..])
    else [t[0] as int] + PercentDecode(t[1..])
  }

  /** Decoding an encoded byte then continuing: the byte is read back. */
  lemma DecodeEncodedByte(b: Byte, rest: string)
    ensures PercentDecode(EncodeByte(b) + rest) == [b] + PercentDecode(rest)
  {
    var e := EncodeByte(b);
    if |e| == 1 {
      assert (e + rest)[1..] == rest;
    } else {
      assert (e + rest)[3..] == rest;
    }
  }

  lemma {:induction false} DecodeEncodedBytes(bs: seq<Byte>)
    ensures PercentDecode(EncodeBytes(bs)) == bs
  {
    if bs != [] {
      DecodeEncodedBytes(bs[1..]);
      DecodeEncodedByte(bs[0], EncodeBytes(bs[1..]));
      assert [bs[0]] + bs[1..] == bs;
    }
  }

  /** Percent-decoding `rawurlencode($s)` yields the UTF-8 bytes of `s`. */
  lemma RawUrlEncodeRoundTrip(s: string)
    ensures PercentDecode(RawUrlEncode(s)) == Utf8(s)
  {
    DecodeEncodedBytes(Utf8(s));
  }

  /** An encoded value holds only unreserved characters and `%` escapes: nothing that ends a header parameter. */
  lemma {:induction false} EncodedIsHeaderSafe(bs: seq<Byte>)
    ensures forall i :: 0 <= i < |EncodeBytes(bs)| ==>
      IsUnreserved(EncodeBytes(bs)[i] as int) || EncodeBytes(bs)[i] == '%' || EncodeBytes(bs)[i] in UpperHex
  {
    if bs != [] {
      EncodedIsHeaderSafe(bs[1..]);
      var e := EncodeByte(bs[0]);
      var rest := EncodeBytes(bs[1..]);
      assert EncodeBytes(bs) == e + rest;
      forall i | 0 <= i < |e + rest|
        ensures IsUnreserved((e + rest)[i] as int) || (e + rest)[i] == '%' || (e + rest)[i] in UpperHex
      {
        if i >= |e| {
          assert (e + rest)[i] == rest[i - |e|];
        }
      }
    }
  }

  // Content-Disposition
  // =========================================================================

  const PercentInFallback := "The filename fallback cannot contain the \"%\" character."
  const SeparatorInName := "The filename and the fallback cannot contain the \"/\" and \"\\\" characters."

  /** `; filename*=utf-8''`, the extended parameter's lead-in (RFC 6266, section 4.3). */
  const ExtendedLeadIn := "; filename*=utf-8''"

  /**
   * `generateHttpDisposition($disposition, $filename, $filenameFallback)`:
   * an empty fallback defaults to the filename; a `%` in the fallback, or a
   * `/` or `\` in either name, is an `InvalidArgumentException`.
   */
  function GenerateHttpDisposition(disposition: string, filename: string, filenameFallback: string): (r: Result<string>)
    ensures var fallback := if filenameFallback == "" then filename else filenameFallback;
      && (r == Failure(PercentInFallback) <==> '%' in fallback)
      && (r == Failure(SeparatorInName) <==>
            '%' !in fallback && ('/' in filename || '\\' in filename || '/' in fallback || '\\' in fallback))
      && (r.Success? <==> '%' !in fallback && '/' !in filename && '\\' !in filename && '/' !in fallback && '\\' !in fallback)
  {
    var fallback := if filenameFallback == "" then filename else filenameFallback;
    if '%' in fallback then Failure(PercentInFallback)
    else if '/' in filename || '\\' in filename || '/' in fallback || '\\' in fallback then Failure(SeparatorInName)
    else
      var output := disposition + "; filename=\"" + EscapeQuotes(fallback) + "\"";
      Success(if filename != fallback then output + ExtendedLeadIn + RawUrlEncode(filename) else output)
  }

  /** Regrouping a four-part concatenation, kept apart so the disposition proof stays small. */
  lemma ConcatAssociative4(a: string, b: string, c: string, d: string)
    ensures a + b + c + d == a + (b + c + d)
  {
  }

  /** A lead-in followed by an escaped, closed quoted value splits back into its parts. */
  lemma QuotedAfterLead(lead: string, value: string, rest: string)
    requires '\\' !in value
    ensures var v := lead + (EscapeQuotes(value) + "\"" + rest);
      |v| >= |lead| && v[..|lead|] == lead && ReadQuoted(v[|lead|..]) == Some((value, rest))
  {
    var v := lead + (EscapeQuotes(value) + "\"" + rest);
    assert v[|lead|..] == EscapeQuotes(value) + "\"" + rest;
    EscapedValueReadsBack(value, rest);
  }

  /**
   * What a client reads back from a generated Content-Disposition value:
   * the disposition, the quoted fallback exactly as given, and, only when
   * the filename differs from the fallback, an extended parameter whose
   * percent-decoding is the filename's UTF-8 encoding.
   */
  lemma {:induction false} DispositionReadsBack(disposition: string, filename: string, filenameFallback: string)
    requires GenerateHttpDisposition(disposition, filename, filenameFallback).Success?
    ensures var v := GenerateHttpDisposition(disposition, filename, filenameFallback).value;
      var fallback := if filenameFallback == "" then filename else filenameFallback;
      var lead := disposition + "; filename=\"";
      && |v| >= |lead| && v[..|lead|] == lead
      && ReadQuoted(v[|lead|..]).Some?
      && ReadQuoted(v[|lead|..]).value.0 == fallback
      && var ext := ReadQuoted(v[|lead|..]).value.1;
      && (filename == fallback ==> ext == "")
      && (filename != fallback ==>
            |ext| >= |ExtendedLeadIn| && ext[..|ExtendedLeadIn|] == ExtendedLeadIn
            && PercentDecode(ext[|ExtendedLeadIn|..]) == Utf8(filename))
  {
    var fallback := if filenameFallback == "" then filename else filenameFallback;
    var lead := disposition + "; filename=\"";
    var ext := if filename != fallback then ExtendedLeadIn + RawUrlEncode(filename) else "";
    assert GenerateHttpDisposition(disposition, filename, filenameFallback).value
      == lead + (EscapeQuotes(fallback) + "\"" + ext) by {
      ConcatAssociative4(disposition + "; filename=\"", EscapeQuotes(fallback), "\"", ext);
    }
    QuotedAfterLead(lead, fallback, ext);
    if filename != fallback {
      assert ext[|ExtendedLeadIn|..] == RawUrlEncode(filename);
      RawUrlEncodeRoundTrip(filename);
    }
  }

  /**
   * Without a fallback the filename is its own fallback, so a non-ASCII
   * filename is sent only in the quoted parameter: no extended parameter.
   */
  lemma NoFallbackMeansNoExtendedParameter(disposition: string, filename: string)
    requires GenerateHttpDisposition(disposition, filename, "").Success?
    ensures GenerateHttpDisposition(disposition, filename, "").value ==
      disposition + "; filename=\"" + EscapeQuotes(filename) + "\""
  {
  }

  // The action
  // =========================================================================

  datatype Response = Response(status: int, headers: map<string, string>, body: string)

  /** What a handler does: return a response, or throw. */
  datatype Reply = Returned(response: Response) | Threw(message: string)

  const StreamNeedsResource := "Expected a resource"
  const ExposedHeaders := "Content-Disposition, Content-Length, X-Content-Transfer-Id"

  /** `HANDLERS`: the intents the action answers. */
  predicate IsHandled(intent: Intent)
    // the intents the service recognises but the action leaves alone are fetch and restore
    ensures intent.Intent? ==>
      (IsHandled(intent) <==> !intent.ident.FetchRemoteFile? && !intent.ident.RestoreFileTransfer?)
    ensures !intent.Intent? ==> !IsHandled(intent)
  {
    intent.Intent? && intent.ident in {FileTransfer, RevertFileTransfer, FileLoad}
  }

  /** The response to a file that was read: the file content as body, with its headers. */
  function LoadedResponse(response: Response, file: Value, disposition: string): (r: Response)
    ensures r.status == response.status
    // four headers are set; every other header is kept
    ensures r.headers.Keys == response.headers.Keys +
      {"Access-Control-Expose-Headers", "Content-Type", "Content-Length", "Content-Disposition"}
    ensures r.body == ToStr(Field(file, "content"))
    ensures r.headers["Access-Control-Expose-Headers"] == ExposedHeaders
    ensures r.headers["Content-Type"] == ToStr(Field(file, "type"))
    ensures r.headers["Content-Length"] == ToStr(Field(file, "length"))
    ensures r.headers["Content-Disposition"] == disposition
    ensures forall h :: (h in response.headers &&
      h !in {"Access-Control-Expose-Headers", "Content-Type", "Content-Length", "Content-Disposition"}) ==>
      r.headers[h] == response.headers[h]
  {
    Response(
      response.status,
      response.headers["Access-Control-Expose-Headers" := ExposedHeaders]
                      ["Content-Type" := ToStr(Field(file, "type"))]
                      ["Content-Length" := ToStr(Field(file, "length"))]
                      ["Content-Disposition" := disposition],
      ToStr(Field(file, "content")))
  }

  /** An inline disposition without fallback reads back as exactly the file name. */
  lemma InlineDispositionReadsBack(name: string)
    requires GenerateHttpDisposition("inline", name, "").Success?
    ensures var v := GenerateHttpDisposition("inline", name, "").value;
      var lead := "inline; filename=\"";
      && |v| >= |lead| && v[..|lead|] == lead
      && ReadQuoted(v[|lead|..]) == Some((name, ""))
  {
    DispositionReadsBack("inline", name, "");
    assert "inline" + "; filename=\"" == "inline; filename=\"";
  }

  /** What `handleFileLoad` works on: the backend's record for a name, or the value itself. */
  function LoadedFile(b: Storage.Backend, file: Value): Value
  {
    if file.Str? then ReadFileResult(b, file.s) else file
  }

  /**
   * The reply of `handleFileLoad` for `file` against backend `b`: a 500 for
   * a name the backend does not hold, otherwise the file's contents with a
   * disposition a client reads back as the file's base name.
   */
  function FileLoadReply(b: Storage.Backend, file: Value, response: Response): (r: Reply)
    ensures file.Str? && file.s !in b.files ==> r == Returned(response.(status := 500))
    ensures !file.Str? && !Truthy(file) ==> r == Returned(response.(status := 500))
    ensures !file.Str? && Truthy(file) ==> r == Threw(StreamNeedsResource)
    ensures file.Str? && file.s in b.files ==>
      (r.Threw? <==> GenerateHttpDisposition("inline", Basename(file.s), "").Failure?)
    ensures file.Str? && file.s in b.files && r.Returned? ==>
      var lead := "inline; filename=\"";
      && r.response.status == response.status
      && r.response.body == b.files[file.s]
      && "Content-Disposition" in r.response.headers
      && var v := r.response.headers["Content-Disposition"];
      && |v| >= |lead| && v[..|lead|] == lead
      && ReadQuoted(v[|lead|..]) == Some((Basename(file.s), ""))
  {
    var read := LoadedFile(b, file);
    if !Truthy(read) then Returned(response.(status := 500))
    else if !file.Str? then Threw(StreamNeedsResource)
    else
      assert ToStr(Field(read, "name")) == Basename(file.s);
      var d := GenerateHttpDisposition("inline", Basename(file.s), "");
      if d.Failure? then Threw(d.error)
      else
        InlineDispositionReadsBack(Basename(file.s));
        var loaded := LoadedResponse(response, read, d.value);
        assert loaded.headers["Content-Disposition"] == d.value && loaded.body == b.files[file.s];
        Returned(loaded)
  }

  class RequestAction {
    var success: bool
    var mode: string
    const service: FilePondService

    constructor (service: FilePondService, success: bool, mode: string)
      ensures this.service == service && this.success == success && this.mode == mode
    {
      this.service := service;
      this.success := success;
      this.mode := mode;
    }

    /**
     * `handleFileTransfer($transfer, $response)`: without files, a 400 and
     * no success; otherwise the main file is staged under the server's
     * transfer directory and the transfer id is written to the body.
     */
    method HandleFileTransfer(transfer: Transfer, response: Response, json: Json, uploads: map<string, string>)
      returns (reply: Reply)
      requires |transfer.Files()| > 0 ==> Mounted(service.State())
      modifies this, service`mounts
      ensures mode == "custom"
      ensures |transfer.Files()| == 0 ==>
        reply == Returned(response.(status := 400)) && !success && service.State() == old(service.State())
      ensures |transfer.Files()| > 0 ==>
        && reply == Returned(response.(body := response.body + transfer.id,
                                       headers := response.headers["Content-Type" := "text/plain"]))
        && success == old(success)
        && service.State() == StoreEffect(old(service.State()), uploads, json, service.server.transferDir,
                                          transfer.id, transfer.metadata, transfer.Files()[0])
    {
      mode := "custom";
      var files := transfer.Files();
      if |files| == 0 {
        success := false;
        return Returned(response.(status := 400));
      }
      service.StoreTransfer(service.server.transferDir, transfer, json, uploads);
      reply := Returned(response.(body := response.body + transfer.id,
                                  headers := response.headers["Content-Type" := "text/plain"]));
    }

    /**
     * `handleRevertFileTransfer($id, $response)`: a 400 for a missing or
     * invalid id; otherwise the staging directory is removed and the answer
     * is a 204, whatever the removal reported.
     */
    method HandleRevertFileTransfer(id: Value, response: Response) returns (reply: Reply)
      requires IsValidId(id) ==> Mounted(service.State())
      modifies service`mounts
      ensures !IsValidId(id) ==> reply == Returned(response.(status := 400)) && service.State() == old(service.State())
      ensures IsValidId(id) ==>
        reply == Returned(response.(status := 204))
        && service.State() == RemoveEffect(old(service.State()), service.server.transferDir, id).fs
    {
      var valid := service.IsValidTransferIdCall(id);
      if !IsSet(id) || !valid {
        ValidTransferIdShape(if id.Str? then id.s else "");
        return Returned(response.(status := 400));
      }
      ValidTransferIdShape(id.s);
      var _ := service.RemoveTransferDirectory(service.server.transferDir, id);
      reply := Returned(response.(status := 204));
    }

    /**
     * `handleFileLoad($file, $response)`: a string is read from the current
     * backend; a falsy result is a 500 without success. A file that did not
     * come from the backend has no stream to send, and the stream
     * constructor throws; a name the disposition refuses throws too.
     */
    method HandleFileLoad(file: Value, response: Response) returns (reply: Reply)
      requires Mounted(service.State())
      modifies this
      ensures reply == FileLoadReply(Current(service.State()), file, response)
      ensures !Truthy(LoadedFile(Current(service.State()), file)) ==> !success && mode == old(mode)
      ensures Truthy(LoadedFile(Current(service.State()), file)) ==> mode == "inline" && success == old(success)
    {
      var read := file;
      if file.Str? {
        read := service.ReadFile(file.s);
      }
      if !Truthy(read) {
        success := false;
        return Returned(response.(status := 500));
      }
      mode := "inline";
      if !file.Str? {
        return Threw(StreamNeedsResource);
      }
      var disposition := GenerateHttpDisposition("inline", ToStr(Field(read, "name")), "");
      if disposition.Failure? {
        return Threw(disposition.error);
      }
      reply := Returned(LoadedResponse(response, read, disposition.value));
    }

    /**
     * `run($request, $response)`: the request's intent goes to its handler;
     * an intent without a handler (fetch, restore, none) leaves the response
     * as it is and reports success.
     */
    method Run(request: Request, response: Response, g: Globals, json: Json, dispensed: string,
               uploads: map<string, string>) returns (reply: Reply)
      requires IsMd5Digest(dispensed) && Mounted(service.State())
      modifies this, service`mounts
      // not a POST: answered from the classification alone
      ensures request.verb != "POST" && !IsHandled(NonPostIntent(request)) ==>
        reply == Returned(response) && success && mode == old(mode) && service.State() == old(service.State())
      ensures request.verb == "DELETE" ==>
        reply == Returned(response.(status := if IsValidTransferId(request.body) then 204 else 400))
      ensures request.verb == "DELETE" && !IsValidTransferId(request.body) ==> service.State() == old(service.State())
      ensures request.verb == "DELETE" && IsValidTransferId(request.body) ==>
        service.State() == RemoveEffect(old(service.State()), service.server.transferDir, Str(request.body)).fs
      ensures request.verb == "DELETE" ==> success == old(success) && mode == old(mode)
      ensures request.verb in {"GET", "HEAD"} && GetIntent(request.params).Intent? && GetIntent(request.params).ident == FileLoad ==>
        var file := LoadedFile(Current(old(service.State())), Param(request.params, "load"));
        && service.State() == old(service.State())
        && reply == FileLoadReply(Current(old(service.State())), Param(request.params, "load"), response)
        && (!Truthy(file) ==> !success && mode == old(mode))
        && (Truthy(file) ==> mode == "inline" && success == old(success))
      // a POST: the first submitted entry is staged
      ensures request.verb == "POST" && FirstSubmittedFrom(ParamNames(request.params), g, 0).None? ==>
        reply == Returned(response) && success && mode == old(mode) && service.State() == old(service.State())
      ensures request.verb == "POST" && FirstSubmittedFrom(ParamNames(request.params), g, 0).Some? ==>
        var entry := ParamNames(request.params)[FirstSubmittedFrom(ParamNames(request.params), g, 0).value];
        var files := PostedFiles(g, entry);
        && mode == "custom"
        && (|files| == 0 ==> reply == Returned(response.(status := 400)) && !success
                             && service.State() == old(service.State()))
        && (|files| > 0 ==>
              && reply == Returned(response.(body := response.body + dispensed,
                                             headers := response.headers["Content-Type" := "text/plain"]))
              && success == old(success)
              && service.State() == StoreEffect(old(service.State()), uploads, json, service.server.transferDir,
                                                dispensed, PopulatedMetadata(entry, g, json, Arr([])), files[0]))
    {
      var intent := service.ParseApiRequest(request, g, json, dispensed);
      if !IsHandled(intent) {
        success := true;
        return Returned(response);
      }
      match intent.ident {
        case FileTransfer =>
          assert request.verb == "POST";
          if intent.data.Staged? {
            reply := HandleFileTransfer(intent.data.transfer, response, json, uploads);
          } else {
            assert false;
          }
        case RevertFileTransfer =>
          assert request.verb == "DELETE" && intent.data.value == Str(request.body);
          reply := HandleRevertFileTransfer(intent.data.value, response);
        case FileLoad =>
          assert request.verb in {"GET", "HEAD"};
          reply := HandleFileLoad(intent.data.value, response);
      }
    }
  }
}
