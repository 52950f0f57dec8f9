/** The helpers of app/src/utils.py: data URLs (`data:<mime>;base64,<data>`,
    RFC 2397) carrying an uploaded file, the file size estimated from the
    base64 text, the authenticated user header, and the JSON error body. */
module AppUtils {
  import opened Wrappers
  import opened Text
  import opened Json
  import opened Base64

  const Prefix := "data:"
  const Marker := ";base64,"

  /** `generate_base64_file`: a data URL whose type is `mime` and whose
      data part, after the marker, decodes back to `data`. */
  function GenerateBase64File(data: Bytes, mime: string): (r: string)
    ensures |r| == |Prefix| + |mime| + |Marker| + 4 * ((|data| + 2) / 3)
    ensures r[..|Prefix|] == Prefix && r[|Prefix|..|Prefix| + |mime|] == mime
    ensures r[|Prefix| + |mime|..|Prefix| + |mime| + |Marker|] == Marker
    ensures Decode(r[|Prefix| + |mime| + |Marker|..]) == Some(data)
  {
    DecodeEncode(data);
    var r := Prefix + mime + Marker + Encode(data);
    assert r[|Prefix| + |mime| + |Marker|..] == Encode(data);
    r
  }

  /** The text before the first line break: the regex's `.` does not match
      '\n'. */
  function FirstLine(s: string): (r: string)
    ensures |r| <= |s| && r == s[..|r|]
    ensures '\n' !in r
    ensures |r| < |s| ==> s[|r|] == '\n'
  {
    if s == [] || s[0] == '\n' then [] else [s[0]] + FirstLine(s[1..])
  }

  predicate MarkerAt(s: string, p: int)
  {
    0 <= p && p + |Marker| <= |s| && s[p..p + |Marker|] == Marker
  }

  ghost predicate HasMarker(s: string)
  {
    exists q :: MarkerAt(s, q)
  }

  /** The last occurrence of ";base64,": where the greedy `(.*)` before it
      stops. */
  function LastMarker(s: string): (r: Option<nat>)
    ensures r.Some? ==> MarkerAt(s, r.value) && forall q :: r.value < q ==> !MarkerAt(s, q)
    ensures r.None? ==> forall q :: !MarkerAt(s, q)
  {
    if |s| < |Marker| then None
    else if s[|s| - |Marker|..] == Marker then Some(|s| - |Marker|)
    else
      MarkersOfPrefix(s);
      LastMarker(s[..|s| - 1])
  }

  /** Dropping the last character loses no occurrence when the text does
      not end with the marker. */
  lemma MarkersOfPrefix(s: string)
    requires |s| >= |Marker| && s[|s| - |Marker|..] != Marker
    ensures forall q :: MarkerAt(s, q) <==> MarkerAt(s[..|s| - 1], q)
  {
    forall q | MarkerAt(s[..|s| - 1], q) ensures MarkerAt(s, q) {
      assert s[..|s| - 1][q..q + |Marker|] == s[q..q + |Marker|];
    }
    forall q | MarkerAt(s, q) ensures MarkerAt(s[..|s| - 1], q) {
      assert q + |Marker| != |s|;
      assert s[..|s| - 1][q..q + |Marker|] == s[q..q + |Marker|];
    }
  }

  /** `re.findall(DATA_REGEX, contents)`: at most one match, anchored at
      the start; the MIME type runs to the last ";base64," of the first
      line and the data to the end of that line. */
  function MatchDataUrl(contents: string): (r: Option<(string, string)>)
    ensures r.Some? <==> |contents| >= |Prefix| && contents[..|Prefix|] == Prefix
                         && HasMarker(FirstLine(contents[|Prefix|..]))
    ensures r.Some? ==>
      var line := FirstLine(contents[|Prefix|..]);
      && line == r.value.0 + Marker + r.value.1
      && forall q :: |r.value.0| < q ==> !MarkerAt(line, q)
  {
    if |contents| < |Prefix| || contents[..|Prefix|] != Prefix then None
    else
      var line := FirstLine(contents[|Prefix|..]);
      match LastMarker(line)
      case None => None
      case Some(p) =>
        assert MarkerAt(line, p);
        assert line == line[..p] + line[p..p + |Marker|] + line[p + |Marker|..];
        Some((line[..p], line[p + |Marker|..]))
  }

  /** `t.count('=')`. */
  function CountPad(t: string): (n: nat)
    ensures n <= |t|
  {
    if t == [] then 0 else (if t[0] == '=' then 1 else 0) + CountPad(t[1..])
  }

  /** `s.count('=', -2)`: the '=' among the last two characters. */
  function PadCount(s: string): nat
  {
    CountPad(if |s| < 2 then s else s[|s| - 2..])
  }

  /** `get_file_size`: three quarters of the length (true division), less
      the padding among the last two characters. */
  function FileSize(s: string): (r: real)
    ensures (|s| * 3) as real / 4.0 - 2.0 <= r <= (|s| * 3) as real / 4.0
  {
    (|s| * 3) as real / 4.0 - PadCount(s) as real
  }

  datatype FileMetadata = FileMetadata(fileSize: real, mimeType: string)

  /** The exceptions `parse_base64_file` lets out. */
  datatype ParseError = IndexError | InvalidBase64File

  /** `parse_base64_file` as written: a text the regex does not match raises
      IndexError, which the `except ValueError` clause does not catch; data
      that does not decode raises InvalidBase64FileException. */
  function ParseBase64File(contents: string): (r: Result<(FileMetadata, Bytes), ParseError>)
    ensures r.Failure? && r.error == IndexError <==> MatchDataUrl(contents).None?
    ensures r.Failure? && r.error == InvalidBase64File <==>
      MatchDataUrl(contents).Some? && Decode(MatchDataUrl(contents).value.1).None?
    ensures r.Success? ==>
      && MatchDataUrl(contents).Some?
      && var (mime, data) := MatchDataUrl(contents).value;
      && Decode(data).Some?
      && r.value == (FileMetadata(FileSize(data), mime), Decode(data).value)
  {
    match MatchDataUrl(contents)
    case None => Failure(IndexError)
    case Some((mime, data)) =>
      match Decode(data)
      case None => Failure(InvalidBase64File)
      case Some(bytes) => Success((FileMetadata(FileSize(data), mime), bytes))
  }

  /** As written: text that is not a data URL escapes as IndexError. */
  lemma NotADataUrlRaisesIndexError()
    ensures ParseBase64File("hello") == Failure(IndexError)
  {
    assert "hello"[..|Prefix|][0] != Prefix[0];
  }

  /** `parse_base64_file` as evidently intended: any text that is not a
      valid base64 data URL is reported as InvalidBase64FileException. */
  function ParseBase64FileCorrected(contents: string): (r: Result<(FileMetadata, Bytes), ParseError>)
    ensures r.Failure? ==> r.error == InvalidBase64File
    ensures r.Success? <==> ParseBase64File(contents).Success?
    ensures r.Success? ==> r == ParseBase64File(contents)
  {
    match ParseBase64File(contents)
    case Failure(_) => Failure(InvalidBase64File)
    case Success(v) => Success(v)
  }

  lemma PadCountLastTwo(s: string)
    requires |s| >= 2
    ensures PadCount(s) == (if s[|s| - 2] == '=' then 1 else 0) + (if s[|s| - 1] == '=' then 1 else 0)
  {
    var t := s[|s| - 2..];
    assert t == [s[|s| - 2], s[|s| - 1]];
    assert t[1..] == [s[|s| - 1]];
    assert t[1..][1..] == [];
    assert CountPad(t[1..]) == (if s[|s| - 1] == '=' then 1 else 0) + CountPad([]);
  }

  lemma PaddingArithmetic(n: nat, pad: nat)
    requires n % 3 == 0 ==> pad == 0
    requires n % 3 == 1 ==> pad == 2
    requires n % 3 == 2 ==> pad == 1
    ensures 3 * ((n + 2) / 3) - pad == n
  {
  }

  lemma QuarterOfThree(len: int, g: int, pad: int)
    requires len == 4 * g
    ensures (len * 3) as real / 4.0 - pad as real == (3 * g - pad) as real
  {
    assert (len * 3) as real == 4.0 * (3 * g) as real;
  }

  /** A text of 4 * ceil(n / 3) characters ending in the padding base64
      puts after n bytes: three characters per quarter, less the padding,
      is n. */
  lemma PaddedLength(s: string, n: nat)
    requires |s| == 4 * ((n + 2) / 3)
    requires n > 0 ==> EndsAsPadded(s, n)
    ensures |s| == 4 * ((n + 2) / 3) && 3 * ((n + 2) / 3) - PadCount(s) == n
  {
    if n > 0 {
      PadCountLastTwo(s);
    } else {
      assert |s| == 0;
    }
    PaddingArithmetic(n, PadCount(s));
  }

  /** The estimate is n for a text of 4 * ceil(n / 3) characters ending in
      the padding base64 puts after n bytes. */
  lemma FileSizeOf(s: string, n: nat)
    requires |s| == 4 * ((n + 2) / 3)
    requires n > 0 ==> EndsAsPadded(s, n)
    ensures FileSize(s) == n as real
  {
    PaddedLength(s, n);
    QuarterOfThree(|s|, (n + 2) / 3, PadCount(s));
  }

  /** For base64 text of n bytes the estimate is exactly n. */
  lemma FileSizeOfEncoding(b: Bytes)
    ensures FileSize(Encode(b)) == |b| as real
  {
    if |b| > 0 {
      EncodeEnding(b);
    }
    FileSizeOf(Encode(b), |b|);
  }

  lemma NoLineBreak(s: string)
    requires forall i :: 0 <= i < |s| ==> s[i] != '\n'
    ensures FirstLine(s) == s
  {
  }

  lemma GeneratedMarker(mime: string, e: string)
    requires forall i :: 0 <= i < |e| ==> e[i] != ';'
    ensures LastMarker(mime + Marker + e) == Some(|mime|)
  {
    var rest := mime + Marker + e;
    assert rest[|mime|..|mime| + |Marker|] == Marker;
    assert MarkerAt(rest, |mime|);
    forall q | |mime| < q ensures !MarkerAt(rest, q) {
      NoMarkerAfter(mime, e, q);
    }
    var r := LastMarker(rest);
    assert r.Some?;
    assert !(r.value < |mime|);
    assert !(r.value > |mime|);
  }

  lemma NoMarkerAfter(mime: string, e: string, q: int)
    requires forall i :: 0 <= i < |e| ==> e[i] != ';'
    requires |mime| < q
    ensures !MarkerAt(mime + Marker + e, q)
  {
    var rest := mime + Marker + e;
    if q + |Marker| <= |rest| {
      if q >= |mime| + |Marker| {
        assert rest[q] == e[q - |mime| - |Marker|];
      } else {
        assert rest[q] == Marker[q - |mime|];
      }
      assert rest[q..q + |Marker|][0] == rest[q];
    }
  }

  lemma GeneratedLine(mime: string, e: string)
    requires '\n' !in mime
    requires forall i :: 0 <= i < |e| ==> e[i] != '\n'
    ensures FirstLine(mime + Marker + e) == mime + Marker + e
  {
    var rest := mime + Marker + e;
    forall i | 0 <= i < |rest| ensures rest[i] != '\n' {
      if i >= |mime| + |Marker| {
        assert rest[i] == e[i - |mime| - |Marker|];
      } else if i < |mime| {
        assert rest[i] == mime[i];
      } else {
        assert rest[i] == Marker[i - |mime|];
      }
    }
    NoLineBreak(rest);
  }

  /** The regex splits a data URL whose data part holds no ';' and no
      line break into its MIME type and its data. */
  lemma MatchFramed(mime: string, e: string)
    requires '\n' !in mime
    requires forall i :: 0 <= i < |e| ==> e[i] != ';' && e[i] != '\n'
    ensures MatchDataUrl(Prefix + mime + Marker + e) == Some((mime, e))
  {
    var rest := mime + Marker + e;
    assert Prefix + mime + Marker + e == Prefix + rest;
    StripPrefix(rest);
    GeneratedLine(mime, e);
    GeneratedMarker(mime, e);
    SplitAtMarker(mime, e);
  }

  lemma StripPrefix(rest: string)
    ensures var contents := Prefix + rest;
      |contents| >= |Prefix| && contents[..|Prefix|] == Prefix && contents[|Prefix|..] == rest
  {
  }

  lemma SplitAtMarker(mime: string, e: string)
    ensures var rest := mime + Marker + e;
      rest[..|mime|] == mime && rest[|mime| + |Marker|..] == e
  {
  }

  /** Parsing a generated data URL gives back the MIME type and the bytes,
      and the size estimate is the byte count, for any MIME type without a
      line break (";base64," inside it is fine: the last one is the one the
      generator appended). */
  lemma DataUrlRoundTrip(data: Bytes, mime: string)
    requires '\n' !in mime
    ensures ParseBase64File(GenerateBase64File(data, mime)) == Success((FileMetadata(|data| as real, mime), data))
  {
    var e := Encode(data);
    EncodeAlphabetOrPad(data);
    assert forall i :: 0 <= i < |e| ==> e[i] != ';' && e[i] != '\n';
    DecodeEncode(data);
    FileSizeOfEncoding(data);
    MatchFramed(mime, e);
    assert GenerateBase64File(data, mime) == Prefix + mime + Marker + e;
  }

  /** A request header: name and value. */
  type Header = (string, string)

  /** `request.headers.get(name)`: the value of the first header whose name
      equals `name` ignoring case. */
  function HeaderGet(headers: seq<Header>, name: string): (r: Option<string>)
    ensures r.None? <==> forall i :: 0 <= i < |headers| ==> Lower(headers[i].0) != Lower(name)
    ensures r.Some? ==> exists i :: 0 <= i < |headers| && Lower(headers[i].0) == Lower(name) && r.value == headers[i].1
                                   && forall j :: 0 <= j < i ==> Lower(headers[j].0) != Lower(name)
  {
    if headers == [] then None
    else if Lower(headers[0].0) == Lower(name) then Some(headers[0].1)
    else
      var r := HeaderGet(headers[1..], name);
      assert r.Some? ==> exists i :: 1 <= i < |headers| && Lower(headers[i].0) == Lower(name) && r.value == headers[i].1
                                     && forall j :: 0 <= j < i ==> Lower(headers[j].0) != Lower(name) by {
        if r.Some? {
          var k :| 0 <= k < |headers[1..]| && Lower(headers[1..][k].0) == Lower(name) && r.value == headers[1..][k].1
                   && forall j :: 0 <= j < k ==> Lower(headers[1..][j].0) != Lower(name);
          assert forall j :: 0 <= j < k + 1 ==> Lower(headers[j].0) != Lower(name) by {
            forall j | 0 <= j < k + 1 ensures Lower(headers[j].0) != Lower(name) {
              if j > 0 { assert headers[j] == headers[1..][j - 1]; }
            }
          }
        }
      }
      r
  }

  datatype HttpError = HttpError(status: int, detail: string)

  const UserHeader := "X-Authenticated-Userid"

  /** The dependency `get_user(raise_if_none)` returns, applied to a
      request's headers. */
  function GetUser(headers: seq<Header>, raiseIfNone: bool): (r: Result<Option<string>, HttpError>)
    ensures r.Failure? <==> raiseIfNone && HeaderGet(headers, UserHeader).None?
    ensures r.Failure? ==> r.error == HttpError(403, "Forbidden")
    ensures r.Success? ==> r.value == HeaderGet(headers, UserHeader)
  {
    var uid := HeaderGet(headers, UserHeader);
    if uid.None? && raiseIfNone then Failure(HttpError(403, "Forbidden")) else Success(uid)
  }

  datatype JsonResponse = JsonResponse(status: int, body: Json)

  /** `json_response_with_message`: the body repeats the status code. */
  function JsonResponseWithMessage(code: int, message: string): (r: JsonResponse)
    ensures r.status == code
    ensures r.body.JObject? && r.body.fields.Keys == {"http_code", "message"}
    ensures r.body.fields["http_code"] == JNumber(r.status as real)
    ensures r.body.fields["message"] == JString(message)
  {
    JsonResponse(code, JObject(map["http_code" := JNumber(code as real), "message" := JString(message)]))
  }
}
