/** The mosaic transform service: it reads the MIME type and the base64
    payload out of a `data:` URL (a simplified form of section 3 of RFC 2397
    whose default media type is `image/png`), and it turns the generative
    API's response into a PNG data URL or the error "Failed to generate
    mosaic image". The request itself is an input: the response is a value. */
module MosaicService {
  import opened Options
  import opened Strings

  const DefaultMimeType: string := "image/png"
  const ResultPrefix: string := "data:image/png;base64,"
  const NoImageMessage: string := "Failed to generate mosaic image"

  /** `url.split(';')[0].split(':')[1] || 'image/png'`. */
  function MimeTypeOf(url: string): (m: string)
    ensures m != ""
    ensures var head := Before(url, ';');
      m == if ':' in head && Before(After(head, ':'), ':') != ""
           then Before(After(head, ':'), ':') else DefaultMimeType
  {
    var head := Split(url, ';')[0];
    SplitFields(url, ';');
    SplitFields(head, ':');
    var fields := Split(head, ':');
    if |fields| >= 2 && fields[1] != "" then fields[1] else DefaultMimeType
  }

  /** `url.split(',')[1]`: the text between the first and the second comma,
      `undefined` (here `None`) when the URL has no comma. */
  function DataOf(url: string): (d: Option<string>)
    ensures d == if ',' in url then Some(Before(After(url, ','), ',')) else None
  {
    SplitFields(url, ',');
    var fields := Split(url, ',');
    if |fields| >= 2 then Some(fields[1]) else None
  }

  /** What the request sends as `inlineData`. */
  datatype ImagePayload = ImagePayload(mimeType: string, data: Option<string>)

  function RequestPayload(url: string): ImagePayload {
    ImagePayload(MimeTypeOf(url), DataOf(url))
  }

  /** A base64 data URL with a plain media type reads back as that type
      and that payload. */
  lemma DataUrlRoundTrip(m: string, d: string)
    requires m != ""
    requires ':' !in m && ';' !in m && ',' !in m
    requires ',' !in d
    ensures RequestPayload("data:" + m + ";base64," + d) == ImagePayload(m, Some(d))
  {
    var url := "data:" + m + ";base64," + d;
    assert url == ("data:" + m) + [';'] + ("base64," + d);
    SplitAtFirst("data:" + m, ';', "base64," + d);
    assert "data:" + m == "data" + [':'] + m;
    SplitAtFirst("data", ':', m);
    SplitWithoutSeparator(m, ':');
    assert url == ("data:" + m + ";base64") + [','] + d;
    SplitAtFirst("data:" + m + ";base64", ',', d);
    SplitWithoutSeparator(d, ',');
  }

  /** The parts of the API response the search looks at. Every field the
      code tests for truthiness is optional. */
  datatype InlineData = InlineData(data: Option<string>, mimeType: Option<string>)
  datatype Part = Part(inlineData: Option<InlineData>, text: Option<string>)
  datatype Content = Content(parts: Option<seq<Part>>)
  datatype Candidate = Candidate(content: Option<Content>)
  datatype Response = Response(candidates: Option<seq<Candidate>>)

  /** `NoImage` is the error the code throws; `MissingFirstCandidate` is the
      TypeError raised when `candidates[0]` is read from an empty array. */
  datatype Failure = NoImage | MissingFirstCandidate

  function Message(f: Failure): string {
    match f
    case NoImage => NoImageMessage
    case MissingFirstCandidate => "Cannot read properties of undefined (reading 'content')"
  }

  /** The guard as written: an empty candidate array is truthy, so it passes
      the first test and the second one reads a field of `undefined`. */
  function FirstCandidatePartsAsWritten(resp: Response): Result<seq<Part>, Failure> {
    match resp.candidates
    case None => Failure(NoImage)
    case Some(cs) =>
      if cs == [] then Failure(MissingFirstCandidate)
      else if cs[0].content.None? || cs[0].content.value.parts.None? then Failure(NoImage)
      else Success(cs[0].content.value.parts.value)
  }

  /** The input that shows it: an empty candidate list ends in a TypeError
      rather than the service's own error. */
  lemma EmptyCandidatesEscapeGuard()
    ensures FirstCandidatePartsAsWritten(Response(Some([]))) == Failure(MissingFirstCandidate)
    ensures Message(MissingFirstCandidate) != NoImageMessage
  {
  }

  /** The guard as intended: anything short of a first candidate with
      content and parts is the service's own error. */
  function FirstCandidateParts(resp: Response): (r: Result<seq<Part>, Failure>)
    ensures r.Failure? ==> r.error == NoImage
    ensures r.Success? <==>
              (&& resp.candidates.Some? && |resp.candidates.value| > 0
               && resp.candidates.value[0].content.Some?
               && resp.candidates.value[0].content.value.parts.Some?)
    ensures r.Success? ==> r.value == resp.candidates.value[0].content.value.parts.value
  {
    match resp.candidates
    case None => Failure(NoImage)
    case Some(cs) =>
      if cs == [] || cs[0].content.None? || cs[0].content.value.parts.None? then Failure(NoImage)
      else Success(cs[0].content.value.parts.value)
  }

  /** Both guards agree on every response that has at least one candidate. */
  lemma GuardsAgreeOnNonEmpty(resp: Response)
    requires resp.candidates != Some([])
    ensures FirstCandidatePartsAsWritten(resp) == FirstCandidateParts(resp)
  {
  }

  /** The inline data of the first part that has any. */
  function FirstInline(parts: seq<Part>): (r: Option<InlineData>)
    ensures r.None? <==> forall i :: 0 <= i < |parts| ==> parts[i].inlineData.None?
    ensures r.Some? ==>
              exists i :: (&& 0 <= i < |parts| && parts[i].inlineData == r
                           && forall j :: 0 <= j < i ==> parts[j].inlineData.None?)
    decreases |parts|
  {
    if parts == [] then None
    else if parts[0].inlineData.Some? then parts[0].inlineData
    else
      var r := FirstInline(parts[1..]);
      assert forall i :: 1 <= i < |parts| ==> parts[i] == parts[1..][i - 1];
      if r.Some? then
        var i :| 0 <= i < |parts[1..]| && parts[1..][i].inlineData == r
          && forall j :: 0 <= j < i ==> parts[1..][j].inlineData.None?;
        assert parts[i + 1].inlineData == r;
        r
      else r
  }

  /** A template literal prints a missing value as `undefined`. */
  function Interpolate(s: Option<string>): string {
    match s
    case Some(v) => v
    case None => "undefined"
  }

  /** What the service returns or throws for a response. */
  function MosaicResult(resp: Response): Result<string, Failure> {
    match FirstCandidateParts(resp)
    case Failure(e) => Failure(e)
    case Success(parts) =>
      match FirstInline(parts)
      case None => Failure(NoImage)
      case Some(inline) => Success(ResultPrefix + Interpolate(inline.data))
  }

  /** The `for…of` search over the first candidate's parts, returning at the
      first part that carries inline data. */
  method ExtractImage(resp: Response) returns (r: Result<string, Failure>)
    ensures r == MosaicResult(resp)
  {
    if resp.candidates.Some? && resp.candidates.value != []
       && resp.candidates.value[0].content.Some? && resp.candidates.value[0].content.value.parts.Some?
    {
      var parts := resp.candidates.value[0].content.value.parts.value;
      for i := 0 to |parts|
        invariant FirstInline(parts[i..]) == FirstInline(parts)
      {
        assert parts[i..][1..] == parts[i + 1..];
        if parts[i].inlineData.Some? {
          return Success(ResultPrefix + Interpolate(parts[i].inlineData.value.data));
        }
      }
      assert parts[|parts|..] == [];
    }
    return Failure(NoImage);
  }

  /** The service succeeds exactly when the first candidate has a part with
      inline data; it then returns a PNG data URL built from the first such
      part, every earlier part having none. Otherwise it fails with
      "Failed to generate mosaic image". */
  lemma MosaicResultSpec(resp: Response)
    ensures var r := MosaicResult(resp);
      var parts := FirstCandidateParts(resp);
      && (r.Success? <==> parts.Success? && exists i :: 0 <= i < |parts.value| && parts.value[i].inlineData.Some?)
      && (r.Success? ==>
            exists i :: (&& 0 <= i < |parts.value| && parts.value[i].inlineData.Some?
                         && (forall j :: 0 <= j < i ==> parts.value[j].inlineData.None?)
                         && r.value == ResultPrefix + Interpolate(parts.value[i].inlineData.value.data)))
      && (r.Failure? ==> Message(r.error) == NoImageMessage)
  {
  }

  /** Only the first candidate is examined: responses that agree on it
      give the same result, whatever the other candidates hold. */
  lemma OnlyFirstCandidateMatters(a: Response, b: Response)
    requires a.candidates.Some? && b.candidates.Some?
    requires |a.candidates.value| > 0 && |b.candidates.value| > 0
    requires a.candidates.value[0] == b.candidates.value[0]
    ensures MosaicResult(a) == MosaicResult(b)
  {
  }

  /** The service's own output, when the payload has no comma, reads back
      through the request parser as a PNG with that payload. */
  lemma ResultReadsBack(resp: Response)
    requires MosaicResult(resp).Success?
    requires ',' !in Interpolate(FirstInline(FirstCandidateParts(resp).value).value.data)
    ensures RequestPayload(MosaicResult(resp).value)
      == ImagePayload(DefaultMimeType, Some(Interpolate(FirstInline(FirstCandidateParts(resp).value).value.data)))
  {
    var d := Interpolate(FirstInline(FirstCandidateParts(resp).value).value.data);
    assert MosaicResult(resp).value == "data:" + DefaultMimeType + ";base64," + d;
    DataUrlRoundTrip(DefaultMimeType, d);
  }
}
