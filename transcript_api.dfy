/**
  What the two tools see of `YouTubeTranscriptApi.get_transcript`: the request
  they make and the outcome it has. The network call itself is not modelled;
  a tool receives the service as a function `api` from request to outcome, and
  reports, besides its result, the requests it made (`Run.calls`).
*/
module TranscriptApi {
  import opened Wrappers
  import SpaceJoin

  /** One caption record; the tools read only its `text` entry. */
  datatype Fragment = Fragment(text: string, start: real, duration: real)

  /** A call `get_transcript(videoId, languages=...)`; `None` when no language list is passed. */
  datatype Request = Request(videoId: string, languages: Option<seq<string>>)

  /** The exceptions the tools distinguish; every other exception class is `OtherError`. */
  datatype ErrorKind = NoTranscriptFound | TranscriptsDisabled | OtherError(name: string)

  /** What one call does: return the ordered caption records, or raise. */
  datatype Outcome = Fetched(transcript: seq<Fragment>) | Failed(error: ErrorKind)

  type Api = Request -> Outcome

  /** What a tool call ends in: a returned string, or an exception that leaves it. */
  datatype ToolResult = ReturnText(text: string) | Raised(error: ErrorKind)

  /** A tool call: the requests it sent, in order, and how it ended. */
  datatype Run = Run(calls: seq<Request>, result: ToolResult)

  /** The call `get_transcript(videoId)`, with no language list. */
  function DefaultRequest(id: string): Request {
    Request(id, None)
  }

  /** The outcome is one of the two exceptions both tools name: `(NoTranscriptFound, TranscriptsDisabled)`. */
  predicate CaptionsMissing(o: Outcome) {
    o.Failed? && (o.error.NoTranscriptFound? || o.error.TranscriptsDisabled?)
  }

  /** The marker every error string of both tools begins with. */
  const ErrorMarker: string := "ERROR:"

  predicate IsErrorText(s: string) {
    ErrorMarker <= s
  }

  /** `item["text"] for item in transcript`. */
  function Texts(transcript: seq<Fragment>): (texts: seq<string>)
    ensures |texts| == |transcript|
    ensures forall k :: 0 <= k < |transcript| ==> texts[k] == transcript[k].text
  {
    seq(|transcript|, k requires 0 <= k < |transcript| => transcript[k].text)
  }

  /**
    `" ".join(item["text"] for item in transcript)`. The flattened text is as
    long as all fragment texts together plus one space between each
    neighbouring pair; no fragments give the empty string.
  */
  function Flatten(transcript: seq<Fragment>): (text: string)
    ensures transcript == [] ==> text == ""
    ensures |text| == if transcript == [] then 0 else SpaceJoin.TotalLength(Texts(transcript)) + |transcript| - 1
  {
    SpaceJoin.Join(Texts(transcript))
  }

  /** An empty transcript and a transcript of one empty fragment give the same, empty, text. */
  lemma EmptyFragmentLooksLikeNoTranscript(fragment: Fragment)
    requires fragment.text == ""
    ensures Texts([]) != Texts([fragment])
    ensures Flatten([]) == Flatten([fragment]) == ""
  {
    assert Texts([fragment]) == [""];
  }

  /** Flattening keeps source order: the flattening of two runs of fragments is theirs with one space between. */
  lemma FlattenAppend(front: seq<Fragment>, back: seq<Fragment>)
    requires front != [] && back != []
    ensures Flatten(front + back) == Flatten(front) + " " + Flatten(back)
  {
    assert Texts(front + back) == Texts(front) + Texts(back);
    SpaceJoin.JoinAppend(Texts(front), Texts(back));
  }

  /**
    Nothing but the texts and their order matters: fragments with the same
    texts flatten alike, and when no text contains a space, equal flattenings
    mean equal texts in the same order.
  */
  lemma FlattenDeterminedByTexts(a: seq<Fragment>, b: seq<Fragment>)
    requires a != [] && b != []
    requires SpaceJoin.NoSpaces(Texts(a)) && SpaceJoin.NoSpaces(Texts(b))
    ensures Flatten(a) == Flatten(b) <==> Texts(a) == Texts(b)
  {
    if Flatten(a) == Flatten(b) {
      SpaceJoin.JoinInjective(Texts(a), Texts(b));
    }
  }
}
