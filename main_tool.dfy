/**
  `get_youtube_transcript` of main.py: the same identifier search, a single
  call without a language list, the two named exceptions turned into an error
  string, every other exception left to the caller.
*/
module MainTool {
  import opened Wrappers
  import opened VideoId
  import opened TranscriptApi

  const InvalidUrlMessage: string := "ERROR: Invalid YouTube URL"
  const UnavailableMessage: string := "ERROR: Transcript not available"

  /**
    The tool. No identifier: the invalid-URL message and no call. Otherwise
    exactly one call without a language list; its transcript is flattened,
    the two named exceptions give the unavailable message, and any other
    exception leaves the tool.
  */
  function GetYoutubeTranscript(url: string, api: Api): (run: Run)
    ensures run.calls == [] <==> Search(url) == None
    ensures run.calls == [] ==> run.result == ReturnText(InvalidUrlMessage)
    ensures run.calls != [] ==> run.calls == [DefaultRequest(Search(url).value)]
    ensures run.calls != [] && api(run.calls[0]).Fetched? ==>
              run.result == ReturnText(Flatten(api(run.calls[0]).transcript))
    ensures run.calls != [] && CaptionsMissing(api(run.calls[0])) ==> run.result == ReturnText(UnavailableMessage)
    ensures run.result.Raised? <==>
              run.calls != [] && api(run.calls[0]).Failed? && !CaptionsMissing(api(run.calls[0]))
    ensures run.result.Raised? ==> run.result == Raised(api(run.calls[0]).error)
  {
    match Search(url)
    case None => Run([], ReturnText(InvalidUrlMessage))
    case Some(id) =>
      var request := DefaultRequest(id);
      match api(request)
      case Fetched(transcript) => Run([request], ReturnText(Flatten(transcript)))
      case Failed(error) =>
        if CaptionsMissing(api(request)) then Run([request], ReturnText(UnavailableMessage))
        else Run([request], Raised(error))
  }

  /** Both error messages of the tool begin with the `ERROR:` marker. */
  lemma MessagesAreMarked()
    ensures IsErrorText(InvalidUrlMessage) && IsErrorText(UnavailableMessage)
  {
  }

  /**
    A returned string is either the flattening of the transcript of the one
    call, or an `ERROR:` message, in which case that call (if any) failed.
  */
  lemma ReturnedTextIsTranscriptOrError(url: string, api: Api)
    ensures var run := GetYoutubeTranscript(url, api);
            run.result.ReturnText? ==>
              || (run.calls != [] && api(run.calls[0]).Fetched?
                  && run.result.text == Flatten(api(run.calls[0]).transcript))
              || (IsErrorText(run.result.text) && forall c :: c in run.calls ==> api(c).Failed?)
  {
    MessagesAreMarked();
  }

  /** The two named exceptions never leave the tool; only another exception of its one call does. */
  lemma OnlyOtherErrorsEscape(url: string, api: Api)
    ensures var run := GetYoutubeTranscript(url, api);
            run.result.Raised? ==> run.result.error.OtherError? && run.calls == [DefaultRequest(Search(url).value)]
  {
  }

  /** The short link `https://youtu.be/badid`, with a five-character run, gives this tool's invalid-URL message, without a period. */
  lemma BadShortLinkScenario(api: Api)
    ensures GetYoutubeTranscript("https://youtu.be/badid", api) == Run([], ReturnText("ERROR: Invalid YouTube URL"))
  {
    VideoId.BadShortLinkScenario();
  }
}
