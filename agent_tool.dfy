/**
  `fetch_youtube_transcript` of agent.py, the tool the assistant may call:
  extract the identifier, ask for an English transcript, fall back to a call
  without a language list when the English one is missing or captions are
  disabled, and flatten what comes back.
*/
module AgentTool {
  import opened Wrappers
  import opened VideoId
  import opened TranscriptApi

  const InvalidUrlMessage: string := "ERROR: Invalid YouTube URL."
  const UnavailableMessage: string :=
    "ERROR: Transcript not available for this video. " + "Captions may be disabled by the creator."

  /** The preferred languages of the first call. */
  const EnglishLanguages: seq<string> := ["en", "en-US"]

  /** The first call: `get_transcript(videoId, languages=["en", "en-US"])`. */
  function EnglishRequest(id: string): Request {
    Request(id, Some(EnglishLanguages))
  }

  /**
    The tool. No identifier: the invalid-URL message and no call. Otherwise
    the English call; if it raises one of the two named exceptions, exactly
    one more call without a language list, any failure of which becomes the
    unavailable message; any other exception of the English call leaves the
    tool. A successful call's transcript is flattened.
  */
  function FetchYoutubeTranscript(url: string, api: Api): (run: Run)
    ensures run.calls == [] <==> Search(url) == None
    ensures run.calls == [] ==> run.result == ReturnText(InvalidUrlMessage)
    ensures run.calls != [] ==> |run.calls| <= 2 && run.calls[0] == EnglishRequest(Search(url).value)
    ensures |run.calls| == 2 <==> run.calls != [] && CaptionsMissing(api(run.calls[0]))
    ensures |run.calls| == 2 ==> run.calls[1] == DefaultRequest(run.calls[0].videoId)
    ensures run.calls != [] && api(run.calls[|run.calls| - 1]).Fetched? ==>
              run.result == ReturnText(Flatten(api(run.calls[|run.calls| - 1]).transcript))
    ensures |run.calls| == 1 && api(run.calls[0]).Failed? ==> run.result == Raised(api(run.calls[0]).error)
    ensures |run.calls| == 2 && api(run.calls[1]).Failed? ==> run.result == ReturnText(UnavailableMessage)
  {
    match Search(url)
    case None => Run([], ReturnText(InvalidUrlMessage))
    case Some(id) =>
      var english := EnglishRequest(id);
      match api(english)
      case Fetched(transcript) => Run([english], ReturnText(Flatten(transcript)))
      case Failed(error) =>
        if CaptionsMissing(api(english)) then
          var fallback := DefaultRequest(id);
          match api(fallback)
          case Fetched(transcript) => Run([english, fallback], ReturnText(Flatten(transcript)))
          case Failed(_) => Run([english, fallback], ReturnText(UnavailableMessage))
        else
          Run([english], Raised(error))
  }

  /** Both error messages of the tool begin with the `ERROR:` marker. */
  lemma MessagesAreMarked()
    ensures IsErrorText(InvalidUrlMessage) && IsErrorText(UnavailableMessage)
  {
  }

  /** Every request the tool sends carries the extracted identifier, which is eleven class characters. */
  lemma CallsCarryTheIdentifier(url: string, api: Api)
    ensures forall c :: c in FetchYoutubeTranscript(url, api).calls ==>
              Search(url) == Some(c.videoId) && IsVideoId(c.videoId)
  {
  }

  /** The two named exceptions never leave the tool; only another exception of the English call does. */
  lemma OnlyOtherErrorsEscape(url: string, api: Api)
    ensures var run := FetchYoutubeTranscript(url, api);
            run.result.Raised? ==> run.result.error.OtherError? && run.calls == [EnglishRequest(Search(url).value)]
  {
  }

  /**
    A returned string is either the flattening of the last call's transcript,
    or an `ERROR:` message, in which case no call succeeded.
  */
  lemma ReturnedTextIsTranscriptOrError(url: string, api: Api)
    ensures var run := FetchYoutubeTranscript(url, api);
            run.result.ReturnText? ==>
              || (run.calls != [] && api(run.calls[|run.calls| - 1]).Fetched?
                  && run.result.text == Flatten(api(run.calls[|run.calls| - 1]).transcript))
              || (IsErrorText(run.result.text) && forall c :: c in run.calls ==> api(c).Failed?)
  {
    MessagesAreMarked();
    if Search(url).Some? {
      var english := EnglishRequest(Search(url).value);
      if CaptionsMissing(api(english)) {
        var fallback := DefaultRequest(Search(url).value);
        assert FetchYoutubeTranscript(url, api).calls == [english, fallback];
      }
    }
  }

  /** The short link `https://youtu.be/badid`, with a five-character run: the invalid-URL message, whatever the service would do. */
  lemma BadShortLinkScenario(api: Api)
    ensures FetchYoutubeTranscript("https://youtu.be/badid", api) == Run([], ReturnText("ERROR: Invalid YouTube URL."))
  {
    VideoId.BadShortLinkScenario();
  }

  /** When the English call succeeds the tool stops there, whatever the call without a language list would give. */
  lemma EnglishSuccessEndsTheRun(url: string, api: Api, id: string)
    requires Search(url) == Some(id)
    requires api(EnglishRequest(id)).Fetched?
    ensures FetchYoutubeTranscript(url, api)
              == Run([EnglishRequest(id)], ReturnText(Flatten(api(EnglishRequest(id)).transcript)))
  {
  }

  /** A watch link with English captions: one English call for its identifier, whose transcript is returned flattened. */
  lemma WatchLinkScenario(api: Api, transcript: seq<Fragment>)
    requires api(EnglishRequest("dQw4w9WgXcQ")) == Fetched(transcript)
    ensures FetchYoutubeTranscript("https://www.youtube.com/watch?v=dQw4w9WgXcQ", api)
              == Run([EnglishRequest("dQw4w9WgXcQ")], ReturnText(Flatten(transcript)))
  {
    assert "https://www.youtube.com/watch?v=dQw4w9WgXcQ" == "https://www.youtube.com/watch?v=" + "dQw4w9WgXcQ" + "";
    WatchUrlYieldsId("dQw4w9WgXcQ", "");
  }

  /**
    A transcript whose only fragment reads the invalid-URL message is returned
    verbatim, so a successful result can carry the error marker too.
  */
  lemma SuccessCanCarryTheMarker(url: string, api: Api)
    requires Search(url).Some?
    requires api(EnglishRequest(Search(url).value)) == Fetched([Fragment(InvalidUrlMessage, 0.0, 0.0)])
    ensures FetchYoutubeTranscript(url, api).result == ReturnText(InvalidUrlMessage)
    ensures FetchYoutubeTranscript(url, api).calls != []
  {
    assert Texts([Fragment(InvalidUrlMessage, 0.0, 0.0)]) == [InvalidUrlMessage];
  }
}
