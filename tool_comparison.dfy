/**
  How the two versions of the transcript tool relate: they search the URL
  alike, but differ in their error strings, in the English-first call of
  agent.py and in which exceptions they catch.
*/
module ToolComparison {
  import opened Wrappers
  import opened VideoId
  import opened TranscriptApi
  import AgentTool
  import MainTool

  /** Both tools reject the same URLs and, otherwise, ask for the same identifier first. */
  lemma SameIdentifier(url: string, api: Api)
    ensures var agent, main := AgentTool.FetchYoutubeTranscript(url, api), MainTool.GetYoutubeTranscript(url, api);
            && (agent.calls == [] <==> main.calls == [])
            && (agent.calls != [] ==> agent.calls[0].videoId == main.calls[0].videoId)
  {
  }

  /** On a URL without an identifier the two messages differ only by agent.py's final period. */
  lemma InvalidUrlMessagesDiffer(url: string, api: Api)
    requires Search(url) == None
    ensures AgentTool.FetchYoutubeTranscript(url, api).result.text
              == MainTool.GetYoutubeTranscript(url, api).result.text + "."
  {
  }

  /** main.py's only call is the call agent.py falls back to. */
  lemma MainCallIsAgentFallback(url: string, api: Api)
    ensures var agent, main := AgentTool.FetchYoutubeTranscript(url, api), MainTool.GetYoutubeTranscript(url, api);
            |agent.calls| == 2 ==> agent.calls[1] == main.calls[0]
  {
  }

  /**
    When the English call raises one of the two named exceptions and the
    call without a language list succeeds, both tools return the same text.
  */
  lemma AgreeAfterFallback(url: string, api: Api, id: string)
    requires Search(url) == Some(id)
    requires CaptionsMissing(api(AgentTool.EnglishRequest(id)))
    requires api(DefaultRequest(id)).Fetched?
    ensures AgentTool.FetchYoutubeTranscript(url, api).result == MainTool.GetYoutubeTranscript(url, api).result
  {
  }

  /**
    When the English call raises one of the two named exceptions and the call
    without a language list raises something else, agent.py returns its
    unavailable message while main.py lets the exception through.
  */
  lemma AgentCatchesWhatMainRaises(url: string, api: Api, id: string, name: string)
    requires Search(url) == Some(id)
    requires CaptionsMissing(api(AgentTool.EnglishRequest(id)))
    requires api(DefaultRequest(id)) == Failed(OtherError(name))
    ensures AgentTool.FetchYoutubeTranscript(url, api).result == ReturnText(AgentTool.UnavailableMessage)
    ensures MainTool.GetYoutubeTranscript(url, api).result == Raised(OtherError(name))
  {
  }

  /**
    When both the English call and the call without a language list succeed,
    agent.py returns the English transcript and main.py the other one.
  */
  lemma EnglishTrackPreferred(url: string, api: Api, id: string)
    requires Search(url) == Some(id)
    requires api(AgentTool.EnglishRequest(id)).Fetched? && api(DefaultRequest(id)).Fetched?
    ensures AgentTool.FetchYoutubeTranscript(url, api).result
              == ReturnText(Flatten(api(AgentTool.EnglishRequest(id)).transcript))
    ensures MainTool.GetYoutubeTranscript(url, api).result
              == ReturnText(Flatten(api(DefaultRequest(id)).transcript))
  {
  }

  /** For a watch link whose English and default tracks differ, the two tools return different texts. */
  lemma EnglishTrackPreferredExample(english: string, other: string)
    requires english != other
    ensures var url := "https://www.youtube.com/watch?v=dQw4w9WgXcQ";
            var api := (r: Request) => if r.languages.Some? then Fetched([Fragment(english, 0.0, 1.0)])
                                       else Fetched([Fragment(other, 0.0, 1.0)]);
            && AgentTool.FetchYoutubeTranscript(url, api).result == ReturnText(english)
            && MainTool.GetYoutubeTranscript(url, api).result == ReturnText(other)
  {
    var url := "https://www.youtube.com/watch?v=dQw4w9WgXcQ";
    assert url == "https://www.youtube.com/watch?v=" + "dQw4w9WgXcQ" + "";
    WatchUrlYieldsId("dQw4w9WgXcQ", "");
    assert Texts([Fragment(english, 0.0, 1.0)]) == [english];
    assert Texts([Fragment(other, 0.0, 1.0)]) == [other];
  }
}
