# YouTube transcript tool, modelled in Dafny

The repository is a small assistant that summarises YouTube videos. Its only
self-contained logic is the transcript tool, which exists in two versions:
`fetch_youtube_transcript` in agent.py, the tool the assistant calls, and
`get_youtube_transcript` in main.py, a plain function. Both versions do three things:

1. **Extract the video identifier.** `re.search(r"(?:v=|/)([0-9A-Za-z_-]{11})", url)`
   followed by `group(1)`. Module `VideoId` scans positions from left to right
   (`FirstMatchFrom`, `Search`). Its lemmas check this scan against a separate
   statement of what the pattern means (`PatternMatch`, `LeftmostMatch`).
2. **Decide which transcript calls to make and what to return.** The call
   `YouTubeTranscriptApi.get_transcript` is a parameter `api: Request -> Outcome`.
   A tool run returns a `Run`, which holds the requests the tool sent, in
   order, and a result. The result is either a returned string or an exception
   that leaves the tool. Modules `AgentTool` and `MainTool` model the two
   versions. Module `ToolComparison` states how they differ.
3. **Flatten the transcript.** `" ".join(item["text"] for item in transcript)`
   is `TranscriptApi.Flatten`, built on `SpaceJoin.Join`. `SpaceJoin.Split`
   (Python's `str.split(" ")`) serves as its inverse for a non-empty
   transcript whose fragment texts contain no space: then it shows that order
   is kept and that nothing is lost.

Files: `wrappers.dfy` (Option), `video_id.dfy`, `space_join.dfy`,
`transcript_api.dfy`, `agent_tool.dfy`, `main_tool.dfy`, `tool_comparison.dfy`.

A reader might expect more of these tools than the code gives; the model
follows the code:

- Identifier length: one might expect identifiers whose length is not 11 to be
  rejected. The pattern reads only 11 characters after the marker, so a
  longer run is accepted and cut to its first 11
  (`VideoId.LongRunIsTruncated`).
- Empty transcripts: one might expect a successful result to be non-empty
  text. An empty transcript flattens to `""` (`TranscriptApi.Flatten`), and
  so does a transcript of one empty fragment: the result cannot tell the two
  apart (`TranscriptApi.EmptyFragmentLooksLikeNoTranscript`).
- The `ERROR:` prefix: one might expect a successful result never to begin
  with `ERROR:`. The join copies fragment text verbatim, so it can
  (`AgentTool.SuccessCanCarryTheMarker`).
- Fragment order: one might expect any reordering of the fragments to change
  the output. That is proved when no fragment text contains a space
  (`TranscriptApi.FlattenDeterminedByTexts`). Otherwise a reordering can
  leave the output unchanged: `["a", "a a"]` and `["a a", "a"]` both join to
  `"a a a"` (`SpaceJoin.ReorderingCanKeepTheJoin`).
- Error handling: one might expect both entry points to share one failure
  policy. The two files differ, and each is modelled as written.

## Model

| member | source | states |
|---|---|---|
| VideoId.MarkerLength | agent.py:54 | the marker alternative, `v=` or `/`, at one position: a marker is at most two characters and lies inside the URL; that it is `v=`, `/` or absent is stated by `MatchesAtIffPattern` |
| VideoId.MatchesAt | agent.py:54 | the pattern at one position; no contract of its own, its meaning is stated by `MatchesAtIffPattern` against `PatternMatch` |
| VideoId.CaptureAt | agent.py:58 | the captured group is exactly 11 characters, each in `[0-9A-Za-z_-]` |
| VideoId.FirstMatchFrom | agent.py:54 | the position found is a match and no earlier position from the start point matches; `None` only when no position matches |
| VideoId.Search | agent.py:54-58 | a successful extraction is 11 class characters |
| VideoId.MatchesAtIffPattern | agent.py:54 | at each position the pattern (a `v=` or `/` marker, then 11 class characters) matches in at most one way, and the scan's test agrees with that meaning |
| VideoId.SearchIsLeftmostMatch | agent.py:54 | extraction returns `id` if and only if `id` is the capture of the leftmost match |
| VideoId.SearchFailsIffNoMatch | agent.py:54-55 | extraction fails if and only if the pattern matches at no position |
| VideoId.LongRunIsTruncated | agent.py:54 | a run of 11 or more class characters after `v=` or `/` matches there, and the capture is its first 11 characters |
| VideoId.ShortRunIsRejected | agent.py:54 | a run of fewer than 11 class characters after a marker, ended by the end of the URL or a non-class character, gives no match at that position |
| VideoId.WatchUrlYieldsId | agent.py:54 | `https://www.youtube.com/watch?v=<id>...` yields `id` for every 11-character identifier |
| VideoId.ShortLinkTooShort | agent.py:54 | `https://youtu.be/<run>` with fewer than 11 class characters yields no identifier |
| VideoId.BadShortLinkScenario | agent.py:54-55 | `https://youtu.be/badid` yields no identifier |
| SpaceJoin.Join | agent.py:76 | `" ".join`: the joined text's length is the sum of the part lengths plus one per gap, and no parts give `""`; where each part lands is stated by `JoinStartsWithFirst` and `JoinPlacesPart`, and that nothing is lost for a non-empty list of space-free parts by `SplitJoin` |
| SpaceJoin.JoinStartsWithFirst | agent.py:76 | the first part opens the text, followed by a space unless it is the only part |
| SpaceJoin.JoinPlacesPart | agent.py:76 | part i appears verbatim right after the join of the earlier parts and one space, followed by a space unless it is last |
| SpaceJoin.JoinAppend | agent.py:76 | joining two non-empty lists is joining each with one space between |
| SpaceJoin.SplitWord | agent.py:76 | a space-free string splits into itself |
| SpaceJoin.SplitAfterWord | agent.py:76 | splitting stops at the first space |
| SpaceJoin.SplitJoin | agent.py:76 | round trip: for a non-empty list of parts none of which contains a space, splitting the join on spaces returns the parts |
| SpaceJoin.ReorderingCanKeepTheJoin | agent.py:76 | when a part contains a space, a reordering can join to the same text: `["a", "a a"]` and `["a a", "a"]` both give `"a a a"` |
| SpaceJoin.JoinInjective | agent.py:76 | different non-empty lists of space-free parts, reorderings included, join to different texts |
| TranscriptApi.Texts | agent.py:76 | the i-th text is the `text` of the i-th fragment, in source order |
| TranscriptApi.CaptionsMissing | agent.py:65 | `except (NoTranscriptFound, TranscriptsDisabled)`; no contract of its own, its use is stated by `AgentTool.FetchYoutubeTranscript` (a second call exactly when it holds) and `MainTool.GetYoutubeTranscript` (the unavailable message exactly then) |
| TranscriptApi.DefaultRequest | agent.py:68 | `get_transcript(video_id)` with no language list; no contract of its own, `ToolComparison.MainCallIsAgentFallback` states it is main.py's only request and agent.py's fallback |
| TranscriptApi.Flatten | agent.py:76 | the flattened length is the sum of the fragment text lengths plus n-1 for n fragments, and no fragments give `""`; order and content are stated by `FlattenAppend` and `FlattenDeterminedByTexts` |
| TranscriptApi.EmptyFragmentLooksLikeNoTranscript | agent.py:76 | no fragments and one empty fragment both flatten to `""`, though their texts differ |
| TranscriptApi.FlattenAppend | agent.py:76 | flattening keeps source order: two non-empty runs of fragments flatten to their flattenings with one space between |
| TranscriptApi.FlattenDeterminedByTexts | agent.py:76 | for two non-empty transcripts with space-free texts, they flatten alike if and only if their texts are equal in the same order |
| AgentTool.FetchYoutubeTranscript | agent.py:50-76 | no identifier: `"ERROR: Invalid YouTube URL."` and no call. Otherwise the first call asks for `["en","en-US"]`. A second call, with no language list, happens exactly when the first raises `NoTranscriptFound` or `TranscriptsDisabled`. A successful last call gives its flattened transcript. A failed fallback gives the unavailable message. Any other first-call exception propagates |
| AgentTool.EnglishRequest | agent.py:62-64 | `get_transcript(video_id, languages=["en", "en-US"])`; no contract of its own, `AgentTool.FetchYoutubeTranscript` states it is always the first call |
| AgentTool.MessagesAreMarked | agent.py:55-73 | both error literals begin with `ERROR:` |
| AgentTool.CallsCarryTheIdentifier | agent.py:58-68 | every request carries the extracted identifier, which is a valid 11-character id |
| AgentTool.OnlyOtherErrorsEscape | agent.py:60-73 | only an exception other than the two named ones escapes, and only from the English call, with no fallback made |
| AgentTool.ReturnedTextIsTranscriptOrError | agent.py:55-76 | a returned string is the flattening of the last call's transcript, or an `ERROR:` text returned when no call succeeded |
| AgentTool.BadShortLinkScenario | agent.py:54-56 | `https://youtu.be/badid` returns exactly `"ERROR: Invalid YouTube URL."` with no call, whatever the service does |
| AgentTool.EnglishSuccessEndsTheRun | agent.py:60-64 | when the English call succeeds, the run is that one call and its flattened transcript, whatever the call without a language list would give |
| AgentTool.WatchLinkScenario | agent.py:54-64 | the watch link with English captions makes one English call for `dQw4w9WgXcQ` and returns its flattened transcript |
| AgentTool.SuccessCanCarryTheMarker | agent.py:76 | a successful call whose only fragment reads `ERROR: Invalid YouTube URL.` returns exactly the invalid-URL message |
| MainTool.GetYoutubeTranscript | main.py:20-29 | no identifier: `"ERROR: Invalid YouTube URL"` and no call. Otherwise exactly one call, with no language list. Success gives its flattened transcript. The two named exceptions give `"ERROR: Transcript not available"`. Any other exception propagates |
| MainTool.MessagesAreMarked | main.py:22-28 | both error literals begin with `ERROR:` |
| MainTool.ReturnedTextIsTranscriptOrError | main.py:22-29 | a returned string is the flattening of the call's transcript, or an `ERROR:` text returned when the call, if any, failed |
| MainTool.OnlyOtherErrorsEscape | main.py:25-28 | only an exception other than the two named ones escapes |
| MainTool.BadShortLinkScenario | main.py:21-23 | `https://youtu.be/badid` returns exactly `"ERROR: Invalid YouTube URL"`, with no period, and no call |
| ToolComparison.SameIdentifier | main.py:21-24 | both tools reject the same URLs and otherwise ask for the same identifier |
| ToolComparison.InvalidUrlMessagesDiffer | main.py:22-23 | on a URL with no identifier, agent.py's message is main.py's plus a final period |
| ToolComparison.MainCallIsAgentFallback | main.py:26 | main.py's only request is the request agent.py falls back to |
| ToolComparison.AgreeAfterFallback | main.py:25-29 | when the English call raises a named exception and the default call succeeds, both tools return the same text |
| ToolComparison.AgentCatchesWhatMainRaises | main.py:25-28 | when the English call raises a named exception and the default call raises another one, agent.py returns its unavailable message while main.py propagates the exception |
| ToolComparison.EnglishTrackPreferred | agent.py:62-64 | for every URL with an identifier whose English and default calls both succeed, agent.py returns the flattened English transcript and main.py the flattened default one |
| ToolComparison.EnglishTrackPreferredExample | agent.py:62-64 | for the watch link, English and default tracks with different texts give different results from the two tools |

## Left out

- The Chainlit handlers `on_chat_start` and `on_message` (agent.py:98-150) are not modelled. They are asynchronous UI streaming: the event loop, token streaming and status messages.
- Environment loading and the API-key check (agent.py:28-32, main.py:9-12) are not modelled. They are process configuration.
- The OpenAI client, the model, `RunConfig`, the `Agent` definitions, the `@function_tool` registration and `Runner.run_streamed` are not modelled. They are calls into foreign libraries and language-model behaviour.
- The internals of `YouTubeTranscriptApi.get_transcript` are not modelled: which track it picks, its own default language list, and network behaviour. The model records only that the fallback passes no language list. Whether that call really accepts "any available language", as the comment at agent.py:67 says, depends on the library.
- The service is a function of the request, so a request repeated within one tool call would get the same answer. Neither tool repeats a request, so this does not constrain them.
- A fragment without a `"text"` entry would raise `KeyError` at the join. A fragment is a record with a `text` field, so this case does not arise in the model.
- Exceptions that derive from `BaseException` but not from `Exception` are not modelled. Every failure of a call is an exception, which `except Exception` at agent.py:69 catches.
