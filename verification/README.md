# scs load generator: a Dafny model of its core

scs is a load generator for HLS (HTTP Live Streaming) servers. It starts many
simulated viewers ("stream clients"). Each client fetches a master playlist,
then the media playlist of one variant. It keeps a small buffer of segments,
"plays" them against the wall clock, and reports bad service, very bad service
and slow servers to a manager. The manager keeps the fleet of clients and
starts new ones as URL-file lines allow. In `--dynamic` mode it grows the
ceiling on concurrent clients over time, and kills a share of the clients when
service degrades.

This project models that core as pure functions over immutable records:

- `Common`: the JavaScript built-ins the code relies on. These are
  `parseInt`, `split`, `indexOf`/`lastIndexOf`, `slice`, and greedy `\d+` and
  `\w+` matches.
- `ScsHelpers` (`scs-helpers.js`): argument parsing, `getRandomInt`,
  `isHttps`, `isRedirect` and `parseUrl`.
- `Cooloff` (`cooloff.js`): the gate that lets an action through once and
  then refuses it for a number of ticks.
- `Stats` (`statscollector.js`): which clients reported which kind of trouble,
  and the counts reported from that.
- `MediaPlaylist` (`attachedstream.js`, `parseSegmentData`/`setStreamType`):
  the line scan of a media playlist. It covers segment numbering from
  EXT-X-MEDIA-SEQUENCE, EXTINF durations, EXT-X-TARGETDURATION, and the
  playlist type (section 4.3.3 of RFC 8216).
- `PlaybackBuffer` (`attachedstream.js`, `insertIntoBuffer`/`findMissingSegments`):
  the ordered segment buffer, and the search for the segments missing from the
  next five.
- `Client` (`attachedstream.js`, class `AttachedStream`): one client's state
  machine.
  - Each transition returns the new state and its effects: events to the
    manager, requests, and timers carrying their delays.
  - The clock is a parameter `now`.
  - Each random draw is a parameter `k < 2^53`, with `Math.random()` read as
    `k / 2^53`.
- `Quality` (`streammanager.js`, `parseQualityData`/`selectQuality`/`getBestQuality`):
  the variant list of a master playlist and the choice of a variant.
- `Fleet` (`streammanager.js`, class `StreamManager`): the manager's
  bookkeeping.
  - Each event handler returns the new state and a list of actions: create a
    client, kill a client, write the resume state, or `Exit`.
  - `Exit` stands for `process.exit` and for an exception nothing catches.
    Both end the load generator.

The manager's two maps of clients, all clients and attached clients, become
one ascending sequence of attached clients plus a set of unattached ids. In
the source the two maps always hold the same attached ids.

Only an `#EXT-X-PLAYLIST-TYPE` tag sets a client's type (attachedstream.js,
`parseSegmentData`). A client whose type is still undetermined is treated as
not live. The VOD-conflict test, the buffering start point, the refresh (no
refetch) and the end-of-stream test all take that path.
`MediaPlaylist.ClassificationAndConflicts` states the rule.

Some quirks of the source are modelled as written and stated as lemmas:

- A very-bad-service report from a running client in `--dynamic` mode ends
  the process: the kill sweep reads an undefined variable before it looks at
  the ceiling or its gate (`Fleet.Handle`, `Fleet.KillSomeStreamsAsWritten`).
  The sweep as evidently intended is modelled beside it
  (`Fleet.KillSomeStreams`). At a ceiling of 0, that intended sweep would still
  lower the ceiling, to -1 and below; in the code as written, that branch is
  never reached.
- A refill walks the window with the 0 sentinel of `findMissingSegments`
  (`Client.FirstMissing`). At the start of a playlist numbered from 0, segment 0
  is never requested (`Client.RefillSkipsSegmentZero`).
- A redirect leaves an attached client's session timer set. When it fires,
  the client reports `Terminated`, and the manager starts a replacement for a
  client it had already ended (`Client.RedirectKeepsTimer`,
  `Fleet.RedirectThenTimerReplaces`). The redirect that cancels the timer, as
  `doTerminate` does, is `Client.RedirectIntended`.
- The biased quality mode takes the best variant when its draw in [1, 100] is
  below 70 (`Quality.SelectQuality` with the `AsWritten` test).
- A client that aborts before it attaches, and then reports attaching, ends
  the process (`Fleet.AttachAfterAbortExits`).
- An abort for an id that was never unattached still decrements the
  unattached counter. The counter then drifts from the set it counts
  (`Fleet.AbortOfUnknownIdDrifts`).
- An empty line in the URL file stops that start attempt (`Fleet.StartAStream`).
- A fixed stream path that names an HDS manifest (`.f4m`) makes `startAStream`
  recurse without end. The model ends the process there (`Fleet.StartAStream`,
  `Fleet.HandleKeepsValid`).

## Model

| member | source | states |
|---|---|---|
| ScsHelpers.IsRedirect | scs-helpers.js:131-136 | a status is a redirect exactly for 301, 302, 307 and 308, so every redirect is a 3xx code |
| ScsHelpers.SeeOtherIsNotARedirect | scs-helpers.js:131-136 | 303, 304 and 200 are not treated as redirects |
| ScsHelpers.IsHttps | scs-helpers.js:125-127 | a URL counts as HTTPS exactly when its first five characters are `https` |
| ScsHelpers.SchemeExamples | scs-helpers.js:125-127 | `https://…` is HTTPS; `http://…` and the bare word `http` are not |
| ScsHelpers.ParseUrl | scs-helpers.js:140-159 | splitting fails exactly when there is no `://`; the protocol is everything before the first `://`; the host name contains neither `:` nor `/`; a non-empty host is followed by a path that starts with `/` |
| ScsHelpers.ParseUrlRoundTrip | scs-helpers.js:140-159 | for a URL with one `://` and a `/` after it, protocol + `://` + host + optional `:port` + path gives the URL back |
| ScsHelpers.GetRandomInt | scs-helpers.js:107-109 | for `min <= max` every draw lands in `[min, max]`; for `max < min` it lands in `[max+1, min]` |
| ScsHelpers.RandomCoversRange | scs-helpers.js:107-109 | every integer of `[min, max]` is produced by some draw, so no value of the range is unreachable |
| ScsHelpers.ParseIntArg | scs-helpers.js:62-73 | a missing argument and a non-number are errors; a success is the value JavaScript's `parseInt` reads from the argument |
| ScsHelpers.ParsePctArg | scs-helpers.js:92-103 | a success is always a percentage in 0..100, and succeeds exactly when `parseInt` reads a number in that range |
| ScsHelpers.PctArgAcceptsPercentages | scs-helpers.js:92-103 | the decimal text of every n in 0..100 is accepted as n |
| ScsHelpers.PctArgRejectsOutOfRange | scs-helpers.js:92-103 | every number above 100 and every negative number is rejected |
| ScsHelpers.PctArgReadsLeadingNumber | scs-helpers.js:92-103 | `12.5` reads as 12 and ` 7%` as 7; `abc` and a missing argument are rejected |
| Cooloff.New | cooloff.js:31-37 | a new gate is open with nothing counted |
| Cooloff.Tick | cooloff.js:39-46 | a tick counts down by one, never below 0, and reopens the gate when the count reaches 0 |
| Cooloff.Fire | cooloff.js:49-61 | firing succeeds exactly when the gate is open; success closes it for `limit` ticks; refusal changes nothing |
| Cooloff.NewGateFiresOnce | cooloff.js:31-61 | a new gate lets the first attempt through and refuses the next one |
| Cooloff.RefusedWhileCounting | cooloff.js:39-61 | every attempt is refused while fewer ticks than the countdown have passed, and the countdown drops by exactly the ticks seen |
| Cooloff.OpenAfterCounting | cooloff.js:39-61 | the tick that ends the countdown reopens the gate, and nothing was let through before it |
| Cooloff.ExactRearm | cooloff.js:39-61 | after a successful fire, the gate refuses until exactly `limit` ticks have passed and then lets an attempt through |
| Stats.Empty | statscollector.js:131-133 | a reset table records no client |
| Stats.RegisterObservation | statscollector.js:82-87 | registering adds the client if it is new and records the kind for it; no other client's record changes, and nothing else is added |
| Stats.RegisterBadService | statscollector.js:64-66 | the set of clients with bad service grows by exactly the reporting client |
| Stats.RegisterVeryBadService | statscollector.js:70-72 | the set of clients with very bad service grows by exactly the reporting client |
| Stats.RegisterSlowServer | statscollector.js:76-78 | the set of clients that saw a slow server grows by exactly the reporting client |
| Stats.CountServiceStatus | statscollector.js:104-120 | walking the recorded clients once each counts exactly the clients that have the kind recorded, at most the number of clients |
| Stats.TallyCounts | statscollector.js:104-120 | over a list without repeats, the running tally equals the number of listed clients in the target set |
| Stats.RegisterIdempotent | statscollector.js:82-87 | registering the same kind for the same client twice is the same as once |
| Stats.RegisterCountsOnce | statscollector.js:82-87 | a client counts once per kind: the count grows by one only for a client not yet counted |
| Stats.RegisterLeavesOtherKinds | statscollector.js:82-87 | registering one kind leaves the counts of the other kinds unchanged |
| Stats.CalculateStats | statscollector.js:91-100 | the report carries the stream count and the number of clients with each kind of trouble, each at most the number of clients |
| Stats.SendStatistics | statscollector.js:124-133 | the report is computed from the table before it is cleared; afterwards every count is 0 |
| MediaPlaylist.ExtInfMs | attachedstream.js:620-623 | only an `#EXTINF:` line yields a duration, and durations are never negative |
| MediaPlaylist.TargetDurationMs | attachedstream.js:633-637 | only a `#EXT-X-TARGETDURATION:` line yields a duration, a whole number of seconds in ms |
| MediaPlaylist.MediaSequence | attachedstream.js:639-643 | only an `#EXT-X-MEDIA-SEQUENCE:` line yields a first segment number, which is never negative |
| MediaPlaylist.NumberAfterReads | attachedstream.js:633-643 | a tag followed by the decimal spelling of n, then no further digit, reads back as n |
| MediaPlaylist.TargetDurationReads | attachedstream.js:633-637 | `#EXT-X-TARGETDURATION:` followed by n gives n × 1000 ms |
| MediaPlaylist.MediaSequenceReads | attachedstream.js:639-643 | `#EXT-X-MEDIA-SEQUENCE:` followed by n gives n as the first segment number |
| MediaPlaylist.ExtInfReads | attachedstream.js:620-623 | `#EXTINF:` followed by n, a dot and the digits f gives n × 1000 ms plus the first three digits of f (padded with zeros) as milliseconds |
| MediaPlaylist.Classify | attachedstream.js:679-687 | a type word always decides the type; it is on-demand exactly for `VOD` and `EVENT`, and live otherwise |
| MediaPlaylist.ScanLines | attachedstream.js:603-654 | once playback has started, no kept segment lies before the next one to play; durations are non-negative; a type already known never changes |
| MediaPlaylist.ParseSegmentData | attachedstream.js:594-675 | the new list is a prefix of the kept segments. A started live stream keeps at most the buffer size; every other stream keeps all of them. No segment before the next one to play survives. The segment duration is the last target duration of the playlist (the default without one). A known type stays; an undetermined one takes the first type tag. The conflict count is the number of VOD type lines for a live stream, and 0 otherwise |
| MediaPlaylist.ScanCounter | attachedstream.js:603-654 | after the scan, the segment counter is the last media-sequence value plus the content lines after it, or the content-line count if there is none |
| MediaPlaylist.ScanTarget | attachedstream.js:632-637 | the scan's segment duration is the one the last target-duration line gives, or the default when there is none |
| MediaPlaylist.ScanPending | attachedstream.js:601-623 | the duration the next segment receives is the one the last `#EXTINF` line read while its number was unplayed gave, or 0 when there is none, by an independent per-line definition |
| MediaPlaylist.KeptMatchesReference | attachedstream.js:601-623 | the kept segments are exactly the content lines not yet played, each with its number, its line as URI and its duration as an independent per-line definition gives them |
| MediaPlaylist.NotStartedKeepsAll | attachedstream.js:605-618 | before playback starts, every content line becomes a segment |
| MediaPlaylist.ClassificationAndConflicts | attachedstream.js:626-651 | an undetermined stream takes the type of the first type tag, and a known type never changes. VOD conflicts are counted exactly for a live stream, one per VOD line |
| MediaPlaylist.ConflictOnlyWhenLive | attachedstream.js:646-651 | an on-demand stream never conflicts; a live one conflicts exactly when the playlist has a VOD type line |
| MediaPlaylist.SamplePlaylist | attachedstream.js:594-654 | an untyped sample playlist with media sequence 7 and two segments yields segments 7 and 8, with durations 2000 and 2500 ms and a 2000 ms target |
| PlaybackBuffer.InsertSorted | attachedstream.js:792-819 | insertion adds exactly the new segment (as a multiset), and keeps an ascending buffer ascending |
| PlaybackBuffer.InsertIntoBuffer | attachedstream.js:792-819 | a reattaching client, a segment already played, or one already held leaves the buffer unchanged. Otherwise the segment is added exactly once. Order and "nothing behind the next segment" are kept |
| PlaybackBuffer.InsertTwiceIsInsertOnce | attachedstream.js:792-819 | a second arrival of the same segment changes nothing |
| PlaybackBuffer.AsWrittenSlots | attachedstream.js:928-945 | the source's window marks a slot as held when its number is buffered among the first five, and also when the number is 0 |
| PlaybackBuffer.WindowSlots | attachedstream.js:928-945 | the corrected window marks a slot as held exactly when its number is buffered among the first five |
| PlaybackBuffer.WalkIncreasing | attachedstream.js:946-981 | on a playlist numbered in increasing order, the walk reports segments in increasing order, none before the playlist position it starts at |
| PlaybackBuffer.FindMissingIsIntended | attachedstream.js:914-981 | for a consecutively numbered playlist and an ordered buffer, the walk returns exactly the playlist's segments among the next five numbers that are not buffered, in order |
| PlaybackBuffer.SentinelHarmlessAwayFromZero | attachedstream.js:938-960 | when the window does not contain number 0, the source's walk and the corrected one agree |
| PlaybackBuffer.SentinelDropsSegmentZero | attachedstream.js:938-960 | at the very start of a playlist numbered from 0, the source's walk never requests segment 0 |
| PlaybackBuffer.GapsInWindow | attachedstream.js:914-981 | with 7 and 9 buffered and 7 next, the walk requests 8, 10 and 11 |
| PlaybackBuffer.LookupConsecutive | attachedstream.js:953-978 | in a consecutively numbered playlist, number v sits at position v minus the first number, or is absent |
| Client.New | attachedstream.js:34-84 | a new client has an empty buffer, has played nothing, holds the full retry budget, and is neither attached nor terminating |
| Client.DoTerminate | attachedstream.js:196-204 | the session timer and the requests are cancelled only on the first termination; later calls only keep the flag, and the timer stays set exactly when it was set and the client had ended before |
| Client.Terminate | attachedstream.js:186-192 | the client stops, cancels its session timer if this is its first ending, and its last effect reports termination |
| Client.Kill | attachedstream.js:217-222 | the client stops, cancels its session timer if this is its first ending, and reports being killed, never terminated |
| Client.Abort | attachedstream.js:208-213 | the client stops and reports only the abort |
| Client.AbortOrTerminate | attachedstream.js:226-233 | exactly one session end is reported: termination for an attached client, abort otherwise |
| Client.Redirect | attachedstream.js:237-241 | the client stops and reports only the redirect |
| Client.RedirectKeepsTimer | attachedstream.js:93-95 | a redirect or an abort leaves the session timer as it was, and when the timer of a redirected client fires, `terminate` reports `Terminated` with no other effect |
| Client.RedirectIntended | attachedstream.js:237-241 | the redirect as evidently intended reports only the redirect and leaves no session timer set |
| Client.Register | attachedstream.js:753-759 | the request count of the segment grows by one (from 0 if new); other counts are unchanged |
| Client.ForgetBefore | attachedstream.js:777-786 | exactly the counts of numbers at or after the played segment are kept, unchanged |
| Client.FetchSegment | attachedstream.js:691-749 | a buffered segment is not fetched. Otherwise: slowness is reported exactly when it was requested before; it is requested unless it is a repeat and the slow server is spared |
| Client.SecondRequestIsSlow | attachedstream.js:753-773 | the second request for a segment always reports a slow server, and is sent only when pestering is on |
| Client.FetchAll | attachedstream.js:901-909 | fetching leaves the buffer and the next number alone, and requests only segments from the list |
| Client.FetchAllRegisters | attachedstream.js:901-909 | fetching a list keeps every earlier request count and registers every listed segment that is not buffered |
| Client.FetchAllRequests | attachedstream.js:901-909 | for a list without repeated numbers, a segment is requested exactly when it is not buffered and is new or the slow server is pestered |
| Client.FetchAllSlow | attachedstream.js:901-909 | for a list without repeated numbers, a slow server is reported exactly when one listed segment that is not buffered was requested before |
| Client.FirstMissing | attachedstream.js:898-907 | a refill takes the first two segments (or fewer, if fewer are missing) of the walk as written, with its 0 sentinel |
| Client.RefillFetchesDistinct | attachedstream.js:898-909 | on a playlist numbered in increasing order, a refill never fetches two segments with the same number |
| Client.RefillAwayFromZeroIsIntended | attachedstream.js:898-909 | when the next segment is not 0, the buffer is valid and the playlist is numbered consecutively from at most the next segment, a refill takes the first two of exactly the window's playlist segments that are not buffered |
| Client.RefillSkipsSegmentZero | attachedstream.js:898-909 | at the start of a playlist numbered from 0, with nothing buffered, a refill fetches segments 1 and 2 and not segment 0 |
| Client.RefillBuffer | attachedstream.js:893-910 | a refill changes only the request counts and requests only its missing segments. Every one of them that is not buffered gets registered. With distinct numbers, each is requested exactly when it is new or pestering is on, and a slow server is reported exactly when one of them is a repeat |
| Client.Refresh | attachedstream.js:120-142 | a stopping or reattaching client does nothing; otherwise the next refresh is set one segment later, refetching the playlist only for a live stream |
| Client.SegmentArrived | attachedstream.js:695-716 | a redirected segment is buffered as delivered (200), another status as received; a transport error changes nothing; only the buffer changes |
| Client.ArrivalKeepsValid | attachedstream.js:695-819 | an arrival keeps the buffer ordered and free of segments behind the next to play |
| Client.TerminateIfAllSegmentsFailed | attachedstream.js:566-586 | the session ends exactly when the slow server is spared and no buffered segment downloaded |
| Client.PlayASegment | attachedstream.js:478-541 | playing consumes the head of the buffer and advances the counters. The next play is due when wall-clock time catches up with the played duration, or at once if that moment has passed. A failed segment may end the session |
| Client.WaitForBuffering | attachedstream.js:400-472 | a ready client plays; an on-demand stream past its last segment terminates; otherwise it waits a fifth of a segment, reporting bad or very bad service once playback has begun |
| Client.PlaysExactlyWhenReady | attachedstream.js:400-472 | a segment is played exactly when the client is running and the next segment heads the buffer |
| Client.WaitVerdict | attachedstream.js:445-462 | waiting counts as very bad exactly after more than five waits, and never for a zero duration |
| Client.WaitKeepsValid | attachedstream.js:400-541 | waiting and playing keep the buffer valid |
| Client.StartWindow | attachedstream.js:848-874 | without a random start, a live stream buffers its last five segments and any other stream its first three. With a random start and at least five segments, the window is the two segments at a drawn point between 0 and the count minus five |
| Client.RandomStartReachesEveryPoint | attachedstream.js:864-873 | with a random start, every admissible start point is produced by some draw |
| Client.StartBuffering | attachedstream.js:878-885 | buffering starts at the first segment of the window; a window shorter than two segments fails |
| Client.Attach | attachedstream.js:73-116 | attaching reports itself first, sets the session timer and a refresh one segment later, and ends the session if buffering cannot start |
| Client.AttachKeepsValid | attachedstream.js:88-116 | attaching with an empty buffer leaves a valid buffer |
| Client.Retry | attachedstream.js:343-360 | every failure spends one retry. With retries left, the playlist is fetched again one segment later (10 s if the duration is unknown); otherwise the session ends |
| Client.FailuresRetry | attachedstream.js:343-360 | n failures within the budget give n refetches with the same delay, and spend n retries |
| Client.RetryBudget | attachedstream.js:318-360 | from a fresh budget, ten failures are retried and the eleventh ends the session without another request |
| Client.RepeatAbortOrTerminate | attachedstream.js:646-651 | each conflicting VOD line reports one session end, all of the same kind |
| Client.ManifestParsed | attachedstream.js:594-675 | a parsed manifest always restores the full retry budget. It installs the parsed segments, segment duration and type. The effects start with one session end per conflict. After that comes the attach (reported first) or, for a running client, a refresh that ends with the next refresh timer |
| Client.VodPlaylistEndsLiveSession | attachedstream.js:646-651 | a live client sent a playlist with VOD type lines reports at least one session end per such line, the first being termination when attached and abort otherwise |
| Client.RefreshKeepsValid | attachedstream.js:594-675 | a refresh and a newly parsed playlist keep the buffer valid |
| Client.ManifestResponse | attachedstream.js:304-361 | no response does nothing; a transport error or an unexpected status retries; 200 parses; a redirect reports it; a 4xx ends the session |
| Quality.BandwidthValue | streammanager.js:779-794 | a line yields a bandwidth exactly when `BANDWIDTH=` followed by a digit occurs in it |
| Quality.BandwidthReads | streammanager.js:788-791 | a line whose first match is `BANDWIDTH=` followed by the decimal spelling of n, then no further digit, advertises n |
| Quality.BaseUrl | streammanager.js:746 | the base is the URL before its last `/`, or empty without one |
| Quality.Variants | streammanager.js:782-797 | one variant per line that does not start with `#` and follows a line with a bandwidth, in the order of the lines, each with its URL under the base and that bandwidth |
| Quality.Collect | streammanager.js:782-797 | the line-by-line pass, carrying the previous line, yields the variants of all qualifying lines in order, given those of the lines before |
| Quality.VariantsMembership | streammanager.js:782-797 | a variant is listed exactly when some qualifying line names it |
| Quality.ParseQualityData | streammanager.js:773-806 | parsing fails exactly when the first line is not a tag; otherwise the variants are those of the qualifying lines in order, under the stream's base URL |
| Quality.BestIndex | streammanager.js:854-867 | the chosen variant has the highest bandwidth, and is the first one that has it |
| Quality.BestModeIsMaximal | streammanager.js:838-840 | under the best mode, without audio skipping, a variant is always selected and no variant of the list has a higher bandwidth |
| Quality.BiasedOdds | streammanager.js:828-837 | the biased test takes the best branch for 69 of the 100 values of its draw in [1, 100] as written, and for 70 as intended |
| Quality.SeventyIsDrawn | scs-helpers.js:107-109 | some draw makes the biased mode's number in [1, 100] equal 70 |
| Quality.BiasedSeventyDiffers | streammanager.js:829-837 | on the draw 70 the biased mode as written takes the drawn variant, and as intended the best one |
| Quality.SelectQuality | streammanager.js:810-850 | an empty list or an unknown mode selects nothing. With audio skipping, an audio-only best variant selects nothing. Otherwise best picks the best and random picks the drawn variant. Biased picks the best when the draw in [1, 100] passes the test (below 70 as written, at most 70 as intended) and the drawn variant otherwise. A selection is always in the list |
| Fleet.InsertPeer | streammanager.js:224-245 | adding a client keeps the ids ascending and adds exactly that id |
| Fleet.RemovePeer | streammanager.js:312-341 | removing a client keeps the ids ascending and removes exactly that id |
| Fleet.New | streammanager.js:483-496 | a new manager has no clients and consistent bookkeeping; skipped URL lines set the serial number |
| Fleet.PrepareUrl | streammanager.js:707-721 | exactly a path starting with `/` gets the protocol and host prepended |
| Fleet.PrepareUrlIdempotent | streammanager.js:707-721 | preparing a URL twice is the same as once |
| Fleet.StartAStream | streammanager.js:624-686 | nothing starts at the ceiling or under overload. A new client gets the next serial number and is unattached, and is never an HDS URL. No URL left means no action. Only an HDS stream path ends the process |
| Fleet.StartAStreamCreates | streammanager.js:642-678 | with room and no overload, admission creates the candidate: the next serial number, its URL-file line counting the skipped HDS lines, and its prepared URL. The lines read are consumed. Without a candidate nothing is created |
| Fleet.AdmitsCandidate | streammanager.js:665-678 | with room and a candidate, exactly that client is created and recorded as unattached |
| Fleet.RedirectThenTimerReplaces | streammanager.js:249-267 | handling an attached client's redirect creates nothing, but the `Terminated` report its session timer sends later creates the admission candidate |
| Fleet.TerminatedIsReplaced | streammanager.js:249-253 | an attached client's termination that leaves room is followed by the creation of the candidate client with the next serial number |
| Fleet.AdmissionRespectsCeiling | streammanager.js:628-676 | starting a client keeps the bookkeeping consistent, and the client count never exceeds the ceiling through it |
| Fleet.ClientAttached | streammanager.js:224-245 | an attach from a client that is not unattached ends the process; otherwise the client moves from unattached to attached |
| Fleet.AbortClient | streammanager.js:297-308 | an abort removes the id from the unattached set and always decrements the counter |
| Fleet.MaybeUpdateResumeState | streammanager.js:437-468 | the watermark becomes the oldest living id if that is higher, never lower; the resume state is written only when it rises and a resume file is configured |
| Fleet.TerminatedOrKilled | streammanager.js:312-341 | a second report for an ended client does nothing. An unknown client ends the process. Otherwise the client is removed and marked ended, and only resume-state writes follow |
| Fleet.EndingIsIdempotent | streammanager.js:312-341 | reporting the same ending twice is the same as once |
| Fleet.ReactToOverload | streammanager.js:429-433 | overload lowers the ceiling by one and marks overload and slowness seen |
| Fleet.KillCount | streammanager.js:379 | the number killed is the floor of the stream count times the kill share, at most the stream count |
| Fleet.PickIds | streammanager.js:395-409 | the picks are as many as asked (at most all clients), all different, all current clients |
| Fleet.AnyIdCanBePicked | streammanager.js:401-407 | every current client can be the one picked |
| Fleet.KillAllKills | streammanager.js:411-416 | killing the picks kills exactly those clients in order, removes them, marks them ended, and changes nothing else |
| Fleet.KillSomeStreamsAsWritten | streammanager.js:373-379 | as written, every sweep in dynamic mode ends the process before killing anyone |
| Fleet.KillSomeStreams | streammanager.js:373-393 | the intended sweep does nothing outside dynamic mode; at a zero ceiling it only reacts to overload; behind a closed gate it does nothing |
| Fleet.KillSweepKillsExactly | streammanager.js:373-419 | an open sweep kills exactly the kill count of distinct current clients, lowers the ceiling by one, marks overload, and keeps the bookkeeping consistent |
| Fleet.QualityFetched | streammanager.js:733-769 | a variant is chosen exactly when the fetch returns 200, parses, and selects one. A redirect only drops the client. Any other failure drops it and starts a replacement |
| Fleet.Handle | streammanager.js:224-369 | dispatching a report keeps the attached ids ascending; only terminations and aborts start new clients. A very-bad-service report from a running client is registered, and ends the process exactly in dynamic mode |
| Fleet.HandleKeepsValid | streammanager.js:224-369 | every expected report keeps the bookkeeping consistent. A report ends the process only when it is a very-bad-service report from a running client in dynamic mode, which always does, or through an HDS stream path |
| Fleet.AttachKeepsValid | streammanager.js:224-245 | an attach from an unattached client keeps the bookkeeping consistent |
| Fleet.EndKeepsValid | streammanager.js:312-341 | the end of an attached or already ended client never ends the process and keeps the bookkeeping consistent |
| Fleet.SweepKeepsValid | streammanager.js:373-433 | every run of the intended kill sweep, open or refused, keeps the bookkeeping consistent and never ends the process |
| Fleet.KillFactorEndsTheProcess | streammanager.js:355-379 | with a kill count of at least one, the sweep as written ends the process without killing, and the corrected sweep kills at least one client |
| Fleet.AttachAfterAbortExits | streammanager.js:224-308 | an attach after the same client's abort ends the process |
| Fleet.AbortOfUnknownIdDrifts | streammanager.js:297-308 | an abort for an id that is not unattached leaves the counter one below the set it counts |
| Fleet.AdjustMaxStreams | streammanager.js:583-592 | the ceiling rises by one exactly when the fleet is at it and the ticked gate fires; nothing else changes |
| Fleet.NoRaiseRightAfterRaise | streammanager.js:583-592 | a raise of the ceiling is never followed by another in the next round |
| Fleet.AdjustRampRate | streammanager.js:596-601 | slowness stays marked exactly when it was marked and the ticked gate does not fire |
| Fleet.DynamicRound | streammanager.js:535-579 | the next start comes after 25 s once overload or slowness was seen, else after 10 s; the client bookkeeping is unchanged and stays consistent |

## Left out

- Timers and delays are effects that carry their delay. The random spread of the dynamic start interval and the tenfold soft-start delay are not modelled.
- HTTP transport, keep-alive agents, how a request is cancelled (the `AbortRequests` effect stands for it), the utilization job and the InfluxDB reporting (`toInflux`, `setupInfluxJob`) are not modelled. Server load is the `utilizationOK` field.
- Logging and debug output are not modelled.
- Reading the URL file, the configuration and the resume file is not modelled. Writing the resume state is the `WriteResumeState` action.
- Event dispatch between clients and the manager is not modelled as one combined system. Client transitions return the events they emit, and `Fleet.Handle` takes the manager's side of each event.
- `reattach`/`finishReattach` are not modelled because nothing calls them. The `reattaching` flag is kept.
- `terminationTime` is not modelled because it draws from a distribution. The session timer is the `ScheduleTermination` effect without its length.
- `startClientsDynamically`, `startFixedNumberOfClients` and `startMultipleClientsSingleUrl` are not modelled: they only schedule calls to `startAStream`. `Fleet.DynamicRound` models one round of the dynamic loop.
- The command-line front end `scs.js` and `parseFloatArg` are not modelled.
- ScsHelpers.ParseIntArg: a missing argument is an error result. In the source, the misspelled `proess.exit` throws a ReferenceError, which also ends the process.
- ScsHelpers.GetRandomInt: `Math.random()` is read as a draw `k / 2^53` with exact arithmetic. Floating-point rounding of the product is not modelled.
- Common.JsParseInt: the whitespace skipped before a number covers the ASCII spaces, NBSP, BOM and the line and paragraph separators, but not the other Unicode space separators.
- MediaPlaylist.ExtInfMs: durations are whole milliseconds; digits of the fraction past the third are dropped, where the source keeps sub-millisecond fractions (`2.0005` gives 2000.5 there).
- Fleet.KillCount: the kill share is the exact fraction `killPct/100`. Floating point can floor one lower; for example, 100 streams at 29% give 28.
- Client.RandomStartReachesEveryPoint: stated for playlists of at most 2^32 - 1 segments, the longest JavaScript array.
- PlaybackBuffer.InsertIntoBuffer: insertion order is stated for an ordered buffer, which is the only kind the client builds.
- Fleet.Handle: the bookkeeping is checked only for reports the fleet expects (`Fleet.Expected`). Other reports are modelled but only stated to keep the ids ordered.

## Findings

| source | as written | input that shows it | evidently intended | confidence | as-written member | corrected member |
|---|---|---|---|---|---|---|
| streammanager.js:379 | `killSomeStreams` reads a global `killFactor`, which is never defined (only `args["killFactor"]` is set), so the sweep throws a ReferenceError | any very-bad-service report in `--dynamic` mode from a client that is not terminating | kill `floor(nStreams * killPct / 100)` random clients and lower the ceiling | high, not executed | Fleet.KillFactorEndsTheProcess | Fleet.KillSweepKillsExactly |
| attachedstream.js:943-956 | `findMissingSegments` marks a held slot with 0, so a slot for segment number 0 looks held | playback at 0, empty buffer, playlist numbered 0..4: the walk requests 1..4, never 0 | request every number in the window that is not buffered | high, not executed | PlaybackBuffer.SentinelDropsSegmentZero | PlaybackBuffer.FindMissingIsIntended |
| attachedstream.js:237-241 | `redirected` stops the client but leaves its session timer set; when it fires, `terminate` reports `Terminated` and `clientTerminated` starts a new stream, against "Don't start a new stream" in `clientRedirected` | an attached client redirected while the fleet is below its ceiling, whose session timer then fires | cancel the session timer on a redirect, as `doTerminate` does | medium, not executed | Fleet.RedirectThenTimerReplaces | Client.RedirectIntended |
| streammanager.js:829-830 | the biased mode picks the best variant when `getRandomInt(1, 100) < 70` | the draw 70 picks a random variant | best quality for 70% of draws | medium, not executed | Quality.BiasedOdds | Quality.BiasedSeventyDiffers |

The client and the manager run the code as written: `Fleet.Handle` calls
`Fleet.KillSomeStreamsAsWritten`, `Client.FirstMissing` walks with the
sentinel, and `Fleet.QualityFetched` selects with the `AsWritten` test. The
corrected members are stated next to them and used by nothing else.
