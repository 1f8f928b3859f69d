# A verified model of the link-embed server

The server answers links to Instagram posts, stories and profiles with previews for Discord. It asks
several sources at once, caches what it learns, prints captions in Discord's Markdown and keeps metrics.
The web client shows the same previews. This project models the parts of both that hold state, speak a
protocol or print and parse a format, and proves what they promise. `dafny verify dfyconfig.toml`
verifies all of it. `Prelude` and `Decimals` hold small shared definitions.

| files | what they model |
|---|---|
| `DiscordMarkdown`, `Inert`, `Percent`, `Preview`, `RoundTrip`, `Footer`, `Embed` | the Markdown printer and component builder of `server/component_embed.go`, the parser and validator of `web/src/component-embed.ts`, and how each undoes or accepts the other |
| `Links`, `Selection`, `CaptionHtml`, `CaptionChain` | link detection and caption HTML (`server/linkify.go`), and a caption's whole way to the preview |
| `LocalCache`, `Flight`, `Disk` | the model cache (`server/cache.go`): its bounded FIFO maps, its single-flight protocol as a step relation over any number of callers, and the rows it writes to disk |
| `Errors`, `Verdict`, `Helpers`, `Staged` | the post verdict machine, the external helper's life and the staged race (`server/app.go`, `server/errors.go`, `server/fetch.go`) |
| `Windows`, `Gate`, `StoryDoor` | the IPv6 circuit breaker and the story counter, both over ring buffers |
| `Sessions`, `PoolRuns` | the session pool (`server/proxy.go`) |
| `Metrics`, `MetricRuns`, `Status`, `Quantiles` | the metrics (`server/storage.go`) |
| `Shortcodes` | shortcodes and primary keys (`server/helpers.go`) |

An operation the source performs by changing state is a method or a class, proved against a function of
its inputs or of the state before it; the lemmas are about those functions and about whole runs. In a run
every critical section and every channel operation is one step, steps of different goroutines interleave
in any order, and a `select` is a choice among what is ready. Time is a number handed in.

## What does not hold, and when it does

- **Captions lose links.** The links a preview reads back are those the printer wrote if and only if every
  escaped target is one the parser can link: a lower-case `http(s)` scheme, no white space, accepted by
  `httpURL` (`RoundTrip.CaptionLinks`); those read back then lead where the caption's links do. Detection and printer accept `HTTPS://`, the preview's patterns do
  not (`UpperCaseSchemeIsLost`); escaping a URL of 2048 characters can push it past the preview's own limit
  of 2048 (`LongTargetIsLost`).
- **A late put can be overwritten.** A value put by `putAfterFlight` can come to be replaced by the verdict
  of a flight that started before the put if and only if, at the put, its key has a registered flight that may
  still store (`Flight.OverwrittenIff`). The flight the putter waited for never does that
  (`PutFollowsFlight`), but another may: one that starts when the putter has looked and found none
  (`LaterFlightOverwrites`), or one that starts when the flight it waited for has failed
  (`SeenFlightIsNotEnough`). That is about the cache in memory. On disk even the flight the putter waited for
  can write last, because a flight writes its row after its waiters are released
  (`Disk.FollowedFlightWritesLast`). The row a put writes can come to be replaced by a flight that started before
  it if and only if some flight of the key still has a row to write or its fetch is not over
  (`RowOverwrittenIff`); a flight that ended in an error never is one of those (`ErrorsNeverPersist`).
- **The order of arrival can decide a verdict.** Short of the deadline `hiddenPost` comes to the same outcome
  in every order of arrival, unless the helper has the post and the dc proxy has another version of it, or the
  ruling says it is gone; then whichever is heard first decides (`Verdict.OrderMattersIff`).
- **A metric can be lost.** `RecordMetric` and `Status` read the clock before they take the lock. A sample
  that enters the lock after a flush at a later time can wipe out its bucket's row
  (`MetricRuns.LateSampleErases`). Recording a sample is exact if and only if its process still holds a
  running total for the key or nothing is stored for it (`RecordAddsIff`); it always is when times are in
  lock order (`ExactTotals`).
- **Edge bins.** A latency bin's centre is within 10% of every latency in it for bins 1 to 62
  (`Quantiles.CentreIsNear`). The first and the last bin have no such centre (`EdgeBinsAreWide`).
- **An oversized value keeps the old one.** A value too large to cache leaves whatever its key had.

Three results hold because of who calls the code. The builder itself does not check the address of its button
(`Embed.OriginIsNotChecked`), and a payload is accepted if and only if it has no button or that address is an
http(s) URL (`PayloadAccepted`); the addresses built for posts, profiles and stories always are
(`PageAccepted`). `Status` would add a row stored under "all" twice to that series (`Status.AllIsTheSum`); the
gateway records posts, stories and profiles only, so that over every run "all" is the sum of the three
(`AllIsAlwaysTheSum`). And `shortcodePK` reads another key when a line break follows a shortcode, which the
decoder skips but the padding counts (`Shortcodes.LineBreakLosesBits`; `ReadsNumeral` says what is read from any
input); valid shortcodes have no line breaks, and of theirs it reads the base-64 numeral (`ReadsShortcode`).

## Model

| member | source | states |
|---|---|---|
| `DiscordMarkdown.DiscordText` | server/component_embed.go:88-99 | replacing, splitting into lines, treating each line start and joining is one pass over the characters |
| `DiscordMarkdown.LinesAreEscaped` | server/component_embed.go:81-99 | the line-by-line rewrite of replaced text, continued from any place in a line, equals the one-pass escaper |
| `Inert.EscapedIsDead` | server/component_embed.go:81-99 | read as Discord reads it, escaped text has no live markup, no heading, quote or list, no URL scheme and no mention, and its letters are those of the text with every mention broken up |
| `DiscordMarkdown.Target` | server/component_embed.go:101-103 | an escaped target holds none of the characters that end or nest a link |
| `Percent.TargetMeans` | server/component_embed.go:101-103 | percent-decoding an escaped target gives what percent-decoding the address gives, for every address |
| `DiscordMarkdown.LinkForm` | server/component_embed.go:105-126 | a bare link exactly when the label is the target itself, the label in brackets exactly when nothing in it breaks a link, and else the escaped label before an arrow |
| `DiscordMarkdown.DiscordCaption` | server/component_embed.go:128-151 | the printer's loop writes exactly the spans wholly before the cut as links, the rest as escaped text, and an ellipsis if anything is left out |
| `DiscordMarkdown.KeptOrdered` | server/component_embed.go:128-151 | the spans kept are in order and end before the shown text stops, which is at the cut or before the span it falls into |
| `DiscordMarkdown.StopIs` | server/component_embed.go:128-151 | the shown text stops where the span begins that the cut falls into, and at the cut if it falls into none |
| `Preview.BlockAt` | web/src/component-embed.ts:114-128 | a heading begins with the marker of its kind and a space, and captures less than it matches |
| `Preview.HeadingReads` | web/src/component-embed.ts:114-132 | a marker, spaces and a line read as that heading with that line |
| `Preview.AngleAt` | web/src/component-embed.ts:114-128 | what an angle link captures is a lower-case http(s) URL without white space |
| `Preview.BareAt` | web/src/component-embed.ts:114-128 | a bare link is a prefix with a lower-case scheme, something after it and no white space |
| `Preview.MaskedAt` | web/src/component-embed.ts:114-128 | a masked link begins with "[" and has such a URL for its target |
| `Preview.LinkAt` | web/src/component-embed.ts:130-150 | a link token leads to a URL of that form which `httpURL` accepts |
| `Preview.MatchAt` | web/src/component-embed.ts:130-150 | a token consumes input, and is a link only outside names and only to an acceptable URL |
| `Preview.ParseLoop` | web/src/component-embed.ts:152-162 | the parser's loop yields the merged tokens of its input |
| `RoundTrip.NoHttp` | server/component_embed.go:81-99 | no URL scheme can be read anywhere in escaped text or across its end |
| `RoundTrip.EscapedItems` | server/component_embed.go:81-99 | escaped text reads back character by character, with no heading, style, emoji, timestamp or link, whatever follows it |
| `RoundTrip.TextRoundTrip` | web/src/component-embed.ts:152-178 | parsing escaped text gives one text node, the original with every "@" followed by U+200B, and no node for the empty text |
| `RoundTrip.LinkReads` | server/component_embed.go:105-127 | each of the three forms of a link reads back as its label and one link to the escaped target |
| `RoundTrip.CaptionReads` | server/component_embed.go:128-151 | the whole parse of a printed caption: escaped text, links and ellipsis in place |
| `RoundTrip.NamesHaveNoLinks` | web/src/component-embed.ts:130-150 | the name of a link parses to no link, at any depth |
| `RoundTrip.TargetsLinkable` | web/src/component-embed.ts:130-162 | every link the parser makes, from any input and at any depth of headings, styles and names, has a linkable target |
| `RoundTrip.CaptionLinks` | server/component_embed.go:105-151 | the links read back, at any depth, are the escaped targets of the kept spans, in order, if and only if each of them is linkable; percent-decoded they are then the addresses of the kept spans |
| `RoundTrip.UpperCaseSchemeIsLost` | web/src/component-embed.ts:114-128 | a caption that is an upper-case URL loses its link |
| `RoundTrip.LongTargetIsLost` | server/component_embed.go:74-103 | a URL within the printer's limit can have a target beyond the preview's |
| `Footer.EmojiReads` | server/component_embed.go:153-163 | a custom emoji reads back with its name |
| `Footer.TimeReads` | server/component_embed.go:165-174 | the timestamp of a card reads back as its time if and only if a JavaScript date can hold it |
| `Footer.FooterReads` | server/component_embed.go:165-174 | the footer line of a card reads back as one small line holding the emoji if its id is valid, the brand and the time, or the time's letters if no date can hold it |
| `Embed.Validator.Count` | web/src/component-embed.ts:47-51 | counts a component of the kind asked for, up to forty |
| `Embed.Validator.Button` | web/src/component-embed.ts:63-70 | accepts exactly link buttons with an http(s) URL, a label and no foreign key |
| `Embed.Validator.Section` | web/src/component-embed.ts:78-84 | accepts one to three texts beside a thumbnail or button, within the count |
| `Embed.Validator.Row` | web/src/component-embed.ts:94-96 | accepts one to five buttons within the count |
| `Embed.Validator.Gallery` | web/src/component-embed.ts:85-90 | accepts one to ten media, and ten in all galleries together |
| `Embed.Validator.Child` | web/src/component-embed.ts:73-100 | accepts exactly the well-formed children for which the counters have room, and counts them |
| `Embed.Validator.Parse` | web/src/component-embed.ts:45-110 | the stateful walk accepts a payload if and only if its size, every child and the totals are in bounds |
| `Embed.PayloadAccepted` | server/component_embed.go:270-296 | every payload built has at most eleven components, and is accepted if and only if it has no button or the button's URL is http(s) |
| `Embed.PayloadShows` | server/component_embed.go:270-296 | a payload shows, in order, the author, the caption and the footer line, exactly the media, and the buttons to the post and, if asked for, to the support page, none of either kind of text or button in a gallery |
| `Embed.OriginIsNotChecked` | server/component_embed.go:277-292 | the builder itself checks no address: a card, of a kind no caller makes, whose payload is refused |
| `Embed.AddressOnInstagram` | server/helpers.go:186-192 | the address of every valid post, profile or story is an Instagram address of harmless characters within the limit of a URL |
| `Embed.PageAccepted` | server/component_embed.go:176-224 | every payload built for a post, a profile or a story is accepted by a validator that takes Instagram addresses for http(s) URLs |
| `Embed.DescribeMedia` | server/component_embed.go:235-245 | the first ten media, or nothing if one of them cannot be described |
| `Embed.FitMedia` | server/component_embed.go:298-306 | keeps the longest gallery prefix found to fit from the full one down, never less than one medium |
| `Embed.FitCaption` | server/component_embed.go:316-329 | the cut fits or is zero, and one character more does not fit unless the search's limit was reached; sizes need not be monotone |
| `Embed.ComponentEmbedScript` | server/component_embed.go:235-332 | when there is a payload at all; it is at most 3000 bytes, shows the first media that fit and the whole caption or a tight cut of it |
| `Links.TrimmedIsLongest` | server/linkify.go:87-109 | recounting brackets at every step finds the longest prefix that is empty or ends in neither punctuation nor an unmatched closer |
| `Links.TrimUrlEnd` | server/linkify.go:87-109 | one table of counts, kept up to date, ends the URL at the last place that is neither at trailing punctuation nor at a bracket closed more often than opened |
| `Links.CountsNext` | server/linkify.go:115-133 | a match counts at the beginning, after a character that is neither part of a word nor a sigil, or directly after a match that counts |
| `Links.ScanSigil` | server/linkify.go:123-133 | returns, in order, exactly the matches whose chain of adjacent matches begins at a boundary |
| `Links.Add` | server/linkify.go:48-64 | takes a span if it is in range and overlaps none taken before; `occupied` marks exactly the spans' positions |
| `Links.GreedyChoice` | server/linkify.go:48-83 | the spans taken do not overlap, and every candidate left out overlaps one of them |
| `Links.UrlsAllTaken` | server/linkify.go:51-69 | no URL gives way to a handle or a hashtag |
| `Links.SortByStart` | server/linkify.go:81-82 | the same spans, in order of position |
| `Links.DetectLinks` | server/linkify.go:48-83 | the greedy choice among URLs, then handles, then tags: sorted, disjoint, in range, `occupied` marking exactly their positions, none beginning like the middle of a URL scheme |
| `Selection.DetectionSelects` | server/linkify.go:48-83 | what is selected, whatever the order of choice: every URL, linked to itself; every handle that counts, has a valid name and overlaps no URL, linked to its profile; every tag that counts and overlaps nothing selected, linked to its search; and nothing else |
| `CaptionHtml.CaptionHTML` | server/linkify.go:29-46 | writes the escaped text with an anchor around each span |
| `CaptionHtml.UnescapeHtml` | server/linkify.go:29-44 | unescaping undoes escaping |
| `CaptionHtml.HtmlSays` | server/linkify.go:29-46 | read as HTML, the output is the text, letter by letter, with an anchor opened and closed at each span |
| `CaptionHtml.CaptionUndone` | server/linkify.go:29-46 | dropping anchors, turning `<br>` into line breaks and unescaping gives the caption back; the anchors give back the spans with their targets |
| `CaptionChain.PreviewCaption` | server/component_embed.go:309-329 | for every caption, its detected links and every cut, detection, printing and parsing in a row preserve exactly the links kept, if and only if each is linkable; the links read back then lead where those detected do |
| `CaptionChain.UndoCaption` | server/linkify.go:29-44 | for every caption, detection and HTML in a row can be undone |
| `LocalCache.EvictLongestSuffix` | server/cache.go:326-333 | what survives an eviction is the longest suffix of insertion order within both caps |
| `LocalCache.StoreKeepsNewest` | server/cache.go:297-333 | a value that is not too large is always kept, with the newest of the others that fit beside it in the byte limit and in 8192 entries |
| `LocalCache.StoreErrorKeepsNewest` | server/cache.go:313-320 | an error is always kept, with the newest 8191 of the others |
| `LocalCache.Cache.RemoveValue` | server/cache.go:284-295 | removes one key from map and list; the clamp of the byte count never takes effect |
| `LocalCache.Cache.RemoveLocalLocked` | server/cache.go:284-295 | removes the key from whichever of the two maps holds it, and nothing else |
| `LocalCache.Cache.LocalGet` | server/cache.go:267-282 | returns the live entry of the key, or drops a dead one; nothing else changes |
| `LocalCache.Cache.AppendError` | server/cache.go:313-320 | errors are capped on their own and never evict values |
| `LocalCache.Cache.EvictOldest` | server/cache.go:326-333 | the eviction loop drops oldest values until both caps are met |
| `LocalCache.Cache.StoreLocal` | server/cache.go:297-333 | the two maps refine one FIFO map each: keys unique and disjoint, bytes exact, caps met; an oversized value changes nothing; a value's size is 512 plus twice the lengths of key and JSON |
| `Flight.StepInv` | server/cache.go:72-221 | every step keeps the protocol's invariant |
| `Flight.ReturnDue` | server/cache.go:141-182 | what a fetch leaves to be stored: a valid value for exactly the time the fetch allows, a permanent error for an hour, another for a minute, and nothing for an invalid value, an error of our own making, a request given up or a result that comes too late; and what everyone who waits is told |
| `Flight.FetchedIsServed` | server/cache.go:141-182 | from fetch to cache: that entry is stored after any steps of others, and is what the cache has for its key until its time is up, as long as no store evicts or replaces it; no other flight starts meanwhile |
| `Flight.LookServes` | server/cache.go:72-80 | whoever looks while an entry is live is served its verdict and starts nothing |
| `Flight.ExpiredIsDropped` | server/cache.go:267-282 | an entry whose time is up is not served, and dropped |
| `Flight.OtherVerdicts` | server/cache.go:124-139 | what a row found, a slot given up on and a put leave in the cache |
| `Flight.OneFlightPerKey` | server/cache.go:72-191 | at every point of every run a key has at most one unfinished flight, the registered one, and fetches over all caches never exceed the slots |
| `Flight.WaitersAgree` | server/cache.go:95-112 | everyone who waited for a flight got the same verdict, the one it ended with and, if it stored an entry, stored |
| `Flight.NewFlightNeeded` | server/cache.go:82-92 | a flight starts only when every earlier one of its key is over, has stored what it had to, and nothing live is cached |
| `Flight.NoFlightWhileLive` | server/cache.go:72-104 | over any run, while an entry stays cached and live no flight starts for its key |
| `Flight.SparedStays` | server/cache.go:267-333 | a live entry that no store evicts or replaces and whose time has not come stays as it is, over any run |
| `Flight.NoFlightAfterStore` | server/cache.go:72-182 | after a flight has stored its entry, no other starts for its key as long as no store evicts or replaces the entry and its time has not come |
| `Flight.PutFollowsFlight` | server/cache.go:209-221 | a put that waited for a flight comes after that flight stored and was released, and is never overwritten by it |
| `Flight.OverwrittenIff` | server/cache.go:209-221 | a put can come to be overwritten by a flight that started before it if and only if its key then has a registered flight that may still store |
| `Flight.LaterFlightOverwrites` | server/cache.go:209-221 | a run in which a put that saw no flight is overwritten by one that started after the look |
| `Flight.SeenFlightIsNotEnough` | server/cache.go:209-221 | a run in which a put that waited for one flight is overwritten by the next |
| `Disk.MoveInv` | server/cache.go:175-204 | only a flight that ended in a value, its fetch over, has a row to write, and rows bear flights of their key |
| `Disk.OwesIff` | server/cache.go:182-190 | a fetch leaves a row to write if and only if it is to be kept and came back with a valid value that may be cached |
| `Disk.ErrorsNeverPersist` | server/cache.go:182-190 | a flight that ended in an error never writes a row, so a putter that followed one is safe from it |
| `Disk.RowOverwrittenIff` | server/cache.go:182-204 | the row a put writes can come to be replaced by a flight that started before it if and only if a flight of the key has a row to write or its fetch is not over |
| `Disk.FollowedFlightWritesLast` | server/cache.go:184-190 | a run in which the flight a putter waited for writes its row after the putter's |
| `Errors.PreferredKeepsFirst` | server/errors.go:113-120 | folding the preference over failures keeps the earliest of the highest rank |
| `Errors.HighestMeans` | server/errors.go:113-120 | the error of the highest rank is the first permanent one, without one the first that is not of our own making, and else the first |
| `Verdict.OembedSays` | server/fetch.go:648-676 | oEmbed's card if it came through with a post in it, and else the error refined by Instagram's own reason and notice |
| `Verdict.FollowUps` | server/app.go:305-328 | in terms of oEmbed's fields, when there is a card and when a gate, and which of the page, the dc proxy and the ruling are then asked |
| `Verdict.HearOembed` | server/app.go:305-328 | oEmbed's verdict starts exactly the follow-ups it calls for, with one more answer to wait for and one more sender for each |
| `Verdict.AnsweredSays` | server/app.go:276-291 | what is said when all have answered, from what they said: the partial post with its exact time to live; without one Instagram's notice, made retryable if and only if a helper is registered that did not reach Instagram; without either, gone if and only if oEmbed and the helper both answer 404, and else that the post could not be loaded |
| `Verdict.Justify` | server/app.go:278-350 | what each way out of the loop returns is justified by what the sources said |
| `Verdict.HiddenPost` | server/app.go:240-352 | in every order of arrival: `pending` is the number of answers outstanding, each channel gets at most one send, the loop ends; when all have answered the outcome is the one `AnsweredSays` spells out, with "gone" if and only if oEmbed and the helper both answer 404 and there is neither card nor gate; when the time is up it follows from what has come; partial posts are never persisted, and short of the deadline the outcome is the one of the order in which answers arrived |
| `Verdict.FinalPossible` | server/app.go:295-350 | every order of arrival that ends short of the deadline ends in one of four outcomes the sources allow |
| `Verdict.PossibleArises` | server/app.go:295-350 | each of those outcomes is that of some order of arrival |
| `Verdict.OrderMattersIff` | server/app.go:295-350 | two orders of arrival end differently if and only if the helper has the post and the dc proxy has another, or the ruling says it is gone |
| `Verdict.FetchPost` | server/app.go:187-236 | the race's post as it is; a hidden post's outcome justified as above; else oEmbed's card for a minute at most or the race's error with Instagram's reason; with a helper registered, a restricted or geo-blocked verdict only if the helper finished and reached Instagram |
| `Verdict.SettlePost` | server/cache.go:141-182 | a valid post is the verdict, cached for exactly the time its fetch allows; an error is cached for an hour if it is permanent, for a minute otherwise, and not at all if it is of our own making; a gate verdict cached for an hour means that the helper, if registered, finished and reached Instagram |
| `Helpers.StepInv` | server/app.go:98-186 | every step of a helper's life keeps: one run, one store, cancelled when let go, slots counted exactly |
| `Helpers.AtMostOnce` | server/app.go:122-186 | in every run each flight's helper runs at most once, at most eight outlive their flight, and the post of one that was kept is stored exactly if it came back with one |
| `Helpers.KeptIff` | server/app.go:187-204 | a flight keeps its helper if and only if its post is hidden, it has no more than part of it and the helper was started; any other is cancelled at once |
| `Helpers.SlotIff` | server/app.go:161-186 | a running helper that is kept gets a slot if and only if one is free, and then goes on uncancelled |
| `Helpers.MovesBounded` | server/app.go:122-186 | in any run a helper takes at most eight steps |
| `Helpers.NeverStuck` | server/app.go:161-186 | until it is cancelled and off its slot, a step that moves a helper on is enabled |
| `Helpers.EveryHelperCancelled` | server/app.go:161-208 | when nothing more can happen to it a helper has been cancelled and holds no slot |
| `Staged.StagedFetch` | server/fetch.go:203-291 | the race ends; without cancellation or a final error it fails only after every source was started and failed; exhausted, cancelled or not, it reports the first error of the highest rank among the sources that were started; cut short, the earliest permanent error of a failed source, or the parent's own if there is none; no source starts ahead of time unless a failure pulled it in, and each failure pulls one in while there is one |
| `Staged.HighestOfAll` | server/errors.go:113-120 | the rank of the error reported is the highest of any source, whatever the order of arrival |
| `Windows.LastPush` | server/fetch.go:574-583 | a new observation changes the count over the window by itself and the one that leaves |
| `Windows.PushHolds` | server/fetch.go:574-583 | overwriting the slot at `next` keeps the ring holding the last observations |
| `Windows.CountIs` | server/fetch.go:574-583 | the running count is the number of marked positions among the last observations |
| `Gate.PausesDouble` | server/fetch.go:600-613 | the pauses in a row double from two minutes and stay at one hour |
| `Gate.EventInv` | server/fetch.go:538-613 | every call keeps the gate's invariant |
| `Gate.RunInv` | server/fetch.go:538-613 | over every run: an open gate has fewer than three failures in its window, it has a pause exactly while it is paused, and that pause follows from their number |
| `Gate.PausesIff` | server/fetch.go:600-613 | an open gate pauses if and only if a failure makes three among the last ten attempts, for two minutes; until then calls change its log alone |
| `Gate.ResumesIff` | server/fetch.go:585-613 | a paused gate resumes on an answer only, with a clean slate; a failure after its pause doubles it up to an hour, one before changes nothing |
| `Gate.StaysOpenIff` | server/fetch.go:538-613 | over any calls a gate stays open if and only if the attempts among them never come to three failures among the last ten |
| `Gate.GrantsIff` | server/fetch.go:553-572 | until an answer, a release or a failure that counts comes in between, a paused gate lets a call through if and only if its pause is over and the last probe was at least three seconds ago |
| `Gate.V6Gate.Allow` | server/fetch.go:553-567 | lets a call through when open, or as a probe when the pause is over and the last probe is old enough |
| `Gate.V6Gate.Record` | server/fetch.go:574-583 | the running count is the number of failures among the last ten |
| `Gate.V6Gate.Ok` | server/fetch.go:585-598 | an answer through a paused gate resets it entirely |
| `Gate.V6Gate.Fail` | server/fetch.go:600-613 | a failure before the end of a pause changes nothing; an open gate pauses if and only if it makes three failures among the last ten attempts; a pause is twice the last one, between two minutes and an hour |
| `StoryDoor.StorySideDoor.Record` | server/story.go:182-196 | the counters are those of the last hundred stories |
| `StoryDoor.StorySideDoor.Closed` | server/story.go:182-203 | a hidden story is turned away if and only if at least fifty were seen and more than two in five of the last hundred were hidden |
| `StoryDoor.VisibleReopens` | server/story.go:182-203 | a hundred visible stories in a row open the door, whatever came before |
| `Sessions.EstimateBounded` | server/proxy.go:186-194 | the update rule keeps the estimate between the new sample and the peak |
| `Sessions.EstimateGap` | server/proxy.go:186-194 | above a new sample the estimate keeps of its distance exactly the part that has not faded; a larger sample replaces it |
| `Sessions.CostIs` | server/proxy.go:33-42 | an unmeasured session is free while idle and costs an hour for each request in flight; a measured one costs its faded estimate, and as much again for each request in flight |
| `Sessions.CostGrows` | server/proxy.go:33-42 | cost grows with the estimate and with the requests in flight, and nothing is cheaper than an idle session not yet measured |
| `Sessions.SessionPool.Pick` | server/proxy.go:125-174 | picks an eligible session no dearer than the other one drawn, none only if none is ready, and counts the request in |
| `Sessions.SessionPool.ReadyOnes` | server/proxy.go:130-140 | lists exactly the eligible sessions, www traffic keeping to the first three if one of them is ready |
| `Sessions.SessionPool.EndRequest` | server/proxy.go:175-195 | counts the request out, and observes its time only for the client it ran on |
| `Sessions.SessionPool.Fail` | server/proxy.go:206-221 | rotates a session off the failing client, once: to a new client, unmeasured, resting for three seconds at least; a retired client changes nothing |
| `PoolRuns.StepInv` | server/proxy.go:125-221 | every step of the pick, done, fail bracket keeps the pool's invariant |
| `PoolRuns.PendingExact` | server/fetch.go:406-435 | at every point of every run a session's `pending` is exactly its requests in flight, so the clamp never takes effect |
| `PoolRuns.RotatedOnce` | server/proxy.go:206-221 | no run rotates a client twice |
| `PoolRuns.LateFailureSpares` | server/proxy.go:206-211 | a failure reported by a retired client changes no session |
| `PoolRuns.EstimateBetween` | server/proxy.go:175-195 | after a sample the estimate lies between it and the largest sample since the last rotation |
| `Metrics.LocalStore.FlushMetrics` | server/storage.go:231-256 | a committed flush replaces the row of every running total, deletes old rows and forgets closed buckets; a failed one changes neither table nor totals |
| `Metrics.FlushLeaves` | server/storage.go:231-256 | after a committed flush the table holds a day's rows, those of the process with its totals, and the process only the totals of the current ten minutes; after a failed one nothing has changed |
| `Metrics.LocalStore.RecordMetric` | server/storage.go:203-229 | flushes when the bucket has changed, then gives the current bucket's total of the category exactly one more request, in its latency bin and in one counter: answered below status 400, refused for good with one of the four permanent codes, failed otherwise; no other total changes |
| `MetricRuns.FlushKeeps` | server/storage.go:231-256 | a flush loses nothing within the window, at whatever time and however it ends |
| `MetricRuns.RecordAddsIff` | server/storage.go:213-229 | recording adds exactly its sample to what is held if and only if there is a running total for the key or nothing stored |
| `MetricRuns.RunInv` | server/storage.go:203-256 | the invariant behind exact totals, over every run of any number of processes |
| `MetricRuns.ExactTotals` | server/storage.go:203-256 | with a clock that does not run backwards and any failed transactions, what is held for each row in the window is the sum of the samples recorded for it |
| `MetricRuns.CommittedRows` | server/storage.go:231-256 | after a committed flush a process's rows themselves are those sums |
| `MetricRuns.SavedRows` | server/storage.go:203-256 | at every point of every run a row holds exactly what was recorded for it when its process last committed a flush |
| `MetricRuns.LateSampleErases` | server/storage.go:213-217 | a run in which a clock read out of lock order loses a sample |
| `Status.Report` | server/storage.go:272-296 | the loop over the rows adds each to its category's and to the common series |
| `Status.Status` | server/storage.go:258-296 | flushes, fails with the flush, and else sums the rows of the window |
| `Status.OrderDoesNotMatter` | server/storage.go:272-296 | the series do not depend on the order in which rows are returned |
| `Status.SeriesIsOwn` | server/storage.go:282-296 | the series of a category is the sum of its rows over all processes |
| `Status.AllIsTheSum` | server/storage.go:282-296 | "all" is the sum of the categories if and only if nothing is stored under "all" |
| `Status.AllIsAlwaysTheSum` | server/gateway.go:341-373 | with the categories the gateway records, "all" is the sum of the three at every point of every run |
| `Status.StatusShowsSaved` | server/storage.go:258-296 | at every point of every run each category shows exactly what each process had recorded by its last committed flush |
| `Status.CaughtUpIff` | server/storage.go:231-256 | the processes have caught up if and only if everything recorded in the window is saved |
| `Status.AllFinished` | server/storage.go:231-256 | they have when the last event of every process is a committed flush |
| `Status.OwnConserves` | server/storage.go:203-296 | once every process has committed, the rows of any key in the window add up to what the table began with and every sample recorded since |
| `Status.StatusConserves` | server/storage.go:203-296 | once every process has committed, each series, "all" included, is what the table began with and every sample recorded since, each counted once |
| `Status.StatusTallies` | server/storage.go:203-296 | once every process has committed, the three counters of each series, "all" included, are what the table began with plus the numbers of requests recorded within its ten minutes that were answered, refused for good and failed, and each bin of its histogram likewise |
| `Quantiles.Quantile` | server/storage.go:301-314 | the scan stops in the bin where the running count reaches the rank |
| `Quantiles.HistogramOfBoth` | server/storage.go:288-295 | adding histograms is the histogram of both samples together |
| `Quantiles.BinIsRanked` | server/storage.go:302-313 | that bin is the one of the rank-th smallest value, in whatever order the values came |
| `Quantiles.SeriesHistogram` | server/storage.go:282-296 | what a series is due, "all" included, is the histogram of the latencies of its samples |
| `Quantiles.QuantileOfAll` | server/storage.go:258-313 | the quantile shown for a series, "all" included, is the one of all its samples, recorded by any process or there at the start |
| `Quantiles.CentreIsNear` | server/storage.go:211-212 | a bin's geometric centre is within 10% of every latency in it, for all bins but the first and the last |
| `Quantiles.EdgeBinsAreWide` | server/storage.go:211-212 | the first and the last bin hold latencies far from their centres |
| `Shortcodes.BytesValue` | server/helpers.go:13-19 | decoding fails exactly on a single digit left over, and else the bytes are the base-64 numeral less the bits of an incomplete group |
| `Shortcodes.ReadsNumeral` | server/helpers.go:13-19 | what is read from any input, line breaks and foreign characters included |
| `Shortcodes.ReadsShortcode` | server/helpers.go:13-19 | left-padded URL-safe base64 decoding of a shortcode is its base-64 numeral |
| `Shortcodes.KnownKeys` | server/fetch_test.go:66 | two keys known from Instagram read and are written as they should, so that every character stands for the digit Instagram gives it |
| `Shortcodes.LineBreakLosesBits` | server/helpers.go:13-19 | a line break after a shortcode changes the key read |
| `Shortcodes.PkShortcode` | server/helpers.go:22-33 | the loop stays within its array of eleven for every 64-bit key and writes its base-64 digits |
| `Shortcodes.LengthBound` | server/helpers.go:22-33 | a key has at most k digits if and only if it is below the k-th power of 64 |
| `Shortcodes.KeyRoundTrip` | server/helpers.go:13-33 | reading a key's shortcode gives the key |
| `Shortcodes.ShortcodeRoundTrip` | server/helpers.go:13-33 | writing a shortcode's key gives the shortcode if and only if it has no leading "A" |

## Left out

- Text is a sequence of Unicode scalar values. Go works on UTF-8 bytes and JavaScript on UTF-16 units; offsets and the limits of 2048 are counted in scalars. Repairing invalid UTF-8 and `normalizeCaption` come before the model.
- The five style patterns of the preview are one unknown function of which only the first characters are known, so nothing is claimed about the visible text of link labels.
- `discordMediaURL` and `httpURL` are unknown predicates, one and the same for builder and validator in `Embed`; the normal form a URL parser gives a link is not modelled.
- The regular expressions of link detection are lists of matches: in order, in range, disjoint, beginning with a scheme's letter or a sigil. `validUsername`, word characters and the format category are unknown predicates.
- JSON text: payloads are trees whose size is an unknown function. Names, badges and statistics of a card arrive as strings; its footer is that of `Footer`. Alternative texts, dividers and spacing of the preview, button emoji and disabled buttons are not modelled.
- The persistent store behind the cache may answer a lookup or not; of its content only who wrote a row last is modelled, in `Disk`. Values are validated by an unknown predicate and never shared between callers.
- `Flight` has one local map per key with evictions as given sets; `LocalCache` is the exact map. Flights and requests that end by panicking are not modelled.
- Fairness: what is proved about progress is that measures fall and steps are enabled, not that the scheduler takes them.
- `Staged.StagedFetch`: once its parent has ended, the timer may be drawn a number of times before the end is noticed; `patience` bounds that number, which the source leaves to the scheduler.
- Source answers in `Verdict` (GraphQL, embed page, Open Graph page, oEmbed, ruling) are arbitrary. Storing and publishing partial cards and gate notices for requests at their deadline is not modelled.
- `Helpers`: storing a late post is one step; the helper's own time limit is what lets it come back.
- Metric counts are unbounded; the source uses 64-bit counters. The table is read right after the flush, though the source allows other processes in between. Rows that cannot be parsed, the sorted list of series and the rounding for display are left out.
- `Quantiles.Quantile`: ranks are taken over the reals; the source multiplies in floating point. The bins and centres are defined by fourth and eighth powers instead of logarithms.
- Estimates of the session pool are real numbers and fading is any number above zero and up to one; nanosecond rounding is not modelled. Sessions with equal cost may be chosen either way, as the source draws them at random.
- `Gate.GrantsIff`: probes released in between may be closer, as the source intends.
- Valid shortcodes, usernames and story ids are given by their characters and lengths; escaping a path segment is modelled for those alone, which it leaves as they are.
- HTTP, TLS, proxies, page scraping, routing, locale, bot limits, signing and the React interface are not part of this model.
