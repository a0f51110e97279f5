# ferroq: verified models of the gateway's core

ferroq is a gateway between QQ bot backends (Lagrange, NapCat, the official API) and bot frameworks that speak OneBot v11,
OneBot v12 or Satori. This project models the parts of it that compute, count or keep a protocol, and proves what they
promise. `dafny verify dfyconfig.toml` checks all of it.

Code that builds values is written as functions with lemmas; code that works step by step on an iterator, a map, a queue
or a counter is written as a class or a method whose contract ties it to a function, and the promises are lemmas about
that function over every input or every run. A run is a sequence of states and steps; a step is what one task does
between two await points, one critical section, or one atomic access, so a lemma about every run is a lemma about every
interleaving.

| file | what it models |
|---|---|
| Text, SatoriEscape, SatoriScan, SatoriCodec, SatoriTags | the Satori element encoding: escapes, scanners, printer and parser, and what tags mean |
| OneBotV11, Event, Message, JsonTree | OneBot v11 JSON to internal events and back |
| HashFeed, Dedup | event fingerprints and the time-windowed duplicate filter |
| Forward, Stats | forwarding to the bus, failover, event counters |
| RateLimiter | the token bucket with hot reload |
| Lagrange | echo-correlated calls over one backend connection |
| OneBotSession, SatoriSession | the two WebSocket servers, and the reverse connection's backoff |
| Runs | how often something has happened in a run, and what happened last |
| Router, AdapterManager | the routing table, adapter lifecycle, and the refresh of routes |

## What the proofs found

- A quoted reply whose id contains the letters "forward" is read back as a forwarded message, because the test looks at
  the whole tag text. The round trip is stated for all segment lists with that case in it (`SatoriCodec.RoundTrip`);
  the parser itself never produces such a reply (`SatoriCodec.ParsedReply`), and the lists that survive unchanged are
  characterised exactly (`SatoriCodec.RoundTripIdentity`).
- A poke prints a tag the parser skips, but the tag still separates the texts around it for one round
  (`SatoriCodec.PokeSplitsOnce`).
- A tag is recognised by how its text starts, so letters that run on from a known name count as one more attribute and
  change nothing else (`SatoriTags.TagMeaning`). An ampersand that starts no entity makes everything up to the next
  semicolon text, tags included (`SatoriTags.EntityRun`).
- Clock readings are taken before the filter's lock. When they fall back by up to δ in lock order, two passes of one
  fingerprint are at least the window less δ apart, and for every window some run reaches that bound
  (`Dedup.PassesAreApart`, `Dedup.PassesApartTight`). So passes are a full window apart in every run if and only if
  δ is zero (`Dedup.FullWindowIff`).
- The burst now configured bounds what is granted from a moment on if and only if the bucket then holds no more than that
  burst (`RateLimiter.BurstBoundsIff`). Only storing a lower burst can end that (`RateLimiter.WithinUntilLowered`), and a
  refill tick brings it back, whatever the bucket holds, if and only if the burst it had loaded is not above the one configured
  (`RateLimiter.CommitRestoresIff`): a tick that loads after the store does (`RateLimiter.TickRestores`), one that had
  loaded before it does not (`RateLimiter.LoweredBurstOutlived`).
- Submitting a call leaves a pending entry of a finished call behind if and only if the adapter is connected and its
  writer's channel is closed (`Lagrange.SubmitLeaksIff`); a caller that goes away while waiting is the only other cause
  (`Lagrange.LeakBegins`). The entry stays until a disconnect or a response that names its echo, and never comes back
  (`Lagrange.LeakLasts`).
- A connected adapter always has a writer channel, so the branch that fails a call for want of one is never taken
  (`Lagrange.WriterWhenConnected`).
- A refresh pass gives an adapter's account the right index if and only if every adapter removed since the pass began
  stood behind it in the router (`AdapterManager.RefreshRightIff`). After one removal that did not, the account goes,
  without any error, to the adapter that stood just behind, or to an index past the end, which fails the next request;
  the same happens to the account of an adapter removed just before the pass came to it
  (`AdapterManager.StaleOutcome`, `AdapterManager.DisturbedPassBreaks`). The next pass without such a removal repairs every uniquely known live
  account (`AdapterManager.RefreshRoutes`), and the next removal outside a pass the whole table
  (`AdapterManager.LookupNeverFails`).
- A Satori client refused for a wrong token is sent the READY frame of an accepted one, and then nothing in all of the
  run (`SatoriSession.RefusedGetsReady`); a client that never sent the right token gets READY if and only if its
  IDENTIFY was refused and the reply arrived (`SatoriSession.ReadyWithoutToken`). docs/src/en/guide/protocols.md
  describes READY as the answer to a successful IDENTIFY; the model follows the code.
- A fingerprint does not cover whether an event is a notice, a request or a meta event. Parsed ones are still told
  apart, because the content that is hashed holds the post type (`OneBotV11.ParsedKindsDiffer`).
- A notice, request or meta object is passed through unchanged exactly when its time and its account id are usable
  integers (`OneBotV11.IdentityIff`).

## Model

| member | source | states |
|---|---|---|
| SatoriEscape.UnescapeIsDecode | crates/ferroq-gateway/src/satori.rs:936-942 | the five replace passes, in their order, read every string as one left-to-right entity decoder does |
| SatoriEscape.EscapesAreMaps | crates/ferroq-gateway/src/satori.rs:930-949 | the three-pass and four-pass escapes are maps applied character by character |
| SatoriEscape.UnescapeInverts | crates/ferroq-gateway/src/satori.rs:930-953 | unescaping undoes both escapes on every string |
| SatoriEscape.UnescapeKeepsWords | crates/ferroq-gateway/src/satori.rs:936-942 | unescaping never builds a plain word that was not already in the input |
| SatoriEscape.EscapeKeepsWords | crates/ferroq-gateway/src/satori.rs:944-949 | escaping an attribute neither hides nor invents an occurrence of a word longer than any entity |
| SatoriScan.ScanIsLossless | crates/ferroq-gateway/src/satori.rs:281-347 | both scanners stop and consume the whole input: the pieces of any string, well formed or not, spell the string |
| SatoriScan.CharStream.TakeWhile | crates/ferroq-gateway/src/satori.rs:436-447 | takes exactly the longest prefix whose characters pass the test |
| SatoriScan.ReadTag | crates/ferroq-gateway/src/satori.rs:319-331 | the tag text is everything before the first closing bracket, and reading goes on after it |
| SatoriScan.ReadEntity | crates/ferroq-gateway/src/satori.rs:334-347 | the raw entity runs through the first semicolon or to the end |
| SatoriScan.ReadValue | crates/ferroq-gateway/src/satori.rs:458-477 | a quoted value ends at its own quote and is unescaped; an unquoted one ends at a space or slash and is not |
| SatoriScan.ReadField | crates/ferroq-gateway/src/satori.rs:440-482 | one attribute, one bare flag, or one unexpected character skipped |
| SatoriScan.ParseAttrs | crates/ferroq-gateway/src/satori.rs:429-485 | the attribute loop computes the map in which later names win |
| SatoriScan.ParseQuoted | crates/ferroq-gateway/src/satori.rs:429-485 | a printed name and quoted value in front of any rest adds exactly that name with the unescaped value |
| SatoriScan.ParseUnquoted | crates/ferroq-gateway/src/satori.rs:467-477 | an unquoted value runs to the next space or slash and is taken as it is |
| SatoriScan.ParseBare | crates/ferroq-gateway/src/satori.rs:478-481 | a bare name is an attribute with an empty value |
| SatoriScan.ParseStray | crates/ferroq-gateway/src/satori.rs:449-452 | a stray equals sign or slash is skipped |
| Text.WhitespaceTable | crates/ferroq-gateway/src/satori.rs:430-437 | the white space skipped is exactly the 25 code points of the Unicode property |
| Text.TrimIs | crates/ferroq-gateway/src/satori.rs:351-351 | trimming takes all white space at both ends and nothing else |
| Text.TrimEndMatchesIs | crates/ferroq-gateway/src/satori.rs:351-351 | all closing slashes go and nothing else |
| SatoriScan.AttrWords | crates/ferroq-gateway/src/satori.rs:429-485 | a plain word inside a parsed attribute value was in the tag text |
| SatoriCodec.SegmentsToElements | crates/ferroq-gateway/src/satori.rs:224-276 | the printing loop writes the elements of all segments in order |
| SatoriCodec.ParseElements | crates/ferroq-gateway/src/satori.rs:281-314 | the parsing loop with its text buffer computes the meaning of the scanned pieces |
| SatoriCodec.RoundTrip | crates/ferroq-gateway/src/satori.rs:224-485 | printing any segment list and parsing it gives its normal form: texts, JSON and XML joined up to the next tag, empty and unknown ones dropped, pokes dropped but still separating, media with the printed source as file and url, replies marked "forward" as forwards, all else unchanged and in order |
| SatoriCodec.ReplyTag | crates/ferroq-gateway/src/satori.rs:410-422 | a printed quote is read back as a reply unless its id contains the forward marker, and then as a forward |
| SatoriCodec.ParsedReply | crates/ferroq-gateway/src/satori.rs:410-422 | no tag parses to a reply whose id contains the forward marker |
| SatoriCodec.ParsedIsCanonical | crates/ferroq-gateway/src/satori.rs:281-426 | what any input parses to has no empty text, media with one source, no marked reply, and no JSON, XML, poke or unknown segment |
| SatoriCodec.ReparseJoins | crates/ferroq-gateway/src/satori.rs:224-485 | for every input string, parse then print then parse is the first parse with adjacent texts joined |
| SatoriCodec.SecondRoundSettles | crates/ferroq-gateway/src/satori.rs:224-485 | after one round more rounds change nothing, for every input string |
| SatoriCodec.RoundTripIdentity | crates/ferroq-gateway/src/satori.rs:224-485 | a list survives the round trip unchanged if and only if every segment is canonical and no two texts are adjacent |
| SatoriCodec.PokeSplitsOnce | crates/ferroq-gateway/src/satori.rs:265-271 | a poke between any two non-empty texts vanishes but keeps them apart for exactly one round |
| SatoriTags.PrintedMedia | crates/ferroq-gateway/src/satori.rs:228-263 | texts are escaped, media are one element with the url before the file as source, unknown segments are nothing |
| SatoriTags.PrintedIds | crates/ferroq-gateway/src/satori.rs:231-260 | mentions, faces, replies and forwards are written in their element forms, a mention of everyone as a type |
| SatoriTags.PrintedPoke | crates/ferroq-gateway/src/satori.rs:265-271 | a poke is written with its type before its id |
| SatoriTags.AttrForm | crates/ferroq-gateway/src/satori.rs:944-949 | an attribute is its key and its value escaped character by character, in double quotes |
| SatoriTags.TagMeaning | crates/ferroq-gateway/src/satori.rs:350-485 | what every tag with a known name means, however its attributes are quoted, ordered, repeated and closed, and whatever letters run on from the name |
| SatoriTags.AtForms | crates/ferroq-gateway/src/satori.rs:353-367 | a mention's type decides before its id when it is "all" or "here", and is ignored otherwise |
| SatoriTags.OtherTag | crates/ferroq-gateway/src/satori.rs:350-426 | a tag whose text starts with none of the six names means nothing |
| SatoriTags.UnclosedTag | crates/ferroq-gateway/src/satori.rs:319-331 | a tag never closed means what it would mean closed |
| SatoriTags.EntityRun | crates/ferroq-gateway/src/satori.rs:300-347 | an ampersand makes everything up to the next semicolon text, tags included |
| OneBotV11.EventToJson | crates/ferroq-gateway/src/onebot_v11.rs:349-398 | inserting the keys one by one builds the printed object |
| OneBotV11.SegmentReparsed | crates/ferroq-gateway/src/onebot_v11.rs:121-215 | every printed segment reads back as itself, except an unknown one, which is dropped |
| OneBotV11.SenderReparsed | crates/ferroq-gateway/src/onebot_v11.rs:218-260 | a printed sender reads back as itself, absent fields included |
| OneBotV11.MessageReparsed | crates/ferroq-gateway/src/onebot_v11.rs:42-97 | parsing a printed message event gives the event back without its unknown segments, whatever the clock says |
| OneBotV11.NumberIdsReadAsText | crates/ferroq-gateway/src/onebot_v11.rs:134-163 | an id sent as an integer reads like the same id sent as decimal text |
| OneBotV11.OtherSpellings | crates/ferroq-gateway/src/onebot_v11.rs:12-118 | message_sent reads like message, and a plain string message like one text segment |
| OneBotV11.AcceptedIff | crates/ferroq-gateway/src/onebot_v11.rs:12-31 | an object is accepted if and only if its post type is one of the five strings |
| OneBotV11.OtherFields | crates/ferroq-gateway/src/onebot_v11.rs:263-344 | notices, requests and meta events carry their own type, sub type, account and time, each with its default when missing or of the wrong type |
| OneBotV11.MessageFieldsRead | crates/ferroq-gateway/src/onebot_v11.rs:42-97 | every plain field of a message is the one of its key, or its default; the font keeps its low 32 bits |
| OneBotV11.SenderFieldsRead | crates/ferroq-gateway/src/onebot_v11.rs:218-260 | every sender field likewise |
| OneBotV11.NoSender | crates/ferroq-gateway/src/onebot_v11.rs:218-260 | without a sender object everything about the sender is empty |
| OneBotV11.BareSegments | crates/ferroq-gateway/src/onebot_v11.rs:121-215 | segments without data have empty fields, and a text without data is no segment |
| OneBotV11.OddIds | crates/ferroq-gateway/src/onebot_v11.rs:134-163 | an id that is neither string nor number reads as zero |
| OneBotV11.DroppedItems | crates/ferroq-gateway/src/onebot_v11.rs:111-118 | exactly the items without a known type, and the texts without a text, are dropped |
| OneBotV11.NoMessage | crates/ferroq-gateway/src/onebot_v11.rs:100-109 | a message that is neither list nor string is empty |
| JsonTree.DecimalMeans | crates/ferroq-gateway/src/onebot_v11.rs:139-139 | the text of a number stands for that number, without leading zeros |
| OneBotV11.ParsedKindsDiffer | crates/ferroq-gateway/src/onebot_v11.rs:12-344 | parsed notices, requests and meta events differ from one another in their content |
| OneBotV11.IdentityIff | crates/ferroq-gateway/src/onebot_v11.rs:263-398 | print after parse is the identity on a notice, request or meta object if and only if time is an in-range integer and self_id is an integer |
| OneBotV11.NormalisesOnce | crates/ferroq-gateway/src/onebot_v11.rs:12-398 | print after parse is idempotent on every accepted object, for any two clock readings |
| HashFeed.LEInjective | crates/ferroq-gateway/src/dedup.rs:176-191 | fixed-width integers are fed injectively |
| HashFeed.StrPrefixFree | crates/ferroq-gateway/src/dedup.rs:178-179 | UTF-8 with its 0xFF terminator (section 1 of RFC 3629) is a prefix-free code on strings |
| HashFeed.NumberPrefixFree | crates/ferroq-gateway/src/dedup.rs:206-217 | the three number forms are told apart and fed prefix-free |
| HashFeed.LEMeans | crates/ferroq-gateway/src/dedup.rs:176-191 | the eight bytes of an integer stand for it, least significant first |
| HashFeed.FeedForms | crates/ferroq-gateway/src/dedup.rs:198-239 | the type bytes, lengths and terminators fed for each kind of tree |
| HashFeed.NumberForms | crates/ferroq-gateway/src/dedup.rs:206-217 | the three forms of a number: signed, unsigned beyond that, and the bits of a double |
| HashFeed.FeedArray | crates/ferroq-gateway/src/dedup.rs:223-229 | an array is its length and its elements in order |
| HashFeed.FeedEntry | crates/ferroq-gateway/src/dedup.rs:230-237 | an object entry is its key before its value |
| JsonTree.DictionaryOrder | crates/ferroq-gateway/src/dedup.rs:233-236 | the key order is that of a dictionary |
| HashFeed.FirstPassForm | crates/ferroq-gateway/src/dedup.rs:176-191 | both passes are fed their fields in the order of the code |
| HashFeed.FeedPrefixFree | crates/ferroq-gateway/src/dedup.rs:195-239 | the bytes fed for JSON trees are a prefix-free code: equal streams mean equal trees and equal remainders |
| HashFeed.HashJsonValue | crates/ferroq-gateway/src/dedup.rs:195-239 | the recursive walk feeds the hasher exactly the tree's code |
| HashFeed.HashItems | crates/ferroq-gateway/src/dedup.rs:223-229 | array elements are fed in order |
| HashFeed.HashFields | crates/ferroq-gateway/src/dedup.rs:230-237 | object entries are fed in key order, each key before its value |
| HashFeed.FirstPassInjective | crates/ferroq-gateway/src/dedup.rs:176-182 | two events feed the first pass the same bytes only if they agree on account, type, sub type, time and content |
| HashFeed.MessageFingerprint | crates/ferroq-gateway/src/dedup.rs:131-136 | for messages, equal fingerprints are exactly equal account and message id |
| HashFeed.OtherFingerprint | crates/ferroq-gateway/src/dedup.rs:165-193 | for two different other events, equal fingerprints are a collision of the 64-bit hash in the first pass and, unless the events differ only in type and sub type, in the second |
| HashFeed.MessageMeetsOther | crates/ferroq-gateway/src/dedup.rs:129-193 | a message shares another event's fingerprint exactly when its ids are that event's two hashes |
| Dedup.DedupFilter.IsDuplicate | crates/ferroq-gateway/src/dedup.rs:73-97 | one critical section updates the map, the sweep time and the two counters as specified |
| Dedup.DedupFilter.Evict | crates/ferroq-gateway/src/dedup.rs:100-116 | a sweep happens only after the interval, and keeps exactly the entries younger than the window |
| Dedup.SweepingIsInvisible | crates/ferroq-gateway/src/dedup.rs:73-116 | with a monotone clock, every answer of every run is that of a filter that never evicts |
| Dedup.DroppedMeaning | crates/ferroq-gateway/src/dedup.rs:73-116 | with a monotone clock, an event is dropped if and only if its fingerprint was let through less than a window ago |
| Dedup.PassesAreApart | crates/ferroq-gateway/src/dedup.rs:73-116 | when readings fall back by at most δ, two successive passes of a fingerprint are at least the window less δ apart |
| Dedup.PassesApartTight | crates/ferroq-gateway/src/dedup.rs:73-116 | that bound is reached by some run, for every window and every δ up to the sweep interval |
| Dedup.FullWindowIff | crates/ferroq-gateway/src/dedup.rs:73-116 | for every window but zero, successive passes are a full window apart in every run if and only if δ is zero |
| Dedup.ConfiguredWindow | crates/ferroq-gateway/src/dedup.rs:56-97 | a filter made for w seconds drops an event if and only if its fingerprint passed less than w * 1,000,000,000 ns before |
| Dedup.ConfiguredMemory | crates/ferroq-gateway/src/dedup.rs:56-116 | and remembers nothing older than w seconds plus the longer of w and ten |
| Dedup.RetainedIsYoung | crates/ferroq-gateway/src/dedup.rs:65-116 | right after an event passes, everything remembered is younger than the window plus the sweep interval |
| Dedup.RetainedIsBounded | crates/ferroq-gateway/src/dedup.rs:65-116 | so the map is no larger than the number of fingerprints that passed in that span |
| Forward.ForwardEvents | crates/ferroq-gateway/src/forward.rs:21-47 | the loop publishes exactly the events the filter lets through, in order, and its counters match |
| Forward.KeptIsPublished | crates/ferroq-gateway/src/forward.rs:28-47 | what one loop publishes is what the run of its arrivals lets through |
| Forward.PassesIffFirst | crates/ferroq-gateway/src/forward.rs:28-47 | when readings fall back by at most δ and copies arrive within the window less δ, an event is dropped if and only if its fingerprint has arrived before |
| Forward.PublishedIsFirstArrivals | crates/ferroq-gateway/src/forward.rs:28-47 | then the bus receives each event at its first arrival |
| Forward.FirstArrivalsOnce | crates/ferroq-gateway/src/forward.rs:28-47 | every event that arrived is there, and none twice |
| Forward.FailoverExactlyOnce | crates/ferroq-gateway/src/adapter/failover.rs:85-108 | for any interleaving of two copies of a stream within the window less δ, the fingerprints published are the stream's, in its order |
| Forward.ForwarderDeliversStream | crates/ferroq-gateway/src/forward.rs:21-47 | the forwarding loop fed by both adapters of a failover pair publishes exactly the original stream of events |
| Stats.StepBalances | crates/ferroq-gateway/src/stats.rs:113-117 | every single counter update of any forwarder keeps the books: totals, per-adapter counts, published and suppressed events and updates in flight |
| Stats.AlwaysBalanced | crates/ferroq-gateway/src/forward.rs:28-47 | so they balance in every interleaving of any number of forwarders |
| Stats.BooksAgreeAtRest | crates/ferroq-gateway/src/stats.rs:108-151 | with no forwarder in the middle of an event, total equals the per-adapter sum, and checked equals forwarded plus suppressed |
| Stats.FilterCounts | crates/ferroq-gateway/src/dedup.rs:73-87 | the filter's counters are the events received and the duplicates found |
| Stats.OwnCount | crates/ferroq-gateway/src/stats.rs:113-117 | an adapter's count is the number of its own events counted, and no other's |
| Stats.OwnEvents | crates/ferroq-gateway/src/forward.rs:28-46 | each new event of an adapter is in its own count or on its way there |
| Stats.PhaseStep | crates/ferroq-gateway/src/forward.rs:28-46 | a forwarder goes through check, total, own count and publication in this order |
| Stats.ForwardersProgress | crates/ferroq-gateway/src/forward.rs:28-46 | no forwarder is ever stuck, and none ends in the middle of an event |
| Stats.ReportAddsUp | crates/ferroq-gateway/src/stats.rs:168-182 | a health report that lists every counted adapter once adds up to the sum of the per-adapter counts |
| Stats.ReportIsOwn | crates/ferroq-gateway/src/stats.rs:168-182 | each line of a report has its own adapter's name and count |
| Stats.ReportMatchesTotal | crates/ferroq-gateway/src/stats.rs:168-201 | at any moment of any run the report differs from the event total by exactly the adapter counts still to be made |
| Stats.RuntimeStats.RecordEventFor | crates/ferroq-gateway/src/stats.rs:113-117 | one more in the total and in this adapter's count, nothing else |
| RateLimiter.RefillIsUnbounded | crates/ferroq-gateway/src/middleware.rs:149-153 | the saturating 32-bit refill equals the unbounded one |
| RateLimiter.TokensConserved | crates/ferroq-gateway/src/middleware.rs:125-173 | tokens left plus requests granted never exceed tokens before plus the rates read at the ticks |
| RateLimiter.WindowBound | crates/ferroq-gateway/src/middleware.rs:125-173 | in any window of any run with reloads, at most the largest burst so far plus the rates read is granted |
| RateLimiter.ReloadTakesEffect | crates/ferroq-gateway/src/middleware.rs:138-173 | a tick adds the rate stored last before its load and caps at the burst stored last before its own |
| RateLimiter.NothingBlocks | crates/ferroq-gateway/src/middleware.rs:145-173 | requests and reloads never wait for the refill or each other |
| RateLimiter.BurstBoundsIff | crates/ferroq-gateway/src/middleware.rs:125-173 | from a moment on every continuation grants at most the burst then configured plus the rates read, if and only if the bucket then holds at most that burst |
| RateLimiter.WithinUntilLowered | crates/ferroq-gateway/src/middleware.rs:138-173 | the bucket and a refill under way stay within the burst until a lower burst is stored |
| RateLimiter.TickRestores | crates/ferroq-gateway/src/middleware.rs:145-154 | a tick whose burst load follows the last store brings the bucket back within the burst |
| RateLimiter.CommitRestoresIff | crates/ferroq-gateway/src/middleware.rs:147-153 | a tick's update makes the burst a bound again for every bucket if and only if the burst it loaded is not above the one configured |
| RateLimiter.LoweredBurstOutlived | crates/ferroq-gateway/src/middleware.rs:166-173 | for every lowering, the new burst is no bound right after the store, nor after a tick that had loaded the old one |
| RateLimiter.SinceFull | crates/ferroq-gateway/src/middleware.rs:138-165 | since its last full moment the bucket has lost nothing to its cap |
| RateLimiter.GreedyIsOptimal | crates/ferroq-gateway/src/middleware.rs:138-165 | with fixed parameters, no schedule within burst plus rate times ticks in every window admits more by any prefix |
| RateLimiter.GreedyIsWithinLimits | crates/ferroq-gateway/src/middleware.rs:138-165 | the bucket's own choice is one of those schedules |
| RateLimiter.FixedRunIsBucket | crates/ferroq-gateway/src/middleware.rs:138-165 | without reloads, interleaved loads, commits and acquires hold that bucket's tokens and grant what it admits |
| RateLimiter.RateLimiter.TryAcquire | crates/ferroq-gateway/src/middleware.rs:159-165 | takes a token exactly when there is one |
| Lagrange.AlwaysInv | crates/ferroq-gateway/src/adapter/lagrange.rs:368-549 | in every interleaving of fewer than 2^64 calls: fresh numbers, every entry under its call's echo, every answer bearing its call's echo |
| Lagrange.CorrelatedCalls | crates/ferroq-gateway/src/adapter/lagrange.rs:440-549 | all calls have different echoes, and a call succeeds only with a response bearing its own |
| Lagrange.EntryOwners | crates/ferroq-gateway/src/adapter/lagrange.rs:497-549 | every waiting call has its entry; any other entry belongs to a timeout in progress, a failed send or a departed caller |
| Lagrange.SuccessWasReceived | crates/ferroq-gateway/src/adapter/lagrange.rs:368-411 | a successful call's response really arrived, while that call was waiting |
| Lagrange.OutcomeIff | crates/ferroq-gateway/src/adapter/lagrange.rs:497-549 | in every run, a call has one of the seven outcomes if and only if the step that causes it has been taken |
| Lagrange.AnsweredCallSucceeds | crates/ferroq-gateway/src/adapter/lagrange.rs:400-534 | a response naming a waiting call makes the call return that response, unless its caller goes away first |
| Lagrange.DroppedIff | crates/ferroq-gateway/src/adapter/lagrange.rs:472-537 | a call finishes with a dropped channel if and only if a disconnect took its sender while it waited |
| Lagrange.ExpiredUntilCleanup | crates/ferroq-gateway/src/adapter/lagrange.rs:533-547 | a call whose time is up stays so until it has removed its entry |
| Lagrange.ServedWhileConnected | crates/ferroq-gateway/src/adapter/lagrange.rs:507-529 | a call submitted after a connection is made, and before anything breaks it, waits for its response |
| Lagrange.RefusedUntilConnected | crates/ferroq-gateway/src/adapter/lagrange.rs:510-515 | after a break other than the writer's, every call is refused until a connection is made again |
| Lagrange.WriterWhenConnected | crates/ferroq-gateway/src/adapter/lagrange.rs:519-528 | a connected adapter has a writer channel, so no call ever fails for want of one |
| Lagrange.CallsProgress | crates/ferroq-gateway/src/adapter/lagrange.rs:497-549 | no unfinished call is ever stuck |
| Lagrange.FinishesOnce | crates/ferroq-gateway/src/adapter/lagrange.rs:497-549 | an outcome, once there, never changes |
| Lagrange.LateResponse | crates/ferroq-gateway/src/adapter/lagrange.rs:400-411 | late or unknown responses change no call, and without an entry nothing at all |
| Lagrange.ResponseReachesCaller | crates/ferroq-gateway/src/adapter/lagrange.rs:400-411 | a response naming a waiting call reaches that call, removes its entry, and changes no other call |
| Lagrange.EchoForms | crates/ferroq-gateway/src/adapter/lagrange.rs:369-382 | an echo that comes back as a number names the same call as the string |
| Lagrange.FirstEchoes | crates/ferroq-gateway/src/adapter/lagrange.rs:98-98 | the first two echoes are "1" and "2" |
| Lagrange.DisconnectReleasesAll | crates/ferroq-gateway/src/adapter/lagrange.rs:472-495 | after a disconnect nothing is pending, every waiting call is told and no other call is touched |
| Lagrange.FirstSelfIdSticks | crates/ferroq-gateway/src/adapter/lagrange.rs:414-437 | the account id is the first one an event reported, and never changes |
| Lagrange.SelfIdSource | crates/ferroq-gateway/src/adapter/lagrange.rs:414-437 | a known account id was reported by an event, when none was known |
| Lagrange.SelfIdKnownIff | crates/ferroq-gateway/src/adapter/lagrange.rs:414-437 | the account id is known if and only if an event has been handled |
| Lagrange.SubmitLeaksIff | crates/ferroq-gateway/src/adapter/lagrange.rs:507-529 | a submitted call finishes with its entry still pending if and only if the adapter is connected and the writer channel closed |
| Lagrange.LeakBegins | crates/ferroq-gateway/src/adapter/lagrange.rs:497-549 | a finished call's entry is left behind by exactly two steps: such a submission, or a waiting caller going away |
| Lagrange.LeakLasts | crates/ferroq-gateway/src/adapter/lagrange.rs:368-549 | in every run such an entry is there until, and only until, a disconnect or a response that names it |
| Lagrange.FailedSendLeaks | crates/ferroq-gateway/src/adapter/lagrange.rs:517-522 | a run in which it happens |
| Lagrange.LagrangeAdapter.NextEcho | crates/ferroq-gateway/src/adapter/lagrange.rs:440-444 | hands out the counter's old value and advances it modulo 2^64 |
| Lagrange.LagrangeAdapter.SubmitCall | crates/ferroq-gateway/src/adapter/lagrange.rs:507-529 | registers and sends under one lock, with the three ways to fail |
| Lagrange.LagrangeAdapter.HandleApiResponse | crates/ferroq-gateway/src/adapter/lagrange.rs:368-411 | resolves the entry the echo names, if any |
| Lagrange.LagrangeAdapter.HandleEvent | crates/ferroq-gateway/src/adapter/lagrange.rs:414-437 | learns the account id only once |
| OneBotSession.PermitsConserved | crates/ferroq-gateway/src/server/onebot_v11.rs:281-372 | free permits and running tasks make up the limit at every step of every run |
| OneBotSession.RejectedOnlyWhenFull | crates/ferroq-gateway/src/server/onebot_v11.rs:338-353 | a request is rejected if and only if the limit is running, and otherwise gets a task |
| OneBotSession.OneResponseWithItsEcho | crates/ferroq-gateway/src/server/onebot_v11.rs:334-372 | each request has at most one response on the wire, carrying that request's echo |
| OneBotSession.ResponseSource | crates/ferroq-gateway/src/server/onebot_v11.rs:338-372 | every response is the adapter's answer to that request with only the echo replaced, its error, or its rejection |
| OneBotSession.AnsweredWhileOpen | crates/ferroq-gateway/src/server/onebot_v11.rs:334-372 | while the writer lives, a finished request has its response written or queued |
| OneBotSession.EventsConserved | crates/ferroq-gateway/src/server/onebot_v11.rs:281-320 | published events are written, queued, dropped, skipped by lag, lost with the channel or unread, and the queue stays within its capacity |
| OneBotSession.EventsInOrder | crates/ferroq-gateway/src/server/onebot_v11.rs:281-320 | what is written is an in-order selection of what was published |
| OneBotSession.NothingMissing | crates/ferroq-gateway/src/server/onebot_v11.rs:281-320 | a client that never lags nor fills its queue gets every event |
| OneBotSession.CountersCount | crates/ferroq-gateway/src/server/onebot_v11.rs:281-372 | the counters of published, read, written, requested and rejected are the numbers of those steps |
| OneBotSession.PermitsCount | crates/ferroq-gateway/src/server/onebot_v11.rs:338-367 | free permits are the limit less the requests that got one plus the tasks that ended |
| OneBotSession.TaskIff | crates/ferroq-gateway/src/server/onebot_v11.rs:354-367 | a request has a task from when it got a permit until its response is handed over |
| OneBotSession.AnsweredIff | crates/ferroq-gateway/src/server/onebot_v11.rs:357-366 | it has an answer from when the adapter gave one |
| OneBotSession.RejectingIff | crates/ferroq-gateway/src/server/onebot_v11.rs:338-351 | the receive loop is held up by a request exactly from its lack of a permit to its rejection |
| OneBotSession.EchoesRecorded | crates/ferroq-gateway/src/server/onebot_v11.rs:334-334 | the echo kept for a request is the one it came with |
| OneBotSession.ClosedIff | crates/ferroq-gateway/src/server/onebot_v11.rs:287-376 | the session and its queue are closed exactly since the step that closed them |
| OneBotSession.SilentOnceClosed | crates/ferroq-gateway/src/server/onebot_v11.rs:287-376 | nothing is written after the writer is gone |
| OneBotSession.NothingStuck | crates/ferroq-gateway/src/server/onebot_v11.rs:281-376 | events never wait for the queue, and loop, tasks and writer can always go on |
| OneBotSession.Session.PushTurn | crates/ferroq-gateway/src/server/onebot_v11.rs:299-320 | one turn of the push loop |
| OneBotSession.Session.HandleRequest | crates/ferroq-gateway/src/server/onebot_v11.rs:334-355 | a parsed request takes a permit and a task, or waits to be rejected |
| OneBotSession.Session.Reject | crates/ferroq-gateway/src/server/onebot_v11.rs:340-351 | the rejection carries the request's echo and goes through the queue |
| OneBotSession.Session.TaskReturns | crates/ferroq-gateway/src/server/onebot_v11.rs:357-364 | the adapter's answer with the client's echo put back |
| OneBotSession.Session.WriterTurn | crates/ferroq-gateway/src/server/onebot_v11.rs:288-294 | the oldest item is written, or the writer ends |
| OneBotSession.ReverseLoop | crates/ferroq-gateway/src/server/onebot_v11.rs:395-519 | after every attempt the pause is 5 s doubled once for each attempt since the last session, at most 120 s |
| OneBotSession.StreakMeaning | crates/ferroq-gateway/src/server/onebot_v11.rs:395-519 | attempts are counted from the last session, or from the first attempt |
| OneBotSession.PauseTable | crates/ferroq-gateway/src/server/onebot_v11.rs:395-398 | the pauses are 5, 10, 20, 40, 80 and then 120 seconds |
| SatoriSession.GaugeCountsOpenSessions | crates/ferroq-gateway/src/server/satori.rs:219-391 | the gauge of active connections is the number of open sessions at every step, on every exit path |
| SatoriSession.SequenceNumbers | crates/ferroq-gateway/src/server/satori.rs:48-51 | numbers written on one connection strictly increase, and two connections never share one |
| SatoriSession.NumbersConserved | crates/ferroq-gateway/src/server/satori.rs:330-352 | every number a connection takes is in its log, held, dropped at a full queue or lost with the writer, and without drops and losses the log is those numbers in order |
| SatoriSession.NothingMissing | crates/ferroq-gateway/src/server/satori.rs:330-352 | a client whose queue never fills and whose writer lives has every event it took a number for |
| SatoriSession.NothingLostWhileOpen | crates/ferroq-gateway/src/server/satori.rs:318-352 | nothing is lost while the writer lives |
| SatoriSession.EveryNumberSettled | crates/ferroq-gateway/src/server/satori.rs:333-345 | every attempt to queue settles one number taken before it |
| SatoriSession.SnCounts | crates/ferroq-gateway/src/server/satori.rs:48-51 | the counter is the number of events taken: numbers are handed out without gaps |
| SatoriSession.WritesCounted | crates/ferroq-gateway/src/server/satori.rs:318-325 | each write, READY and refusal that arrives puts one frame on the wire, and nothing else does |
| SatoriSession.HandshakeIff | crates/ferroq-gateway/src/server/satori.rs:219-278 | a client is in its handshake from its connection to its IDENTIFY or the end of the wait |
| SatoriSession.AcceptedIff | crates/ferroq-gateway/src/server/satori.rs:242-304 | it is accepted from the right IDENTIFY until READY is sent or fails |
| SatoriSession.LiveIff | crates/ferroq-gateway/src/server/satori.rs:284-391 | it is live from a READY that arrived until it closes |
| SatoriSession.OpenIff | crates/ferroq-gateway/src/server/satori.rs:314-391 | its queue takes frames from then until the writer fails or the session closes |
| SatoriSession.OpenIsPushing | crates/ferroq-gateway/src/server/satori.rs:327-352 | while its queue takes frames its push task runs |
| SatoriSession.TokenIsLastStored | crates/ferroq-gateway/src/server/satori.rs:253-254 | the token asked for is the last one stored |
| SatoriSession.SessionsProgress | crates/ferroq-gateway/src/server/satori.rs:219-391 | no session is ever stuck |
| SatoriSession.PastHandshakeIdentified | crates/ferroq-gateway/src/server/satori.rs:227-304 | a session past its handshake sent IDENTIFY with the token required at that moment |
| SatoriSession.NothingBeforeIdentify | crates/ferroq-gateway/src/server/satori.rs:219-391 | READY is the first frame, and no event or pong is written before such an IDENTIFY |
| SatoriSession.PingsAnswered | crates/ferroq-gateway/src/server/satori.rs:355-385 | while its writer lives, a connection has one pong written or queued for each ping |
| SatoriSession.ReadySource | crates/ferroq-gateway/src/server/satori.rs:242-304 | READY is written only by an accepted handshake or by a refusal whose reply arrives |
| SatoriSession.OneIdentify | crates/ferroq-gateway/src/server/satori.rs:227-278 | a connection is judged by its first IDENTIFY only |
| SatoriSession.RefusedGetsReady | crates/ferroq-gateway/src/server/satori.rs:254-268 | in every run, a refused client has been sent at most one READY and is never sent anything more |
| SatoriSession.ReadyWithoutToken | crates/ferroq-gateway/src/server/satori.rs:242-304 | a client that never sent the required token gets READY if and only if its IDENTIFY was refused and the reply arrived |
| SatoriSession.Server.HandleIdentify | crates/ferroq-gateway/src/server/satori.rs:244-268 | accepts the right token or any when none is configured, and ends the session otherwise |
| SatoriSession.Server.GreetWithReady | crates/ferroq-gateway/src/server/satori.rs:286-304 | READY goes out and the session becomes live, or it ends |
| SatoriSession.Server.PushTurn | crates/ferroq-gateway/src/server/satori.rs:330-352 | a number is used up even when the event is dropped |
| SatoriSession.Server.HandlePing | crates/ferroq-gateway/src/server/satori.rs:366-376 | a ping queues one pong |
| SatoriSession.Server.WriterTurn | crates/ferroq-gateway/src/server/satori.rs:319-325 | the oldest frame is written, or the writer ends |
| Router.RebuiltIsSound | crates/ferroq-gateway/src/router.rs:72-79 | the rebuilt table has only indices in range, each of an adapter that reported the account, and a route for every known account |
| Router.LastOneWins | crates/ferroq-gateway/src/router.rs:72-79 | when several adapters reported one account, the last of them has it |
| Router.UnknownNameChangesNothing | crates/ferroq-gateway/src/router.rs:67-69 | a name that is not registered cannot be unregistered |
| Router.LookupFindsAdapter | crates/ferroq-gateway/src/router.rs:103-131 | with a sound table a lookup never fails while adapters exist, and finds an adapter of that account, else the first |
| Router.RegisterRoutes | crates/ferroq-gateway/src/router.rs:33-50 | registering routes the new account to the new adapter and moves no other account and not the default |
| Router.UnregisterReroutes | crates/ferroq-gateway/src/router.rs:67-92 | after the indices shift, every other uniquely known account still reaches its adapter |
| Router.ApiRouter.Register | crates/ferroq-gateway/src/router.rs:33-50 | appends, routes the account if known, and sets the default if there was none |
| Router.ApiRouter.Unregister | crates/ferroq-gateway/src/router.rs:67-92 | removes the first adapter with the name and rebuilds the table, or changes nothing |
| Router.ApiRouter.RouteNamed | crates/ferroq-gateway/src/router.rs:103-127 | picks the routed, else the default adapter, with both error cases |
| AdapterManager.LiveNamesAreRouterNames | crates/ferroq-gateway/src/adapter_manager.rs:87-173 | in every run, live names are the router's names without repeats, and the default is the first adapter exactly when there is one |
| AdapterManager.LiveIff | crates/ferroq-gateway/src/adapter_manager.rs:87-173 | a name is live exactly from when it was added until it is removed, and a pass goes on exactly from its begin to its end |
| AdapterManager.AddedIsRouted | crates/ferroq-gateway/src/adapter_manager.rs:129-141 | an adapter added with its account known is routed at once |
| AdapterManager.LearnedStays | crates/ferroq-gateway/src/runtime.rs:182-187 | what an adapter has learned it keeps |
| AdapterManager.LookupNeverFails | crates/ferroq-gateway/src/router.rs:103-131 | from the start or the last rebuilt table on, while removals leave every adapter of a pass its index, a request never fails out of bounds while adapters are live, and a routed account reaches an adapter that reported it |
| AdapterManager.PassCovers | crates/ferroq-gateway/src/runtime.rs:175-191 | in a pass with only such removals, every registered adapter it began with is still to be looked at or its account routed |
| AdapterManager.RefreshRoutes | crates/ferroq-gateway/src/runtime.rs:175-191 | a whole pass with only such removals routes every uniquely known account to its adapter, whatever earlier passes did and whatever is added or learned meanwhile |
| AdapterManager.RefreshRightIff | crates/ferroq-gateway/src/runtime.rs:178-191 | when a pass comes to an adapter, its account is routed to it if and only if every adapter removed since the pass began stood behind it |
| AdapterManager.StaleOutcome | crates/ferroq-gateway/src/runtime.rs:178-191 | after a removal during a pass: the adapter itself, its neighbour, an index past the end or an empty router, each exactly when |
| AdapterManager.RemoveSound | crates/ferroq-gateway/src/router.rs:67-92 | a removal leaves a sound table whatever the table was before |
| AdapterManager.RefreshAllKeeps | crates/ferroq-gateway/src/runtime.rs:178-191 | an uninterrupted pass keeps the invariants, and no route is lost |
| AdapterManager.DisturbedPassBreaks | crates/ferroq-gateway/src/runtime.rs:178-191 | a run in which a removal during a pass leaves an index out of bounds |
| AdapterManager.Manager.AddAdapter | crates/ferroq-gateway/src/adapter_manager.rs:87-145 | refuses a live name, else registers the adapter and makes it live |
| AdapterManager.Manager.RemoveAdapter | crates/ferroq-gateway/src/adapter_manager.rs:151-173 | removes the name from the live map and the router, or fails |
| AdapterManager.Manager.RefreshRoutesNow | crates/ferroq-gateway/src/runtime.rs:178-191 | the loop over the live adapters is the uninterrupted pass |

## Left out

- Sockets, HTTP, TLS, JSON text, logging, configuration, the command line and the dashboard: input and output. The WebSocket peer's behaviour is the choice of the next step.
- The internals of tokio: an mpsc send, a oneshot send, a semaphore acquire and a broadcast receive are single steps with the behaviour their documentation gives. A push task is aborted only where it awaits.
- Time: the clock is a parameter or the choice of the next step. Sub-second parts of event times are dropped by the code and are not in the model; the clock used when an event has no time is taken to be within the range the date library holds.
- The hash function: fingerprints are proved over any function from byte streams to 64-bit words; that one is collision-free is not claimed.
- Event identifiers (UUIDs), which no modelled code reads.
- SQLite storage, plugins, OneBot v12, the Satori API tables and event objects, the official adapter, error texts beyond those in the contracts, Prometheus text, token checks of the HTTP routes: input and output, foreign calls, or one branch each.
- The failover adapter beyond its shared event channel, and the jittered floating-point backoff of the Lagrange reconnect loop.
- Integer widths: the echo counter, the sweep time, the token counters, the JSON integers and the 32-bit truncations are modelled with their widths; event counters and Satori sequence numbers are unbounded, and arrays and objects fed to the hasher have fewer than 2^64 members.
- Lagrange.AlwaysInv: holds below 2^64 calls, because the echo counter wraps there.
- Lagrange.LagrangeAdapter.HandleApiResponse: removing the entry and handing over the response is one step, because nothing else can look at the removed sender in between; the response's other fields are one opaque value.
- The connection steps of the Lagrange adapter (connecting, reader exit, monitor, reconnect, writer failure) are steps of the state machine only, allowed more often than the code does them: the code's monitor ends after its first reconnection.
- Events counted by several forwarders at once (Stats) are modelled on values, one atomic update a step; the counter object has one whole record call as one method.
- The sessions' tasks run as methods of one object, one turn each; the await points between them are the state machine's interleaving, and several writers waiting for room in a full queue may be served in any order.
- Adding and removing an adapter are one step each, adapters configured at startup have different names, and a refresh pass reads the live list and the router's names in one step. The state after shutdown, which drains the live map without unregistering, is not modelled.
- AdapterManager.LookupNeverFails: needs that an adapter removed during a pass stood behind every one the pass has still to look at; without that it is false, and `AdapterManager.RefreshRightIff` and `AdapterManager.StaleOutcome` say what happens.
- AdapterManager.Manager.AddAdapter: checks for the name and registers the adapter in one step, so two concurrent additions of one name are not covered.
- The event bus has no receivers of its own in the forwarding model: publishing appends to a list, and what a receiver gets is the session model's part.
- A health report reads the counters one after another; `Stats.ReportMatchesTotal` is about their values at one moment.
- The reverse WebSocket connection runs the same session as the forward one, apart from the invalid request, which it also ignores; only its backoff is modelled on its own.
- API call counters and stored-message counters, which are incremented and read only.
