# Media-group aggregator of the Telegram operator dashboard

The dashboard relays messages between a Telegram bot and its users. When a
user sends several photos, videos, voice notes or gifs at once, Telegram
delivers them as separate messages that share a `media_group_id`, with no
signal for the last one. The inbound-message handler collects them in an
in-memory cache keyed by that id. Every fragment it adds schedules a
completion check 1.5 seconds later. The check saves one consolidated log row
if the group still holds exactly the number of URLs it held when the check
was scheduled. A background sweep drops groups whose last fragment is more
than 20 seconds old.

This project models that aggregator and the small pure rules around it:

- `wrappers.dfy` — `Option` and `Result`.
- `messages.dfy` (module `Messages`) — which media kind a message carries
  (photo, then video, voice, audio, animation), whether it goes into the
  aggregator, how a Bot API file path becomes a URL, the group labels and
  the single-item prefixes, and newline joining with its inverse.
- `media_groups.dfy` (module `MediaGroups`) — the cache as
  `map<GroupId, Group>`, the specification functions of the three
  operations (`AppendFragment`, `CheckStep`, `Swept`), the first loop of the
  sweep (`CollectExpired`), and the class `Aggregator`. Its two fields are
  the cache and the message log. Its methods are `Append`,
  `CheckCompletion`, `Sweep` and `HandleUserMessage`, each proved against
  those functions.
- `media_group_traces.dfy` (module `MediaGroupTraces`) — runs of events
  (fragment arrivals, completion checks, sweeps) and the properties runs
  guarantee. Fragments of different groups never mix. A settled group is
  flushed exactly once, with its URLs in arrival order. Checks for a
  flushed or reaped group do nothing. Three concrete scenarios are also
  proved.
- `uploads.dfy` (module `Uploads`) — the loop of the chat-send endpoint
  that sorts uploaded files into gif, image, video and audio batches. It
  refuses the request for an image over 20 MB or another file over 50 MB,
  and never size-checks a gif.

Time is an integer number of seconds given by the caller as `now`. The
1.5 second delay and the 10 second sweep period become the caller's choice
of when to call `CheckCompletion` and `Sweep`. The message log is an
abstract sequence of `(user, sender, text)` rows. It stands for
`save_message`. The Bot API's `get_file` is an input: the file path it
returned. The bot token is a parameter.

The model covers these functions as written, whatever the wiring around them
does. As wired in api.py, the sweep task is created on the module-level event
loop (api.py:235-236, 257-258), while the bot runs on a fresh loop
(api.py:765), so the sweep may never run. No handler is registered for
animations (api.py:440-444), so gif fragments may never reach the handler.

The model follows the code where one might expect otherwise:

- A fragment whose kind differs from its group's kind is appended. It is
  not rejected. The group keeps its first kind (`ScenarioMixedKinds`).
- There is one timestamp per group. It is refreshed on every append, and the
  sweep measures from it. There is no separate creation time.
- There is no per-key locking. Every operation is one atomic step.

## Model

| member | source | states |
|---|---|---|
| `Messages.Classify` | api.py:283-299 | The chosen kind is carried by the message and no carried kind ranks before it (photo > video > voice > audio > animation); its file id is that attachment's (the largest photo size); no kind at all exactly when the message carries none. |
| `Messages.EntersAggregator` | api.py:301 | Only messages with a non-empty group id enter, and their kind is in the label map's domain. A grouped photo, video or voice always enters, and so does a grouped gif without audio. Audio whose message has no photo, video or voice never enters, even with an animation beside it. A message without media never enters. |
| `Messages.ResolveUrl` | api.py:312-315 | The URL always starts with "http" and ends with the file path; a path starting with "http" is returned unchanged, any other is appended to the bot's file base URL. |
| `Messages.ResolveUrlIdempotent` | api.py:312-315 | Resolving an already resolved URL changes nothing. |
| `Messages.SinglePrefix` | api.py:336-364 | Defines the tag written before the URL of a single-item entry: "[image]", "[video]", "[voice]", "[audio]" or "[gif]"; each is a bracketed tag without newlines. |
| `Messages.GroupLabel` | api.py:322 | Defines the first line of a consolidated entry for the four groupable kinds: "[images]", "[videos]", "[voices]", "[gifs]"; each is a bracketed plural tag without newlines. |
| `Messages.GroupLabelIsPlural` | api.py:322 | Each consolidated label is the plural of the single-item prefix of its kind ("[image]" / "[images]", …). |
| `Messages.SplitLinesPrefix` | api.py:323 | Splitting a newline-free line followed by more text puts the line in front of the first piece and leaves the others. |
| `Messages.SplitJoin` | api.py:323 | Newline-joining a non-empty list of newline-free items and splitting at newlines returns the list. |
| `Messages.ConsolidatedText` | api.py:322-323 | Defines the flushed text: the label, a newline, then the newline-joined URLs; the label line always comes first. |
| `Messages.ConsolidatedTextLines` | api.py:322-323 | The consolidated text reads back as the label line followed by the group's URLs in order. |
| `Messages.SingleItemText` | api.py:331-367 | A message outside the aggregator saves its kind's prefix followed by the resolved URL if it carries media, else its text if non-empty, else nothing. |
| `MediaGroups.AppendFragment` | api.py:302-317 | An unseen id gets a group owned by the fragment's user with the fragment's kind; an existing group keeps owner and kind; the URL goes at the end of the previous media; the timestamp becomes now; no other group changes; the cache stays well formed. |
| `MediaGroups.FlushRecord` | api.py:323 | The consolidated row is saved for the group's owner with sender "user". |
| `MediaGroups.CheckStep` | api.py:320-325 | If the group is present with exactly the expected count, one row is appended to the log and exactly that group is removed, all others unchanged; otherwise the state is unchanged. |
| `MediaGroups.Swept` | api.py:243-251 | Exactly the groups with now - timestamp > 20 (strict) are removed; every other group stays with its contents. |
| `MediaGroups.CollectExpired` | api.py:245-248 | The collected list holds exactly the expired group ids, each once. |
| `MediaGroups.Aggregator.constructor` | api.py:239 | The cache and the log start empty. |
| `MediaGroups.Aggregator.Append` | api.py:302-317 | The new cache is AppendFragment of the old one, the log is unchanged, and the returned count (the scheduled check's expected count) is the group's new URL count, one more than before. |
| `MediaGroups.Aggregator.CheckCompletion` | api.py:318-325 | The new cache and log are CheckStep of the old ones. |
| `MediaGroups.Aggregator.Sweep` | api.py:242-251 | The new cache is Swept of the old one and the log is unchanged; the deletion loop is proved to delete only ids still present. |
| `MediaGroups.Aggregator.HandleUserMessage` | api.py:263-367 | No sender: nothing changes. A message for the aggregator appends its resolved URL under its group id and schedules a check for the new count. Any other message leaves the cache alone and logs its single-item text, if there is one. |
| `MediaGroupTraces.Step` | api.py:301-325 | One event keeps the cache well formed and appends at most one row to the log. |
| `MediaGroupTraces.Run` | api.py:301-325 | Any run of events keeps the cache well formed and the log only grows. |
| `MediaGroupTraces.RunConcat` | api.py:301-325 | Running two event lists one after the other is running their concatenation. |
| `MediaGroupTraces.FragmentsMembership` | api.py:302-310 | After a run of fragments a group is present exactly when it was before or received a fragment; nothing is logged. |
| `MediaGroupTraces.FragmentsAccumulate` | api.py:316 | Fragments interleaved across groups never mix: each group's media is its earlier media followed by its own fragments' URLs in arrival order. |
| `MediaGroupTraces.FragmentsKeepOwnerAndKind` | api.py:302-310 | Over any run of fragments an existing group keeps its owner and kind; a new group takes both from its first fragment, whatever later fragments carry. |
| `MediaGroupTraces.FragmentsLeaveOthersAlone` | api.py:302-317 | A group receiving no fragment in the run is left exactly as it was. |
| `MediaGroupTraces.UrlsForBurst` | api.py:316 | In a burst of fragments for one group, that group's URLs are the fragments' URLs in order and other groups get none. |
| `MediaGroupTraces.BurstBuildsGroup` | api.py:302-317 | A burst of fragments for a new id adds exactly that group, owned by the first fragment's user with its kind and all the burst's URLs. |
| `MediaGroupTraces.BurstThenCheckFlushesOnce` | api.py:318-325 | A burst for a new group followed by the check with the final count logs exactly one row for the owner, with the first fragment's label and all URLs in arrival order, and restores the cache. |
| `MediaGroupTraces.InterleavedRunsAsBurst` | api.py:317-321 | When fragment k's check fires right after fragment k+1 arrives (f1, f2, c1, f3, c2, …, fN, c(N-1)), every one of those checks is a no-op: the run ends where the bare burst ends. |
| `MediaGroupTraces.InterleavedChecksFlushOnce` | api.py:317-325 | For any N ≥ 1, N fragments of a new group with their checks interleaved as above, then the last one's check: exactly one row is logged, holding the first fragment's label and all N URLs in arrival order, and the cache ends as before the burst. |
| `MediaGroupTraces.StaleChecksAreNoops` | api.py:320-321 | Checks with counts 1 to n, run while the group holds more than n URLs, change nothing. |
| `MediaGroupTraces.BurstThenStaleChecks` | api.py:317-321 | After a burst of N fragments, the checks the first N - 1 fragments scheduled change nothing. |
| `MediaGroupTraces.BurstThenAllChecksFlushOnce` | api.py:317-325 | For any N ≥ 1, N fragments of a new group followed by all N of their checks in scheduling order: exactly one row is logged, with the first fragment's label and all N URLs in arrival order, and the cache ends as before the burst. |
| `MediaGroupTraces.SupersededCheckIsNoop` | api.py:318-321 | A check scheduled by an earlier fragment of a burst, firing after the burst, changes nothing. |
| `MediaGroupTraces.AbsentGroupIgnoresChecks` | api.py:320-325 | While a group is absent and gets no fragment, it stays absent and every check for it is a no-op: the run equals the run without those checks. |
| `MediaGroupTraces.FlushThenChecksAreNoops` | api.py:320-325 | After a flush, later checks for the same id do nothing until a new fragment arrives: at most one flush per group lifetime. |
| `MediaGroupTraces.ReapThenChecksAreNoops` | api.py:246-251 | A reaped group is dropped without a row and no later check flushes it. |
| `MediaGroupTraces.SweepLaterKeepsLess` | api.py:247 | A later sweep keeps no group that an earlier sweep would remove. |
| `MediaGroupTraces.SweepIdempotent` | api.py:247 | Sweeping twice at the same time equals sweeping once. |
| `MediaGroupTraces.ScenarioThreeImages` | api.py:301-328 | Three images with interleaved checks carrying the counts seen at scheduling: only the last check flushes, once, "[images]" then a, b, c; the cache ends empty. |
| `MediaGroupTraces.ScenarioAbandonedGroup` | api.py:240-251 | A lone fragment at time 0 survives a sweep at 20 and is dropped, unlogged, at 21. |
| `MediaGroupTraces.ScenarioMixedKinds` | api.py:302-316 | An image then a video under one id: the video's URL is appended and the group stays an image group. |
| `Uploads.Decide` | api.py:528-542 | A gif goes to the gif batch whatever its size. Any other image over 20 MB is refused as an image. Any other file over 50 MB is refused. Otherwise an image goes to the image batch, a video to the video batch and an audio file to the audio batch, and any other type joins no batch. Each of these holds in both directions. |
| `Uploads.Buckets.With` | api.py:529-542 | Adding a file name extends exactly its batch at the end. |
| `Uploads.RejectionMessage` | api.py:530-533 | Defines the error text for a refused file: "Image <name> is too large. Maximum size is 20MB." or "File <name> is too large. Maximum size is 50MB."; the refused file's name follows the first word. |
| `Uploads.MajorTypesExclusive` | api.py:537-541 | No mimetype is two of image/*, video/*, audio/*. |
| `Uploads.Route` | api.py:521-542 | Defines the outcome of the loop: the four batches in upload order, or the first refusal; the lemmas below characterise it. |
| `Uploads.RouteSize` | api.py:528-542 | An accepted request's batches hold at most one name per uploaded file. |
| `Uploads.RefusalSticks` | api.py:530-533 | A refusal among the first files is the outcome of the whole request. |
| `Uploads.RouteLast` | api.py:521-542 | A request is accepted exactly when its files before the last are accepted and the last file is. |
| `Uploads.RouteAccepted` | api.py:521-533 | A request is accepted exactly when no file is refused. |
| `Uploads.RouteBatches` | api.py:521-542 | An accepted request's batches hold exactly the names of the files routed to them, in upload order. |
| `Uploads.AcceptedSizes` | api.py:519-533 | In an accepted request no non-gif image exceeds 20 MB and no non-gif file exceeds 50 MB. |
| `Uploads.RouteRefused` | api.py:530-533 | A refused request carries the refusal of its first refused file; all earlier files were accepted. |
| `Uploads.RefusalMessageNamesFile` | api.py:528-533 | A refused request's error text names a file of the request that the size rules refuse. |
| `Uploads.RouteUploads` | api.py:513-542 | The loop's outcome is Route of the files: the first refusal, or the four batches. |

## Left out

- Database helpers, Flask routes and the chat-send text part (api.py:50-231, 485-512, 543-737): SQLite and HTTP I/O. `save_message` is an append to the abstract log.
- Socket.IO emits, Telegram `Bot`/`ApplicationBuilder` calls, the pyrogram handlers (api.py:369-482): network side effects. The per-batch sending after routing (api.py:543-682) is left out for the same reason. That includes the video and audio branches that build URLs without the "http" test.
- Registering the user and fetching their profile photo at the start of the handler (api.py:264-279): database and network I/O. Only the `user is None` early return is modelled.
- `asyncio.sleep`, task creation, the event loop and the cleanup task start-up (api.py:252-261, 318-319, 327-328): the caller decides when each method runs.
- Interleavings at await points. The source stores a new group before awaiting `get_file` (api.py:310-311). For a moment the group holds no URLs. If the lookup fails, the group holds no URLs until a later fragment of the same id appends to it, and it keeps the failed fragment's kind and owner; with no later fragment it stays until swept. The model treats create-and-append as one step, so every stored group has at least one URL.
- Float timestamps from `time.time()`: time is integer seconds.
- The order in which the sweep visits groups (dict insertion order): only which groups are removed is modelled.
- Temporary files in chat-send (api.py:529, 534-538, 677-682): filesystem I/O. Batches hold file names instead of opened files.
- The gif branch as written opens `temp_<name>` (api.py:529) before any file is saved under that name (api.py:535). For a fresh upload that `open` raises, so the request fails before the gif is batched. `Uploads.Decide` models the evident intent: a gif joins the gif batch whatever its size.
- Reading the request's file list and each file's size by seeking (api.py:487-492, 525-527): request parsing. Each upload is given as name, mimetype and size.
- bot.py: Telegram handlers with nothing to compute.
