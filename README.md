# Podcast feed ingest: a Dafny model

This project models the core of a podcast ingest script (`features/rss_ingest.py`): turning a
user-supplied locator into a feed URL, and the per-episode decision of how to obtain a transcript.

- **Feed-locator resolution** (`resolve_feed_url`). Three ordered branches. An Apple Podcasts
  page URL becomes the canonical Apple RSS URL built from the first `id<digits>` match. A string
  ending in `.xml` or containing `rss` is returned unchanged. Anything else gives `None`.
- **Episode download** (`download_episodes_from_rss`). The feed's entries are cut to `limit`
  (default 3) and handled in order. The title is sanitised into a file name. The embedded
  transcript is the content value, else the summary. Then one of three paths is taken:
  - embedded text present: write it to `downloads/<title>_transcript.txt` and skip audio entirely;
  - audio link present: download it to `downloads/<title>.mp3`, then call the transcriber and
    write its text to the transcript file if it succeeds;
  - neither: do nothing.

  A transcriber failure ends that entry only.
- **The script's entry point** (the `__main__` block): resolve, then download with the default limit.

The module layout follows the source:

- `Strings` holds Python's substring, suffix, one-character `replace` and POSIX `os.path.join`.
- `FeedResolver` holds the resolver and its lemmas.
- `Episodes` holds the entry record and the pure per-line expressions (title, embedded text,
  paths). It also holds the effects and outcome of one entry as a function, `HandleEntry`,
  and the batch as functions over the entries, with the lemmas about them.
- `Downloader` holds the class `EpisodeDownloader`. Its fields are the file map
  (path → contents) and the log of effects: downloads, file writes and transcriber calls.
  Its methods perform the loop imperatively and are proved against the functions of `Episodes`.

The collaborators the code calls but does not define are inputs, bundled as `Collaborators`:
- `feedparser.parse(url).entries` is a function from URL to entries;
- `requests.get(url).content` is a function from URL to bytes;
- `transcribe_audio(path)` is a function from the audio file's path and bytes to text or an
  error message.

Where the code only prints how an entry ended, the model returns that as an `Outcome` value.

In these details the model follows what the code does:
- An enclosure whose link is the empty string counts as "no audio", because the code tests
  `if audio_url:`.
- `entries[:limit]` keeps Python's slice meaning, so a negative limit drops entries from the end.
- Resolution failures are `None`, as in the code, not distinct error kinds.

## Model

| member | source | states |
|---|---|---|
| `Strings.ReplaceChar` | features/rss_ingest.py:48 | same length; every occurrence of the target character becomes the replacement, every other character is unchanged |
| `Strings.Join` | features/rss_ingest.py:52 | an absolute name replaces the directory; a relative name after a non-empty directory without a trailing `/` follows it and one `/`; the result always ends with the name |
| `FeedResolver.DigitRunEnd` | features/rss_ingest.py:17 | the greedy `\d+`: every character up to the returned end is a digit, and the end is the string's end or a non-digit |
| `FeedResolver.SearchId` | features/rss_ingest.py:17 | the returned index is a match of `id(\d+)` with no match before it; `None` only when no later index matches |
| `FeedResolver.AppleId` | features/rss_ingest.py:17-19 | an id exists exactly when `id<digit>` occurs; it is the full digit run after the leftmost such `id`, non-empty and all digits |
| `FeedResolver.ResolveFeedUrl` | features/rss_ingest.py:14-28 | on an Apple page: a result exactly when an id occurs, the canonical URL of the leftmost id's digit run; else the input unchanged when it ends in `.xml` or contains `rss`; else `None` |
| `FeedResolver.ResolvedShape` | features/rss_ingest.py:14-28 | a resolved URL is the unchanged input or the canonical Apple URL of a non-empty digit string |
| `FeedResolver.ResolvedLooksLikeFeed` | features/rss_ingest.py:14-28 | a resolved URL is non-empty and itself ends in `.xml` or contains `rss`, so `if rss_feed:` means "resolved" |
| `FeedResolver.AppleFeedUrlHasNoId` | features/rss_ingest.py:20 | the canonical Apple URL contains no `id<digit>` |
| `FeedResolver.CanonicalAppleUrlNotReaccepted` | features/rss_ingest.py:15-25 | the canonical Apple URL contains the Apple host, ends in `.xml` and contains `rss`, yet resolving it again gives `None`, because the Apple branch comes first |
| `FeedResolver.DirectFeedIsFixedPoint` | features/rss_ingest.py:24-25 | resolving a direct feed URL twice gives the same result as once |
| `FeedResolver.ApplePageResolves` | features/rss_ingest.py:15-20 | a page `https://podcasts.apple.com` + path + `id` + digits + rest, where the path has no `id<digit>` and rest does not start with a digit, resolves to the canonical URL of exactly those digits; later ids do not matter |
| `FeedResolver.ApplePageExample` | features/rss_ingest.py:15-20 | `https://podcasts.apple.com/us/podcast/foo/id123456789` resolves to `https://podcasts.apple.com/rss/podcast/123456789.xml` |
| `FeedResolver.ApplePageIdeaExample` | features/rss_ingest.py:15-20 | in `https://podcasts.apple.com/idea/id42` the `id` of `idea` is skipped, giving `https://podcasts.apple.com/rss/podcast/42.xml` |
| `FeedResolver.AppleWithoutIdRejected` | features/rss_ingest.py:15-23 | an Apple page with no `i` after the host gives `None`, even if it ends in `.xml` or contains `rss` |
| `FeedResolver.DirectFeedExample` | features/rss_ingest.py:24-25 | `https://example.com/feed.xml` resolves to itself |
| `FeedResolver.UnsupportedExample` | features/rss_ingest.py:26-28 | `https://example.com/show` resolves to `None` |
| `Episodes.SanitizeTitle` | features/rss_ingest.py:48 | same length as the title; each space becomes `_`, each `/` becomes `-`, every other character is kept; no space and no `/` remain |
| `Episodes.SanitizeIsTwoReplacements` | features/rss_ingest.py:48 | the sanitised title equals the chained `replace(" ", "_").replace("/", "-")` |
| `Episodes.SanitizeIdempotent` | features/rss_ingest.py:48 | sanitising a sanitised title changes nothing |
| `Episodes.DistinctTitlesShareFiles` | features/rss_ingest.py:48 | the titles `a b` and `a_b` sanitise to the same file name, so the later entry's files overwrite the earlier's |
| `Episodes.EmbeddedText` | features/rss_ingest.py:51 | the text is the content value or the summary; a non-empty content value wins; the text is empty exactly when both are empty |
| `Episodes.Take` | features/rss_ingest.py:43 | a prefix of the entries of length `min(limit, n)` for `limit >= 0`, and `max(0, n + limit)` for a negative limit |
| `Episodes.SanitizedPaths` | features/rss_ingest.py:52-61 | the transcript and mp3 paths of a sanitised title are `downloads/<title>_transcript.txt` and `downloads/<title>.mp3` |
| `Episodes.TranscriptAndAudioPathsDiffer` | features/rss_ingest.py:52-61 | no transcript path equals any mp3 path, so an mp3 write never overwrites a transcript |
| `Episodes.TranscriptPathInjective` | features/rss_ingest.py:52 | two entries share a transcript file exactly when their sanitised titles agree |
| `Episodes.EmbeddedTranscriptShortCircuit` | features/rss_ingest.py:54-58 | with embedded text, only the transcript file is written, holding exactly that text; nothing is downloaded or transcribed; the collaborators make no difference |
| `Episodes.AudioFallback` | features/rss_ingest.py:60-74 | download, then mp3 write, then transcriber call, in that order; on success the transcript holds the returned text; on failure the mp3 remains, the transcript file is as before, and the reason is reported |
| `Episodes.NothingToFetch` | features/rss_ingest.py:60-76 | no embedded text and no usable audio link: no effect at all, outcome "no audio" |
| `Episodes.EntryDownloads` | features/rss_ingest.py:54-65 | one entry downloads from a URL exactly when it lacks embedded text and has a usable link to that URL |
| `Episodes.EntryTranscribes` | features/rss_ingest.py:54-69 | one entry calls the transcriber on a path exactly when it lacks embedded text, has a usable link, and the path is its mp3 |
| `Episodes.DownloadsExactlyWhenNeeded` | features/rss_ingest.py:47-66 | the batch downloads from a URL exactly when some entry has no embedded text and links to that URL |
| `Episodes.TranscribesExactlyWhenNeeded` | features/rss_ingest.py:47-69 | the batch calls the transcriber on a path exactly when some entry has no embedded text, has audio, and that path is its mp3 |
| `Episodes.EntrySavesOwnFiles` | features/rss_ingest.py:52-71 | an entry writes only its own transcript file and mp3 |
| `Episodes.SavesOnlyEpisodeFiles` | features/rss_ingest.py:47-71 | every file the batch writes is `downloads/<sanitised title>_transcript.txt` or `downloads/<sanitised title>.mp3` of one of the entries |
| `Episodes.OtherFilesUnchanged` | features/rss_ingest.py:47-76 | a file that is no entry's transcript file or mp3 is left exactly as it was |
| `Episodes.LastTranscriptWins` | features/rss_ingest.py:47-71 | whatever earlier entries wrote, after a final entry that saves a transcript, its transcript file holds that entry's text |
| `Episodes.BatchOutcomesPerEntry` | features/rss_ingest.py:47-76 | one outcome per processed entry, in feed order, each depending only on its own entry |
| `Episodes.BatchEffectsConcat` | features/rss_ingest.py:47-76 | the effects of a batch are those of its parts in sequence, so the entries are handled independently |
| `Downloader.EpisodeDownloader.DownloadAudio` | features/rss_ingest.py:63 | returns the fetched bytes and logs one download; the files are unchanged |
| `Downloader.EpisodeDownloader.WriteFile` | features/rss_ingest.py:55-56 | the path now holds the data and any previous contents are gone; one write is logged |
| `Downloader.EpisodeDownloader.TranscribeAudio` | features/rss_ingest.py:31-38 | the transcriber gets the path and the bytes stored there; one call is logged; the files are unchanged |
| `Downloader.EpisodeDownloader.HandleOne` | features/rss_ingest.py:48-76 | one loop iteration performs exactly the effects of `HandleEntry` and reports its outcome |
| `Downloader.EpisodeDownloader.DownloadEpisodesFromRss` | features/rss_ingest.py:41-76 | the first `limit` entries are handled in order; the log grows by the batch's effects; the files become the old files with those effects applied; the outcomes are the batch's, one per entry |
| `Downloader.EpisodeDownloader.Run` | features/rss_ingest.py:79-86 | an unresolvable locator changes nothing; otherwise the resolved feed is processed with limit 3 |

## Left out

- `main.py` is not part of this model. It is a top-level script: prompts, environment
  loading, a Spotify OAuth object, an OpenAI chat call, and a loop that only prints transcripts.
- `transcribe_audio`'s internals (the Whisper client, the file handle, the response format):
  the transcriber is an opaque function that returns text or an error message.
- `feedparser.parse` and `requests.get`: their results are given, total functions.
  A non-success HTTP status is not checked by the source either: whatever body comes back is saved.
- `Downloader.EpisodeDownloader.DownloadAudio`: the download cannot fail in the model. In the
  code an exception from `requests.get` is not caught and ends the whole run, not just that episode.
- `os.makedirs("downloads", exist_ok=True)`: directories are not modelled, only a map from path to contents.
- UTF-8 encoding, failures of file writes, and the operating system rejecting characters such
  as `:` or `?` in file names.
- Console messages: only the outcome kind and the error message are kept, as `Outcome` values.
- Malformed entries. A missing `title` or `enclosures` attribute raises in the source; the
  model's entries always have both. An empty `content` list makes `[0]` raise `IndexError`.
  `DownloadEpisodesFromRss` and `Run` require that no entry has one (`WellFormed`), which
  `feedparser` never produces.
- `FeedResolver.ResolveFeedUrl`: `\d` is modelled as the ASCII digits `0`–`9`. Python's `re`
  on `str` also matches other Unicode decimal digits, so an id written in such digits is not covered.
- `FeedResolver.ApplePageResolves`: stated for pages of the form `https://podcasts.apple.com`
  + path + `id` + digits + rest only, with no `id<digit>` in the path. Other Apple pages,
  such as one with the host later in the string, are covered only by `ResolveFeedUrl`'s own contract.
- `FeedResolver.AppleWithoutIdRejected`: stated only for an Apple page with no letter `i` after
  the host. The general case, any Apple page with no `id<digit>`, is in `ResolveFeedUrl`'s contract.
- A non-integer `limit` (such as `None`, which Python slicing would accept) is not modelled.
