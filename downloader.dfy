/** The imperative part of features/rss_ingest.py: `download_episodes_from_rss`, which walks
    the first entries of a feed and writes into the downloads directory step by step, and
    the script's `__main__` block, which resolves the locator first. */
module Downloader {
  import opened Wrappers
  import opened FeedResolver
  import opened Episodes

  /** The world the downloader acts on: the files of the downloads directory, and the log
      of every effect performed so far (downloads, writes, transcriber calls). */
  class EpisodeDownloader {
    var files: map<string, FileData>
    var effects: seq<Effect>
    /** The files as they were before the first logged effect. */
    ghost var initialFiles: map<string, FileData>

    /** The files are exactly what the logged effects made of the initial files. */
    ghost predicate Valid()
      reads this
    {
      files == Apply(initialFiles, effects)
    }

    constructor (existing: map<string, FileData>)
      ensures Valid()
      ensures files == existing && effects == [] && initialFiles == existing
    {
      files := existing;
      effects := [];
      initialFiles := existing;
    }

    /** `requests.get(url).content`. */
    method DownloadAudio(url: string, c: Collaborators) returns (bytes: seq<byte>)
      requires Valid()
      modifies this
      ensures Valid() && initialFiles == old(initialFiles)
      ensures bytes == c.fetch(url)
      ensures files == old(files) && effects == old(effects) + [Download(url)]
    {
      ApplySnoc(initialFiles, effects, Download(url));
      effects := effects + [Download(url)];
      bytes := c.fetch(url);
    }

    /** Opening `path` for writing and writing `data`: any previous contents are replaced. */
    method WriteFile(path: string, data: FileData)
      requires Valid()
      modifies this
      ensures Valid() && initialFiles == old(initialFiles)
      ensures files == old(files)[path := data] && effects == old(effects) + [Save(path, data)]
    {
      ApplySnoc(initialFiles, effects, Save(path, data));
      effects := effects + [Save(path, data)];
      files := files[path := data];
    }

    /** `transcribe_audio(path)`: the transcriber reads the audio file at `path`. */
    method TranscribeAudio(path: string, c: Collaborators) returns (t: Transcription)
      requires Valid() && path in files && files[path].Audio?
      modifies this
      ensures Valid() && initialFiles == old(initialFiles)
      ensures t == c.transcribe(path, old(files)[path].bytes)
      ensures files == old(files) && effects == old(effects) + [Transcribe(path)]
    {
      ApplySnoc(initialFiles, effects, Transcribe(path));
      effects := effects + [Transcribe(path)];
      t := c.transcribe(path, files[path].bytes);
    }

    /** The body of the loop of `download_episodes_from_rss`, for one entry: write the
        embedded transcript and skip the audio, or download the mp3 and try to transcribe
        it, or do nothing. A transcriber failure ends this entry only. */
    method HandleOne(entry: Entry, c: Collaborators) returns (outcome: Outcome)
      requires Valid() && WellFormed(entry)
      modifies this
      ensures Valid() && initialFiles == old(initialFiles)
      ensures effects == old(effects) + HandleEntry(entry, c).effects
      ensures outcome == HandleEntry(entry, c).outcome
    {
      var title := SanitizeTitle(entry.title);
      var audioUrl := AudioLink(entry);
      var transcriptText := EmbeddedText(entry);
      var transcriptPath := TranscriptPath(title);

      if transcriptText != "" {
        WriteFile(transcriptPath, Text(transcriptText));
        return SavedFromFeed(transcriptPath);
      }

      if audioUrl.Some? && audioUrl.value != "" {
        var audioPath := AudioPath(title);
        ghost var before := effects;
        var content := DownloadAudio(audioUrl.value, c);
        WriteFile(audioPath, Audio(content));
        var transcript := TranscribeAudio(audioPath, c);
        ghost var fetched := [Download(audioUrl.value), Save(audioPath, Audio(content)), Transcribe(audioPath)];
        assert effects == before + fetched;
        match transcript
        case Transcribed(text) =>
          WriteFile(transcriptPath, Text(text));
          ConcatAssoc(before, fetched, [Save(transcriptPath, Text(text))]);
          outcome := SavedFromAudio(transcriptPath);
        case TranscriptionError(message) =>
          outcome := TranscriptionFailed(message);
      } else {
        outcome := AudioMissing;
      }
    }

    /** `download_episodes_from_rss(rss_url, limit)`: the entries of the feed, cut to `limit`,
        are handled one after the other in feed order, each with the effects and outcome of
        `HandleEntry`, whatever happened to the entries before it. */
    method DownloadEpisodesFromRss(rssUrl: string, limit: int, c: Collaborators) returns (outcomes: seq<Outcome>)
      requires Valid()
      requires AllWellFormed(Take(c.parse(rssUrl), limit))
      modifies this
      ensures Valid() && initialFiles == old(initialFiles)
      ensures var episodes := Take(c.parse(rssUrl), limit);
              effects == old(effects) + BatchEffects(episodes, c) &&
              files == Apply(old(files), BatchEffects(episodes, c))
      ensures outcomes == BatchOutcomes(Take(c.parse(rssUrl), limit), c)
    {
      var episodes := Take(c.parse(rssUrl), limit);
      outcomes := [];
      assert episodes[..0] == [];
      for i := 0 to |episodes|
        invariant Valid() && initialFiles == old(initialFiles)
        invariant effects == old(effects) + BatchEffects(episodes[..i], c)
        invariant outcomes == BatchOutcomes(episodes[..i], c)
      {
        BatchStep(episodes, i, c);
        var outcome := HandleOne(episodes[i], c);
        outcomes := outcomes + [outcome];
        ConcatAssoc(old(effects), BatchEffects(episodes[..i], c), HandleEntry(episodes[i], c).effects);
      }
      assert episodes[..|episodes|] == episodes;
      ApplyConcat(initialFiles, old(effects), BatchEffects(episodes, c));
    }

    /** The script's `__main__` block: resolve the locator, and when that gives a feed URL,
        download with the default limit; otherwise nothing happens. */
    method Run(userInput: string, c: Collaborators) returns (outcomes: Option<seq<Outcome>>)
      requires Valid()
      requires ResolveFeedUrl(userInput).Some? ==>
                 AllWellFormed(Take(c.parse(ResolveFeedUrl(userInput).value), DefaultLimit))
      modifies this
      ensures Valid() && initialFiles == old(initialFiles)
      ensures ResolveFeedUrl(userInput).None? ==>
                outcomes == None && files == old(files) && effects == old(effects)
      ensures ResolveFeedUrl(userInput).Some? ==>
                var episodes := Take(c.parse(ResolveFeedUrl(userInput).value), DefaultLimit);
                effects == old(effects) + BatchEffects(episodes, c) &&
                files == Apply(old(files), BatchEffects(episodes, c)) &&
                outcomes == Some(BatchOutcomes(episodes, c))
    {
      var rssFeed := ResolveFeedUrl(userInput);
      if rssFeed.Some? {
        ResolvedLooksLikeFeed(userInput);
      }
      if rssFeed.Some? && rssFeed.value != "" {
        var handled := DownloadEpisodesFromRss(rssFeed.value, DefaultLimit, c);
        outcomes := Some(handled);
      } else {
        outcomes := None;
      }
    }
  }
}
