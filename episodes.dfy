/** The episode side of `download_episodes_from_rss` in features/rss_ingest.py, as values:
    the parsed entry record, title sanitising, the choice of embedded transcript text,
    the file paths, and what handling one entry does to the outside world. The loop
    itself, which performs these effects one by one, is in module Downloader. */
module Episodes {
  import opened Wrappers
  import opened Strings

  newtype byte = b: int | 0 <= b < 0x100

  /** One `<enclosure>` of a feed entry; only its link is used. */
  datatype Enclosure = Enclosure(href: string)

  /** One element of an entry's `content` list; `value` is `None` when the element has no `value` key. */
  datatype ContentPart = ContentPart(value: Option<string>)

  /** A feed entry as `feedparser` hands it over: `content` and `summary` are `None`
      when the entry has no such key. */
  datatype Entry = Entry(title: string, enclosures: seq<Enclosure>,
                         content: Option<seq<ContentPart>>, summary: Option<string>)

  /** `entry.get("content", [{}])[0]` raises `IndexError` on an empty content list;
      the model covers entries where that cannot happen. */
  predicate WellFormed(e: Entry) {
    e.content != Some([])
  }

  predicate AllWellFormed(es: seq<Entry>) {
    forall k :: 0 <= k < |es| ==> WellFormed(es[k])
  }

  /** What the speech-to-text call gives back: the transcript text, or the message of
      the exception it raised. */
  datatype Transcription = Transcribed(text: string) | TranscriptionError(message: string)

  /** The collaborators the ingest code calls but does not define: the feed parser
      (`feedparser.parse(url).entries`), the audio download (`requests.get(url).content`)
      and the transcriber (`transcribe_audio(path)`, given the audio file's path and its bytes). */
  datatype Collaborators = Collaborators(
    parse: string -> seq<Entry>,
    fetch: string -> seq<byte>,
    transcribe: (string, seq<byte>) -> Transcription)

  /** Contents of a file in the downloads directory. */
  datatype FileData = Text(text: string) | Audio(bytes: seq<byte>)

  /** An effect on the world, in the order the code performs them: an audio download,
      a file written (overwriting any previous contents), a call to the transcriber. */
  datatype Effect = Download(url: string) | Save(path: string, data: FileData) | Transcribe(path: string)

  /** How one episode ended, as the code reports it on the console. */
  datatype Outcome =
    | SavedFromFeed(path: string)
    | SavedFromAudio(path: string)
    | TranscriptionFailed(reason: string)
    | AudioMissing

  /** The effects of handling one entry and its outcome. */
  datatype Handled = Handled(effects: seq<Effect>, outcome: Outcome)

  const DownloadsDir := "downloads"
  /** The default of `download_episodes_from_rss`'s `limit` parameter. */
  const DefaultLimit := 3

  /** What sanitising does to one character of a title. */
  function SanitizeChar(ch: char): char {
    if ch == ' ' then '_' else if ch == '/' then '-' else ch
  }

  /** The file-name form of a title, `title.replace(" ", "_").replace("/", "-")`, computed in
      one pass (`SanitizeIsTwoReplacements` shows that it is that expression). */
  function SanitizeTitle(title: string): (r: string)
    ensures |r| == |title|
    ensures forall k :: 0 <= k < |title| ==> r[k] == SanitizeChar(title[k])
    ensures ' ' !in r && '/' !in r
  {
    if title == [] then [] else [SanitizeChar(title[0])] + SanitizeTitle(title[1..])
  }

  /** `os.path.join("downloads", f"{title}_transcript.txt")`. */
  function TranscriptPath(title: string): string {
    Join(DownloadsDir, title + "_transcript.txt")
  }

  /** `os.path.join("downloads", f"{title}.mp3")`. */
  function AudioPath(title: string): string {
    Join(DownloadsDir, title + ".mp3")
  }

  /** `entry.get("content", [{}])[0].get("value", "")`. */
  function ContentValue(e: Entry): string
    requires WellFormed(e)
  {
    match e.content
    case None => ""
    case Some(parts) => parts[0].value.GetOr("")
  }

  /** `entry.get("summary", "")`. */
  function Summary(e: Entry): string {
    e.summary.GetOr("")
  }

  /** The transcript text embedded in the feed: the content value, or the summary when
      that value is empty (Python's `or`). */
  function EmbeddedText(e: Entry): (text: string)
    requires WellFormed(e)
    ensures text == ContentValue(e) || text == Summary(e)
    ensures ContentValue(e) != "" ==> text == ContentValue(e)
    ensures text == "" <==> ContentValue(e) == "" && Summary(e) == ""
  {
    if ContentValue(e) != "" then ContentValue(e) else Summary(e)
  }

  /** `entry.enclosures[0].href if entry.enclosures else None`. */
  function AudioLink(e: Entry): Option<string> {
    if |e.enclosures| > 0 then Some(e.enclosures[0].href) else None
  }

  /** The test `if audio_url:`: a link exists and is not the empty string. */
  predicate HasAudio(e: Entry) {
    AudioLink(e).Some? && AudioLink(e).value != ""
  }

  /** The entry will go the audio way: no embedded text, but a usable audio link. */
  predicate NeedsAudio(e: Entry)
    requires WellFormed(e)
  {
    EmbeddedText(e) == "" && HasAudio(e)
  }

  /** Handling `e` downloads audio from `url`. */
  predicate DownloadsFrom(e: Entry, url: string)
    requires WellFormed(e)
  {
    NeedsAudio(e) && AudioLink(e) == Some(url)
  }

  /** Handling `e` calls the transcriber on `path`. */
  predicate TranscribesAt(e: Entry, path: string)
    requires WellFormed(e)
  {
    NeedsAudio(e) && path == AudioPath(SanitizeTitle(e.title))
  }

  /** One iteration of the loop over the entries, as the effects it performs and its outcome. */
  function HandleEntry(e: Entry, c: Collaborators): Handled
    requires WellFormed(e)
  {
    var title := SanitizeTitle(e.title);
    var transcriptPath := TranscriptPath(title);
    var text := EmbeddedText(e);
    if text != "" then
      Handled([Save(transcriptPath, Text(text))], SavedFromFeed(transcriptPath))
    else if HasAudio(e) then
      var url := AudioLink(e).value;
      var audioPath := AudioPath(title);
      var bytes := c.fetch(url);
      var fetched := [Download(url), Save(audioPath, Audio(bytes)), Transcribe(audioPath)];
      match c.transcribe(audioPath, bytes)
      case Transcribed(t) => Handled(fetched + [Save(transcriptPath, Text(t))], SavedFromAudio(transcriptPath))
      case TranscriptionError(message) => Handled(fetched, TranscriptionFailed(message))
    else
      Handled([], AudioMissing)
  }

  /** The files after one effect. */
  function ApplyEffect(files: map<string, FileData>, eff: Effect): map<string, FileData> {
    match eff
    case Save(path, data) => files[path := data]
    case _ => files
  }

  /** The files after a sequence of effects, performed first to last. */
  function Apply(files: map<string, FileData>, effects: seq<Effect>): map<string, FileData>
    decreases |effects|
  {
    if effects == [] then files
    else ApplyEffect(Apply(files, effects[..|effects| - 1]), effects[|effects| - 1])
  }

  /** The effects of handling the entries in order. */
  function BatchEffects(es: seq<Entry>, c: Collaborators): seq<Effect>
    requires AllWellFormed(es)
    decreases |es|
  {
    if es == [] then []
    else BatchEffects(es[..|es| - 1], c) + HandleEntry(es[|es| - 1], c).effects
  }

  /** The outcomes of handling the entries in order. */
  function BatchOutcomes(es: seq<Entry>, c: Collaborators): seq<Outcome>
    requires AllWellFormed(es)
    decreases |es|
  {
    if es == [] then []
    else BatchOutcomes(es[..|es| - 1], c) + [HandleEntry(es[|es| - 1], c).outcome]
  }

  /** `entries[:limit]` with Python's slice semantics: a negative limit drops that many
      entries from the end. */
  function Take<T>(es: seq<T>, limit: int): (r: seq<T>)
    ensures |r| <= |es| && r == es[..|r|]
    ensures 0 <= limit ==> |r| == if limit <= |es| then limit else |es|
    ensures limit < 0 ==> |r| == if -limit <= |es| then |es| + limit else 0
  {
    if 0 <= limit then
      if limit <= |es| then es[..limit] else es
    else if -limit <= |es| then es[..|es| + limit]
    else []
  }

  // ---------------------------------------------------------------------------------
  // Titles and paths

  /** The one-pass sanitiser computes the source's two chained replacements. */
  lemma SanitizeIsTwoReplacements(title: string)
    ensures SanitizeTitle(title) == ReplaceChar(ReplaceChar(title, ' ', '_'), '/', '-')
  {
    var r := ReplaceChar(ReplaceChar(title, ' ', '_'), '/', '-');
    assert forall k :: 0 <= k < |title| ==> r[k] == SanitizeChar(title[k]);
  }

  /** Sanitising twice changes nothing more. */
  lemma SanitizeIdempotent(title: string)
    ensures SanitizeTitle(SanitizeTitle(title)) == SanitizeTitle(title)
  {
    var once := SanitizeTitle(title);
    assert forall k :: 0 <= k < |once| ==> once[k] != ' ' && once[k] != '/';
  }

  /** Different titles can share files: sanitising is not injective, so a later entry
      titled `a_b` overwrites the files of an earlier `a b`. */
  lemma DistinctTitlesShareFiles()
    ensures SanitizeTitle("a b") == SanitizeTitle("a_b") == "a_b"
  {
    assert SanitizeTitle("a b")[1] == '_';
  }

  /** A file name that does not start with `/` is joined below `downloads/`. */
  lemma JoinedBelowDownloads(title: string, suffix: string)
    requires '/' !in title
    requires |suffix| > 0 && suffix[0] != '/'
    ensures Join(DownloadsDir, title + suffix) == "downloads/" + title + suffix
  {
    var name := title + suffix;
    if |title| > 0 {
      assert name[0] == title[0];
    } else {
      assert name[0] == suffix[0];
    }
  }

  /** A sanitised title has no `/`, so `os.path.join` never treats the file name as an
      absolute path: every file lies directly under `downloads/`. */
  lemma SanitizedPaths(raw: string)
    ensures var title := SanitizeTitle(raw);
            TranscriptPath(title) == "downloads/" + title + "_transcript.txt" &&
            AudioPath(title) == "downloads/" + title + ".mp3"
  {
    JoinedBelowDownloads(SanitizeTitle(raw), "_transcript.txt");
    JoinedBelowDownloads(SanitizeTitle(raw), ".mp3");
  }

  /** A transcript path and an audio path never coincide, whatever the titles: writing an
      mp3 never clobbers a transcript. */
  lemma TranscriptAndAudioPathsDiffer(t1: string, t2: string)
    ensures TranscriptPath(t1) != AudioPath(t2)
  {
    var n1, n2 := t1 + "_transcript.txt", t2 + ".mp3";
    var p1, p2 := TranscriptPath(t1), AudioPath(t2);
    assert p1[|p1| - 1] == n1[|n1| - 1] == 't' by {
      assert p1[|p1| - |n1|..] == n1;
    }
    assert p2[|p2| - 1] == n2[|n2| - 1] == '3' by {
      assert p2[|p2| - |n2|..] == n2;
    }
  }

  /** Two entries write the same transcript file exactly when their sanitised titles agree. */
  lemma TranscriptPathInjective(raw1: string, raw2: string)
    ensures TranscriptPath(SanitizeTitle(raw1)) == TranscriptPath(SanitizeTitle(raw2))
        <==> SanitizeTitle(raw1) == SanitizeTitle(raw2)
  {
    SanitizedPaths(raw1);
    SanitizedPaths(raw2);
    var t1, t2 := SanitizeTitle(raw1), SanitizeTitle(raw2);
    var p1, p2 := TranscriptPath(t1), TranscriptPath(t2);
    if p1 == p2 {
      assert |t1| == |t2|;
      assert t1 == p1[10..10 + |t1|];
      assert t2 == p2[10..10 + |t2|];
    }
  }

  // ---------------------------------------------------------------------------------
  // One entry

  /** With embedded text, only the transcript file is written, holding exactly that text;
      there is no download and no transcriber call, and the collaborators make no difference. */
  lemma EmbeddedTranscriptShortCircuit(files: map<string, FileData>, e: Entry, c: Collaborators, other: Collaborators)
    requires WellFormed(e) && EmbeddedText(e) != ""
    ensures var h := HandleEntry(e, c);
            var path := TranscriptPath(SanitizeTitle(e.title));
            Apply(files, h.effects) == files[path := Text(EmbeddedText(e))] &&
            (forall k :: 0 <= k < |h.effects| ==> h.effects[k].Save?) &&
            h.outcome == SavedFromFeed(path) &&
            h == HandleEntry(e, other)
  {
    var h := HandleEntry(e, c);
    assert h.effects[..0] == [];
  }

  /** Without embedded text but with audio: the audio is downloaded and saved as the mp3,
      then the transcriber is called on that file. On success the transcript file holds the
      transcriber's text; on failure the mp3 stays, the transcript file is left as it was,
      and the reason is reported. */
  lemma AudioFallback(files: map<string, FileData>, e: Entry, c: Collaborators)
    requires WellFormed(e) && NeedsAudio(e)
    ensures var h := HandleEntry(e, c);
            var title := SanitizeTitle(e.title);
            var audioPath, transcriptPath := AudioPath(title), TranscriptPath(title);
            var bytes := c.fetch(AudioLink(e).value);
            var withAudio := files[audioPath := Audio(bytes)];
            |h.effects| >= 3 &&
            h.effects[..3] == [Download(AudioLink(e).value), Save(audioPath, Audio(bytes)), Transcribe(audioPath)] &&
            match c.transcribe(audioPath, bytes)
            case Transcribed(t) =>
              Apply(files, h.effects) == withAudio[transcriptPath := Text(t)] &&
              h.outcome == SavedFromAudio(transcriptPath)
            case TranscriptionError(message) =>
              Apply(files, h.effects) == withAudio &&
              (transcriptPath in withAudio <==> transcriptPath in files) &&
              (transcriptPath in files ==> withAudio[transcriptPath] == files[transcriptPath]) &&
              h.outcome == TranscriptionFailed(message)
  {
    var h := HandleEntry(e, c);
    var title := SanitizeTitle(e.title);
    TranscriptAndAudioPathsDiffer(title, title);
    var url := AudioLink(e).value;
    var audioPath := AudioPath(title);
    var bytes := c.fetch(url);
    var fetched := [Download(url), Save(audioPath, Audio(bytes)), Transcribe(audioPath)];
    ApplySnoc(files, [], Download(url));
    assert [] + [Download(url)] == [Download(url)];
    ApplySnoc(files, [Download(url)], Save(audioPath, Audio(bytes)));
    assert [Download(url)] + [Save(audioPath, Audio(bytes))] == fetched[..2];
    ApplySnoc(files, fetched[..2], Transcribe(audioPath));
    assert fetched[..2] + [Transcribe(audioPath)] == fetched;
    assert Apply(files, fetched) == files[audioPath := Audio(bytes)];
    if c.transcribe(audioPath, bytes).Transcribed? {
      ApplySnoc(files, fetched, Save(TranscriptPath(title), Text(c.transcribe(audioPath, bytes).text)));
    }
  }

  /** Without embedded text and without audio nothing is done. */
  lemma NothingToFetch(e: Entry, c: Collaborators)
    requires WellFormed(e) && EmbeddedText(e) == "" && !HasAudio(e)
    ensures HandleEntry(e, c) == Handled([], AudioMissing)
  {
  }

  // ---------------------------------------------------------------------------------
  // The batch

  /** Concatenation is associative (stated once, so that the solver does not rediscover it). */
  lemma ConcatAssoc<T>(a: seq<T>, b: seq<T>, c: seq<T>)
    ensures a + (b + c) == (a + b) + c
  {
  }

  /** Performing one more effect. */
  lemma ApplySnoc(files: map<string, FileData>, a: seq<Effect>, x: Effect)
    ensures Apply(files, a + [x]) == ApplyEffect(Apply(files, a), x)
  {
    assert (a + [x])[..|a|] == a;
  }

  /** Performing two runs of effects one after the other. */
  lemma {:induction false} ApplyConcat(files: map<string, FileData>, a: seq<Effect>, b: seq<Effect>)
    ensures Apply(files, a + b) == Apply(Apply(files, a), b)
    decreases |b|
  {
    if b == [] {
      assert a + b == a;
    } else {
      var b' := b[..|b| - 1];
      assert (a + b)[..|a + b| - 1] == a + b';
      ApplyConcat(files, a, b');
    }
  }

  /** Handling one more entry appends exactly that entry's effects. */
  lemma BatchEffectsSnoc(es: seq<Entry>, e: Entry, c: Collaborators)
    requires AllWellFormed(es) && WellFormed(e)
    ensures AllWellFormed(es + [e])
    ensures BatchEffects(es + [e], c) == BatchEffects(es, c) + HandleEntry(e, c).effects
  {
    assert (es + [e])[..|es|] == es;
  }

  /** One outcome per entry, in feed order, each depending on its own entry only: a
      failure for one entry does not change the outcome of any other. */
  lemma {:induction false} BatchOutcomesPerEntry(es: seq<Entry>, c: Collaborators)
    requires AllWellFormed(es)
    ensures |BatchOutcomes(es, c)| == |es|
    ensures forall k :: 0 <= k < |es| ==> BatchOutcomes(es, c)[k] == HandleEntry(es[k], c).outcome
    decreases |es|
  {
    if es != [] {
      var init := es[..|es| - 1];
      BatchOutcomesPerEntry(init, c);
      forall k | 0 <= k < |es|
        ensures BatchOutcomes(es, c)[k] == HandleEntry(es[k], c).outcome
      {
        if k < |init| {
          assert init[k] == es[k];
        }
      }
    }
  }

  /** Handling the entry at index `i` after those before it. */
  lemma BatchStep(es: seq<Entry>, i: nat, c: Collaborators)
    requires AllWellFormed(es) && i < |es|
    ensures AllWellFormed(es[..i]) && AllWellFormed(es[..i + 1])
    ensures BatchEffects(es[..i + 1], c) == BatchEffects(es[..i], c) + HandleEntry(es[i], c).effects
    ensures BatchOutcomes(es[..i + 1], c) == BatchOutcomes(es[..i], c) + [HandleEntry(es[i], c).outcome]
  {
    assert forall k :: 0 <= k < i ==> es[..i][k] == es[k];
    assert forall k :: 0 <= k <= i ==> es[..i + 1][k] == es[k];
    assert es[..i + 1][..i] == es[..i];
  }

  /** Entries are handled independently: the effects of a batch are those of its parts,
      one after the other. */
  lemma {:induction false} BatchEffectsConcat(es1: seq<Entry>, es2: seq<Entry>, c: Collaborators)
    requires AllWellFormed(es1) && AllWellFormed(es2)
    ensures AllWellFormed(es1 + es2)
    ensures BatchEffects(es1 + es2, c) == BatchEffects(es1, c) + BatchEffects(es2, c)
    decreases |es2|
  {
    if es2 == [] {
      assert es1 + es2 == es1;
    } else {
      var init, last := es2[..|es2| - 1], es2[|es2| - 1];
      assert es1 + es2 == (es1 + init) + [last];
      assert es2 == init + [last];
      BatchEffectsConcat(es1, init, c);
      BatchEffectsSnoc(es1 + init, last, c);
      BatchEffectsSnoc(init, last, c);
      ConcatAssoc(BatchEffects(es1, c), BatchEffects(init, c), HandleEntry(last, c).effects);
    }
  }

  /** One entry downloads `url` exactly when it needs audio and links to `url`. */
  lemma EntryDownloads(e: Entry, c: Collaborators, url: string)
    requires WellFormed(e)
    ensures Download(url) in HandleEntry(e, c).effects <==> DownloadsFrom(e, url)
  {
  }

  /** One entry calls the transcriber on `path` exactly when it needs audio and `path` is its mp3. */
  lemma EntryTranscribes(e: Entry, c: Collaborators, path: string)
    requires WellFormed(e)
    ensures Transcribe(path) in HandleEntry(e, c).effects <==> TranscribesAt(e, path)
  {
  }

  /** A batch's effects are those of its earlier entries followed by those of its last one. */
  lemma BatchLast(es: seq<Entry>, c: Collaborators)
    requires AllWellFormed(es) && es != []
    ensures AllWellFormed(es[..|es| - 1])
    ensures BatchEffects(es, c) == BatchEffects(es[..|es| - 1], c) + HandleEntry(es[|es| - 1], c).effects
  {
  }

  /** Membership in a concatenation is membership in one of its parts. */
  lemma InConcat<T>(a: seq<T>, b: seq<T>, x: T)
    ensures x in a + b <==> x in a || x in b
  {
  }

  /** A batch downloads `url` exactly when its earlier entries or its last entry do. */
  lemma DownloadsStep(es: seq<Entry>, c: Collaborators, url: string)
    requires AllWellFormed(es) && es != []
    ensures AllWellFormed(es[..|es| - 1])
    ensures Download(url) in BatchEffects(es, c) <==>
              Download(url) in BatchEffects(es[..|es| - 1], c) || DownloadsFrom(es[|es| - 1], url)
  {
    EntryDownloads(es[|es| - 1], c, url);
  }

  /** A batch transcribes at `path` exactly when its earlier entries or its last entry do. */
  lemma TranscribesStep(es: seq<Entry>, c: Collaborators, path: string)
    requires AllWellFormed(es) && es != []
    ensures AllWellFormed(es[..|es| - 1])
    ensures Transcribe(path) in BatchEffects(es, c) <==>
              Transcribe(path) in BatchEffects(es[..|es| - 1], c) || TranscribesAt(es[|es| - 1], path)
  {
    EntryTranscribes(es[|es| - 1], c, path);
  }

  /** A download from `url` comes from some entry that needs audio and links to it. */
  lemma {:induction false} DownloadsNeeded(es: seq<Entry>, c: Collaborators, url: string)
    requires AllWellFormed(es) && Download(url) in BatchEffects(es, c)
    ensures exists k :: 0 <= k < |es| && DownloadsFrom(es[k], url)
    decreases |es|
  {
    DownloadsStep(es, c, url);
    var init := es[..|es| - 1];
    if Download(url) in BatchEffects(init, c) {
      DownloadsNeeded(init, c, url);
      var k :| 0 <= k < |init| && DownloadsFrom(init[k], url);
      assert es[k] == init[k];
    } else {
      assert DownloadsFrom(es[|es| - 1], url);
    }
  }

  /** An entry that needs audio and links to `url` causes a download from it. */
  lemma {:induction false} NeededDownloads(es: seq<Entry>, c: Collaborators, url: string, k: nat)
    requires AllWellFormed(es) && k < |es| && DownloadsFrom(es[k], url)
    ensures Download(url) in BatchEffects(es, c)
    decreases |es|
  {
    var init, last := es[..|es| - 1], es[|es| - 1];
    BatchLast(es, c);
    if k < |init| {
      assert init[k] == es[k];
      NeededDownloads(init, c, url, k);
      InConcat(BatchEffects(init, c), HandleEntry(last, c).effects, Download(url));
    } else {
      EntryDownloads(last, c, url);
      InConcat(BatchEffects(init, c), HandleEntry(last, c).effects, Download(url));
    }
  }

  /** A transcriber call on `path` comes from some entry that needs audio and has `path` as its mp3. */
  lemma {:induction false} TranscribesNeeded(es: seq<Entry>, c: Collaborators, path: string)
    requires AllWellFormed(es) && Transcribe(path) in BatchEffects(es, c)
    ensures exists k :: 0 <= k < |es| && TranscribesAt(es[k], path)
    decreases |es|
  {
    TranscribesStep(es, c, path);
    var init := es[..|es| - 1];
    if Transcribe(path) in BatchEffects(init, c) {
      TranscribesNeeded(init, c, path);
      var k :| 0 <= k < |init| && TranscribesAt(init[k], path);
      assert es[k] == init[k];
    } else {
      assert TranscribesAt(es[|es| - 1], path);
    }
  }

  /** An entry that needs audio and has `path` as its mp3 causes a transcriber call on it. */
  lemma {:induction false} NeededTranscribes(es: seq<Entry>, c: Collaborators, path: string, k: nat)
    requires AllWellFormed(es) && k < |es| && TranscribesAt(es[k], path)
    ensures Transcribe(path) in BatchEffects(es, c)
    decreases |es|
  {
    var init, last := es[..|es| - 1], es[|es| - 1];
    BatchLast(es, c);
    if k < |init| {
      assert init[k] == es[k];
      NeededTranscribes(init, c, path, k);
      InConcat(BatchEffects(init, c), HandleEntry(last, c).effects, Transcribe(path));
    } else {
      EntryTranscribes(last, c, path);
      InConcat(BatchEffects(init, c), HandleEntry(last, c).effects, Transcribe(path));
    }
  }

  /** Audio is downloaded from a URL exactly when some entry needs audio and links to it:
      an entry with embedded text never causes a download. */
  lemma {:induction false} DownloadsExactlyWhenNeeded(es: seq<Entry>, c: Collaborators, url: string)
    requires AllWellFormed(es)
    ensures Download(url) in BatchEffects(es, c) <==>
              exists k :: 0 <= k < |es| && DownloadsFrom(es[k], url)
  {
    if Download(url) in BatchEffects(es, c) {
      DownloadsNeeded(es, c, url);
    }
    if exists k :: 0 <= k < |es| && DownloadsFrom(es[k], url) {
      var k :| 0 <= k < |es| && DownloadsFrom(es[k], url);
      NeededDownloads(es, c, url, k);
    }
  }

  /** The transcriber is called on a path exactly when some entry needs audio and that path
      is its mp3: an entry with embedded text never causes a transcription. */
  lemma {:induction false} TranscribesExactlyWhenNeeded(es: seq<Entry>, c: Collaborators, path: string)
    requires AllWellFormed(es)
    ensures Transcribe(path) in BatchEffects(es, c) <==>
              exists k :: 0 <= k < |es| && TranscribesAt(es[k], path)
  {
    if Transcribe(path) in BatchEffects(es, c) {
      TranscribesNeeded(es, c, path);
    }
    if exists k :: 0 <= k < |es| && TranscribesAt(es[k], path) {
      var k :| 0 <= k < |es| && TranscribesAt(es[k], path);
      NeededTranscribes(es, c, path, k);
    }
  }

  /** The files an entry may write: its transcript file and its mp3. */
  predicate IsEntryFile(e: Entry, path: string) {
    path == "downloads/" + SanitizeTitle(e.title) + "_transcript.txt" ||
    path == "downloads/" + SanitizeTitle(e.title) + ".mp3"
  }

  /** One entry writes only its own transcript file and mp3. */
  lemma EntrySavesOwnFiles(e: Entry, c: Collaborators)
    requires WellFormed(e)
    ensures forall k :: 0 <= k < |HandleEntry(e, c).effects| && HandleEntry(e, c).effects[k].Save? ==>
              IsEntryFile(e, HandleEntry(e, c).effects[k].path)
  {
    SanitizedPaths(e.title);
  }

  /** Every file the batch writes lies under `downloads/` and is the transcript file or the
      mp3 of one of the entries. */
  lemma {:induction false} SavesOnlyEpisodeFiles(es: seq<Entry>, c: Collaborators)
    requires AllWellFormed(es)
    ensures forall eff :: eff in BatchEffects(es, c) && eff.Save? ==>
              exists k :: 0 <= k < |es| && IsEntryFile(es[k], eff.path)
    decreases |es|
  {
    if es != [] {
      var init, last := es[..|es| - 1], es[|es| - 1];
      SavesOnlyEpisodeFiles(init, c);
      EntrySavesOwnFiles(last, c);
      forall eff | eff in BatchEffects(es, c) && eff.Save?
        ensures exists k :: 0 <= k < |es| && IsEntryFile(es[k], eff.path)
      {
        if eff in BatchEffects(init, c) {
          var k :| 0 <= k < |init| && IsEntryFile(init[k], eff.path);
          assert es[k] == init[k];
        } else {
          var h := HandleEntry(last, c);
          var k :| 0 <= k < |h.effects| && h.effects[k] == eff;
          assert IsEntryFile(es[|es| - 1], eff.path);
        }
      }
    }
  }

  /** A file that is neither the transcript file nor the mp3 of any entry is untouched. */
  lemma {:induction false} OtherFilesUnchanged(files: map<string, FileData>, es: seq<Entry>, c: Collaborators, path: string)
    requires AllWellFormed(es)
    requires forall k :: 0 <= k < |es| ==> !IsEntryFile(es[k], path)
    ensures var after := Apply(files, BatchEffects(es, c));
            (path in after <==> path in files) && (path in files ==> after[path] == files[path])
    decreases |es|
  {
    if es != [] {
      var init, last := es[..|es| - 1], es[|es| - 1];
      assert forall k :: 0 <= k < |init| ==> init[k] == es[k];
      OtherFilesUnchanged(files, init, c, path);
      ApplyConcat(files, BatchEffects(init, c), HandleEntry(last, c).effects);
      EntrySavesOwnFiles(last, c);
      UntouchedBySaves(Apply(files, BatchEffects(init, c)), HandleEntry(last, c).effects, path);
    }
  }

  /** Effects that write other paths leave `path` alone. */
  lemma {:induction false} UntouchedBySaves(files: map<string, FileData>, effects: seq<Effect>, path: string)
    requires forall k :: 0 <= k < |effects| && effects[k].Save? ==> effects[k].path != path
    ensures var after := Apply(files, effects);
            (path in after <==> path in files) && (path in files ==> after[path] == files[path])
    decreases |effects|
  {
    if effects != [] {
      var init := effects[..|effects| - 1];
      assert forall k :: 0 <= k < |init| ==> init[k] == effects[k];
      UntouchedBySaves(files, init, path);
    }
  }

  /** Writes overwrite: whatever earlier entries wrote, after a final entry that writes a
      transcript, its transcript file holds that entry's text. */
  lemma LastTranscriptWins(files: map<string, FileData>, es: seq<Entry>, e: Entry, c: Collaborators)
    requires AllWellFormed(es) && WellFormed(e)
    requires HandleEntry(e, c).outcome.SavedFromFeed? || HandleEntry(e, c).outcome.SavedFromAudio?
    ensures AllWellFormed(es + [e])
    ensures var path := TranscriptPath(SanitizeTitle(e.title));
            var after := Apply(files, BatchEffects(es + [e], c));
            path in after &&
            after[path] == Text(if EmbeddedText(e) != "" then EmbeddedText(e)
                                else c.transcribe(AudioPath(SanitizeTitle(e.title)), c.fetch(AudioLink(e).value)).text)
  {
    BatchEffectsSnoc(es, e, c);
    ApplyConcat(files, BatchEffects(es, c), HandleEntry(e, c).effects);
    var mid := Apply(files, BatchEffects(es, c));
    var h := HandleEntry(e, c);
    if EmbeddedText(e) == "" {
      AudioFallback(mid, e, c);
    } else {
      EmbeddedTranscriptShortCircuit(mid, e, c, c);
    }
  }
}
