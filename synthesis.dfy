/**
 * What the chapter worker (flask_app/worker.py) and the single-process job
 * loop (app.py) share: the engine and filesystem they call, the voice a
 * speaker gets, the chunking of the speaker runs, the output extension and
 * the output file names.
 *
 * `engine.synthesize`, `utils.chunk_text_by_sentences`, the configuration
 * getters, `Path.exists` and the encode-and-write of a file are fields of
 * `Engine`, given as functions.
 */
module Synthesis {
  import opened Wrappers
  import opened Text
  import opened Database
  import Speakers
  import Artifacts

  /** Audio samples; their numeric type plays no part here. */
  type Samples = seq<int>

  /** What `engine.synthesize` does: raise, return no waveform, or return one with its sample rate (0 for none). */
  datatype Synth = Raised(message: string) | NoWaveform | Waveform(samples: Samples, sampleRate: nat)

  datatype Engine = Engine(
    /** `generation_defaults.chunk_size`. */
    chunkSize: int,
    /** `utils.chunk_text_by_sentences(text, chunk_size)`. */
    chunker: (string, int) -> seq<string>,
    /** `engine.synthesize(text, audio_prompt_path, ..., language)`. */
    synthesize: (string, Option<string>, string) -> Synth,
    /** `get_reference_audio_path()`. */
    referenceDir: string,
    /** `Path.exists` on a candidate prompt file. */
    fileExists: string -> bool,
    /** `get_gen_default_language()`. */
    defaultLanguage: string,
    /** `get_default_voice_id()`. */
    defaultVoiceId: Option<string>,
    /** `get_audio_sample_rate()`. */
    sampleRate: nat,
    /** `get_gen_default_sentence_pause_ms()`. */
    pauseMs: int,
    /** `get_gen_default_speed_factor()` and `librosa.effects.time_stretch`, `Err(message)` when that raises. */
    speed: real,
    stretch: (Samples, real) -> Result<Samples, string>,
    /** The settings and foreign stages of the artifact-reduction pipeline. */
    artifacts: Artifacts.Settings,
    denoise: (Samples, real) -> Option<Samples>,
    split: (Samples, real) -> Option<seq<Artifacts.Interval>>,
    transcribe: Samples -> Option<string>,
    /** Encode and write a file: `Some(message)` when that raises. */
    write: (string, Samples) -> Option<string>,
    /** `get_output_path()` and the `test_outputs` directory beside it. */
    outputDir: string,
    testDir: string)

  /** The two clock readings a worker takes: `isoformat()` and the `%Y%m%d_%H%M%S` stamp. */
  datatype Clock = Clock(iso: string, stamp: string)

  // ---------------------------------------------------------------------
  // Voices
  // ---------------------------------------------------------------------

  /** `voice_assignments.get(speaker, {})`. */
  function AssignmentOf(vas: Assignments, speaker: string): map<string, string> {
    if speaker in vas then vas[speaker] else map[]
  }

  /** `va.get("audio_prompt_path", va.get("voice", None))`: a present prompt key wins even when empty. */
  function PromptOf(va: map<string, string>): (r: Option<string>)
    ensures "audio_prompt_path" in va ==> r == Some(va["audio_prompt_path"])
    ensures "audio_prompt_path" !in va ==> r == (if "voice" in va then Some(va["voice"]) else None)
  {
    if "audio_prompt_path" in va then Some(va["audio_prompt_path"])
    else if "voice" in va then Some(va["voice"])
    else None
  }

  /** Python truthiness of an optional string: present and not empty. */
  predicate Truthy(o: Option<string>) {
    o.Some? && o.value != []
  }

  /** `va.get("lang_code", default)`: only the speaker's own assignment is consulted. */
  function LanguageOf(vas: Assignments, speaker: string, defaultLanguage: string): string {
    var va := AssignmentOf(vas, speaker);
    if "lang_code" in va then va["lang_code"] else defaultLanguage
  }

  /**
   * The voice of the chapter worker: the speaker's prompt, else the prompt
   * of the `default` assignment, else the global default voice.
   */
  function WorkerPrompt(vas: Assignments, speaker: string, defaultVoice: Option<string>): Option<string> {
    var own := PromptOf(AssignmentOf(vas, speaker));
    if Truthy(own) then own
    else
      var fallback := PromptOf(AssignmentOf(vas, "default"));
      if Truthy(fallback) then fallback else defaultVoice
  }

  /** The speaker's own prompt decides whenever it is set: the `default` assignment and the global voice are not consulted. */
  lemma OwnPromptWins(vas: Assignments, speaker: string, defaultVoice: Option<string>, other: map<string, string>, otherVoice: Option<string>)
    requires speaker != "default" && Truthy(PromptOf(AssignmentOf(vas, speaker)))
    ensures WorkerPrompt(vas, speaker, defaultVoice) == WorkerPrompt(vas["default" := other], speaker, otherVoice)
    ensures WorkerPrompt(vas, speaker, defaultVoice) == PromptOf(AssignmentOf(vas, speaker))
  {
    assert AssignmentOf(vas["default" := other], speaker) == AssignmentOf(vas, speaker);
  }

  /** Without a prompt of its own, a speaker takes the `default` prompt, and the global voice only when that is missing too. */
  lemma FallbackOrder(vas: Assignments, speaker: string, defaultVoice: Option<string>)
    requires !Truthy(PromptOf(AssignmentOf(vas, speaker)))
    ensures Truthy(PromptOf(AssignmentOf(vas, "default"))) ==> WorkerPrompt(vas, speaker, defaultVoice) == PromptOf(AssignmentOf(vas, "default"))
    ensures !Truthy(PromptOf(AssignmentOf(vas, "default"))) ==> WorkerPrompt(vas, speaker, defaultVoice) == defaultVoice
    ensures Truthy(WorkerPrompt(vas, speaker, defaultVoice)) <==> Truthy(PromptOf(AssignmentOf(vas, "default"))) || Truthy(defaultVoice)
  {
  }

  /** The language never comes from the `default` assignment. */
  lemma LanguageIgnoresDefault(vas: Assignments, speaker: string, defaultLanguage: string, other: map<string, string>)
    requires speaker != "default"
    ensures LanguageOf(vas, speaker, defaultLanguage) == LanguageOf(vas["default" := other], speaker, defaultLanguage)
    ensures speaker !in vas ==> LanguageOf(vas, speaker, defaultLanguage) == defaultLanguage
  {
    assert AssignmentOf(vas["default" := other], speaker) == AssignmentOf(vas, speaker);
  }

  /** `ref_dir / name`: an absolute name replaces the directory. */
  function JoinPath(dir: string, name: string): string {
    if name != [] && name[0] == '/' then name else dir + "/" + name
  }

  /** The prompt file handed to the engine: the candidate under the reference directory, if it exists. */
  function PromptPath(env: Engine, prompt: Option<string>): (r: Option<string>)
    ensures r.Some? ==> Truthy(prompt) && r.value == JoinPath(env.referenceDir, prompt.value) && env.fileExists(r.value)
    ensures Truthy(prompt) && env.fileExists(JoinPath(env.referenceDir, prompt.value)) ==> r.Some?
  {
    if Truthy(prompt) && env.fileExists(JoinPath(env.referenceDir, prompt.value))
    then Some(JoinPath(env.referenceDir, prompt.value)) else None
  }

  // ---------------------------------------------------------------------
  // Chunks
  // ---------------------------------------------------------------------

  /** A chunk of text with the speaker who reads it. */
  type Chunk = (string, string)

  /** The chunks of one run, each labelled with the run's speaker. */
  function Labelled(speaker: string, pieces: seq<string>): (r: seq<Chunk>)
    ensures |r| == |pieces| && forall k :: 0 <= k < |r| ==> r[k] == (speaker, pieces[k])
  {
    seq(|pieces|, k requires 0 <= k < |pieces| => (speaker, pieces[k]))
  }

  /** All chunks of a chapter: the runs in order, each chunked in order. */
  function ChunksOf(segments: seq<Speakers.Segment>, chunker: (string, int) -> seq<string>, size: int): seq<Chunk>
    decreases |segments|
  {
    if segments == [] then []
    else
      var last := segments[|segments| - 1];
      ChunksOf(segments[..|segments| - 1], chunker, size) + Labelled(last.speaker, chunker(last.text, size))
  }

  /** The nested chunking loop of the worker. */
  method ChunkSegments(segments: seq<Speakers.Segment>, chunker: (string, int) -> seq<string>, size: int)
    returns (all: seq<Chunk>)
    ensures all == ChunksOf(segments, chunker, size)
  {
    all := [];
    var s := 0;
    while s < |segments|
      invariant 0 <= s <= |segments|
      invariant all == ChunksOf(segments[..s], chunker, size)
    {
      var pieces := chunker(segments[s].text, size);
      var k := 0;
      ghost var before := all;
      while k < |pieces|
        invariant 0 <= k <= |pieces|
        invariant all == before + Labelled(segments[s].speaker, pieces[..k])
      {
        all := all + [(segments[s].speaker, pieces[k])];
        k := k + 1;
      }
      assert pieces[..k] == pieces;
      assert segments[..s + 1][..s] == segments[..s];
      s := s + 1;
    }
    assert segments[..|segments|] == segments;
  }

  /** Chunking a chapter is chunking its runs one after the other. */
  lemma {:induction false} ChunksOfAppend(a: seq<Speakers.Segment>, b: seq<Speakers.Segment>, chunker: (string, int) -> seq<string>, size: int)
    ensures ChunksOf(a + b, chunker, size) == ChunksOf(a, chunker, size) + ChunksOf(b, chunker, size)
    decreases |b|
  {
    if b != [] {
      var init := b[..|b| - 1];
      assert (a + b)[..|a + b| - 1] == a + init;
      ChunksOfAppend(a, init, chunker, size);
    } else {
      assert a + b == a;
    }
  }

  /** Every chunk is read by the speaker of one of the runs, and a run whose chunker output is not empty gives chunks. */
  lemma {:induction false} ChunkSpeakers(segments: seq<Speakers.Segment>, chunker: (string, int) -> seq<string>, size: int)
    ensures forall c :: c in ChunksOf(segments, chunker, size) ==> exists s :: s in segments && s.speaker == c.0 && c.1 in chunker(s.text, size)
    ensures (exists s :: s in segments && chunker(s.text, size) != []) ==> ChunksOf(segments, chunker, size) != []
    decreases |segments|
  {
    if segments != [] {
      var init := segments[..|segments| - 1];
      var last := segments[|segments| - 1];
      ChunkSpeakers(init, chunker, size);
      forall c | c in ChunksOf(segments, chunker, size)
        ensures exists s :: s in segments && s.speaker == c.0 && c.1 in chunker(s.text, size)
      {
        if c in ChunksOf(init, chunker, size) {
          var s :| s in init && s.speaker == c.0 && c.1 in chunker(s.text, size);
          assert s in segments;
        } else {
          var pieces := Labelled(last.speaker, chunker(last.text, size));
          assert c in pieces;
          var k :| 0 <= k < |pieces| && pieces[k] == c;
          assert chunker(last.text, size)[k] == c.1;
        }
      }
      if exists s :: s in segments && chunker(s.text, size) != [] {
        var s :| s in segments && chunker(s.text, size) != [];
        if s != last {
          var k :| 0 <= k < |segments| && segments[k] == s;
          assert init[k] == s;
        }
      }
    }
  }

  // ---------------------------------------------------------------------
  // Output names
  // ---------------------------------------------------------------------

  /** `output_format if output_format in ("mp3", "wav", "ogg") else "wav"`. */
  function Extension(format: string): (ext: string)
    ensures ext == "mp3" || ext == "wav" || ext == "ogg"
    ensures format == "mp3" || format == "wav" || format == "ogg" ==> ext == format
  {
    if format == "mp3" || format == "wav" || format == "ogg" then format else "wav"
  }

  /** `f"{i + 1}.{ext}"`: chapters are numbered from one. */
  function ChapterFileName(i: nat, ext: string): string {
    NatToString(i + 1) + "." + ext
  }

  /** `f"/outputs/{job_id}/{i + 1}.{ext}"`. */
  function ChapterUrl(jobId: string, i: nat, ext: string): string {
    "/outputs/" + jobId + "/" + ChapterFileName(i, ext)
  }

  /** The finalised output list: one entry per chapter, in chapter order. */
  function OutputList(jobId: string, n: nat, ext: string): (r: seq<string>)
    ensures |r| == n && forall i :: 0 <= i < n ==> r[i] == ChapterUrl(jobId, i, ext)
  {
    seq(n, i requires 0 <= i < n => ChapterUrl(jobId, i, ext))
  }

  /** Different chapters get different numbers. */
  lemma {:induction false} NatToStringInjective(a: nat, b: nat)
    requires NatToString(a) == NatToString(b)
    ensures a == b
    decreases a
  {
    var x := NatToString(a);
    if a >= 10 && b >= 10 {
      var pa := NatToString(a / 10);
      var pb := NatToString(b / 10);
      assert x[..|x| - 1] == pa && x[..|x| - 1] == pb;
      NatToStringInjective(a / 10, b / 10);
    }
  }

  /** The finalised output list names every chapter once. */
  lemma OutputListDistinct(jobId: string, n: nat, ext: string, i: nat, j: nat)
    requires i < j < n
    ensures OutputList(jobId, n, ext)[i] != OutputList(jobId, n, ext)[j]
  {
    var prefix := "/outputs/" + jobId + "/";
    var a := NatToString(i + 1);
    var b := NatToString(j + 1);
    if ChapterUrl(jobId, i, ext) == ChapterUrl(jobId, j, ext) {
      assert ChapterUrl(jobId, i, ext) == prefix + (a + "." + ext);
      assert ChapterUrl(jobId, j, ext) == prefix + (b + "." + ext);
      assert a + "." + ext == b + "." + ext by {
        assert (prefix + (a + "." + ext))[|prefix|..] == a + "." + ext;
        assert (prefix + (b + "." + ext))[|prefix|..] == b + "." + ext;
      }
      DigitsBeforeDot(a, b, ext);
      NatToStringInjective(i + 1, j + 1);
    }
  }

  /** Two digit strings followed by a dot and the same suffix are equal only if the digits are. */
  lemma DigitsBeforeDot(a: string, b: string, ext: string)
    requires forall k :: 0 <= k < |a| ==> '0' <= a[k] <= '9'
    requires forall k :: 0 <= k < |b| ==> '0' <= b[k] <= '9'
    requires a + "." + ext == b + "." + ext
    ensures a == b
  {
    var s := a + "." + ext;
    assert |a| == |b|;
    assert a == s[..|a|] == b;
  }

  /** The file of a chapter under the job's output directory. */
  function ChapterPath(env: Engine, jobId: string, chIdx: nat, ext: string): string {
    JoinPath(env.outputDir, jobId + "/" + ChapterFileName(chIdx, ext))
  }

  /** The test-pipeline file name `test_{stamp}_{job_id[:8]}.{ext}`. */
  function TestFileName(stamp: string, jobId: string, ext: string): string {
    "test_" + stamp + "_" + Take(jobId, 8) + "." + ext
  }

  // ---------------------------------------------------------------------
  // Audio of one chunk
  // ---------------------------------------------------------------------

  /** `np.concatenate(audio_parts)`. */
  function Flatten(parts: seq<Samples>): Samples
    decreases |parts|
  {
    if parts == [] then [] else Flatten(parts[..|parts| - 1]) + parts[|parts| - 1]
  }

  /** Concatenating all parts is concatenating the two halves. */
  lemma {:induction false} FlattenAppend(a: seq<Samples>, b: seq<Samples>)
    ensures Flatten(a + b) == Flatten(a) + Flatten(b)
    decreases |b|
  {
    if b == [] {
      assert a + b == a;
    } else {
      var init, last := b[..|b| - 1], b[|b| - 1];
      assert (a + b)[..|a + b| - 1] == a + init && (a + b)[|a + b| - 1] == last;
      FlattenAppend(a, init);
      SamplesAssociate(Flatten(a), Flatten(init), last);
    }
  }

  lemma SamplesAssociate(x: Samples, y: Samples, z: Samples)
    ensures x + y + z == x + (y + z)
  {
  }

  /** `np.zeros(n)`. */
  function Zeros(n: nat): (r: Samples)
    ensures |r| == n && forall k :: 0 <= k < n ==> r[k] == 0
  {
    seq(n, k => 0)
  }

  /** `int(sr * (pause_ms / 1000.0))`. */
  function PauseSamples(sampleRate: nat, pauseMs: int): int {
    Artifacts.Trunc(sampleRate as real * (pauseMs as real / 1000.0))
  }

  /** The padding after a produced chunk, non-empty once the rate and the pause are large enough. */
  lemma PauseSamplesNonNegative(sampleRate: nat, pauseMs: int)
    requires pauseMs > 0
    ensures PauseSamples(sampleRate, pauseMs) >= 0
    ensures sampleRate * pauseMs >= 1000 ==> PauseSamples(sampleRate, pauseMs) >= 1
  {
    var x := sampleRate as real * (pauseMs as real / 1000.0);
    assert x == (sampleRate * pauseMs) as real / 1000.0;
  }
}
