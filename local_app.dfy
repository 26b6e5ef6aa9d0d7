/**
 * The single-process server of app.py: the in-memory `job_flags` that its
 * job routes write, and `_process_job(job_id)`, the thread that reads a
 * job's chapters and chunks in order, polls the flags for cancellation and
 * pause, writes progress and the output list, and drops the job's flags
 * when it ends.
 *
 * Other requests may pause, resume, cancel or delete the job while it runs.
 * They are a schedule `events`: before each read of the flags the next
 * request of the schedule, if any, is served. A job that stays paused when
 * the schedule has run out would be polled forever; the model stops there
 * with `Suspended`.
 */
module LocalApp {
  import opened Wrappers
  import opened Text
  import opened Database
  import Normaliser
  import Speakers
  import opened Synthesis
  import Routes

  // ---------------------------------------------------------------------
  // Flags
  // ---------------------------------------------------------------------

  /** The flags of one job: `_cancel` and `_paused`. */
  datatype Flags = Flags(cancel: bool, paused: bool)

  /** `job_flags.get(job_id, {})`: a job without an entry reads as neither cancelled nor paused. */
  function FlagsOf(flags: map<string, Flags>, id: string): (f: Flags)
    ensures id !in flags ==> f == Flags(false, false)
  {
    if id in flags then flags[id] else Flags(false, false)
  }

  /** `job_flags`, guarded by `job_flags_lock`; requests and job threads take turns on it. */
  class Runtime {
    var flags: map<string, Flags>

    constructor()
      ensures flags == map[]
    {
      flags := map[];
    }

    /** `job_flags[job_id] = {"_cancel": False, "_paused": False}`. */
    method Register(jobId: string)
      modifies this
      ensures flags == old(flags)[jobId := Flags(false, false)]
    {
      flags := flags[jobId := Flags(false, false)];
    }
  }

  // ---------------------------------------------------------------------
  // Routes
  // ---------------------------------------------------------------------

  /**
   * What `api_generate` leaves in the `jobs` table and returns: 400 when
   * both the stripped text and the chapter list are empty; 500, with the
   * table unchanged, when the id is taken; otherwise the `queued` row titled
   * after the first line (`Bez tytułu` when nothing is left) and the
   * active-job count.
   */
  ghost predicate Inserted(jobs0: map<string, JobRow>, jobs: map<string, JobRow>,
                           r: Result<(string, nat), (int, string)>, text: string, chapters: seq<string>,
                           outputFormat: string, outputBitrateKbps: int, voiceAssignments: Assignments,
                           ttsEngine: string, jobId: string, now: string)
  {
    && (chapters == [] && Strip(text) == [] ==> r == Err((400, "Tekst jest pusty")))
    && (r.Err? ==> jobs == jobs0)
    && (r.Err? && (chapters != [] || Strip(text) != []) ==> r.error.0 == 500 && jobId in jobs0)
    && (r.Ok? ==>
          && jobId !in jobs0 && r.value.0 == jobId
          && jobs == jobs0[jobId := NewRow(jobId, Routes.FirstLineTitle(Strip(text), chapters, "Bez tytułu"),
                                           Strip(text), outputFormat, outputBitrateKbps, voiceAssignments, ttsEngine,
                                           chapters != [], chapters, Routes.ChapterCount(chapters), "baseline", now)]
          && r.value.1 == CountActive(jobs))
  }

  /**
   * `api_generate`: the row and reply `Inserted` describes; fresh flags for
   * a new job and no flags change otherwise. The thread it starts is
   * `ProcessJob`.
   */
  method Generate(store: Store, rt: Runtime, text: string, chapters: seq<string>, outputFormat: string,
                  outputBitrateKbps: int, voiceAssignments: Assignments, ttsEngine: string,
                  jobId: string, now: string)
    returns (r: Result<(string, nat), (int, string)>)
    requires store.Valid()
    modifies store, rt
    ensures store.Valid()
    ensures Inserted(old(store.jobs), store.jobs, r, text, chapters, outputFormat, outputBitrateKbps,
                     voiceAssignments, ttsEngine, jobId, now)
    ensures rt.flags == if r.Ok? then old(rt.flags)[jobId := Flags(false, false)] else old(rt.flags)
    ensures store.dictionary == old(store.dictionary) && store.chapterStates == old(store.chapterStates)
  {
    ghost var flags := rt.flags;
    r := Insert(store, text, chapters, outputFormat, outputBitrateKbps, voiceAssignments, ttsEngine, jobId, now);
    ghost var jobs := store.jobs;
    assert Inserted(old(store.jobs), jobs, r, text, chapters, outputFormat, outputBitrateKbps,
                    voiceAssignments, ttsEngine, jobId, now);
    assert rt.flags == flags;
    if r.Ok? {
      rt.Register(jobId);
      assert store.jobs == jobs && store.Valid();
    }
  }

  /** The database half of `api_generate`, before the flags are set. */
  method Insert(store: Store, text: string, chapters: seq<string>, outputFormat: string,
                outputBitrateKbps: int, voiceAssignments: Assignments, ttsEngine: string,
                jobId: string, now: string)
    returns (r: Result<(string, nat), (int, string)>)
    requires store.Valid()
    modifies store
    ensures store.Valid()
    ensures Inserted(old(store.jobs), store.jobs, r, text, chapters, outputFormat, outputBitrateKbps,
                     voiceAssignments, ttsEngine, jobId, now)
    ensures store.dictionary == old(store.dictionary) && store.chapterStates == old(store.chapterStates)
  {
    var body := Strip(text);
    if chapters == [] && body == [] {
      return Err((400, "Tekst jest pusty"));
    }
    var title := Routes.FirstLineTitle(body, chapters, "Bez tytułu");
    var n := Routes.ChapterCount(chapters);
    var created := store.CreateJob(jobId, title, body, outputFormat, outputBitrateKbps, voiceAssignments, ttsEngine,
                                   chapters != [], chapters, n, "baseline", now);
    if created.Err? {
      return Err((500, created.error));
    }
    var active := store.ActiveCount();
    r := Ok((jobId, active));
  }

  /** A request another client may send for a running job. */
  type Request = Routes.Control

  /** The flags a pause, resume or cancel request leaves for a known job. */
  function Flagged(f: Flags, c: Request): Flags {
    match c
    case PauseJob => f.(paused := true)
    case ResumeJob => f.(paused := false)
    case _ => Flags(true, false)
  }

  /**
   * The rows and flags after a request: pause, resume and cancel change only
   * the flags of a known job; delete removes the row and, when there was
   * one, the flags.
   */
  function Requested(jobs: map<string, JobRow>, flags: map<string, Flags>, id: string, c: Request)
    : (map<string, JobRow>, map<string, Flags>)
  {
    match c
    case DeleteJob => (jobs - {id}, if id in jobs then flags - {id} else flags)
    case _ => if id in jobs then (jobs, flags[id := Flagged(FlagsOf(flags, id), c)]) else (jobs, flags)
  }

  /** `api_pause_job`: 404 for an unknown job, otherwise `_paused` is set and the row is not touched. */
  method Pause(store: Store, rt: Runtime, jobId: string) returns (code: int)
    requires store.Valid()
    modifies rt
    ensures code == 404 <==> jobId !in store.jobs
    ensures code != 404 ==> code == 200
    ensures (store.jobs, rt.flags) == Requested(store.jobs, old(rt.flags), jobId, Routes.PauseJob)
  {
    if store.GetJob(jobId).None? {
      return 404;
    }
    var f := FlagsOf(rt.flags, jobId);
    rt.flags := rt.flags[jobId := f.(paused := true)];
    return 200;
  }

  /** `api_resume_job`: 404 for an unknown job, otherwise `_paused` is cleared. */
  method Resume(store: Store, rt: Runtime, jobId: string) returns (code: int)
    requires store.Valid()
    modifies rt
    ensures code == 404 <==> jobId !in store.jobs
    ensures code != 404 ==> code == 200
    ensures (store.jobs, rt.flags) == Requested(store.jobs, old(rt.flags), jobId, Routes.ResumeJob)
  {
    if store.GetJob(jobId).None? {
      return 404;
    }
    var f := FlagsOf(rt.flags, jobId);
    rt.flags := rt.flags[jobId := f.(paused := false)];
    return 200;
  }

  /** `api_cancel_job`: 404 for an unknown job, otherwise `_cancel` is set and `_paused` cleared. */
  method Cancel(store: Store, rt: Runtime, jobId: string) returns (code: int)
    requires store.Valid()
    modifies rt
    ensures code == 404 <==> jobId !in store.jobs
    ensures code != 404 ==> code == 200
    ensures (store.jobs, rt.flags) == Requested(store.jobs, old(rt.flags), jobId, Routes.CancelJob)
  {
    if store.GetJob(jobId).None? {
      return 404;
    }
    var f := FlagsOf(rt.flags, jobId);
    rt.flags := rt.flags[jobId := f.(cancel := true, paused := false)];
    return 200;
  }

  /** `api_delete_job`: 404 when no row went, and then the flags stay; otherwise the flags entry goes too. */
  method Delete(store: Store, rt: Runtime, jobId: string) returns (code: int)
    requires store.Valid()
    modifies store, rt
    ensures store.Valid()
    ensures code == 404 <==> jobId !in old(store.jobs)
    ensures code != 404 ==> code == 200
    ensures (store.jobs, rt.flags) == Requested(old(store.jobs), old(rt.flags), jobId, Routes.DeleteJob)
    ensures store.dictionary == old(store.dictionary) && store.chapterStates == old(store.chapterStates)
  {
    var deleted := store.DeleteJob(jobId);
    if !deleted {
      return 404;
    }
    rt.flags := rt.flags - {jobId};
    return 200;
  }

  /** Serve one request for `jobId`. */
  method Serve(store: Store, rt: Runtime, jobId: string, c: Request)
    requires store.Valid()
    modifies store, rt
    ensures store.Valid()
    ensures (store.jobs, rt.flags) == Requested(old(store.jobs), old(rt.flags), jobId, c)
    ensures store.dictionary == old(store.dictionary) && store.chapterStates == old(store.chapterStates)
  {
    var code: int;
    match c
    case PauseJob => code := Pause(store, rt, jobId);
    case ResumeJob => code := Resume(store, rt, jobId);
    case CancelJob => code := Cancel(store, rt, jobId);
    case DeleteJob => code := Delete(store, rt, jobId);
  }

  /** A request touches only its own job, and a deleted row does not come back. */
  lemma RequestConfined(jobs: map<string, JobRow>, flags: map<string, Flags>, id: string, c: Request)
    ensures Requested(jobs, flags, id, c).0 - {id} == jobs - {id}
    ensures Requested(jobs, flags, id, c).1 - {id} == flags - {id}
    ensures id in Requested(jobs, flags, id, c).0 ==> id in jobs && Requested(jobs, flags, id, c).0[id] == jobs[id]
  {
  }

  /**
   * Cancelling clears a pause; once set, the cancel flag survives every
   * later pause, resume and cancel, and only a delete that removes the row
   * removes it.
   */
  lemma CancelSticks(jobs: map<string, JobRow>, flags: map<string, Flags>, id: string, c: Request)
    ensures id in jobs ==> FlagsOf(Requested(jobs, flags, id, Routes.CancelJob).1, id) == Flags(true, false)
    ensures FlagsOf(flags, id).cancel && c != Routes.DeleteJob ==> FlagsOf(Requested(jobs, flags, id, c).1, id).cancel
    ensures c == Routes.DeleteJob && id in jobs ==> FlagsOf(Requested(jobs, flags, id, c).1, id) == Flags(false, false)
  {
  }

  // ---------------------------------------------------------------------
  // What a job run reads and writes
  // ---------------------------------------------------------------------

  /** The chapter texts `_process_job` walks: each chapter through the dictionary, or the whole text as one chapter. */
  function Texts(dictionary: map<string, string>, job: Job): (r: seq<string>)
    ensures |r| == Routes.ChapterCount(job.chapters)
  {
    if job.chapters == [] then [Normaliser.Normalise(dictionary, job.text)]
    else seq(|job.chapters|, k requires 0 <= k < |job.chapters| => Normaliser.Normalise(dictionary, job.chapters[k]))
  }

  /** The chunks of a chapter text: its speaker runs, each cut into sentence chunks. */
  function TextChunks(env: Engine, text: string): seq<Chunk> {
    ChunksOf(Speakers.Segments(text), env.chunker, env.chunkSize)
  }

  /** The prompt of this server: the speaker's own assignment only, with no `default` assignment and no global voice. */
  function AppPrompt(vas: Assignments, speaker: string): Option<string> {
    PromptOf(AssignmentOf(vas, speaker))
  }

  /** Unlike the chapter worker, a speaker without a prompt of its own gets none, whatever the `default` assignment holds. */
  lemma NoDefaultVoice(vas: Assignments, speaker: string, defaultVoice: Option<string>)
    requires !Truthy(AppPrompt(vas, speaker)) && Truthy(PromptOf(AssignmentOf(vas, "default")))
    ensures !Truthy(AppPrompt(vas, speaker))
    ensures WorkerPrompt(vas, speaker, defaultVoice) == PromptOf(AssignmentOf(vas, "default")) != AppPrompt(vas, speaker)
  {
    FallbackOrder(vas, speaker, defaultVoice);
  }

  /** The engine call for a chunk. */
  function AppSynth(env: Engine, vas: Assignments, c: Chunk): Synth {
    env.synthesize(c.1, PromptPath(env, AppPrompt(vas, c.0)), LanguageOf(vas, c.0, env.defaultLanguage))
  }

  /** The audio a chunk adds: one part for a waveform, none without, or the exception. */
  function Part(env: Engine, vas: Assignments, c: Chunk): Result<seq<Samples>, string> {
    match AppSynth(env, vas, c)
    case Raised(m) => Err(m)
    case NoWaveform => Ok([])
    case Waveform(samples, _) => Ok([samples])
  }

  /** The parts of the chunks in order, or the first exception. */
  function Parts(env: Engine, vas: Assignments, chunks: seq<Chunk>): Result<seq<Samples>, string>
    decreases |chunks|
  {
    if chunks == [] then Ok([])
    else
      match Parts(env, vas, chunks[..|chunks| - 1])
      case Err(m) => Err(m)
      case Ok(done) =>
        match Part(env, vas, chunks[|chunks| - 1])
        case Err(m) => Err(m)
        case Ok(more) => Ok(done + more)
  }

  /** One more chunk extends the parts of the chunks before it. */
  lemma PartsStep(env: Engine, vas: Assignments, chunks: seq<Chunk>, i: nat, done: seq<Samples>)
    requires i < |chunks| && Parts(env, vas, chunks[..i]) == Ok(done)
    ensures Part(env, vas, chunks[i]).Err? ==> Parts(env, vas, chunks[..i + 1]) == Err(Part(env, vas, chunks[i]).error)
    ensures Part(env, vas, chunks[i]).Ok? ==> Parts(env, vas, chunks[..i + 1]) == Ok(done + Part(env, vas, chunks[i]).value)
  {
    assert chunks[..i + 1][..i] == chunks[..i];
  }

  /** An exception ends the reading of a chapter: the chunks after it do not change the outcome. */
  lemma {:induction false} PartsErrPersists(env: Engine, vas: Assignments, chunks: seq<Chunk>, k: nat)
    requires k <= |chunks| && Parts(env, vas, chunks[..k]).Err?
    ensures Parts(env, vas, chunks) == Parts(env, vas, chunks[..k])
    decreases |chunks| - k
  {
    if k < |chunks| {
      assert chunks[..k + 1][..k] == chunks[..k];
      PartsErrPersists(env, vas, chunks, k + 1);
    } else {
      assert chunks[..k] == chunks;
    }
  }

  /** Whether chapter `k` with these chunks writes its file, or the exception that ends the job there. */
  function ChunkOutcome(env: Engine, vas: Assignments, jobId: string, ext: string, k: nat, chunks: seq<Chunk>): Result<bool, string> {
    match Parts(env, vas, chunks)
    case Err(m) => Err(m)
    case Ok(parts) =>
      if parts == [] then Ok(false)
      else if env.write(ChapterPath(env, jobId, k, ext), Flatten(parts)).Some? then Err(env.write(ChapterPath(env, jobId, k, ext), Flatten(parts)).value)
      else Ok(true)
  }

  /** The outcome of chapter `k` with its text. */
  function ChapterOutcome(env: Engine, vas: Assignments, jobId: string, ext: string, k: nat, text: string): Result<bool, string> {
    ChunkOutcome(env, vas, jobId, ext, k, TextChunks(env, text))
  }

  /** The outcome of every chapter, as if each were reached. */
  function Outcomes(env: Engine, vas: Assignments, jobId: string, ext: string, texts: seq<string>): (r: seq<Result<bool, string>>)
    ensures |r| == |texts|
  {
    seq(|texts|, k requires 0 <= k < |texts| => ChapterOutcome(env, vas, jobId, ext, k, texts[k]))
  }

  /** The chapters that write a file, in order, up to the first exception, which ends the job. */
  function Collect(outcomes: seq<Result<bool, string>>): Result<seq<nat>, string>
    decreases |outcomes|
  {
    if outcomes == [] then Ok([])
    else
      var n := |outcomes| - 1;
      match Collect(outcomes[..n])
      case Err(m) => Err(m)
      case Ok(ks) =>
        match outcomes[n]
        case Err(m) => Err(m)
        case Ok(wrote) => Ok(if wrote then ks + [n] else ks)
  }

  /** What the chapters of a job deliver when every one is reached. */
  function Outputs(env: Engine, vas: Assignments, jobId: string, ext: string, texts: seq<string>): Result<seq<nat>, string> {
    Collect(Outcomes(env, vas, jobId, ext, texts))
  }

  /** One more chapter extends the collection of the chapters before it. */
  lemma CollectStep(outcomes: seq<Result<bool, string>>, k: nat, ks: seq<nat>)
    requires k < |outcomes| && Collect(outcomes[..k]) == Ok(ks)
    ensures outcomes[k].Err? ==> Collect(outcomes[..k + 1]) == Err(outcomes[k].error)
    ensures outcomes[k] == Ok(true) ==> Collect(outcomes[..k + 1]) == Ok(ks + [k])
    ensures outcomes[k] == Ok(false) ==> Collect(outcomes[..k + 1]) == Ok(ks)
  {
    assert outcomes[..k + 1][..k] == outcomes[..k];
  }

  /**
   * The chapters that write a file are exactly those whose outcome says so,
   * each once and in chapter order.
   */
  lemma {:induction false} CollectInOrder(outcomes: seq<Result<bool, string>>)
    requires Collect(outcomes).Ok?
    ensures var ks := Collect(outcomes).value;
      (forall j :: 0 <= j < |ks| ==> ks[j] < |outcomes|)
      && (forall i, j :: 0 <= i < j < |ks| ==> ks[i] < ks[j])
      && (forall k :: 0 <= k < |outcomes| ==> (k in ks <==> outcomes[k] == Ok(true)))
    decreases |outcomes|
  {
    if outcomes != [] {
      var n := |outcomes| - 1;
      var prefix := outcomes[..n];
      CollectInOrder(prefix);
      assert forall k :: 0 <= k < n ==> prefix[k] == outcomes[k];
    }
  }

  /** An exception ends the job: the chapters after it do not change what the job delivers. */
  lemma {:induction false} CollectErrPersists(outcomes: seq<Result<bool, string>>, k: nat)
    requires k <= |outcomes| && Collect(outcomes[..k]).Err?
    ensures Collect(outcomes) == Collect(outcomes[..k])
    decreases |outcomes| - k
  {
    if k < |outcomes| {
      assert outcomes[..k + 1][..k] == outcomes[..k];
      CollectErrPersists(outcomes, k + 1);
    } else {
      assert outcomes[..k] == outcomes;
    }
  }

  /** The output files of a job that delivers are named after the chapters that wrote audio, skipped ones not renumbered. */
  lemma OutputsNamed(env: Engine, vas: Assignments, jobId: string, ext: string, texts: seq<string>)
    requires Outputs(env, vas, jobId, ext, texts).Ok?
    ensures var ks := Outputs(env, vas, jobId, ext, texts).value;
      (forall i, j :: 0 <= i < j < |ks| ==> ks[i] < ks[j])
      && (forall k :: 0 <= k < |texts| ==> (k in ks <==> ChapterOutcome(env, vas, jobId, ext, k, texts[k]) == Ok(true)))
  {
    CollectInOrder(Outcomes(env, vas, jobId, ext, texts));
  }

  /** `f"/outputs/{job_id}/{ch_idx + 1}.{ext}"` for each chapter that wrote a file. */
  function Urls(jobId: string, ks: seq<nat>, ext: string): (r: seq<string>)
    ensures |r| == |ks| && forall j :: 0 <= j < |ks| ==> r[j] == ChapterUrl(jobId, ks[j], ext)
  {
    seq(|ks|, j requires 0 <= j < |ks| => ChapterUrl(jobId, ks[j], ext))
  }

  /** How `_process_job` ends. */
  datatype End =
    | Gone                       // no job row at the start
    | Stopped                    // a cancel flag was seen before a chapter or a chunk
    | Suspended                  // still paused when the schedule ran out
    | NoAudio                    // every chapter done, none wrote a file
    | Delivered(files: seq<string>)
    | Crashed(message: string)   // an exception, caught by the handler

  /** The end of a run that gets through every chapter, or stops at an exception. */
  function Verdict(jobId: string, ext: string, r: Result<seq<nat>, string>): End {
    match r
    case Err(m) => Crashed(m)
    case Ok(ks) => if ks == [] then NoAudio else Delivered(Urls(jobId, ks, ext))
  }

  /** The message a job without any audio fails with. */
  const NoAudioMessage := "Synteza nie wygenerowała żadnego audio"

  // ---------------------------------------------------------------------
  // Progress
  // ---------------------------------------------------------------------

  /**
   * `min(int((ch_idx * total_chunks + i + 1) / (total_chapters * max(total_chunks, 1)) * 100), 99)`
   * after chunk `i` of `n`, in integer arithmetic.
   */
  function ProgressAt(chIdx: nat, n: nat, i: nat, total: nat): int
    requires n >= 1 && total >= 1
  {
    var overall := (chIdx * n + i + 1) * 100 / (total * n);
    if overall < 99 then overall else 99
  }

  /** Multiplying by a natural number keeps the order. */
  lemma {:induction false} MulMonotone(x: int, y: int, d: nat)
    requires x <= y
    ensures x * d <= y * d
    decreases d
  {
    if d > 0 {
      MulMonotone(x, y, d - 1);
      assert x * d == x * (d - 1) + x && y * d == y * (d - 1) + y;
    }
  }

  /** Dividing by a positive number keeps the order. */
  lemma DivMonotone(a: nat, b: nat, d: nat)
    requires a <= b && d > 0
    ensures a / d <= b / d
  {
    var q1, q2 := a / d, b / d;
    assert a == q1 * d + a % d && b == q2 * d + b % d;
    if q1 > q2 {
      MulMonotone(q2 + 1, q1, d);
      assert false;
    }
  }

  /** Within a chapter the progress never goes back, and it stays in 0..99. */
  lemma ProgressGrows(chIdx: nat, n: nat, i: nat, j: nat, total: nat)
    requires n >= 1 && total >= 1 && i <= j
    ensures 0 <= ProgressAt(chIdx, n, i, total) <= ProgressAt(chIdx, n, j, total) <= 99
  {
    DivMonotone((chIdx * n + i + 1) * 100, (chIdx * n + j + 1) * 100, total * n);
  }

  /** The last chunk of the last chapter reaches 100 percent before the cap, and is written as 99. */
  lemma ProgressCappedAtEnd(n: nat, total: nat)
    requires n >= 1 && total >= 1
    ensures (((total - 1) * n + (n - 1) + 1) * 100) / (total * n) == 100
    ensures ProgressAt(total - 1, n, n - 1, total) == 99
  {
    assert (total - 1) * n + (n - 1) + 1 == total * n;
    assert (total * n) * 100 / (total * n) == 100;
  }

  // ---------------------------------------------------------------------
  // The rows and flags a run may change
  // ---------------------------------------------------------------------

  /** Only the job's own row and flags change, and a row that went does not come back. */
  predicate Local(jobs0: map<string, JobRow>, jobs1: map<string, JobRow>, flags0: map<string, Flags>, flags1: map<string, Flags>, id: string) {
    jobs1 - {id} == jobs0 - {id} && flags1 - {id} == flags0 - {id} && (id in jobs1 ==> id in jobs0)
  }

  /** The row's progress is at most 99, or as it was. */
  predicate Capped(jobs0: map<string, JobRow>, jobs1: map<string, JobRow>, id: string) {
    id in jobs1 && id in jobs0 ==> jobs1[id].progress <= 99 || jobs1[id].progress == jobs0[id].progress
  }

  lemma LocalTrans(j0: map<string, JobRow>, j1: map<string, JobRow>, j2: map<string, JobRow>,
                   f0: map<string, Flags>, f1: map<string, Flags>, f2: map<string, Flags>, id: string)
    requires Local(j0, j1, f0, f1, id) && Local(j1, j2, f1, f2, id)
    requires Capped(j0, j1, id) && Capped(j1, j2, id)
    ensures Local(j0, j2, f0, f2, id) && Capped(j0, j2, id)
  {
  }

  /** The row holds `st`, if it is still there. */
  predicate Shows(jobs: map<string, JobRow>, id: string, st: Status) {
    id in jobs ==> jobs[id].status == st
  }

  /** An update with one keyword argument. */
  lemma UpdatedOne(jobs: map<string, JobRow>, id: string, f: Field)
    ensures Updated(jobs, id, [f]) == if id in jobs then jobs[id := ApplyField(jobs[id], f)] else jobs
  {
    var fs := [f];
    assert fs[1..] == [];
    if id in jobs {
      assert ApplyFields(jobs[id], fs) == ApplyFields(ApplyField(jobs[id], fs[0]), []);
    }
  }

  /** An update with two keyword arguments. */
  lemma UpdatedTwo(jobs: map<string, JobRow>, id: string, f: Field, g: Field)
    ensures Updated(jobs, id, [f, g]) == if id in jobs then jobs[id := ApplyField(ApplyField(jobs[id], f), g)] else jobs
  {
    var fs := [f, g];
    assert fs[1..] == [g] && fs[1..][1..] == [];
    if id in jobs {
      var r := ApplyField(jobs[id], f);
      assert ApplyFields(jobs[id], fs) == ApplyFields(r, [g]);
      assert ApplyFields(r, [g]) == ApplyFields(ApplyField(r, g), []);
    }
  }

  /** An update of one row leaves the others alone. */
  lemma UpdateConfined(jobs: map<string, JobRow>, id: string, r: JobRow)
    ensures jobs[id := r] - {id} == jobs - {id}
  {
  }

  /** `db_update_job(job_id, status=st)`. */
  method SetState(store: Store, jobId: string, st: Status)
    requires store.Valid()
    modifies store
    ensures store.Valid()
    ensures store.jobs == if jobId in old(store.jobs) then old(store.jobs)[jobId := old(store.jobs)[jobId].(status := st)] else old(store.jobs)
    ensures store.jobs - {jobId} == old(store.jobs) - {jobId} && (jobId in store.jobs <==> jobId in old(store.jobs))
    ensures store.dictionary == old(store.dictionary) && store.chapterStates == old(store.chapterStates)
  {
    if jobId in store.jobs {
      UpdateConfined(store.jobs, jobId, store.jobs[jobId].(status := st));
    }
    UpdatedOne(store.jobs, jobId, SetStatus(st));
    store.UpdateJob(jobId, [SetStatus(st)]);
  }

  /** `db_update_job` with two keyword arguments. */
  method SetTwo(store: Store, jobId: string, f: Field, g: Field)
    requires store.Valid()
    modifies store
    ensures store.Valid()
    ensures store.jobs == if jobId in old(store.jobs) then old(store.jobs)[jobId := ApplyField(ApplyField(old(store.jobs)[jobId], f), g)] else old(store.jobs)
    ensures store.jobs - {jobId} == old(store.jobs) - {jobId} && (jobId in store.jobs <==> jobId in old(store.jobs))
    ensures store.dictionary == old(store.dictionary) && store.chapterStates == old(store.chapterStates)
  {
    if jobId in store.jobs {
      UpdateConfined(store.jobs, jobId, ApplyField(ApplyField(store.jobs[jobId], f), g));
    }
    UpdatedTwo(store.jobs, jobId, f, g);
    store.UpdateJob(jobId, [f, g]);
  }

  // ---------------------------------------------------------------------
  // The job thread
  // ---------------------------------------------------------------------

  /** Serve the next request of the schedule, if any. */
  method Observe(store: Store, rt: Runtime, jobId: string, events: seq<Request>) returns (rest: seq<Request>)
    requires store.Valid()
    modifies store, rt
    ensures store.Valid()
    ensures events == [] ==> rest == [] && store.jobs == old(store.jobs) && rt.flags == old(rt.flags)
    ensures events != [] ==> rest == events[1..] && (store.jobs, rt.flags) == Requested(old(store.jobs), old(rt.flags), jobId, events[0])
    ensures Local(old(store.jobs), store.jobs, old(rt.flags), rt.flags, jobId)
    ensures jobId in store.jobs ==> store.jobs[jobId] == old(store.jobs)[jobId]
    ensures store.dictionary == old(store.dictionary) && store.chapterStates == old(store.chapterStates)
  {
    if events == [] {
      return [];
    }
    RequestConfined(store.jobs, rt.flags, jobId, events[0]);
    Serve(store, rt, jobId, events[0]);
    rest := events[1..];
  }

  /**
   * The pause poll (app.py:269-275): while the flags say paused the row is
   * written `paused` and read again. `go` is false when the schedule has
   * run out with the job still paused.
   */
  method Gate(store: Store, rt: Runtime, jobId: string, events: seq<Request>) returns (go: bool, rest: seq<Request>)
    requires store.Valid()
    modifies store, rt
    ensures store.Valid()
    ensures Local(old(store.jobs), store.jobs, old(rt.flags), rt.flags, jobId) && Capped(old(store.jobs), store.jobs, jobId)
    ensures go ==> !FlagsOf(rt.flags, jobId).paused
    ensures !go ==> FlagsOf(rt.flags, jobId).paused && rest == [] && Shows(store.jobs, jobId, Paused)
    ensures events == [] ==> rest == [] && rt.flags == old(rt.flags)
    ensures events == [] && !FlagsOf(old(rt.flags), jobId).paused ==> go && store.jobs == old(store.jobs)
    ensures store.dictionary == old(store.dictionary) && store.chapterStates == old(store.chapterStates)
  {
    rest := Observe(store, rt, jobId, events);
    while FlagsOf(rt.flags, jobId).paused && rest != []
      invariant store.Valid()
      invariant Local(old(store.jobs), store.jobs, old(rt.flags), rt.flags, jobId) && Capped(old(store.jobs), store.jobs, jobId)
      invariant events == [] ==> rest == [] && rt.flags == old(rt.flags) && store.jobs == old(store.jobs)
      invariant store.dictionary == old(store.dictionary) && store.chapterStates == old(store.chapterStates)
      decreases |rest|
    {
      SetState(store, jobId, Paused);
      rest := Observe(store, rt, jobId, rest);
    }
    if FlagsOf(rt.flags, jobId).paused {
      SetState(store, jobId, Paused);
      return false, rest;
    }
    return true, rest;
  }

  /** What reading one chunk gives: the reason the job stops, or the parts it adds. */
  datatype Step = Stop(reason: End) | Go(parts: seq<Samples>)

  /**
   * Lines 260-307 for chunk `i` of `n` in chapter `chIdx`: the cancel check,
   * the pause poll, the `processing` write, the engine call and the
   * progress write.
   */
  method ReadChunk(store: Store, rt: Runtime, jobId: string, env: Engine, vas: Assignments,
                   chIdx: nat, total: nat, n: nat, i: nat, c: Chunk, events: seq<Request>)
    returns (step: Step, rest: seq<Request>)
    requires store.Valid() && i < n && total >= 1
    modifies store, rt
    ensures store.Valid()
    ensures Local(old(store.jobs), store.jobs, old(rt.flags), rt.flags, jobId) && Capped(old(store.jobs), store.jobs, jobId)
    ensures step.Stop? ==> step.reason == Stopped || step.reason == Suspended || step.reason.Crashed?
    ensures step == Stop(Stopped) ==> Shows(store.jobs, jobId, Cancelled)
    ensures step == Stop(Suspended) ==> Shows(store.jobs, jobId, Paused) && FlagsOf(rt.flags, jobId).paused && rest == []
    ensures step.Stop? && step.reason.Crashed? ==> Part(env, vas, c) == Err(step.reason.message)
    ensures step.Go? ==> Part(env, vas, c) == Ok(step.parts) && !FlagsOf(rt.flags, jobId).paused
    ensures step.Go? && jobId in store.jobs ==>
      store.jobs[jobId].status == Processing && store.jobs[jobId].progress == ProgressAt(chIdx, n, i, total)
    ensures events == [] ==> rest == [] && rt.flags == old(rt.flags)
    ensures events == [] ==> (step == Stop(Stopped) <==> FlagsOf(old(rt.flags), jobId).cancel)
    ensures events == [] && !FlagsOf(old(rt.flags), jobId).cancel && !FlagsOf(old(rt.flags), jobId).paused ==>
      step.Go? || step.reason.Crashed?
    ensures store.dictionary == old(store.dictionary) && store.chapterStates == old(store.chapterStates)
  {
    rest := Observe(store, rt, jobId, events);
    if FlagsOf(rt.flags, jobId).cancel {
      SetState(store, jobId, Cancelled);
      return Stop(Stopped), rest;
    }
    var go;
    go, rest := Gate(store, rt, jobId, rest);
    if !go {
      return Stop(Suspended), rest;
    }
    SetTwo(store, jobId, SetStatus(Processing), SetCurrentChunk(i + 1));
    var part := Part(env, vas, c);
    if part.Err? {
      return Stop(Crashed(part.error)), rest;
    }
    ProgressGrows(chIdx, n, i, i, total);
    var p := ProgressAt(chIdx, n, i, total);
    UpdatedOne(store.jobs, jobId, SetProgress(p));
    store.UpdateJob(jobId, [SetProgress(p)]);
    step := Go(part.value);
  }

  /** Lines 258-307: the chunk loop of one chapter, ending early when the job stops. */
  method ReadChunks(store: Store, rt: Runtime, jobId: string, env: Engine, vas: Assignments,
                    chIdx: nat, total: nat, chunks: seq<Chunk>, events: seq<Request>)
    returns (halt: Option<End>, parts: seq<Samples>, rest: seq<Request>)
    requires store.Valid() && chunks != [] && total >= 1
    modifies store, rt
    ensures store.Valid()
    ensures Local(old(store.jobs), store.jobs, old(rt.flags), rt.flags, jobId) && Capped(old(store.jobs), store.jobs, jobId)
    ensures halt.Some? ==> halt.value == Stopped || halt.value == Suspended || halt.value.Crashed?
    ensures halt == Some(Stopped) ==> Shows(store.jobs, jobId, Cancelled)
    ensures halt == Some(Suspended) ==> Shows(store.jobs, jobId, Paused) && FlagsOf(rt.flags, jobId).paused && rest == []
    ensures halt.Some? && halt.value.Crashed? ==> Parts(env, vas, chunks) == Err(halt.value.message)
    ensures halt.None? ==> Parts(env, vas, chunks) == Ok(parts)
    ensures events == [] ==> rest == [] && rt.flags == old(rt.flags)
    ensures events == [] ==> (halt == Some(Stopped) <==> FlagsOf(old(rt.flags), jobId).cancel)
    ensures events == [] && !FlagsOf(old(rt.flags), jobId).cancel && !FlagsOf(old(rt.flags), jobId).paused ==>
      halt.None? || halt.value.Crashed?
    ensures store.dictionary == old(store.dictionary) && store.chapterStates == old(store.chapterStates)
  {
    parts, rest := [], events;
    var i := 0;
    while i < |chunks|
      invariant 0 <= i <= |chunks|
      invariant store.Valid()
      invariant Local(old(store.jobs), store.jobs, old(rt.flags), rt.flags, jobId) && Capped(old(store.jobs), store.jobs, jobId)
      invariant Parts(env, vas, chunks[..i]) == Ok(parts)
      invariant events == [] && FlagsOf(old(rt.flags), jobId).cancel ==> i == 0
      invariant events == [] ==> rest == [] && rt.flags == old(rt.flags)
      invariant store.dictionary == old(store.dictionary) && store.chapterStates == old(store.chapterStates)
    {
      ghost var jobs0, flags0 := store.jobs, rt.flags;
      var step;
      step, rest := ReadChunk(store, rt, jobId, env, vas, chIdx, total, |chunks|, i, chunks[i], rest);
      LocalTrans(old(store.jobs), jobs0, store.jobs, old(rt.flags), flags0, rt.flags, jobId);
      PartsStep(env, vas, chunks, i, parts);
      if step.Stop? {
        if step.reason.Crashed? {
          PartsErrPersists(env, vas, chunks, i + 1);
        }
        return Some(step.reason), parts, rest;
      }
      parts := parts + step.parts;
      i := i + 1;
    }
    assert chunks[..i] == chunks;
    halt := None;
  }

  /** How a chapter ends: the job stops, or the chapter is skipped, or its file is written. */
  datatype Turn = Halted(reason: End) | Skipped | Wrote

  /**
   * Lines 218-317 for chapter `chIdx` with its text: the cancel check, the
   * chapter write, the speaker runs and chunks, the chunk loop and the
   * chapter's file. A chapter without chunks or without audio is skipped.
   */
  method Chapter(store: Store, rt: Runtime, jobId: string, env: Engine, vas: Assignments, ext: string,
                 total: nat, chIdx: nat, text: string, events: seq<Request>)
    returns (turn: Turn, rest: seq<Request>)
    requires store.Valid() && total >= 1
    modifies store, rt
    ensures store.Valid()
    ensures Local(old(store.jobs), store.jobs, old(rt.flags), rt.flags, jobId) && Capped(old(store.jobs), store.jobs, jobId)
    ensures turn.Halted? ==> turn.reason == Stopped || turn.reason == Suspended || turn.reason.Crashed?
    ensures turn == Halted(Stopped) ==> Shows(store.jobs, jobId, Cancelled)
    ensures turn == Halted(Suspended) ==> Shows(store.jobs, jobId, Paused) && FlagsOf(rt.flags, jobId).paused && rest == []
    ensures turn.Halted? && turn.reason.Crashed? ==> ChapterOutcome(env, vas, jobId, ext, chIdx, text) == Err(turn.reason.message)
    ensures turn == Skipped ==> ChapterOutcome(env, vas, jobId, ext, chIdx, text) == Ok(false)
    ensures turn == Wrote ==> ChapterOutcome(env, vas, jobId, ext, chIdx, text) == Ok(true)
    ensures events == [] ==> rest == [] && rt.flags == old(rt.flags)
    ensures events == [] ==> (turn == Halted(Stopped) <==> FlagsOf(old(rt.flags), jobId).cancel)
    ensures events == [] && !FlagsOf(old(rt.flags), jobId).cancel && !FlagsOf(old(rt.flags), jobId).paused ==>
      !turn.Halted? || turn.reason.Crashed?
    ensures store.dictionary == old(store.dictionary) && store.chapterStates == old(store.chapterStates)
  {
    var stop;
    stop, rest := EnterChapter(store, rt, jobId, chIdx, events);
    if stop {
      return Halted(Stopped), rest;
    }
    ghost var jobs1, flags1 := store.jobs, rt.flags;
    var chunks := SplitChapter(env, text);
    turn, rest := ChapterAudio(store, rt, jobId, env, vas, ext, total, chIdx, chunks, rest);
    LocalTrans(old(store.jobs), jobs1, store.jobs, old(rt.flags), flags1, rt.flags, jobId);
  }

  /** Lines 219-226: the cancel check before a chapter, then the chapter write. */
  method EnterChapter(store: Store, rt: Runtime, jobId: string, chIdx: nat, events: seq<Request>)
    returns (stop: bool, rest: seq<Request>)
    requires store.Valid()
    modifies store, rt
    ensures store.Valid()
    ensures Local(old(store.jobs), store.jobs, old(rt.flags), rt.flags, jobId) && Capped(old(store.jobs), store.jobs, jobId)
    ensures stop <==> FlagsOf(rt.flags, jobId).cancel
    ensures stop ==> Shows(store.jobs, jobId, Cancelled)
    ensures !stop && jobId in store.jobs ==>
      store.jobs[jobId].status == Processing && store.jobs[jobId].currentChapter == chIdx + 1
    ensures events == [] ==> rest == [] && rt.flags == old(rt.flags)
    ensures events != [] ==> rest == events[1..]
    ensures store.dictionary == old(store.dictionary) && store.chapterStates == old(store.chapterStates)
  {
    rest := Observe(store, rt, jobId, events);
    if FlagsOf(rt.flags, jobId).cancel {
      SetState(store, jobId, Cancelled);
      return true, rest;
    }
    SetTwo(store, jobId, SetCurrentChapter(chIdx + 1), SetStatus(Processing));
    return false, rest;
  }

  /** Lines 228-249: the speaker runs of a chapter and their chunks. */
  method SplitChapter(env: Engine, text: string) returns (chunks: seq<Chunk>)
    ensures chunks == TextChunks(env, text)
  {
    var segments := Speakers.ParseSegments(text);
    chunks := ChunkSegments(segments, env.chunker, env.chunkSize);
  }

  /**
   * Lines 244-317 for the chunks of chapter `chIdx`: skip a chapter without
   * chunks, otherwise write the chunk count, read the chunks, and write the
   * chapter's file when they gave audio.
   */
  method ChapterAudio(store: Store, rt: Runtime, jobId: string, env: Engine, vas: Assignments, ext: string,
                      total: nat, chIdx: nat, chunks: seq<Chunk>, events: seq<Request>)
    returns (turn: Turn, rest: seq<Request>)
    requires store.Valid() && total >= 1
    modifies store, rt
    ensures store.Valid()
    ensures Local(old(store.jobs), store.jobs, old(rt.flags), rt.flags, jobId) && Capped(old(store.jobs), store.jobs, jobId)
    ensures turn.Halted? ==> turn.reason == Stopped || turn.reason == Suspended || turn.reason.Crashed?
    ensures turn == Halted(Stopped) ==> Shows(store.jobs, jobId, Cancelled)
    ensures turn == Halted(Suspended) ==> Shows(store.jobs, jobId, Paused) && FlagsOf(rt.flags, jobId).paused && rest == []
    ensures turn.Halted? && turn.reason.Crashed? ==> ChunkOutcome(env, vas, jobId, ext, chIdx, chunks) == Err(turn.reason.message)
    ensures turn == Skipped ==> ChunkOutcome(env, vas, jobId, ext, chIdx, chunks) == Ok(false)
    ensures turn == Wrote ==> ChunkOutcome(env, vas, jobId, ext, chIdx, chunks) == Ok(true)
    ensures events == [] ==> rest == [] && rt.flags == old(rt.flags)
    ensures events == [] ==> (turn == Halted(Stopped) <==> FlagsOf(old(rt.flags), jobId).cancel && chunks != [])
    ensures events == [] && !FlagsOf(old(rt.flags), jobId).cancel && !FlagsOf(old(rt.flags), jobId).paused ==>
      !turn.Halted? || turn.reason.Crashed?
    ensures store.dictionary == old(store.dictionary) && store.chapterStates == old(store.chapterStates)
  {
    rest := events;
    if |chunks| == 0 {
      return Skipped, rest;
    }
    SetTwo(store, jobId, SetTotalChunks(|chunks|), SetCurrentChunk(0));
    ghost var jobs1 := store.jobs;
    var halt, parts;
    halt, parts, rest := ReadChunks(store, rt, jobId, env, vas, chIdx, total, chunks, rest);
    LocalTrans(old(store.jobs), jobs1, store.jobs, old(rt.flags), old(rt.flags), rt.flags, jobId);
    if halt.Some? {
      return Halted(halt.value), rest;
    }
    if parts == [] {
      return Skipped, rest;
    }
    var failed := env.write(ChapterPath(env, jobId, chIdx, ext), Flatten(parts));
    if failed.Some? {
      return Halted(Crashed(failed.value)), rest;
    }
    turn := Wrote;
  }

  /** Lines 217-317: the chapters in order, ending early when the job stops. */
  method Chapters(store: Store, rt: Runtime, jobId: string, env: Engine, vas: Assignments, ext: string,
                  texts: seq<string>, events: seq<Request>)
    returns (halt: Option<End>, ks: seq<nat>)
    requires store.Valid() && texts != []
    modifies store, rt
    ensures store.Valid()
    ensures Local(old(store.jobs), store.jobs, old(rt.flags), rt.flags, jobId) && Capped(old(store.jobs), store.jobs, jobId)
    ensures halt.Some? ==> halt.value == Stopped || halt.value == Suspended || halt.value.Crashed?
    ensures halt == Some(Stopped) ==> Shows(store.jobs, jobId, Cancelled)
    ensures halt == Some(Suspended) ==> Shows(store.jobs, jobId, Paused) && FlagsOf(rt.flags, jobId).paused
    ensures halt.Some? && halt.value.Crashed? ==> Outputs(env, vas, jobId, ext, texts) == Err(halt.value.message)
    ensures halt.None? ==> Outputs(env, vas, jobId, ext, texts) == Ok(ks)
    ensures events == [] ==> rt.flags == old(rt.flags)
    ensures events == [] ==> (halt == Some(Stopped) <==> FlagsOf(old(rt.flags), jobId).cancel)
    ensures events == [] && !FlagsOf(old(rt.flags), jobId).paused ==> halt != Some(Suspended)
    ensures store.dictionary == old(store.dictionary) && store.chapterStates == old(store.chapterStates)
  {
    ks := [];
    var rest := events;
    var k := 0;
    var total := |texts|;
    ghost var outcomes := Outcomes(env, vas, jobId, ext, texts);
    while k < |texts|
      invariant 0 <= k <= |texts|
      invariant store.Valid()
      invariant Local(old(store.jobs), store.jobs, old(rt.flags), rt.flags, jobId) && Capped(old(store.jobs), store.jobs, jobId)
      invariant Collect(outcomes[..k]) == Ok(ks)
      invariant events == [] ==> rest == [] && rt.flags == old(rt.flags)
      invariant events == [] && k > 0 ==> !FlagsOf(old(rt.flags), jobId).cancel
      invariant store.dictionary == old(store.dictionary) && store.chapterStates == old(store.chapterStates)
    {
      ghost var jobs0, flags0 := store.jobs, rt.flags;
      var turn;
      turn, rest := Chapter(store, rt, jobId, env, vas, ext, total, k, texts[k], rest);
      LocalTrans(old(store.jobs), jobs0, store.jobs, old(rt.flags), flags0, rt.flags, jobId);
      ghost var o := ChapterOutcome(env, vas, jobId, ext, k, texts[k]);
      assert outcomes[k] == o;
      CollectStep(outcomes, k, ks);
      if turn.Halted? {
        if turn.reason.Crashed? {
          CollectErrPersists(outcomes, k + 1);
        }
        return Some(turn.reason), ks;
      }
      if turn == Wrote {
        assert Collect(outcomes[..k + 1]) == Ok(ks + [k]);
        ks := ks + [k];
      } else {
        assert Collect(outcomes[..k + 1]) == Ok(ks);
      }
      k := k + 1;
    }
    assert outcomes[..k] == outcomes;
    halt := None;
  }

  /** Lines 205-206: the whole text and every chapter through the dictionary. */
  method ChapterTexts(store: Store, job: Job) returns (texts: seq<string>)
    ensures texts == Texts(store.dictionary, job)
  {
    var text := store.ApplyDictionary(job.text);
    if job.chapters == [] {
      return [text];
    }
    texts := [];
    var k := 0;
    while k < |job.chapters|
      invariant 0 <= k <= |job.chapters|
      invariant |texts| == k && forall j :: 0 <= j < k ==> texts[j] == Normaliser.Normalise(store.dictionary, job.chapters[j])
    {
      var t := store.ApplyDictionary(job.chapters[k]);
      texts := texts + [t];
      k := k + 1;
    }
  }

  /**
   * Lines 193-328, the body of the `try`, with the `except` handler: the
   * `processing` write, the chapters, and the failure, the completion or
   * the failed write for an exception.
   */
  method Work(store: Store, rt: Runtime, jobId: string, job: Job, env: Engine, clock: Clock, events: seq<Request>)
    returns (exit: End)
    requires store.Valid() && jobId in store.jobs && RowToJob(store.jobs[jobId]) == Some(job)
    modifies store, rt
    ensures store.Valid()
    ensures Local(old(store.jobs), store.jobs, old(rt.flags), rt.flags, jobId)
    ensures !exit.Delivered? ==> Capped(old(store.jobs), store.jobs, jobId)
    ensures exit != Gone
    ensures exit == Stopped ==> Shows(store.jobs, jobId, Cancelled)
    ensures exit == Suspended ==> Shows(store.jobs, jobId, Paused) && FlagsOf(rt.flags, jobId).paused
    ensures exit == NoAudio || exit.Delivered? || exit.Crashed? ==>
      exit == Verdict(jobId, Extension(job.outputFormat),
                      Outputs(env, job.voiceAssignments, jobId, Extension(job.outputFormat), Texts(old(store.dictionary), job)))
    ensures exit == NoAudio ==> Shows(store.jobs, jobId, Status.Failed)
                                && (jobId in store.jobs ==> store.jobs[jobId].error == Some(NoAudioMessage))
    ensures exit.Crashed? ==> Shows(store.jobs, jobId, Status.Failed)
                              && (jobId in store.jobs ==> store.jobs[jobId].error == Some(exit.message))
    ensures exit.Delivered? ==>
      Shows(store.jobs, jobId, Completed)
      && (jobId in store.jobs ==> store.jobs[jobId].progress == 100 && store.jobs[jobId].outputFilesJson == Json.EncodeStringList(exit.files))
    ensures events == [] ==> rt.flags == old(rt.flags)
    ensures events == [] ==> (exit == Stopped <==> FlagsOf(old(rt.flags), jobId).cancel)
    ensures events == [] && !FlagsOf(old(rt.flags), jobId).paused ==> exit != Suspended
    ensures store.dictionary == old(store.dictionary) && store.chapterStates == old(store.chapterStates)
  {
    var ext := Extension(job.outputFormat);
    var vas := job.voiceAssignments;
    var texts := StartWork(store, jobId, job, clock);
    ghost var jobs1, flags1 := store.jobs, rt.flags;
    var halt, ks := Chapters(store, rt, jobId, env, vas, ext, texts, events);
    LocalTrans(old(store.jobs), jobs1, store.jobs, old(rt.flags), flags1, rt.flags, jobId);
    ghost var jobs2, flags2 := store.jobs, rt.flags;
    if halt.Some? {
      exit := halt.value;
      if exit.Crashed? {
        FailJob(store, jobId, exit.message);
        LocalTrans(old(store.jobs), jobs2, store.jobs, old(rt.flags), flags2, rt.flags, jobId);
      }
      return;
    }
    if ks == [] {
      FailJob(store, jobId, NoAudioMessage);
      LocalTrans(old(store.jobs), jobs2, store.jobs, old(rt.flags), flags2, rt.flags, jobId);
      return NoAudio;
    }
    var files := Urls(jobId, ks, ext);
    CompleteJob(store, jobId, files, clock.iso);
    exit := Delivered(files);
  }

  /** Lines 194-212: the `processing` write, the texts through the dictionary, and the chapter count. */
  method StartWork(store: Store, jobId: string, job: Job, clock: Clock) returns (texts: seq<string>)
    requires store.Valid()
    modifies store
    ensures store.Valid()
    ensures texts == Texts(old(store.dictionary), job)
    ensures store.jobs - {jobId} == old(store.jobs) - {jobId} && (jobId in store.jobs <==> jobId in old(store.jobs))
    ensures jobId in store.jobs ==>
      store.jobs[jobId] == old(store.jobs)[jobId].(status := Processing, startedAt := Some(clock.iso),
                                                   totalChapters := Routes.ChapterCount(job.chapters))
    ensures store.dictionary == old(store.dictionary) && store.chapterStates == old(store.chapterStates)
  {
    SetTwo(store, jobId, SetStatus(Processing), SetStartedAt(clock.iso));
    texts := ChapterTexts(store, job);
    var count := Routes.ChapterCount(job.chapters);
    if jobId in store.jobs {
      UpdateConfined(store.jobs, jobId, store.jobs[jobId].(totalChapters := count));
    }
    UpdatedOne(store.jobs, jobId, SetTotalChapters(count));
    store.UpdateJob(jobId, [SetTotalChapters(count)]);
  }

  /** `db_update_job(job_id, status="failed", error=message)`. */
  method FailJob(store: Store, jobId: string, message: string)
    requires store.Valid()
    modifies store
    ensures store.Valid()
    ensures store.jobs - {jobId} == old(store.jobs) - {jobId} && (jobId in store.jobs <==> jobId in old(store.jobs))
    ensures jobId in store.jobs ==> store.jobs[jobId] == old(store.jobs)[jobId].(status := Status.Failed, error := Some(message))
    ensures store.dictionary == old(store.dictionary) && store.chapterStates == old(store.chapterStates)
  {
    SetTwo(store, jobId, SetStatus(Status.Failed), SetError(message));
  }

  /** Lines 323-329: the completion write with the output list. */
  method CompleteJob(store: Store, jobId: string, files: seq<string>, now: string)
    requires store.Valid()
    modifies store
    ensures store.Valid()
    ensures store.jobs - {jobId} == old(store.jobs) - {jobId} && (jobId in store.jobs <==> jobId in old(store.jobs))
    ensures jobId in store.jobs ==>
      store.jobs[jobId] == old(store.jobs)[jobId].(outputFilesJson := Json.EncodeStringList(files), status := Completed,
                                                   progress := 100, completedAt := Some(now))
    ensures store.dictionary == old(store.dictionary) && store.chapterStates == old(store.chapterStates)
  {
    CompletionUpdated(store.jobs, jobId, files, now);
    store.UpdateJob(jobId, [SetOutputFiles(files), SetStatus(Completed), SetProgress(100), SetCompletedAt(now)]);
  }

  /** `db_update_job(job_id, output_files=files, status="completed", progress=100, completed_at=now)`. */
  lemma CompletionUpdated(jobs: map<string, JobRow>, id: string, files: seq<string>, now: string)
    ensures var fs := [SetOutputFiles(files), SetStatus(Completed), SetProgress(100), SetCompletedAt(now)];
      Updated(jobs, id, fs) - {id} == jobs - {id}
      && (id in Updated(jobs, id, fs) <==> id in jobs)
      && (id in jobs ==>
            Updated(jobs, id, fs)[id]
            == jobs[id].(outputFilesJson := Json.EncodeStringList(files), status := Completed, progress := 100, completedAt := Some(now)))
  {
    var fs := [SetOutputFiles(files), SetStatus(Completed), SetProgress(100), SetCompletedAt(now)];
    if id in jobs {
      var r0 := jobs[id];
      var r1 := ApplyField(r0, fs[0]);
      var r2 := ApplyField(r1, fs[1]);
      var r3 := ApplyField(r2, fs[2]);
      assert fs[1..] == [fs[1], fs[2], fs[3]] && fs[1..][1..] == [fs[2], fs[3]] && fs[1..][1..][1..] == [fs[3]];
      assert fs[1..][1..][1..][1..] == [];
      assert ApplyFields(r0, fs) == ApplyFields(r1, fs[1..]);
      assert ApplyFields(r1, fs[1..]) == ApplyFields(r2, fs[1..][1..]);
      assert ApplyFields(r2, fs[1..][1..]) == ApplyFields(r3, fs[1..][1..][1..]);
      assert ApplyFields(r3, fs[1..][1..][1..]) == ApplyFields(ApplyField(r3, fs[3]), []);
    }
  }

  /**
   * `_process_job(job_id)` as written: a job that is not there ends the
   * thread before the `try`, so its flags stay; every other end that leaves
   * the thread drops the job's flags in the `finally`.
   */
  method ProcessJob(store: Store, rt: Runtime, jobId: string, env: Engine, clock: Clock, events: seq<Request>)
    returns (exit: End)
    requires store.Valid()
    modifies store, rt
    ensures store.Valid()
    ensures exit == Gone <==> jobId !in old(store.jobs)
    ensures exit == Gone ==> store.jobs == old(store.jobs) && rt.flags == old(rt.flags)
    ensures store.jobs - {jobId} == old(store.jobs) - {jobId} && (jobId in store.jobs ==> jobId in old(store.jobs))
    ensures exit != Gone && exit != Suspended ==> rt.flags == old(rt.flags) - {jobId}
    ensures exit == Suspended ==> rt.flags - {jobId} == old(rt.flags) - {jobId} && FlagsOf(rt.flags, jobId).paused
                                  && Shows(store.jobs, jobId, Paused)
    ensures !exit.Delivered? ==> Capped(old(store.jobs), store.jobs, jobId)
    ensures exit == Stopped ==> Shows(store.jobs, jobId, Cancelled)
    ensures exit == NoAudio || exit.Delivered? || exit.Crashed? ==>
      var job := RowToJob(old(store.jobs)[jobId]).value;
      var texts := Texts(old(store.dictionary), job);
      exit == Verdict(jobId, Extension(job.outputFormat),
                      Outputs(env, job.voiceAssignments, jobId, Extension(job.outputFormat), texts))
    ensures exit == NoAudio ==> Shows(store.jobs, jobId, Status.Failed)
                                && (jobId in store.jobs ==> store.jobs[jobId].error == Some(NoAudioMessage))
    ensures exit.Crashed? ==> Shows(store.jobs, jobId, Status.Failed)
                              && (jobId in store.jobs ==> store.jobs[jobId].error == Some(exit.message))
    ensures exit.Delivered? ==>
      Shows(store.jobs, jobId, Completed)
      && (jobId in store.jobs ==> store.jobs[jobId].progress == 100 && store.jobs[jobId].outputFilesJson == Json.EncodeStringList(exit.files))
    ensures events == [] && exit != Gone ==> (exit == Stopped <==> FlagsOf(old(rt.flags), jobId).cancel)
    ensures events == [] && !FlagsOf(old(rt.flags), jobId).paused ==> exit != Suspended
    ensures store.dictionary == old(store.dictionary) && store.chapterStates == old(store.chapterStates)
  {
    var found := store.GetJob(jobId);
    if found.None? {
      return Gone;
    }
    exit := Work(store, rt, jobId, found.value, env, clock, events);
    if exit != Suspended {
      rt.flags := rt.flags - {jobId};
    }
  }

  /** `_process_job` with the lookup inside the `try`: the job's flags go on every end that leaves the thread. */
  method ProcessJobCorrected(store: Store, rt: Runtime, jobId: string, env: Engine, clock: Clock, events: seq<Request>)
    returns (exit: End)
    requires store.Valid()
    modifies store, rt
    ensures store.Valid()
    ensures exit == Gone <==> jobId !in old(store.jobs)
    ensures exit == Gone ==> store.jobs == old(store.jobs)
    ensures exit != Suspended ==> rt.flags == old(rt.flags) - {jobId}
    ensures exit == Suspended ==> rt.flags - {jobId} == old(rt.flags) - {jobId} && FlagsOf(rt.flags, jobId).paused
    ensures store.jobs - {jobId} == old(store.jobs) - {jobId} && (jobId in store.jobs ==> jobId in old(store.jobs))
    ensures store.dictionary == old(store.dictionary) && store.chapterStates == old(store.chapterStates)
  {
    var found := store.GetJob(jobId);
    if found.None? {
      rt.flags := rt.flags - {jobId};
      return Gone;
    }
    exit := Work(store, rt, jobId, found.value, env, clock, events);
    if exit != Suspended {
      rt.flags := rt.flags - {jobId};
    }
  }

  /**
   * The interleaving that leaves a flags entry behind: the whole of
   * `api_delete_job` runs after `db_create_job` (lines 418-429) and before the
   * flags are set (lines 432-433), so its `pop` finds nothing; the thread
   * then finds no row and returns before its `finally`. The corrected
   * thread removes the entry.
   */
  method DeleteBeforeFlags(store: Store, rt: Runtime, text: string, jobId: string, env: Engine, clock: Clock, corrected: bool)
    returns (exit: End)
    requires store.Valid() && jobId !in store.jobs && Strip(text) != []
    modifies store, rt
    ensures exit == Gone && jobId !in store.jobs
    ensures jobId in rt.flags <==> !corrected
  {
    var created := Insert(store, text, [], "mp3", 128, map[], "chatterbox_mtl_local", jobId, clock.iso);
    var code := Delete(store, rt, jobId);
    rt.Register(jobId);
    if corrected {
      exit := ProcessJobCorrected(store, rt, jobId, env, clock, []);
    } else {
      exit := ProcessJob(store, rt, jobId, env, clock, []);
    }
  }
}
