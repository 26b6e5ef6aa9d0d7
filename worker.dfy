/**
 * The chapter worker of flask_app/worker.py: `_process_chapter(job_id,
 * ch_idx)` as it runs on the chapter queue, against the store of
 * database.py and the engine given as functions.
 *
 * Other clients may pause, resume, cancel or delete the job while a chapter
 * is being processed. Their requests are a schedule `events`: before each
 * re-read of the job (the cancellation checks and the pause poll) the next
 * request of the schedule, if any, is served. With no requests left, a job
 * that stays paused would be polled forever; the model stops there with
 * `Suspended`.
 */
module Worker {
  import opened Wrappers
  import opened Text
  import opened Database
  import Normaliser
  import Speakers
  import Artifacts
  import opened Synthesis
  import Routes
  import opened Indices

  /** How a chapter run ends. */
  datatype Exit =
    | NoJob                   // the job row is gone before the worker starts
    | Stopped                 // a cancellation check saw the job cancelled or deleted
    | NoChunks                // the chapter has no chunk to read
    | Suspended               // still paused when the schedule ran out
    | NoAudio                 // no chunk produced a waveform
    | TestOutput(file: string)
    | ChapterDone(count: int) // chapter written, `count` chapters done, not the last
    | Finalised(count: int)   // chapter written by the worker that completes the job
    | Error(message: string)  // an exception, caught at the end of the worker

  // ---------------------------------------------------------------------
  // Requests of other clients
  // ---------------------------------------------------------------------

  /** The job rows after the next request of the schedule, and the requests still to come. */
  function Next(jobs: map<string, JobRow>, jobId: string, events: seq<Routes.Control>): (map<string, JobRow>, seq<Routes.Control>) {
    if events == [] then (jobs, []) else (Routes.Controlled(jobs, jobId, events[0]), events[1..])
  }

  /** Serve the next request of the schedule, if any. */
  method Observe(store: Store, jobId: string, events: seq<Routes.Control>) returns (rest: seq<Routes.Control>)
    requires store.Valid()
    modifies store
    ensures store.Valid()
    ensures (store.jobs, rest) == Next(old(store.jobs), jobId, events)
    ensures store.dictionary == old(store.dictionary) && store.chapterStates == old(store.chapterStates)
  {
    if events == [] {
      return [];
    }
    Routes.Serve(store, jobId, events[0]);
    rest := events[1..];
  }

  // ---------------------------------------------------------------------
  // What a worker leaves alone
  // ---------------------------------------------------------------------

  /** The columns a chapter run reads from the job and no update of it writes. */
  predicate SameSetup(a: JobRow, b: JobRow) {
    b.jobId == a.jobId && b.text == a.text && b.chaptersJson == a.chaptersJson
    && b.voiceAssignmentsJson == a.voiceAssignmentsJson && b.outputFormat == a.outputFormat
    && b.pipelineMode == a.pipelineMode
  }

  /** The columns no worker update and no control request writes: the setup and the completed-chapter counter. */
  predicate Kept(a: JobRow, b: JobRow) {
    SameSetup(a, b) && b.completedChapters == a.completedChapters
  }

  /** Only the job's row changes, it keeps its setup, and its completed-chapter counter went up by `n`. */
  predicate Progressed(j0: map<string, JobRow>, j1: map<string, JobRow>, jobId: string, n: int) {
    j1 - {jobId} == j0 - {jobId}
    && (jobId in j1 ==> jobId in j0 && SameSetup(j0[jobId], j1[jobId])
                        && j1[jobId].completedChapters == j0[jobId].completedChapters + n)
  }

  /** Two steps of progress add up. */
  lemma ProgressedTrans(j0: map<string, JobRow>, j1: map<string, JobRow>, j2: map<string, JobRow>, jobId: string, a: int, b: int)
    requires Progressed(j0, j1, jobId, a) && Progressed(j1, j2, jobId, b)
    ensures Progressed(j0, j2, jobId, a + b)
  {
  }

  /** The chapter runs that count a chapter as done. */
  predicate Counted(exit: Exit) {
    exit.ChapterDone? || exit.Finalised?
  }

  /** The job changes only in its own row and that row keeps its setup and counter; the chapter rows change only at `key`. */
  predicate Confined(j0: map<string, JobRow>, j1: map<string, JobRow>, s0: map<Key, ChapterRow>, s1: map<Key, ChapterRow>,
                     jobId: string, key: Key) {
    Progressed(j0, j1, jobId, 0) && s1 - {key} == s0 - {key}
  }

  /** The keyword arguments the worker passes to `db_update_job`. */
  predicate WorkerField(f: Field) {
    !(f.SetTitle? || f.SetTotalChapters? || f.SetVoiceAssignments? || f.SetChapters?)
  }

  /** Worker updates keep the setup and the completed-chapter counter of the row. */
  lemma {:induction false} WorkerFieldsKeep(row: JobRow, fs: seq<Field>)
    requires forall i :: 0 <= i < |fs| ==> WorkerField(fs[i])
    ensures Kept(row, ApplyFields(row, fs))
    decreases |fs|
  {
    if fs != [] {
      WorkerFieldsKeep(ApplyField(row, fs[0]), fs[1..]);
    }
  }

  /** A worker update touches only its own job's row, and keeps that row's setup. */
  lemma UpdatedConfined(jobs: map<string, JobRow>, id: string, fs: seq<Field>)
    requires forall i :: 0 <= i < |fs| ==> WorkerField(fs[i])
    ensures Updated(jobs, id, fs) - {id} == jobs - {id}
    ensures id in Updated(jobs, id, fs) <==> id in jobs
    ensures id in jobs ==> Kept(jobs[id], Updated(jobs, id, fs)[id])
  {
    if fs != [] && id in jobs {
      WorkerFieldsKeep(jobs[id], fs);
    }
  }

  /** A control request touches only its own job's row, and keeps that row's setup. */
  lemma ControlledConfined(jobs: map<string, JobRow>, id: string, events: seq<Routes.Control>)
    ensures Next(jobs, id, events).0 - {id} == jobs - {id}
    ensures id in Next(jobs, id, events).0 ==> id in jobs && Kept(jobs[id], Next(jobs, id, events).0[id])
  {
  }

  /** The status a worker update leaves in a row. */
  lemma StatusWritten(row: JobRow, fs: seq<Field>, i: nat)
    requires DistinctColumns(fs) && i < |fs| && fs[i].SetStatus?
    ensures ApplyFields(row, fs).status == fs[i].status
  {
    UpdateWritesGivenColumns(row, fs, i);
  }

  /** A worker update that sets a status: only the job's row changes, its setup stays, and it holds the status. */
  lemma StatusUpdate(jobs: map<string, JobRow>, id: string, fs: seq<Field>, i: nat)
    requires DistinctColumns(fs) && (forall k :: 0 <= k < |fs| ==> WorkerField(fs[k])) && i < |fs| && fs[i].SetStatus?
    ensures Updated(jobs, id, fs) - {id} == jobs - {id}
    ensures id in Updated(jobs, id, fs) <==> id in jobs
    ensures id in jobs ==> Kept(jobs[id], Updated(jobs, id, fs)[id]) && Updated(jobs, id, fs)[id].status == fs[i].status
  {
    UpdatedConfined(jobs, id, fs);
    if id in jobs {
      StatusWritten(jobs[id], fs, i);
    }
  }

  /** A worker update without a status: only the job's row changes, its setup and status stay. */
  lemma NoStatusUpdate(jobs: map<string, JobRow>, id: string, fs: seq<Field>)
    requires forall k :: 0 <= k < |fs| ==> WorkerField(fs[k]) && ColumnOf(fs[k]) != StatusColumn
    ensures Updated(jobs, id, fs) - {id} == jobs - {id}
    ensures id in Updated(jobs, id, fs) <==> id in jobs
    ensures id in jobs ==> Kept(jobs[id], Updated(jobs, id, fs)[id]) && Updated(jobs, id, fs)[id].status == jobs[id].status
  {
    UpdatedConfined(jobs, id, fs);
    if id in jobs {
      UpdateKeepsOtherColumns(jobs[id], fs, StatusColumn);
    }
  }

  /** The update once the chunks are known. */
  function CountFields(total: nat): (fs: seq<Field>)
    ensures forall k :: 0 <= k < |fs| ==> WorkerField(fs[k]) && ColumnOf(fs[k]) != StatusColumn
  {
    [SetTotalChunks(total), SetCurrentChunk(0)]
  }

  /** The second update of a chapter run. */
  function ChapterFields(chIdx: nat): (fs: seq<Field>)
    ensures DistinctColumns(fs) && (forall k :: 0 <= k < |fs| ==> WorkerField(fs[k]))
    ensures |fs| == 2 && fs[1] == SetStatus(Processing)
  {
    [SetCurrentChapter(chIdx + 1), SetStatus(Processing)]
  }

  /** The progress update before each chunk. */
  function ChunkFields(i: nat): (fs: seq<Field>)
    ensures DistinctColumns(fs) && (forall k :: 0 <= k < |fs| ==> WorkerField(fs[k]))
    ensures |fs| == 2 && fs[0] == SetStatus(Processing)
  {
    [SetStatus(Processing), SetCurrentChunk(i + 1)]
  }

  /** `db_update_job(job_id, output_files=files, status="completed", progress=100, completed_at=now)`. */
  function Completion(files: seq<string>, now: string): seq<Field> {
    [SetOutputFiles(files), SetStatus(Completed), SetProgress(100), SetCompletedAt(now)]
  }

  /** The completed row reads back completed, at 100 percent, with exactly the given output files. */
  lemma CompletionReadBack(row: JobRow, files: seq<string>, now: string)
    requires RowToJob(row).Some?
    ensures var r := ApplyFields(row, Completion(files, now));
      RowToJob(r).Some? && RowToJob(r).value.status == Completed && RowToJob(r).value.progress == 100
      && RowToJob(r).value.outputFiles == files && Kept(row, r)
  {
    var fs := Completion(files, now);
    CompletionDistinct(files, now);
    OutputFilesReadBack(row, fs, 0);
    StatusWritten(row, fs, 1);
    ProgressWritten(row, fs, 2);
    WorkerFieldsKeep(row, fs);
  }

  /** The final update of a job: only its row changes, and that row reads back completed with the given files. */
  lemma CompletionUpdate(jobs: map<string, JobRow>, id: string, files: seq<string>, now: string)
    requires id in jobs ==> RowToJob(jobs[id]).Some?
    ensures Progressed(jobs, Updated(jobs, id, Completion(files, now)), id, 0)
    ensures id in Updated(jobs, id, Completion(files, now)) <==> id in jobs
    ensures id in jobs ==>
      var r := Updated(jobs, id, Completion(files, now))[id];
      RowToJob(r).Some? && RowToJob(r).value.status == Completed && RowToJob(r).value.progress == 100
      && RowToJob(r).value.outputFiles == files
  {
    CompletionDistinct(files, now);
    UpdatedConfined(jobs, id, Completion(files, now));
    if id in jobs {
      CompletionReadBack(jobs[id], files, now);
    }
  }

  /**
   * Lines 173-222 read no status: a cancel that arrives after the last chunk
   * gate of the final chapter is overwritten, and the job reads back
   * completed with all output files.
   */
  lemma CancelAfterLastReadOverwritten(jobs: map<string, JobRow>, id: string, files: seq<string>, now: string)
    requires id in jobs && RowToJob(jobs[id]).Some?
    ensures Routes.Controlled(jobs, id, Routes.CancelJob)[id].status == Cancelled
    ensures var r := Updated(Routes.Controlled(jobs, id, Routes.CancelJob), id, Completion(files, now));
      id in r && RowToJob(r[id]).Some? && RowToJob(r[id]).value.status == Completed
      && RowToJob(r[id]).value.outputFiles == files
  {
    var cancelled := Routes.Controlled(jobs, id, Routes.CancelJob);
    assert RowToJob(cancelled[id]).Some?;
    CompletionUpdate(cancelled, id, files, now);
  }

  lemma CompletionDistinct(files: seq<string>, now: string)
    ensures DistinctColumns(Completion(files, now))
    ensures forall i :: 0 <= i < |Completion(files, now)| ==> WorkerField(Completion(files, now)[i])
  {
  }

  /** The progress a worker update leaves in a row. */
  lemma ProgressWritten(row: JobRow, fs: seq<Field>, i: nat)
    requires DistinctColumns(fs) && i < |fs| && fs[i].SetProgress?
    ensures ApplyFields(row, fs).progress == fs[i].progress
  {
    UpdateWritesGivenColumns(row, fs, i);
  }

  /** `db_update_job(job_id, status="failed", error=str(e))`. */
  function Failure(message: string): seq<Field> {
    [SetStatus(Status.Failed), SetError(message)]
  }

  /** The failed row carries the status `failed` and the message. */
  lemma FailureWritten(row: JobRow, message: string)
    ensures ApplyFields(row, Failure(message)).status == Status.Failed
    ensures ApplyFields(row, Failure(message)).error == Some(message)
  {
    UpdateWritesGivenColumns(row, Failure(message), 0);
    UpdateWritesGivenColumns(row, Failure(message), 1);
  }

  // ---------------------------------------------------------------------
  // Cancellation checks
  // ---------------------------------------------------------------------

  /** The keyword arguments of the first update of a chapter run. */
  function StartFields(now: string, workerName: string, chIdx: nat): (fs: seq<Field>)
    ensures DistinctColumns(fs) && (forall k :: 0 <= k < |fs| ==> WorkerField(fs[k]))
    ensures |fs| == 4 && fs[0] == SetStatus(Processing)
  {
    [SetStatus(Processing), SetStartedAt(now), SetWorkerName(workerName), SetCurrentChapter(chIdx + 1)]
  }

  /**
   * The start of a chapter run as written: the `processing` write comes
   * first, the cancellation check reads the job after it. Whether the run
   * goes on, and the rows the check sees.
   */
  function StartAsWritten(jobs: map<string, JobRow>, id: string, fields: seq<Field>, events: seq<Routes.Control>): (r: (bool, map<string, JobRow>))
    ensures r.0 ==> id in jobs && id in r.1 && r.1[id].status != Cancelled
    ensures r.1 - {id} == jobs - {id}
  {
    var checked := Next(Updated(jobs, id, fields), id, events).0;
    (id in checked && checked[id].status != Cancelled, checked)
  }

  /**
   * The start of a chapter run as corrected: a job cancelled when the
   * worker picks it up is left as it is and the run stops; any other job
   * goes through the start as written.
   */
  function Start(jobs: map<string, JobRow>, id: string, fields: seq<Field>, events: seq<Routes.Control>): (r: (bool, map<string, JobRow>))
    ensures id in jobs && jobs[id].status == Cancelled ==> !r.0 && r.1 == jobs
    ensures r.0 ==> id in jobs && jobs[id].status != Cancelled && id in r.1 && r.1[id].status != Cancelled
    ensures r.1 - {id} == jobs - {id}
  {
    if id in jobs && jobs[id].status == Cancelled then (false, jobs) else StartAsWritten(jobs, id, fields, events)
  }

  /** The correction changes nothing for a job that is not cancelled when the worker picks it up. */
  lemma StartAgreesUnlessCancelled(jobs: map<string, JobRow>, id: string, fields: seq<Field>, events: seq<Routes.Control>)
    requires id in jobs ==> jobs[id].status != Cancelled
    ensures Start(jobs, id, fields, events) == StartAsWritten(jobs, id, fields, events)
  {
  }

  /**
   * A job cancelled while its chapter waits in the queue is set back to
   * `processing`, and the checks before its first chunk let the chunk go
   * ahead.
   */
  lemma CancelledJobRestarts(jobs: map<string, JobRow>, id: string, now: string, workerName: string, chIdx: nat)
    requires id in jobs && jobs[id].status == Cancelled
    ensures StartAsWritten(jobs, id, StartFields(now, workerName, chIdx), []).0
    ensures StartAsWritten(jobs, id, StartFields(now, workerName, chIdx), []).1[id].status == Processing
    ensures ChunkGateAsWritten(StartAsWritten(jobs, id, StartFields(now, workerName, chIdx), []).1, id, []).0 == Proceed
  {
    StatusUpdate(jobs, id, StartFields(now, workerName, chIdx), 0);
  }

  /** What the checks before a chunk decide. */
  datatype Gate = Proceed | Halt | Stall

  /**
   * The pause poll as written: it leaves the loop on any status other than
   * `paused`, `cancelled` included, and the chunk then goes ahead.
   */
  function PausePollAsWritten(jobs: map<string, JobRow>, id: string, events: seq<Routes.Control>): (r: (Gate, map<string, JobRow>, seq<Routes.Control>))
    ensures r.0 == Proceed ==> id in r.1 && r.1[id].status != Paused
    ensures r.0 == Halt ==> id !in r.1
    ensures r.0 == Stall ==> r.2 == [] && id in r.1 && r.1[id].status == Paused
    ensures r.1 - {id} == jobs - {id}
    decreases |events|
  {
    var (j, e) := Next(jobs, id, events);
    if id !in j then (Halt, j, e)
    else if j[id].status != Paused then (Proceed, j, e)
    else if e == [] then (Stall, j, e)
    else PausePollAsWritten(j, id, e)
  }

  /** The checks before a chunk as written: the cancellation check, then the pause poll. */
  function ChunkGateAsWritten(jobs: map<string, JobRow>, id: string, events: seq<Routes.Control>): (r: (Gate, map<string, JobRow>, seq<Routes.Control>))
    ensures r.0 == Proceed ==> id in r.1 && r.1[id].status != Paused
    ensures r.0 == Halt ==> id !in r.1 || r.1[id].status == Cancelled
    ensures r.0 == Stall ==> r.2 == [] && id in r.1 && r.1[id].status == Paused
    ensures r.1 - {id} == jobs - {id}
  {
    var (j, e) := Next(jobs, id, events);
    if id !in j || j[id].status == Cancelled then (Halt, j, e) else PausePollAsWritten(j, id, e)
  }

  /** The pause poll that also stops on a cancellation it reads. */
  function PausePoll(jobs: map<string, JobRow>, id: string, events: seq<Routes.Control>): (r: (Gate, map<string, JobRow>, seq<Routes.Control>))
    ensures r.0 == Proceed ==> id in r.1 && r.1[id].status != Cancelled && r.1[id].status != Paused
    ensures r.0 == Halt ==> id !in r.1 || r.1[id].status == Cancelled
    ensures r.0 == Stall ==> r.2 == [] && id in r.1 && r.1[id].status == Paused
    ensures r.1 - {id} == jobs - {id} && (id in r.1 ==> id in jobs && Kept(jobs[id], r.1[id]))
    decreases |events|
  {
    var (j, e) := Next(jobs, id, events);
    if id !in j || j[id].status == Cancelled then (Halt, j, e)
    else if j[id].status != Paused then (Proceed, j, e)
    else if e == [] then (Stall, j, e)
    else PausePoll(j, id, e)
  }

  /**
   * The checks before a chunk: the chunk goes ahead only on a job that is
   * there, not cancelled and not paused; the worker stops on a job that is
   * gone or cancelled.
   */
  function ChunkGate(jobs: map<string, JobRow>, id: string, events: seq<Routes.Control>): (r: (Gate, map<string, JobRow>, seq<Routes.Control>))
    ensures r.0 == Proceed ==> id in r.1 && r.1[id].status != Cancelled && r.1[id].status != Paused
    ensures r.0 == Halt ==> id !in r.1 || r.1[id].status == Cancelled
    ensures r.0 == Stall ==> r.2 == [] && id in r.1 && r.1[id].status == Paused
    ensures r.1 - {id} == jobs - {id} && (id in r.1 ==> id in jobs && Kept(jobs[id], r.1[id]))
    ensures events == [] && id in jobs && jobs[id].status != Cancelled && jobs[id].status != Paused ==> r == (Proceed, jobs, [])
  {
    var (j, e) := Next(jobs, id, events);
    if id !in j || j[id].status == Cancelled then (Halt, j, e) else PausePoll(j, id, e)
  }

  /** Without a cancel request in the schedule, the pause poll as written and the corrected one agree. */
  lemma {:induction false} PausePollWithoutCancel(jobs: map<string, JobRow>, id: string, events: seq<Routes.Control>)
    requires id in jobs ==> jobs[id].status != Cancelled
    requires forall k :: 0 <= k < |events| ==> events[k] != Routes.CancelJob
    ensures PausePoll(jobs, id, events) == PausePollAsWritten(jobs, id, events)
    decreases |events|
  {
    var (j, e) := Next(jobs, id, events);
    if events != [] {
      assert events[0] != Routes.CancelJob;
      assert forall k :: 0 <= k < |e| ==> e[k] == events[k + 1];
    }
    if id in j && j[id].status == Paused && e != [] {
      PausePollWithoutCancel(j, id, e);
    }
  }

  /** The corrected checks before a chunk decide as the checks as written on every schedule without a cancel request. */
  lemma ChunkGateWithoutCancel(jobs: map<string, JobRow>, id: string, events: seq<Routes.Control>)
    requires forall k :: 0 <= k < |events| ==> events[k] != Routes.CancelJob
    ensures ChunkGate(jobs, id, events) == ChunkGateAsWritten(jobs, id, events)
  {
    var (j, e) := Next(jobs, id, events);
    if events != [] {
      assert forall k :: 0 <= k < |e| ==> e[k] == events[k + 1];
    }
    if id in j && j[id].status != Cancelled {
      PausePollWithoutCancel(j, id, e);
    }
  }

  /**
   * A cancellation that arrives while the job is paused is overlooked by the
   * checks as written: the chunk goes ahead and its progress write (line
   * 110) sets the job back to `processing`. The corrected checks halt.
   */
  lemma CancelWhilePausedIsLost(jobs: map<string, JobRow>, id: string, i: nat)
    requires id in jobs && jobs[id].status == Processing
    ensures ChunkGateAsWritten(jobs, id, [Routes.PauseJob, Routes.CancelJob]).0 == Proceed
    ensures ChunkGateAsWritten(jobs, id, [Routes.PauseJob, Routes.CancelJob]).1[id].status == Cancelled
    ensures var j := ChunkGateAsWritten(jobs, id, [Routes.PauseJob, Routes.CancelJob]).1;
      id in Updated(j, id, ChunkFields(i)) && Updated(j, id, ChunkFields(i))[id].status == Processing
    ensures ChunkGate(jobs, id, [Routes.PauseJob, Routes.CancelJob]).0 == Halt
  {
    var e := [Routes.PauseJob, Routes.CancelJob];
    assert e[1..] == [Routes.CancelJob];
    assert e[1..][1..] == [];
    StatusUpdate(ChunkGateAsWritten(jobs, id, e).1, id, ChunkFields(i), 0);
  }

  /** Lines 96-108: the cancellation check and the pause poll, serving the schedule before each read. */
  method Await(store: Store, jobId: string, events: seq<Routes.Control>) returns (gate: Gate, rest: seq<Routes.Control>)
    requires store.Valid()
    modifies store
    ensures store.Valid()
    ensures (gate, store.jobs, rest) == ChunkGate(old(store.jobs), jobId, events)
    ensures store.dictionary == old(store.dictionary) && store.chapterStates == old(store.chapterStates)
  {
    rest := Observe(store, jobId, events);
    var current := store.GetJob(jobId);
    if current.None? || current.value.status == Cancelled {
      return Halt, rest;
    }
    gate := Proceed;
    var polling := true;
    while polling
      invariant store.Valid()
      invariant store.dictionary == old(store.dictionary) && store.chapterStates == old(store.chapterStates)
      invariant polling ==> PausePoll(store.jobs, jobId, rest) == ChunkGate(old(store.jobs), jobId, events)
      invariant !polling ==> (gate, store.jobs, rest) == ChunkGate(old(store.jobs), jobId, events)
      decreases polling, |rest|
    {
      rest := Observe(store, jobId, rest);
      var polled := store.GetJob(jobId);
      if polled.None? || polled.value.status == Cancelled {
        gate, polling := Halt, false;
      } else if polled.value.status != Paused {
        gate, polling := Proceed, false;
      } else if rest == [] {
        gate, polling := Stall, false;
      }
      // otherwise: sleep one second and poll again
    }
  }

  // ---------------------------------------------------------------------
  // Audio of the chunks
  // ---------------------------------------------------------------------

  /** The chapter's text before the dictionary: the chapter, the whole text for a job without chapters, `None` for an index past the list. */
  function ChapterSource(job: Job, chIdx: nat): (r: Option<string>)
    ensures r.None? <==> job.chapters != [] && chIdx >= |job.chapters|
    ensures job.chapters == [] ==> r == Some(job.text)
  {
    if job.chapters == [] then Some(job.text)
    else if chIdx < |job.chapters| then Some(job.chapters[chIdx])
    else None
  }

  /** The chunks a chapter is read in: the dictionary, the speaker runs, the sentence chunks of each run. */
  function ChapterChunks(env: Engine, dictionary: map<string, string>, source: string): seq<Chunk> {
    ChunksOf(Speakers.Segments(Normaliser.Normalise(dictionary, source)), env.chunker, env.chunkSize)
  }

  /** The engine call for a chunk, with the speaker's voice and language. */
  function SynthOf(env: Engine, vas: Assignments, c: Chunk): Synth {
    env.synthesize(c.1, PromptPath(env, WorkerPrompt(vas, c.0, env.defaultVoiceId)), LanguageOf(vas, c.0, env.defaultLanguage))
  }

  /** The pause after a produced chunk: none unless the configured pause is positive, and then silence. */
  function Padding(sampleRate: nat, pauseMs: int): (r: seq<Samples>)
    ensures pauseMs <= 0 ==> r == []
    ensures pauseMs > 0 ==> |r| == 1 && forall k :: 0 <= k < |r[0]| ==> r[0][k] == 0
  {
    if pauseMs > 0 then
      PauseSamplesNonNegative(sampleRate, pauseMs);
      [Zeros(PauseSamples(sampleRate, pauseMs))]
    else []
  }

  /** Lines 148-151: the waveform time-stretched when the speed factor is positive and not 1, or the exception. */
  function Stretched(env: Engine, audio: Samples): (r: Result<Samples, string>)
    ensures !(env.speed > 0.0 && env.speed != 1.0) ==> r == Ok(audio)
  {
    if env.speed > 0.0 && env.speed != 1.0 then env.stretch(audio, env.speed) else Ok(audio)
  }

  /**
   * Lines 113-171 for one chunk: the parts it adds and the sample rate
   * after it, or the message of the exception the engine or the time-stretch raised.
   */
  function ChunkAudio(env: Engine, vas: Assignments, mode: string, c: Chunk, sampleRate: nat): Result<(seq<Samples>, nat), string> {
    match SynthOf(env, vas, c)
    case Raised(m) => Err(m)
    case NoWaveform => Ok(([], sampleRate))
    case Waveform(audio, rate) =>
      match Stretched(env, audio)
      case Err(m) => Err(m)
      case Ok(stretched) =>
        var sr := if rate != 0 then rate else sampleRate;
        var reduced := if mode == "test_pipeline" || mode == "tuning"
          then Artifacts.Pipeline(stretched, sr, c.1, mode == "test_pipeline", env.artifacts, env.denoise, env.split, env.transcribe).0
          else stretched;
        Ok(([reduced] + Padding(sr, env.pauseMs), sr))
  }

  /** The parts of all chunks in order, or the message of the first exception. */
  function Produce(env: Engine, vas: Assignments, mode: string, chunks: seq<Chunk>, sampleRate: nat): Result<(seq<Samples>, nat), string>
    decreases |chunks|
  {
    if chunks == [] then Ok(([], sampleRate))
    else
      match Produce(env, vas, mode, chunks[..|chunks| - 1], sampleRate)
      case Err(m) => Err(m)
      case Ok(done) =>
        match ChunkAudio(env, vas, mode, chunks[|chunks| - 1], done.1)
        case Err(m) => Err(m)
        case Ok(more) => Ok((done.0 + more.0, more.1))
  }

  /** One more chunk extends the parts of the chunks before it. */
  lemma ProduceStep(env: Engine, vas: Assignments, mode: string, chunks: seq<Chunk>, i: nat, sampleRate: nat, done: (seq<Samples>, nat))
    requires i < |chunks| && Produce(env, vas, mode, chunks[..i], sampleRate) == Ok(done)
    ensures ChunkAudio(env, vas, mode, chunks[i], done.1).Err? ==>
      Produce(env, vas, mode, chunks[..i + 1], sampleRate) == Err(ChunkAudio(env, vas, mode, chunks[i], done.1).error)
    ensures ChunkAudio(env, vas, mode, chunks[i], done.1).Ok? ==>
      Produce(env, vas, mode, chunks[..i + 1], sampleRate)
        == Ok((done.0 + ChunkAudio(env, vas, mode, chunks[i], done.1).value.0, ChunkAudio(env, vas, mode, chunks[i], done.1).value.1))
  {
    assert chunks[..i + 1][..i] == chunks[..i];
  }

  /** The message of the exception a chunk raises: in the engine call, or in time-stretching its waveform. */
  function ChunkError(env: Engine, vas: Assignments, c: Chunk): Option<string> {
    match SynthOf(env, vas, c)
    case Raised(m) => Some(m)
    case NoWaveform => None
    case Waveform(audio, _) => if Stretched(env, audio).Err? then Some(Stretched(env, audio).error) else None
  }

  /** Whether a chunk raises. */
  predicate Raises(env: Engine, vas: Assignments, c: Chunk) {
    ChunkError(env, vas, c).Some?
  }

  /** The number of chunks the engine returns a waveform for. */
  function Voiced(env: Engine, vas: Assignments, chunks: seq<Chunk>): nat
    decreases |chunks|
  {
    if chunks == [] then 0
    else Voiced(env, vas, chunks[..|chunks| - 1]) + (if SynthOf(env, vas, chunks[|chunks| - 1]).Waveform? then 1 else 0)
  }

  /**
   * The chunk loop fails exactly when some chunk raises, in the engine or in
   * the time-stretch, with the message of the first such chunk; otherwise
   * each voiced chunk adds its audio, and a pause after it when pauses are
   * configured.
   */
  lemma ProduceOutcome(env: Engine, vas: Assignments, mode: string, chunks: seq<Chunk>, sampleRate: nat)
    ensures Produce(env, vas, mode, chunks, sampleRate).Err? <==> exists k :: 0 <= k < |chunks| && Raises(env, vas, chunks[k])
    ensures Produce(env, vas, mode, chunks, sampleRate).Err? ==> exists k :: 0 <= k < |chunks| && ChunkError(env, vas, chunks[k]) == Some(Produce(env, vas, mode, chunks, sampleRate).error)
                                                                             && forall j :: 0 <= j < k ==> !Raises(env, vas, chunks[j])
    ensures Produce(env, vas, mode, chunks, sampleRate).Ok? ==>
      |Produce(env, vas, mode, chunks, sampleRate).value.0| == Voiced(env, vas, chunks) * (if env.pauseMs > 0 then 2 else 1)
  {
    ProduceFailure(env, vas, mode, chunks, sampleRate);
    ProduceLength(env, vas, mode, chunks, sampleRate);
  }

  /** The chunk loop fails exactly when some chunk raises, in the engine or the time-stretch, with the message of the first such chunk. */
  lemma {:induction false} ProduceFailure(env: Engine, vas: Assignments, mode: string, chunks: seq<Chunk>, sampleRate: nat)
    ensures Produce(env, vas, mode, chunks, sampleRate).Err? <==> exists k :: 0 <= k < |chunks| && Raises(env, vas, chunks[k])
    ensures Produce(env, vas, mode, chunks, sampleRate).Err? ==> exists k :: 0 <= k < |chunks| && ChunkError(env, vas, chunks[k]) == Some(Produce(env, vas, mode, chunks, sampleRate).error)
                                                                             && forall j :: 0 <= j < k ==> !Raises(env, vas, chunks[j])
    decreases |chunks|
  {
    if chunks != [] {
      var init := chunks[..|chunks| - 1];
      var last := chunks[|chunks| - 1];
      ProduceFailure(env, vas, mode, init, sampleRate);
      forall k | 0 <= k < |init| ensures init[k] == chunks[k] { }
      if Produce(env, vas, mode, init, sampleRate).Err? {
        var k :| 0 <= k < |init| && ChunkError(env, vas, init[k]) == Some(Produce(env, vas, mode, init, sampleRate).error)
                 && forall j :: 0 <= j < k ==> !Raises(env, vas, init[j]);
        assert ChunkError(env, vas, chunks[k]) == Some(Produce(env, vas, mode, chunks, sampleRate).error);
      } else if Raises(env, vas, last) {
        assert ChunkError(env, vas, chunks[|chunks| - 1]) == Some(Produce(env, vas, mode, chunks, sampleRate).error);
      } else {
        forall k | 0 <= k < |chunks| ensures !Raises(env, vas, chunks[k]) {
          if k < |init| {
            assert chunks[k] == init[k];
          }
        }
      }
    }
  }

  /** When the chunk loop succeeds, each voiced chunk adds its audio, and a pause after it when pauses are configured. */
  lemma {:induction false} ProduceLength(env: Engine, vas: Assignments, mode: string, chunks: seq<Chunk>, sampleRate: nat)
    ensures Produce(env, vas, mode, chunks, sampleRate).Ok? ==>
      |Produce(env, vas, mode, chunks, sampleRate).value.0| == Voiced(env, vas, chunks) * (if env.pauseMs > 0 then 2 else 1)
    decreases |chunks|
  {
    if chunks != [] {
      ProduceLength(env, vas, mode, chunks[..|chunks| - 1], sampleRate);
    }
  }

  /** Once a prefix of the chunks fails, the whole chapter fails with the same message. */
  lemma {:induction false} ProduceErrPersists(env: Engine, vas: Assignments, mode: string, chunks: seq<Chunk>, k: nat, sampleRate: nat)
    requires k <= |chunks| && Produce(env, vas, mode, chunks[..k], sampleRate).Err?
    ensures Produce(env, vas, mode, chunks, sampleRate) == Produce(env, vas, mode, chunks[..k], sampleRate)
    decreases |chunks| - k
  {
    if k < |chunks| {
      assert chunks[..k + 1][..k] == chunks[..k];
      ProduceErrPersists(env, vas, mode, chunks, k + 1, sampleRate);
    } else {
      assert chunks[..k] == chunks;
    }
  }

  /** An engine that never raises, chunks every text into at least one piece, and whose files are always written. */
  ghost predicate Healthy(env: Engine) {
    (forall t, n :: env.chunker(t, n) != [])
    && (forall t, p, l :: env.synthesize(t, p, l).Waveform?)
    && (forall a, s :: env.stretch(a, s).Ok?)
    && (forall f, a :: env.write(f, a).None?)
  }

  /** With a healthy engine every chapter has chunks. */
  lemma HealthyChapter(env: Engine, dictionary: map<string, string>, source: string)
    requires Healthy(env)
    ensures ChapterChunks(env, dictionary, source) != []
  {
    var segments := Speakers.Segments(Normaliser.Normalise(dictionary, source));
    assert segments != [];
    assert env.chunker(segments[0].text, env.chunkSize) != [];
    ChunkSpeakers(segments, env.chunker, env.chunkSize);
  }

  /** With a healthy engine every chunk adds audio: the chunks produce parts, and some. */
  lemma HealthyProduce(env: Engine, vas: Assignments, mode: string, chunks: seq<Chunk>, sampleRate: nat)
    requires Healthy(env) && chunks != []
    ensures forall k :: 0 <= k < |chunks| ==> !Raises(env, vas, chunks[k])
    ensures Produce(env, vas, mode, chunks, sampleRate).Ok?
    ensures Produce(env, vas, mode, chunks, sampleRate).value.0 != []
  {
    HealthyNeverRaises(env, vas, chunks);
    ProduceOutcome(env, vas, mode, chunks, sampleRate);
    HealthyVoicesAll(env, vas, chunks);
  }

  /** A healthy engine voices every chunk. */
  lemma {:induction false} HealthyVoicesAll(env: Engine, vas: Assignments, chunks: seq<Chunk>)
    requires Healthy(env)
    ensures Voiced(env, vas, chunks) == |chunks|
    decreases |chunks|
  {
    if chunks != [] {
      HealthyVoicesAll(env, vas, chunks[..|chunks| - 1]);
      var c := chunks[|chunks| - 1];
      assert SynthOf(env, vas, c).Waveform?;
    }
  }

  // ---------------------------------------------------------------------
  // The worker
  // ---------------------------------------------------------------------

  /**
   * Lines 36-60: the `processing` write, the chapter's text through the
   * dictionary, the cancellation check and the second `processing` write.
   */
  method Begin(store: Store, jobId: string, chIdx: nat, job: Job, workerName: string, now: string, events: seq<Routes.Control>)
    returns (halt: Option<Exit>, chapterText: string, rest: seq<Routes.Control>)
    requires store.Valid()
    modifies store
    ensures store.Valid()
    ensures store.dictionary == old(store.dictionary) && store.chapterStates == old(store.chapterStates)
    ensures Confined(old(store.jobs), store.jobs, old(store.chapterStates), store.chapterStates, jobId, (jobId, chIdx))
    ensures halt.Some? ==> halt.value == Stopped || halt.value == Error("list index out of range")
    ensures halt == Some(Error("list index out of range")) <==> ChapterSource(job, chIdx).None?
    ensures halt == Some(Stopped) ==> jobId !in store.jobs || store.jobs[jobId].status == Cancelled
    ensures halt.None? ==> ChapterSource(job, chIdx).Some?
                           && chapterText == Normaliser.Normalise(store.dictionary, ChapterSource(job, chIdx).value)
                           && jobId in store.jobs && store.jobs[jobId].status == Processing
    ensures events == [] ==> rest == []
    ensures events == [] && jobId in old(store.jobs) && ChapterSource(job, chIdx).Some? ==> halt.None?
    ensures ChapterSource(job, chIdx).Some? ==>
      var started := StartAsWritten(old(store.jobs), jobId, StartFields(now, workerName, chIdx), events);
      (halt.None? <==> started.0)
      && store.jobs == if started.0 then Updated(started.1, jobId, ChapterFields(chIdx)) else started.1
  {
    var fields := StartFields(now, workerName, chIdx);
    StatusUpdate(store.jobs, jobId, fields, 0);
    store.UpdateJob(jobId, fields);
    var source: string;
    if job.chapters != [] {
      if chIdx >= |job.chapters| {
        return Some(Error("list index out of range")), [], events;
      }
      source := job.chapters[chIdx];
    } else {
      source := job.text;
    }
    chapterText := store.ApplyDictionary(source);
    // job_dir.mkdir(...)
    ControlledConfined(store.jobs, jobId, events);
    rest := Observe(store, jobId, events);
    var current := store.GetJob(jobId);
    if current.None? || current.value.status == Cancelled {
      return Some(Stopped), chapterText, rest;
    }
    var again := ChapterFields(chIdx);
    StatusUpdate(store.jobs, jobId, again, 1);
    store.UpdateJob(jobId, again);
    halt := None;
  }

  /** Two confined steps make a confined step. */
  lemma ConfinedTrans(j0: map<string, JobRow>, j1: map<string, JobRow>, j2: map<string, JobRow>,
                      s0: map<Key, ChapterRow>, s1: map<Key, ChapterRow>, s2: map<Key, ChapterRow>, jobId: string, key: Key)
    requires Confined(j0, j1, s0, s1, jobId, key) && Confined(j1, j2, s1, s2, jobId, key)
    ensures Confined(j0, j2, s0, s2, jobId, key)
  {
  }

  /** Writing one chapter row leaves the others. */
  lemma SetConfined(s: map<Key, ChapterRow>, key: Key, row: ChapterRow)
    ensures s[key := row] - {key} == s - {key}
  {
  }

  /**
   * Lines 96-171 for chunk `i` of `total`: the cancellation check and the
   * pause poll, the progress writes, and the chunk's audio.
   */
  method ReadChunk(store: Store, jobId: string, chIdx: nat, workerName: string, env: Engine, vas: Assignments,
                   mode: string, c: Chunk, i: nat, total: nat, rate: nat, now: string, events: seq<Routes.Control>)
    returns (halt: Option<Exit>, more: seq<Samples>, newRate: nat, rest: seq<Routes.Control>)
    requires store.Valid()
    requires (jobId, chIdx) in store.chapterStates && store.chapterStates[(jobId, chIdx)].status == Processing
    modifies store
    ensures store.Valid() && store.dictionary == old(store.dictionary)
    ensures Confined(old(store.jobs), store.jobs, old(store.chapterStates), store.chapterStates, jobId, (jobId, chIdx))
    ensures (jobId, chIdx) in store.chapterStates && store.chapterStates[(jobId, chIdx)].status == Processing
    ensures halt.None? ==> ChunkAudio(env, vas, mode, c, rate) == Ok((more, newRate))
                           && store.chapterStates[(jobId, chIdx)] == ChapterRow(workerName, i + 1, total, Processing, now)
                           && (jobId in store.jobs ==> store.jobs[jobId].status == Processing)
    ensures halt.Some? ==> halt.value == Stopped || halt.value == Suspended
                           || (ChunkAudio(env, vas, mode, c, rate).Err? && halt.value == Error(ChunkAudio(env, vas, mode, c, rate).error))
    ensures halt == Some(Stopped) ==> jobId !in store.jobs || store.jobs[jobId].status == Cancelled
    ensures (events == [] && jobId in old(store.jobs) && old(store.jobs)[jobId].status == Processing && !Raises(env, vas, c)) ==>
              halt.None? && rest == [] && jobId in store.jobs
  {
    more, newRate := [], rate;
    var gate;
    ghost var jobs0, states0 := store.jobs, store.chapterStates;
    gate, rest := Await(store, jobId, events);
    assert Confined(jobs0, store.jobs, states0, store.chapterStates, jobId, (jobId, chIdx));
    if gate == Halt {
      return Some(Stopped), more, newRate, rest;
    }
    if gate == Stall {
      return Some(Suspended), more, newRate, rest;
    }
    var progress := ChunkFields(i);
    ghost var jobs1, states1 := store.jobs, store.chapterStates;
    StatusUpdate(store.jobs, jobId, progress, 0);
    store.UpdateJob(jobId, progress);
    store.UpdateChapterState(jobId, chIdx, workerName, i + 1, total, Processing, now);
    SetConfined(states1, (jobId, chIdx), store.chapterStates[(jobId, chIdx)]);
    ConfinedTrans(jobs0, jobs1, store.jobs, states0, states1, store.chapterStates, jobId, (jobId, chIdx));
    ChunkAudioOk(env, vas, mode, c, rate);
    var step := ChunkAudio(env, vas, mode, c, rate);
    if step.Err? {
      return Some(Error(step.error)), more, newRate, rest;
    }
    more, newRate := step.value.0, step.value.1;
    halt := None;
  }

  /** A chunk the engine does not raise on adds its parts. */
  lemma ChunkAudioOk(env: Engine, vas: Assignments, mode: string, c: Chunk, rate: nat)
    ensures ChunkAudio(env, vas, mode, c, rate).Err? <==> Raises(env, vas, c)
  {
  }

  /** Lines 95-171: the checks, the progress writes and the audio of each chunk. */
  method SynthesizeChunks(store: Store, jobId: string, chIdx: nat, workerName: string, env: Engine, vas: Assignments,
                          mode: string, chunks: seq<Chunk>, now: string, events: seq<Routes.Control>)
    returns (halt: Option<Exit>, parts: seq<Samples>, rest: seq<Routes.Control>)
    requires store.Valid() && |chunks| > 0
    requires (jobId, chIdx) in store.chapterStates && store.chapterStates[(jobId, chIdx)].status == Processing
    modifies store
    ensures store.Valid() && store.dictionary == old(store.dictionary)
    ensures Confined(old(store.jobs), store.jobs, old(store.chapterStates), store.chapterStates, jobId, (jobId, chIdx))
    ensures (jobId, chIdx) in store.chapterStates
    ensures halt.None? ==> Produce(env, vas, mode, chunks, env.sampleRate).Ok?
                           && parts == Produce(env, vas, mode, chunks, env.sampleRate).value.0
                           && store.chapterStates[(jobId, chIdx)] == ChapterRow(workerName, |chunks|, |chunks|, Processing, now)
                           && (jobId in store.jobs ==> store.jobs[jobId].status == Processing)
    ensures halt.Some? ==> halt.value == Stopped || halt.value == Suspended || halt.value.Error?
    ensures halt.Some? && !halt.value.Error? ==> store.chapterStates[(jobId, chIdx)].status == Processing
    ensures halt == Some(Stopped) ==> jobId !in store.jobs || store.jobs[jobId].status == Cancelled
    ensures halt.Some? && halt.value.Error? ==> Produce(env, vas, mode, chunks, env.sampleRate) == Err(halt.value.message)
    ensures (events == [] && jobId in old(store.jobs) && old(store.jobs)[jobId].status == Processing
             && (forall k :: 0 <= k < |chunks| ==> !Raises(env, vas, chunks[k]))) ==> halt.None? && jobId in store.jobs
  {
    ghost var quiet := events == [] && jobId in store.jobs && store.jobs[jobId].status == Processing
                       && (forall k :: 0 <= k < |chunks| ==> !Raises(env, vas, chunks[k]));
    parts, rest := [], events;
    var rate := env.sampleRate;
    var i := 0;
    while i < |chunks|
      invariant 0 <= i <= |chunks|
      invariant store.Valid() && store.dictionary == old(store.dictionary)
      invariant Confined(old(store.jobs), store.jobs, old(store.chapterStates), store.chapterStates, jobId, (jobId, chIdx))
      invariant (jobId, chIdx) in store.chapterStates && store.chapterStates[(jobId, chIdx)].status == Processing
      invariant i > 0 ==> store.chapterStates[(jobId, chIdx)] == ChapterRow(workerName, i, |chunks|, Processing, now)
      invariant i > 0 && jobId in store.jobs ==> store.jobs[jobId].status == Processing
      invariant Produce(env, vas, mode, chunks[..i], env.sampleRate) == Ok((parts, rate))
      invariant quiet ==> rest == [] && jobId in store.jobs && store.jobs[jobId].status == Processing
    {
      ghost var jobs0, states0 := store.jobs, store.chapterStates;
      ProduceStep(env, vas, mode, chunks, i, env.sampleRate, (parts, rate));
      var more, next;
      halt, more, next, rest := ReadChunk(store, jobId, chIdx, workerName, env, vas, mode, chunks[i], i, |chunks|, rate, now, rest);
      ConfinedTrans(old(store.jobs), jobs0, store.jobs, old(store.chapterStates), states0, store.chapterStates, jobId, (jobId, chIdx));
      if halt.Some? {
        if halt.value.Error? {
          ProduceErrPersists(env, vas, mode, chunks, i + 1, env.sampleRate);
        }
        return;
      }
      parts, rate := parts + more, next;
      i := i + 1;
    }
    assert chunks[..i] == chunks;
    halt := None;
  }

  /** Counting a chapter raises the job's counter by one and changes nothing else. */
  lemma IncrementProgressed(jobs: map<string, JobRow>, id: string, n: int)
    requires id in jobs && n == jobs[id].completedChapters + 1
    ensures Progressed(jobs, jobs[id := jobs[id].(completedChapters := n)], id, 1)
  {
  }

  /**
   * Lines 173-222: with no audio the run ends; otherwise the chapter file
   * (or, in the test pipeline, the test file) is written.
   */
  method Finish(store: Store, jobId: string, chIdx: nat, workerName: string, env: Engine, job: Job,
                parts: seq<Samples>, total: nat, clock: Clock)
    returns (exit: Exit, written: Option<(string, Samples)>)
    requires store.Valid()
    modifies store
    ensures store.Valid() && store.dictionary == old(store.dictionary)
    ensures exit == NoAudio || exit.Error? || exit.TestOutput? || exit.ChapterDone? || exit.Finalised?
    ensures exit == NoAudio <==> parts == []
    ensures jobId in store.jobs <==> jobId in old(store.jobs)
    ensures exit == NoAudio || exit.Error? ==> store.jobs == old(store.jobs) && store.chapterStates == old(store.chapterStates)
    ensures Progressed(old(store.jobs), store.jobs, jobId, if Counted(exit) then 1 else 0)
    ensures store.chapterStates - {(jobId, chIdx)} == old(store.chapterStates) - {(jobId, chIdx)}
    ensures parts != [] ==> written.Some? && written.value.1 == Flatten(parts)
    ensures parts == [] ==> written.None?
    ensures exit.Error? ==> env.write(written.value.0, written.value.1) == Some(exit.message)
    ensures exit.TestOutput? ==> TestWritten(env, job, jobId, clock.stamp, exit.file, written, store.jobs)
    ensures Counted(exit) ==> ChapterWritten(env, job, jobId, chIdx, exit, written, store.jobs)
    ensures exit.ChapterDone? && jobId in store.jobs ==> store.jobs[jobId].status == old(store.jobs)[jobId].status
    ensures exit.TestOutput? || Counted(exit) ==>
      store.chapterStates == old(store.chapterStates)[(jobId, chIdx) := ChapterRow(workerName, total, total, Completed, clock.iso)]
  {
    if parts == [] {
      return NoAudio, None;
    }
    var audio := Flatten(parts);
    if job.pipelineMode == "test_pipeline" {
      exit, written := FinishTest(store, jobId, chIdx, workerName, env, job, audio, total, clock);
    } else {
      exit, written := FinishChapter(store, jobId, chIdx, workerName, env, job, audio, total, clock);
    }
  }

  /** Lines 178-199: the test file under `test_outputs`, the chapter row completed, the job completed with that file. */
  method FinishTest(store: Store, jobId: string, chIdx: nat, workerName: string, env: Engine, job: Job,
                    audio: Samples, total: nat, clock: Clock)
    returns (exit: Exit, written: Option<(string, Samples)>)
    requires store.Valid()
    modifies store
    ensures store.Valid() && store.dictionary == old(store.dictionary)
    ensures exit.Error? || exit.TestOutput?
    ensures jobId in store.jobs <==> jobId in old(store.jobs)
    ensures exit.Error? ==> store.jobs == old(store.jobs) && store.chapterStates == old(store.chapterStates)
    ensures Progressed(old(store.jobs), store.jobs, jobId, 0)
    ensures store.chapterStates - {(jobId, chIdx)} == old(store.chapterStates) - {(jobId, chIdx)}
    ensures written.Some? && written.value.1 == audio
    ensures written.value.0 == JoinPath(env.testDir, TestFileName(clock.stamp, jobId, Extension(job.outputFormat)))
    ensures exit.Error? ==> env.write(written.value.0, written.value.1) == Some(exit.message)
    ensures exit.TestOutput? ==>
      (exit.file == "/test_outputs/" + TestFileName(clock.stamp, jobId, Extension(job.outputFormat))
       && (jobId in store.jobs ==>
             RowToJob(store.jobs[jobId]).value.status == Completed && RowToJob(store.jobs[jobId]).value.outputFiles == [exit.file])
       && store.chapterStates == old(store.chapterStates)[(jobId, chIdx) := ChapterRow(workerName, total, total, Completed, clock.iso)])
  {
    var name := TestFileName(clock.stamp, jobId, Extension(job.outputFormat));
    var path := JoinPath(env.testDir, name);
    written := Some((path, audio));
    var error := env.write(path, audio);
    if error.Some? {
      return Error(error.value), written;
    }
    ghost var states0 := store.chapterStates;
    store.UpdateChapterState(jobId, chIdx, workerName, total, total, Completed, clock.iso);
    SetConfined(states0, (jobId, chIdx), store.chapterStates[(jobId, chIdx)]);
    exit := TestOutput("/test_outputs/" + name);
    CompletionUpdate(store.jobs, jobId, [exit.file], clock.iso);
    store.UpdateJob(jobId, Completion([exit.file], clock.iso));
  }

  /** Lines 201-222: the chapter file, the chapter row completed, the count, and the job completed by the last chapter. */
  method FinishChapter(store: Store, jobId: string, chIdx: nat, workerName: string, env: Engine, job: Job,
                       audio: Samples, total: nat, clock: Clock)
    returns (exit: Exit, written: Option<(string, Samples)>)
    requires store.Valid()
    modifies store
    ensures store.Valid() && store.dictionary == old(store.dictionary)
    ensures exit.Error? || Counted(exit)
    ensures jobId in store.jobs <==> jobId in old(store.jobs)
    ensures exit.Error? ==> store.jobs == old(store.jobs) && store.chapterStates == old(store.chapterStates)
    ensures Progressed(old(store.jobs), store.jobs, jobId, if Counted(exit) then 1 else 0)
    ensures store.chapterStates - {(jobId, chIdx)} == old(store.chapterStates) - {(jobId, chIdx)}
    ensures written.Some? && written.value.1 == audio
    ensures written.value.0 == ChapterPath(env, jobId, chIdx, Extension(job.outputFormat))
    ensures exit.Error? ==> env.write(written.value.0, written.value.1) == Some(exit.message)
    ensures exit.ChapterDone? ==> exit.count < ChapterCountOf(job)
    ensures exit.Finalised? ==> exit.count >= ChapterCountOf(job)
    ensures Counted(exit) && jobId in store.jobs ==> exit.count == store.jobs[jobId].completedChapters
    ensures exit.ChapterDone? && jobId in store.jobs ==> store.jobs[jobId].status == old(store.jobs)[jobId].status
    ensures exit.Finalised? ==>
      (jobId in store.jobs
       && RowToJob(store.jobs[jobId]).value.status == Completed && RowToJob(store.jobs[jobId]).value.progress == 100
       && RowToJob(store.jobs[jobId]).value.outputFiles == OutputList(jobId, ChapterCountOf(job), Extension(job.outputFormat)))
    ensures Counted(exit) ==>
      store.chapterStates == old(store.chapterStates)[(jobId, chIdx) := ChapterRow(workerName, total, total, Completed, clock.iso)]
  {
    var ext := Extension(job.outputFormat);
    var path := ChapterPath(env, jobId, chIdx, ext);
    written := Some((path, audio));
    var error := env.write(path, audio);
    if error.Some? {
      return Error(error.value), written;
    }
    ghost var states0 := store.chapterStates;
    store.UpdateChapterState(jobId, chIdx, workerName, total, total, Completed, clock.iso);
    SetConfined(states0, (jobId, chIdx), store.chapterStates[(jobId, chIdx)]);
    ghost var jobs0 := store.jobs;
    var count := store.IncrementCompletedChapters(jobId);
    if jobId in jobs0 {
      IncrementProgressed(jobs0, jobId, count);
    }
    if count >= ChapterCountOf(job) {
      ghost var jobs1 := store.jobs;
      CompletionUpdate(store.jobs, jobId, OutputList(jobId, ChapterCountOf(job), ext), clock.iso);
      store.UpdateJob(jobId, Completion(OutputList(jobId, ChapterCountOf(job), ext), clock.iso));
      ProgressedTrans(jobs0, jobs1, store.jobs, jobId, 1, 0);
      return Finalised(count), written;
    }
    exit := ChapterDone(count);
  }

  /** `total_chapters` of the worker. */
  function ChapterCountOf(job: Job): nat {
    Routes.ChapterCount(job.chapters)
  }

  /** Lines 224-227: the job is marked failed with the message, the chapter row failed with no chunks. */
  method Fail(store: Store, jobId: string, chIdx: nat, workerName: string, message: string, now: string)
    requires store.Valid()
    modifies store
    ensures store.Valid() && store.dictionary == old(store.dictionary)
    ensures Progressed(old(store.jobs), store.jobs, jobId, 0)
    ensures jobId in store.jobs ==> store.jobs[jobId].status == Status.Failed && store.jobs[jobId].error == Some(message)
    ensures store.chapterStates == old(store.chapterStates)[(jobId, chIdx) := ChapterRow(workerName, 0, 0, Status.Failed, now)]
  {
    UpdatedConfined(store.jobs, jobId, Failure(message));
    if jobId in store.jobs {
      FailureWritten(store.jobs[jobId], message);
    }
    store.UpdateJob(jobId, Failure(message));
    store.UpdateChapterState(jobId, chIdx, workerName, 0, 0, Status.Failed, now);
  }

  /** A chapter row that a run ending early leaves: as it was, or still `processing`. */
  predicate NotCompleted(s0: map<Key, ChapterRow>, s1: map<Key, ChapterRow>, key: Key) {
    key in s1 ==> s1[key].status == Processing || (key in s0 && s1[key] == s0[key])
  }

  /**
   * `_process_chapter(job_id, ch_idx)`, with the start corrected as
   * `Start` describes: a job cancelled before the worker picks it up is left
   * as it is, and any other job goes through `Begin`, the start as written.
   */
  method ProcessChapter(store: Store, jobId: string, chIdx: nat, env: Engine, workerName: string, clock: Clock,
                        events: seq<Routes.Control>)
    returns (exit: Exit, written: Option<(string, Samples)>)
    requires store.Valid()
    modifies store
    ensures store.Valid() && store.dictionary == old(store.dictionary)
    ensures exit == NoJob <==> jobId !in old(store.jobs)
    ensures Progressed(old(store.jobs), store.jobs, jobId, if Counted(exit) then 1 else 0)
    ensures store.chapterStates - {(jobId, chIdx)} == old(store.chapterStates) - {(jobId, chIdx)}
    ensures exit == NoJob || (jobId in old(store.jobs) && old(store.jobs)[jobId].status == Cancelled) ==>
      ((exit == NoJob || exit == Stopped) && written.None?
       && store.jobs == old(store.jobs) && store.chapterStates == old(store.chapterStates))
    ensures exit == Stopped || exit == NoChunks || exit == Suspended || exit == NoAudio ==>
      NotCompleted(old(store.chapterStates), store.chapterStates, (jobId, chIdx)) && written.None?
    ensures exit.Error? ==>
      ((jobId, chIdx) in store.chapterStates
       && store.chapterStates[(jobId, chIdx)] == ChapterRow(workerName, 0, 0, Status.Failed, clock.iso)
       && (jobId in store.jobs ==> store.jobs[jobId].status == Status.Failed && store.jobs[jobId].error == Some(exit.message)))
    ensures exit.TestOutput? || Counted(exit) ==>
      (jobId in old(store.jobs)
       && Produced(env, old(store.dictionary), RowToJob(old(store.jobs)[jobId]).value, jobId, chIdx, workerName, clock.iso,
                   written, store.chapterStates))
    ensures jobId in old(store.jobs) ==>
      Outcome(env, RowToJob(old(store.jobs)[jobId]).value, jobId, chIdx, clock, exit, written, store.jobs)
    ensures (events == [] && Healthy(env) && jobId in old(store.jobs) && old(store.jobs)[jobId].status != Cancelled
             && ChapterSource(RowToJob(old(store.jobs)[jobId]).value, chIdx).Some?) ==>
      jobId in store.jobs && if RowToJob(old(store.jobs)[jobId]).value.pipelineMode == "test_pipeline" then exit.TestOutput?
      else Counted(exit)
  {
    written := None;
    var found := store.GetJob(jobId);
    if found.None? {
      return NoJob, None;
    }
    var job := found.value;
    if job.status == Cancelled {
      return Stopped, None;
    }
    exit, written := Attempt(store, jobId, chIdx, job, env, workerName, clock, events);
  }

  /** Lines 36-227 for a job that is there and not cancelled: the run, and the failure handler when it raises. */
  method Attempt(store: Store, jobId: string, chIdx: nat, job: Job, env: Engine, workerName: string, clock: Clock,
                 events: seq<Routes.Control>)
    returns (exit: Exit, written: Option<(string, Samples)>)
    requires store.Valid() && jobId in store.jobs && RowToJob(store.jobs[jobId]) == Some(job)
    modifies store
    ensures store.Valid() && store.dictionary == old(store.dictionary)
    ensures exit != NoJob
    ensures Progressed(old(store.jobs), store.jobs, jobId, if Counted(exit) then 1 else 0)
    ensures store.chapterStates - {(jobId, chIdx)} == old(store.chapterStates) - {(jobId, chIdx)}
    ensures exit == Stopped || exit == NoChunks || exit == Suspended || exit == NoAudio ==>
      NotCompleted(old(store.chapterStates), store.chapterStates, (jobId, chIdx)) && written.None?
    ensures exit.Error? ==>
      ((jobId, chIdx) in store.chapterStates
       && store.chapterStates[(jobId, chIdx)] == ChapterRow(workerName, 0, 0, Status.Failed, clock.iso)
       && (jobId in store.jobs ==> store.jobs[jobId].status == Status.Failed && store.jobs[jobId].error == Some(exit.message)))
    ensures exit.TestOutput? || Counted(exit) ==>
      Produced(env, store.dictionary, job, jobId, chIdx, workerName, clock.iso, written, store.chapterStates)
    ensures Outcome(env, job, jobId, chIdx, clock, exit, written, store.jobs)
    ensures (events == [] && Healthy(env) && ChapterSource(job, chIdx).Some?) ==>
      jobId in store.jobs && if job.pipelineMode == "test_pipeline" then exit.TestOutput? else Counted(exit)
  {
    exit, written := Run(store, jobId, chIdx, job, env, workerName, clock, events);
    if exit.Error? {
      ghost var jobs1, states1 := store.jobs, store.chapterStates;
      Fail(store, jobId, chIdx, workerName, exit.message, clock.iso);
      ProgressedTrans(old(store.jobs), jobs1, store.jobs, jobId, 0, 0);
      SetConfined(states1, (jobId, chIdx), store.chapterStates[(jobId, chIdx)]);
    }
  }

  /**
   * What a run that gets past the pickup promises about the job: a stopped
   * run leaves it gone or cancelled, the test pipeline writes its test file
   * and completes the job with it, a counted chapter writes its file and
   * counts, and a chapter that is not the last leaves the job `processing`.
   */
  predicate Outcome(env: Engine, job: Job, jobId: string, chIdx: nat, clock: Clock, exit: Exit,
                    written: Option<(string, Samples)>, jobs: map<string, JobRow>)
  {
    && (exit == Stopped ==> jobId !in jobs || jobs[jobId].status == Cancelled)
    && (exit.TestOutput? ==> TestWritten(env, job, jobId, clock.stamp, exit.file, written, jobs))
    && (Counted(exit) ==> ChapterWritten(env, job, jobId, chIdx, exit, written, jobs))
    && (exit.ChapterDone? && jobId in jobs ==> jobs[jobId].status == Processing)
  }

  /** The audio of a completed chapter: the chapter has chunks and they are delivered. */
  predicate Produced(env: Engine, dictionary: map<string, string>, job: Job, jobId: string, chIdx: nat, workerName: string, now: string,
                     written: Option<(string, Samples)>, states: map<Key, ChapterRow>) {
    ChapterSource(job, chIdx).Some?
    && Delivered(env, job, jobId, chIdx, workerName, now, written, states, ChapterChunks(env, dictionary, ChapterSource(job, chIdx).value))
  }

  /** The chunks are there, none failed, the file holds all their parts, and the chapter row is completed with all of them read. */
  predicate Delivered(env: Engine, job: Job, jobId: string, chIdx: nat, workerName: string, now: string,
                      written: Option<(string, Samples)>, states: map<Key, ChapterRow>, chunks: seq<Chunk>) {
    chunks != [] && Produce(env, job.voiceAssignments, job.pipelineMode, chunks, env.sampleRate).Ok?
    && written.Some?
    && written.value.1 == Flatten(Produce(env, job.voiceAssignments, job.pipelineMode, chunks, env.sampleRate).value.0)
    && (jobId, chIdx) in states
    && states[(jobId, chIdx)] == ChapterRow(workerName, |chunks|, |chunks|, Completed, now)
  }

  /** A produced chapter's row is completed. */
  lemma ProducedRow(env: Engine, dictionary: map<string, string>, job: Job, jobId: string, chIdx: nat, workerName: string, now: string,
                    written: Option<(string, Samples)>, states: map<Key, ChapterRow>)
    requires Produced(env, dictionary, job, jobId, chIdx, workerName, now, written, states)
    ensures (jobId, chIdx) in states && states[(jobId, chIdx)].status == Completed
  {
  }

  /** The outcome of the test pipeline: the test file, and the job completed with it as its only output. */
  predicate TestWritten(env: Engine, job: Job, jobId: string, stamp: string, file: string,
                        written: Option<(string, Samples)>, jobs: map<string, JobRow>) {
    job.pipelineMode == "test_pipeline"
    && written.Some? && written.value.0 == JoinPath(env.testDir, TestFileName(stamp, jobId, Extension(job.outputFormat)))
    && file == "/test_outputs/" + TestFileName(stamp, jobId, Extension(job.outputFormat))
    && (jobId in jobs ==> RowToJob(jobs[jobId]).Some?
                          && RowToJob(jobs[jobId]).value.status == Completed && RowToJob(jobs[jobId]).value.outputFiles == [file])
  }

  /**
   * The outcome of a counted chapter: the chapter file, the count, and for
   * the chapter that reaches the number of chapters, the job completed with
   * one output per chapter.
   */
  predicate ChapterWritten(env: Engine, job: Job, jobId: string, chIdx: nat, exit: Exit,
                           written: Option<(string, Samples)>, jobs: map<string, JobRow>)
    requires Counted(exit)
  {
    job.pipelineMode != "test_pipeline"
    && written.Some? && written.value.0 == ChapterPath(env, jobId, chIdx, Extension(job.outputFormat))
    && (exit.ChapterDone? ==> exit.count < ChapterCountOf(job))
    && (exit.Finalised? ==> exit.count >= ChapterCountOf(job) && jobId in jobs)
    && (jobId in jobs ==> exit.count == jobs[jobId].completedChapters)
    && (exit.Finalised? ==>
          RowToJob(jobs[jobId]).Some?
          && RowToJob(jobs[jobId]).value.status == Completed && RowToJob(jobs[jobId]).value.progress == 100
          && RowToJob(jobs[jobId]).value.outputFiles == OutputList(jobId, ChapterCountOf(job), Extension(job.outputFormat)))
  }

  /** Lines 36-222 for a job that is there and not cancelled, up to the failure handler. */
  method Run(store: Store, jobId: string, chIdx: nat, job: Job, env: Engine, workerName: string, clock: Clock,
             events: seq<Routes.Control>)
    returns (exit: Exit, written: Option<(string, Samples)>)
    requires store.Valid() && jobId in store.jobs && RowToJob(store.jobs[jobId]) == Some(job)
    modifies store
    ensures store.Valid() && store.dictionary == old(store.dictionary)
    ensures exit != NoJob
    ensures Progressed(old(store.jobs), store.jobs, jobId, if Counted(exit) then 1 else 0)
    ensures store.chapterStates - {(jobId, chIdx)} == old(store.chapterStates) - {(jobId, chIdx)}
    ensures exit == Stopped || exit == NoChunks || exit == Suspended || exit == NoAudio ==>
      NotCompleted(old(store.chapterStates), store.chapterStates, (jobId, chIdx)) && written.None?
    ensures exit.TestOutput? || Counted(exit) ==>
      Produced(env, store.dictionary, job, jobId, chIdx, workerName, clock.iso, written, store.chapterStates)
    ensures Outcome(env, job, jobId, chIdx, clock, exit, written, store.jobs)
    ensures (events == [] && Healthy(env) && ChapterSource(job, chIdx).Some?) ==>
      jobId in store.jobs && if job.pipelineMode == "test_pipeline" then exit.TestOutput? else Counted(exit)
  {
    var halt, chapterText, rest := Begin(store, jobId, chIdx, job, workerName, clock.iso, events);
    if halt.Some? {
      return halt.value, None;
    }
    ghost var jobs1, states1 := store.jobs, store.chapterStates;
    var chunks := ReadChapter(env, store.dictionary, ChapterSource(job, chIdx).value, chapterText);
    if events == [] && Healthy(env) {
      HealthyChapter(env, store.dictionary, ChapterSource(job, chIdx).value);
    }
    exit, written := Chapter(store, jobId, chIdx, job, env, workerName, clock, chunks, rest);
    ProgressedTrans(old(store.jobs), jobs1, store.jobs, jobId, 0, if Counted(exit) then 1 else 0);
  }

  /** Lines 62-87: the speaker runs of the chapter's text, and the sentence chunks of each run. */
  method ReadChapter(env: Engine, dictionary: map<string, string>, source: string, chapterText: string) returns (chunks: seq<Chunk>)
    requires chapterText == Normaliser.Normalise(dictionary, source)
    ensures chunks == ChapterChunks(env, dictionary, source)
  {
    var segments := Speakers.ParseSegments(chapterText);
    chunks := ChunkSegments(segments, env.chunker, env.chunkSize);
  }

  /** Lines 85-222 once the chapter's chunks are known: the chunk loop and the output. */
  method Chapter(store: Store, jobId: string, chIdx: nat, job: Job, env: Engine, workerName: string, clock: Clock,
                 chunks: seq<Chunk>, events: seq<Routes.Control>)
    returns (exit: Exit, written: Option<(string, Samples)>)
    requires store.Valid()
    modifies store
    ensures store.Valid() && store.dictionary == old(store.dictionary)
    ensures exit != NoJob
    ensures Progressed(old(store.jobs), store.jobs, jobId, if Counted(exit) then 1 else 0)
    ensures store.chapterStates - {(jobId, chIdx)} == old(store.chapterStates) - {(jobId, chIdx)}
    ensures exit == Stopped || exit == NoChunks || exit == Suspended || exit == NoAudio ==>
      NotCompleted(old(store.chapterStates), store.chapterStates, (jobId, chIdx)) && written.None?
    ensures exit.TestOutput? || Counted(exit) ==>
      Delivered(env, job, jobId, chIdx, workerName, clock.iso, written, store.chapterStates, chunks)
    ensures Outcome(env, job, jobId, chIdx, clock, exit, written, store.jobs)
    ensures (events == [] && Healthy(env) && chunks != [] && jobId in old(store.jobs) && old(store.jobs)[jobId].status == Processing) ==>
      jobId in store.jobs && if job.pipelineMode == "test_pipeline" then exit.TestOutput? else Counted(exit)
  {
    if |chunks| == 0 {
      return NoChunks, None;
    }
    Prepare(store, jobId, chIdx, workerName, |chunks|, clock.iso);
    ghost var jobs1, states1 := store.jobs, store.chapterStates;
    exit, written := Voice(store, jobId, chIdx, job, env, workerName, clock, chunks, events);
    SetConfined(old(store.chapterStates), (jobId, chIdx), states1[(jobId, chIdx)]);
    ProgressedTrans(old(store.jobs), jobs1, store.jobs, jobId, 0, if Counted(exit) then 1 else 0);
  }

  /** Lines 95-222 for the chapter's chunks, once the chapter row is `processing`. */
  method Voice(store: Store, jobId: string, chIdx: nat, job: Job, env: Engine, workerName: string, clock: Clock,
               chunks: seq<Chunk>, events: seq<Routes.Control>)
    returns (exit: Exit, written: Option<(string, Samples)>)
    requires store.Valid() && chunks != []
    requires (jobId, chIdx) in store.chapterStates && store.chapterStates[(jobId, chIdx)].status == Processing
    modifies store
    ensures store.Valid() && store.dictionary == old(store.dictionary)
    ensures exit != NoJob && exit != NoChunks
    ensures Progressed(old(store.jobs), store.jobs, jobId, if Counted(exit) then 1 else 0)
    ensures store.chapterStates - {(jobId, chIdx)} == old(store.chapterStates) - {(jobId, chIdx)}
    ensures exit == Stopped || exit == Suspended || exit == NoAudio ==>
      (jobId, chIdx) in store.chapterStates && store.chapterStates[(jobId, chIdx)].status == Processing && written.None?
    ensures exit.TestOutput? || Counted(exit) ==>
      Delivered(env, job, jobId, chIdx, workerName, clock.iso, written, store.chapterStates, chunks)
    ensures Outcome(env, job, jobId, chIdx, clock, exit, written, store.jobs)
    ensures (events == [] && Healthy(env) && jobId in old(store.jobs) && old(store.jobs)[jobId].status == Processing) ==>
      jobId in store.jobs && if job.pipelineMode == "test_pipeline" then exit.TestOutput? else Counted(exit)
  {
    ghost var quiet := events == [] && Healthy(env) && jobId in store.jobs && store.jobs[jobId].status == Processing;
    if quiet {
      HealthyProduce(env, job.voiceAssignments, job.pipelineMode, chunks, env.sampleRate);
    }
    var halt, parts, rest := SynthesizeChunks(store, jobId, chIdx, workerName, env, job.voiceAssignments, job.pipelineMode,
                                              chunks, clock.iso, events);
    if halt.Some? {
      return halt.value, None;
    }
    ghost var jobs1 := store.jobs;
    exit, written := Finish(store, jobId, chIdx, workerName, env, job, parts, |chunks|, clock);
    ProgressedTrans(old(store.jobs), jobs1, store.jobs, jobId, 0, if Counted(exit) then 1 else 0);
  }

  /** Lines 89-90: the job's chunk count and the chapter row at chunk 0, `processing`. */
  method Prepare(store: Store, jobId: string, chIdx: nat, workerName: string, total: nat, now: string)
    requires store.Valid()
    modifies store
    ensures store.Valid() && store.dictionary == old(store.dictionary)
    ensures Confined(old(store.jobs), store.jobs, old(store.chapterStates), store.chapterStates, jobId, (jobId, chIdx))
    ensures jobId in store.jobs <==> jobId in old(store.jobs)
    ensures jobId in store.jobs ==> store.jobs[jobId].status == old(store.jobs)[jobId].status
    ensures store.chapterStates == old(store.chapterStates)[(jobId, chIdx) := ChapterRow(workerName, 0, total, Processing, now)]
  {
    NoStatusUpdate(store.jobs, jobId, CountFields(total));
    store.UpdateJob(jobId, CountFields(total));
    ghost var states0 := store.chapterStates;
    store.UpdateChapterState(jobId, chIdx, workerName, 0, total, Processing, now);
    SetConfined(states0, (jobId, chIdx), store.chapterStates[(jobId, chIdx)]);
  }

  /** A healthy engine, whose time-stretch never raises either, raises on no chunk. */
  lemma HealthyNeverRaises(env: Engine, vas: Assignments, chunks: seq<Chunk>)
    requires Healthy(env)
    ensures forall k :: 0 <= k < |chunks| ==> !Raises(env, vas, chunks[k])
  {
    forall k | 0 <= k < |chunks| ensures !Raises(env, vas, chunks[k]) {
      var c := chunks[k];
      assert SynthOf(env, vas, c).Waveform?;
    }
  }

  // ---------------------------------------------------------------------
  // Fan-in
  // ---------------------------------------------------------------------

  /** Rows with the same setup decode to jobs with the same text, chapters, voices, format and mode. */
  lemma SameSetupJob(a: JobRow, b: JobRow)
    requires SameSetup(a, b) && RowToJob(a).Some? && RowToJob(b).Some?
    ensures RowToJob(b).value.chapters == RowToJob(a).value.chapters
    ensures RowToJob(b).value.text == RowToJob(a).value.text
    ensures RowToJob(b).value.voiceAssignments == RowToJob(a).value.voiceAssignments
    ensures RowToJob(b).value.outputFormat == RowToJob(a).value.outputFormat
    ensures RowToJob(b).value.pipelineMode == RowToJob(a).value.pipelineMode
  {
  }

  /**
   * A worker for a chapter of a job that is there, not cancelled and not in
   * the test pipeline, with no other client and an engine that never fails:
   * the chapter is counted, and completed.
   */
  method CountChapter(store: Store, jobId: string, chIdx: nat, env: Engine, workerName: string, clock: Clock)
    returns (exit: Exit, written: Option<(string, Samples)>)
    requires store.Valid() && Healthy(env)
    requires jobId in store.jobs && store.jobs[jobId].status != Cancelled
    requires RowToJob(store.jobs[jobId]).value.pipelineMode != "test_pipeline"
    requires ChapterSource(RowToJob(store.jobs[jobId]).value, chIdx).Some?
    modifies store
    ensures store.Valid() && store.dictionary == old(store.dictionary)
    ensures jobId in store.jobs && Counted(exit)
    ensures Progressed(old(store.jobs), store.jobs, jobId, 1)
    ensures store.chapterStates - {(jobId, chIdx)} == old(store.chapterStates) - {(jobId, chIdx)}
    ensures (jobId, chIdx) in store.chapterStates && store.chapterStates[(jobId, chIdx)].status == Completed
    ensures ChapterWritten(env, RowToJob(old(store.jobs)[jobId]).value, jobId, chIdx, exit, written, store.jobs)
    ensures exit.ChapterDone? ==> store.jobs[jobId].status == Processing
  {
    ghost var job := RowToJob(store.jobs[jobId]).value;
    exit, written := ProcessChapter(store, jobId, chIdx, env, workerName, clock, []);
    ProducedRow(env, old(store.dictionary), job, jobId, chIdx, workerName, clock.iso, written, store.chapterStates);
  }

  /** Where a fan-in over the chapters `order` stands after `k` workers: the job still has the set-up of
      `row0`, its counter reads `k`, the chapters of the first `k` workers are completed, and the job is
      still live until the last one, which finalises it. */
  ghost predicate FanInState(jobs: map<string, JobRow>, states: map<Key, ChapterRow>, jobId: string,
                             row0: JobRow, order: seq<nat>, k: nat)
    requires RowToJob(row0).Some?
  {
    && k <= |order|
    && jobId in jobs && SameSetup(row0, jobs[jobId]) && jobs[jobId].completedChapters == k
    && (k < |order| ==> jobs[jobId].status != Cancelled)
    && (k == |order| ==> CompletedWith(jobs, jobId, OutputList(jobId, |order|, Extension(RowToJob(row0).value.outputFormat))))
    && forall j :: 0 <= j < k ==> (jobId, order[j]) in states && states[(jobId, order[j])].status == Completed
  }

  /** The `k + 1`-th worker of the fan-in, for chapter `order[k]`. */
  method CompleteChapter(store: Store, jobId: string, order: seq<nat>, k: nat, env: Engine, workerName: string, clock: Clock,
                         ghost row0: JobRow)
    returns (exit: Exit)
    requires store.Valid() && Healthy(env) && RowToJob(row0).Some? && RowToJob(row0).value.pipelineMode != "test_pipeline"
    requires k < |order| == ChapterCountOf(RowToJob(row0).value) && order[k] < |order|
    requires FanInState(store.jobs, store.chapterStates, jobId, row0, order, k)
    modifies store
    ensures store.Valid() && store.dictionary == old(store.dictionary)
    ensures FanInState(store.jobs, store.chapterStates, jobId, row0, order, k + 1)
    ensures store.jobs - {jobId} == old(store.jobs) - {jobId}
    ensures exit == if k + 1 < |order| then ChapterDone(k + 1) else Finalised(|order|)
  {
    ghost var jobs0, states0 := store.jobs, store.chapterStates;
    SameSetupJob(row0, jobs0[jobId]);
    var written;
    exit, written := CountChapter(store, jobId, order[k], env, workerName, clock);
    FanInStep(env, row0, jobs0, store.jobs, jobId, order[k], exit, written, k, |order|);
    RowsCompleted(states0, store.chapterStates, jobId, order, k);
  }

  method RunJob(store: Store, jobId: string, order: seq<nat>, env: Engine, workerName: string, clock: Clock)
    returns (exits: seq<Exit>)
    requires store.Valid() && Healthy(env)
    requires jobId in store.jobs && store.jobs[jobId].status != Cancelled && store.jobs[jobId].completedChapters == 0
    requires RowToJob(store.jobs[jobId]).value.pipelineMode != "test_pipeline"
    requires |order| == ChapterCountOf(RowToJob(store.jobs[jobId]).value)
    requires forall k :: 0 <= k < |order| ==> order[k] < |order|
    requires forall i :: 0 <= i < |order| ==> i in order
    modifies store
    ensures store.Valid() && store.dictionary == old(store.dictionary)
    ensures |exits| == |order|
    ensures forall k :: 0 <= k < |order| - 1 ==> exits[k] == ChapterDone(k + 1)
    ensures exits[|order| - 1] == Finalised(|order|)
    ensures jobId in store.jobs && store.jobs[jobId].completedChapters == |order|
    ensures CompletedWith(store.jobs, jobId, OutputList(jobId, |order|, Extension(RowToJob(old(store.jobs)[jobId]).value.outputFormat)))
    ensures forall i :: 0 <= i < |order| ==> (jobId, i) in store.chapterStates && store.chapterStates[(jobId, i)].status == Completed
    ensures store.jobs - {jobId} == old(store.jobs) - {jobId}
  {
    ghost var row0 := store.jobs[jobId];
    exits := FanIn(store, jobId, order, env, workerName, clock, row0);
    EveryChapterCompleted(store.chapterStates, jobId, order);
    FanInExitsAt(|order|, |order|);
  }

  /** The workers of `RunJob`, one after the other, each taking the next chapter of `order`. */
  method FanIn(store: Store, jobId: string, order: seq<nat>, env: Engine, workerName: string, clock: Clock,
               ghost row0: JobRow)
    returns (exits: seq<Exit>)
    requires store.Valid() && Healthy(env) && RowToJob(row0).Some? && RowToJob(row0).value.pipelineMode != "test_pipeline"
    requires |order| == ChapterCountOf(RowToJob(row0).value)
    requires forall k :: 0 <= k < |order| ==> order[k] < |order|
    requires FanInState(store.jobs, store.chapterStates, jobId, row0, order, 0)
    modifies store
    ensures store.Valid() && store.dictionary == old(store.dictionary)
    ensures FanInState(store.jobs, store.chapterStates, jobId, row0, order, |order|)
    ensures store.jobs - {jobId} == old(store.jobs) - {jobId}
    ensures exits == FanInExits(|order|, |order|)
  {
    var n := |order|;
    exits := [];
    var k := 0;
    while k < n
      invariant 0 <= k <= n
      invariant store.Valid() && store.dictionary == old(store.dictionary)
      invariant FanInState(store.jobs, store.chapterStates, jobId, row0, order, k)
      invariant store.jobs - {jobId} == old(store.jobs) - {jobId}
      invariant exits == FanInExits(k, n)
    {
      var exit := CompleteChapter(store, jobId, order, k, env, workerName, clock, row0);
      exits := exits + [exit];
      k := k + 1;
    }
  }

  /** The job is completed, at progress 100, with exactly `files` as its outputs. */
  predicate CompletedWith(jobs: map<string, JobRow>, jobId: string, files: seq<string>) {
    jobId in jobs && RowToJob(jobs[jobId]).Some?
    && RowToJob(jobs[jobId]).value.status == Completed && RowToJob(jobs[jobId]).value.progress == 100
    && RowToJob(jobs[jobId]).value.outputFiles == files
  }

  /** What the first `k` workers of `n` return, in the order they run. */
  function FanInExits(k: nat, n: nat): seq<Exit> {
    if k == 0 then [] else FanInExits(k - 1, n) + [if k < n then ChapterDone(k) else Finalised(n)]
  }

  /** The `j + 1`-th worker of `n` reports `j + 1` chapters done, or finalises when it is the last. */
  lemma {:induction false} FanInExitsAt(k: nat, n: nat)
    ensures |FanInExits(k, n)| == k
    ensures forall j :: 0 <= j < k ==> FanInExits(k, n)[j] == if j + 1 < n then ChapterDone(j + 1) else Finalised(n)
  {
    if k > 0 {
      FanInExitsAt(k - 1, n);
    }
  }

  /**
   * The count a worker returns is the chapter's place in the completion
   * order: the `k + 1`-th worker of `n` reports `k + 1` chapters done, and
   * the `n`-th finalises the job with one output per chapter.
   */
  lemma FanInStep(env: Engine, row0: JobRow, jobs0: map<string, JobRow>, jobs1: map<string, JobRow>, jobId: string, chIdx: nat,
                  exit: Exit, written: Option<(string, Samples)>, k: nat, n: nat)
    requires RowToJob(row0).Some? && n == ChapterCountOf(RowToJob(row0).value) && k < n
    requires jobId in jobs0 && SameSetup(row0, jobs0[jobId]) && jobs0[jobId].completedChapters == k && RowToJob(jobs0[jobId]).Some?
    requires Progressed(jobs0, jobs1, jobId, 1) && jobId in jobs1 && Counted(exit)
    requires ChapterWritten(env, RowToJob(jobs0[jobId]).value, jobId, chIdx, exit, written, jobs1)
    ensures SameSetup(row0, jobs1[jobId]) && jobs1[jobId].completedChapters == k + 1
    ensures jobs1 - {jobId} == jobs0 - {jobId}
    ensures exit == if k + 1 < n then ChapterDone(k + 1) else Finalised(n)
    ensures k + 1 == n ==> CompletedWith(jobs1, jobId, OutputList(jobId, n, Extension(RowToJob(row0).value.outputFormat)))
  {
    SameSetupJob(row0, jobs0[jobId]);
  }

  /** The rows completed before a worker stay completed, and the worker's own row joins them. */
  lemma RowsCompleted(s0: map<Key, ChapterRow>, s1: map<Key, ChapterRow>, jobId: string, order: seq<nat>, k: nat)
    requires k < |order|
    requires forall j :: 0 <= j < k ==> (jobId, order[j]) in s0 && s0[(jobId, order[j])].status == Completed
    requires s1 - {(jobId, order[k])} == s0 - {(jobId, order[k])}
    requires (jobId, order[k]) in s1 && s1[(jobId, order[k])].status == Completed
    ensures forall j :: 0 <= j <= k ==> (jobId, order[j]) in s1 && s1[(jobId, order[j])].status == Completed
  {
    forall j | 0 <= j < k
      ensures (jobId, order[j]) in s1 && s1[(jobId, order[j])].status == Completed
    {
      if order[j] != order[k] {
        OtherRowKept(s0, s1, (jobId, order[k]), (jobId, order[j]));
      }
    }
  }

  /** When the order names every chapter, the rows completed along it are all the chapters' rows. */
  lemma EveryChapterCompleted(states: map<Key, ChapterRow>, jobId: string, order: seq<nat>)
    requires forall i :: 0 <= i < |order| ==> i in order
    requires forall j :: 0 <= j < |order| ==> (jobId, order[j]) in states && states[(jobId, order[j])].status == Completed
    ensures forall i :: 0 <= i < |order| ==> (jobId, i) in states && states[(jobId, i)].status == Completed
  {
    forall i | 0 <= i < |order|
      ensures (jobId, i) in states && states[(jobId, i)].status == Completed
    {
      assert i in order;
      var j :| 0 <= j < |order| && order[j] == i;
    }
  }

  /** A row other than the one written keeps its value. */
  lemma OtherRowKept(s0: map<Key, ChapterRow>, s1: map<Key, ChapterRow>, key: Key, other: Key)
    requires s1 - {key} == s0 - {key} && other != key && other in s0
    ensures other in s1 && s1[other] == s0[other]
  {
    assert other in s0 - {key};
    assert (s1 - {key})[other] == s1[other];
  }
}
