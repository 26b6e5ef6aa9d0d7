/**
 * The job routes of the Flask blueprint (flask_app/routes.py):
 * `api_generate` validates the request, derives the title, creates the job
 * and enqueues one chapter task per chapter; pause, resume and cancel write
 * a status, delete removes the row. Replies are reduced to their status
 * code; the job id and the clock are parameters.
 */
module Routes {
  import opened Wrappers
  import opened Text
  import opened Database
  import Speakers

  /** `len(chapters) if chapters else 1`: the number of chapter tasks of a job. */
  function ChapterCount(chapters: seq<string>): (n: nat)
    ensures n >= 1
    ensures chapters != [] ==> n == |chapters|
    ensures chapters == [] ==> n == 1
  {
    if chapters == [] then 1 else |chapters|
  }

  /**
   * The title taken from the first line of the text (or, without text, of
   * the first chapter): at most 50 characters, stripped, tags removed and
   * stripped again; `fallback` when nothing is left.
   */
  function FirstLineTitle(text: string, chapters: seq<string>, fallback: string): (r: string)
    ensures r == fallback || (r != [] && |r| <= 50 && Strip(r) == r && '\n' !in r)
  {
    var source := if text != [] then text else if chapters != [] then chapters[0] else [];
    var line := Strip(Take(FirstLine(source), 50));
    var bare := Strip(Speakers.StripTags(line));
    StripIdempotent(Speakers.StripTags(line));
    CharsOfStrip(Take(FirstLine(source), 50));
    CharsOfStrip(Speakers.StripTags(line));
    CharsOfStripTags(line);
    if bare != [] then bare else fallback
  }

  /** Stripping keeps only characters of the original. */
  lemma CharsOfStrip(s: string)
    ensures forall c :: c in Strip(s) ==> c in s
  {
    var t := TrimStart(s);
    TrimStartSuffix(s);
    TrimEndPrefix(t);
    forall c | c in Strip(s) ensures c in s {
      var k :| 0 <= k < |Strip(s)| && Strip(s)[k] == c;
      assert Strip(s)[k] == t[k];
      assert t[k] == s[|s| - |t| + k];
    }
  }

  /** Removing tags keeps only characters of the original. */
  lemma {:induction false} CharsOfStripTags(s: string)
    ensures forall c :: c in Speakers.StripTags(s) ==> c in s
    decreases |s|
  {
    if s != [] {
      match Speakers.TagLength(s)
      case Some(n) =>
        CharsOfStripTags(s[n..]);
        forall c | c in s[n..] ensures c in s {
          var k :| 0 <= k < |s[n..]| && s[n..][k] == c;
          assert s[n + k] == c;
        }
      case None =>
        CharsOfStripTags(s[1..]);
        forall c | c in s[1..] ensures c in s {
          var k :| 0 <= k < |s[1..]| && s[1..][k] == c;
          assert s[1 + k] == c;
        }
    }
  }

  /** The title of `api_generate`: the stripped given title, else the first-line title with its fallback. */
  function Title(given: string, text: string, chapters: seq<string>): (r: string)
    ensures r != []
    ensures Strip(given) != [] ==> r == Strip(given) && Strip(r) == r
    ensures Strip(given) == [] ==> r == FirstLineTitle(text, chapters, "Brak nazwy projektu")
  {
    StripIdempotent(given);
    if Strip(given) != [] then Strip(given) else FirstLineTitle(text, chapters, "Brak nazwy projektu")
  }

  /** One `_process_chapter(job_id, ch_idx)` call on the chapter queue. */
  datatype Task = Task(jobId: string, chapterIndex: nat)

  /** The enqueue loop: one task per chapter index, in ascending order. */
  method Enqueue(jobId: string, n: nat) returns (tasks: seq<Task>)
    ensures |tasks| == n
    ensures forall i :: 0 <= i < n ==> tasks[i] == Task(jobId, i)
  {
    tasks := [];
    var i := 0;
    while i < n
      invariant 0 <= i <= n
      invariant |tasks| == i && forall k :: 0 <= k < i ==> tasks[k] == Task(jobId, k)
    {
      tasks := tasks + [Task(jobId, i)];
      i := i + 1;
    }
  }

  /** A successful `api_generate` reply with the tasks it put on the queue. */
  datatype Generated = Generated(jobId: string, tasks: seq<Task>, queuePosition: nat)

  /**
   * `api_generate`: 400 when both the stripped text and the chapter list
   * are empty; otherwise a `queued` job with its derived title, one task per
   * chapter and the active-job count as queue position. An insert under an
   * existing id fails with 500.
   */
  method Generate(store: Store, text: string, chapters: seq<string>, title: string, outputFormat: string,
                  outputBitrateKbps: int, voiceAssignments: Assignments, ttsEngine: string,
                  jobId: string, now: string)
    returns (r: Result<Generated, (int, string)>)
    requires store.Valid()
    modifies store
    ensures store.Valid()
    ensures chapters == [] && Strip(text) == [] ==> r == Err((400, "Tekst jest pusty"))
    ensures r.Err? ==> store.jobs == old(store.jobs)
    ensures r.Err? && (chapters != [] || Strip(text) != []) ==> r.error.0 == 500 && jobId in old(store.jobs)
    ensures r.Ok? ==> (jobId !in old(store.jobs) && r.value.jobId == jobId
      && store.jobs == old(store.jobs)[jobId := NewRow(jobId, Title(title, Strip(text), chapters), Strip(text),
                         outputFormat, outputBitrateKbps, voiceAssignments, ttsEngine, chapters != [], chapters,
                         ChapterCount(chapters), "baseline", now)]
      && |r.value.tasks| == ChapterCount(chapters)
      && (forall i :: 0 <= i < |r.value.tasks| ==> r.value.tasks[i] == Task(jobId, i))
      && r.value.queuePosition == CountActive(store.jobs))
    ensures store.dictionary == old(store.dictionary) && store.chapterStates == old(store.chapterStates)
  {
    var body := Strip(text);
    if chapters == [] && body == [] {
      return Err((400, "Tekst jest pusty"));
    }
    var name := Title(title, body, chapters);
    var n := ChapterCount(chapters);
    var created := store.CreateJob(jobId, name, body, outputFormat, outputBitrateKbps, voiceAssignments, ttsEngine,
                                   chapters != [], chapters, n, "baseline", now);
    if created.Err? {
      return Err((500, created.error));
    }
    var tasks := Enqueue(jobId, n);
    var active := store.ActiveCount();
    r := Ok(Generated(jobId, tasks, active));
  }

  /** `api_pause_job`: 404 for an unknown job, otherwise the status becomes `paused`. */
  method Pause(store: Store, jobId: string) returns (code: int)
    requires store.Valid()
    modifies store
    ensures store.Valid()
    ensures code == 404 <==> jobId !in old(store.jobs)
    ensures code != 404 ==> code == 200 && store.jobs == old(store.jobs)[jobId := old(store.jobs)[jobId].(status := Paused)]
    ensures code == 404 ==> store.jobs == old(store.jobs)
    ensures store.dictionary == old(store.dictionary) && store.chapterStates == old(store.chapterStates)
  {
    if store.GetJob(jobId).None? {
      return 404;
    }
    StatusUpdated(store.jobs, jobId, Paused);
    store.UpdateJob(jobId, [SetStatus(Paused)]);
    return 200;
  }

  /** `api_resume_job`: 404 for an unknown job, otherwise the status becomes `processing`, whatever it was. */
  method Resume(store: Store, jobId: string) returns (code: int)
    requires store.Valid()
    modifies store
    ensures store.Valid()
    ensures code == 404 <==> jobId !in old(store.jobs)
    ensures code != 404 ==> code == 200 && store.jobs == old(store.jobs)[jobId := old(store.jobs)[jobId].(status := Processing)]
    ensures code == 404 ==> store.jobs == old(store.jobs)
    ensures store.dictionary == old(store.dictionary) && store.chapterStates == old(store.chapterStates)
  {
    if store.GetJob(jobId).None? {
      return 404;
    }
    StatusUpdated(store.jobs, jobId, Processing);
    store.UpdateJob(jobId, [SetStatus(Processing)]);
    return 200;
  }

  /** `api_cancel_job`: 404 for an unknown job, otherwise the status becomes `cancelled`. */
  method Cancel(store: Store, jobId: string) returns (code: int)
    requires store.Valid()
    modifies store
    ensures store.Valid()
    ensures code == 404 <==> jobId !in old(store.jobs)
    ensures code != 404 ==> code == 200 && store.jobs == old(store.jobs)[jobId := old(store.jobs)[jobId].(status := Cancelled)]
    ensures code == 404 ==> store.jobs == old(store.jobs)
    ensures store.dictionary == old(store.dictionary) && store.chapterStates == old(store.chapterStates)
  {
    if store.GetJob(jobId).None? {
      return 404;
    }
    StatusUpdated(store.jobs, jobId, Cancelled);
    store.UpdateJob(jobId, [SetStatus(Cancelled)]);
    return 200;
  }

  /** `api_delete_job`: 404 exactly when no row was removed; the chapter rows stay. */
  method Delete(store: Store, jobId: string) returns (code: int)
    requires store.Valid()
    modifies store
    ensures store.Valid()
    ensures code == 404 <==> jobId !in old(store.jobs)
    ensures code != 404 ==> code == 200
    ensures store.jobs == old(store.jobs) - {jobId}
    ensures store.dictionary == old(store.dictionary) && store.chapterStates == old(store.chapterStates)
  {
    var deleted := store.DeleteJob(jobId);
    if !deleted {
      return 404;
    }
    return 200;
  }

  /** A control-plane request another client may send while a chapter is being processed. */
  datatype Control = PauseJob | ResumeJob | CancelJob | DeleteJob

  /** The effect of a control request on the job rows. */
  function Controlled(jobs: map<string, JobRow>, jobId: string, c: Control): map<string, JobRow> {
    match c
    case DeleteJob => jobs - {jobId}
    case _ =>
      if jobId !in jobs then jobs
      else jobs[jobId := jobs[jobId].(status := match c case PauseJob => Paused case ResumeJob => Processing case _ => Cancelled)]
  }

  /** Serve one control request for `jobId`. */
  method Serve(store: Store, jobId: string, c: Control)
    requires store.Valid()
    modifies store
    ensures store.Valid()
    ensures store.jobs == Controlled(old(store.jobs), jobId, c)
    ensures store.dictionary == old(store.dictionary) && store.chapterStates == old(store.chapterStates)
  {
    var code: int;
    match c
    case PauseJob => code := Pause(store, jobId);
    case ResumeJob => code := Resume(store, jobId);
    case CancelJob => code := Cancel(store, jobId);
    case DeleteJob => code := Delete(store, jobId);
  }

  /** A control request never touches the completed-chapter counter, and only delete removes the row. */
  lemma ControlKeepsCounter(jobs: map<string, JobRow>, jobId: string, c: Control, id: string)
    ensures id in Controlled(jobs, jobId, c) ==>
      id in jobs && Controlled(jobs, jobId, c)[id].completedChapters == jobs[id].completedChapters
    ensures id in jobs && id !in Controlled(jobs, jobId, c) ==> c == DeleteJob && id == jobId
  {
  }
}
