/**
 * The SQLite store (database.py): the `dictionary`, `jobs` and
 * `job_chapters` tables become three maps in one object, each function of
 * the Python module a method or function on it. Clock readings are passed
 * in as `now`.
 */
module Database {
  import opened Wrappers
  import opened Text
  import opened Json
  import Normaliser
  import opened Indices

  /** The values the `status` columns take. */
  datatype Status = Queued | Processing | Paused | Cancelled | Completed | Failed {
    /** The statuses `db_get_active_job_count` counts. */
    predicate Active() {
      this == Queued || this == Processing || this == Paused
    }
  }

  /** One row of `jobs`, JSON columns as text. */
  datatype JobRow = JobRow(
    jobId: string,
    title: string,
    text: string,
    status: Status,
    progress: int,
    currentChunk: int,
    totalChunks: int,
    currentChapter: int,
    totalChapters: int,
    outputFormat: string,
    outputBitrateKbps: int,
    voiceAssignmentsJson: string,
    outputFilesJson: string,
    error: Option<string>,
    ttsEngine: string,
    splitByChapter: int,
    chaptersJson: string,
    workerName: Option<string>,
    completedChapters: int,
    createdAt: string,
    startedAt: Option<string>,
    completedAt: Option<string>,
    pipelineMode: string)

  /** A speaker name to its voice settings (`voice`, `audio_prompt_path`, `lang_code`, ...). */
  type Assignments = map<string, map<string, string>>

  /** A job as `_row_to_job` returns it: JSON columns decoded, `split_by_chapter` as a flag. */
  datatype Job = Job(
    jobId: string,
    title: string,
    text: string,
    status: Status,
    progress: int,
    currentChunk: int,
    totalChunks: int,
    currentChapter: int,
    totalChapters: int,
    outputFormat: string,
    outputBitrateKbps: int,
    voiceAssignments: Assignments,
    outputFiles: seq<string>,
    error: Option<string>,
    ttsEngine: string,
    splitByChapter: bool,
    chapters: seq<string>,
    workerName: Option<string>,
    completedChapters: int,
    createdAt: string,
    startedAt: Option<string>,
    completedAt: Option<string>,
    pipelineMode: string)

  /** `_row_to_job`: `None` where `json.loads` would raise on a column. */
  function RowToJob(row: JobRow): (r: Option<Job>)
    ensures r.Some? <==> Decode(row.voiceAssignmentsJson, ReadAssignments).Some?
                         && Decode(row.outputFilesJson, ParseStringList).Some?
                         && Decode(row.chaptersJson, ParseStringList).Some?
    ensures r.Some? ==> r.value.jobId == row.jobId && r.value.status == row.status
                        && r.value.progress == row.progress
                        && r.value.completedChapters == row.completedChapters
                        && r.value.totalChapters == row.totalChapters
                        && r.value.splitByChapter == (row.splitByChapter != 0)
  {
    match (Decode(row.voiceAssignmentsJson, ReadAssignments), Decode(row.outputFilesJson, ParseStringList),
           Decode(row.chaptersJson, ParseStringList))
    case (Some(va), Some(files), Some(chapters)) =>
      Some(Job(row.jobId, row.title, row.text, row.status, row.progress, row.currentChunk, row.totalChunks,
               row.currentChapter, row.totalChapters, row.outputFormat, row.outputBitrateKbps, va, files,
               row.error, row.ttsEngine, row.splitByChapter != 0, chapters, row.workerName,
               row.completedChapters, row.createdAt, row.startedAt, row.completedAt, row.pipelineMode))
    case _ => None
  }

  /** The keyword arguments `db_update_job` is called with; the three JSON ones are encoded on the way in. */
  datatype Field =
    | SetTitle(title: string)
    | SetStatus(status: Status)
    | SetProgress(progress: int)
    | SetCurrentChunk(currentChunk: int)
    | SetTotalChunks(totalChunks: int)
    | SetCurrentChapter(currentChapter: int)
    | SetTotalChapters(totalChapters: int)
    | SetError(error: string)
    | SetWorkerName(workerName: string)
    | SetStartedAt(startedAt: string)
    | SetCompletedAt(completedAt: string)
    | SetVoiceAssignments(voiceAssignments: Assignments)
    | SetOutputFiles(outputFiles: seq<string>)
    | SetChapters(chapters: seq<string>)

  /** The columns of `jobs`. */
  datatype Column =
    | JobIdColumn | TitleColumn | TextColumn | StatusColumn | ProgressColumn | CurrentChunkColumn
    | TotalChunksColumn | CurrentChapterColumn | TotalChaptersColumn | OutputFormatColumn
    | OutputBitrateColumn | VoiceAssignmentsColumn | OutputFilesColumn | ErrorColumn | TtsEngineColumn
    | SplitByChapterColumn | ChaptersColumn | WorkerNameColumn | CompletedChaptersColumn
    | CreatedAtColumn | StartedAtColumn | CompletedAtColumn | PipelineModeColumn

  /** The column a keyword argument writes (the `json_keys` renaming included). */
  function ColumnOf(f: Field): Column {
    match f
    case SetTitle(_) => TitleColumn
    case SetStatus(_) => StatusColumn
    case SetProgress(_) => ProgressColumn
    case SetCurrentChunk(_) => CurrentChunkColumn
    case SetTotalChunks(_) => TotalChunksColumn
    case SetCurrentChapter(_) => CurrentChapterColumn
    case SetTotalChapters(_) => TotalChaptersColumn
    case SetError(_) => ErrorColumn
    case SetWorkerName(_) => WorkerNameColumn
    case SetStartedAt(_) => StartedAtColumn
    case SetCompletedAt(_) => CompletedAtColumn
    case SetVoiceAssignments(_) => VoiceAssignmentsColumn
    case SetOutputFiles(_) => OutputFilesColumn
    case SetChapters(_) => ChaptersColumn
  }

  /** The value stored in one column of a row. */
  datatype Cell = TextCell(s: string) | NumberCell(n: int) | NullableCell(o: Option<string>) | StatusCell(st: Status)

  function Project(row: JobRow, c: Column): Cell {
    match c
    case JobIdColumn => TextCell(row.jobId)
    case TitleColumn => TextCell(row.title)
    case TextColumn => TextCell(row.text)
    case StatusColumn => StatusCell(row.status)
    case ProgressColumn => NumberCell(row.progress)
    case CurrentChunkColumn => NumberCell(row.currentChunk)
    case TotalChunksColumn => NumberCell(row.totalChunks)
    case CurrentChapterColumn => NumberCell(row.currentChapter)
    case TotalChaptersColumn => NumberCell(row.totalChapters)
    case OutputFormatColumn => TextCell(row.outputFormat)
    case OutputBitrateColumn => NumberCell(row.outputBitrateKbps)
    case VoiceAssignmentsColumn => TextCell(row.voiceAssignmentsJson)
    case OutputFilesColumn => TextCell(row.outputFilesJson)
    case ErrorColumn => NullableCell(row.error)
    case TtsEngineColumn => TextCell(row.ttsEngine)
    case SplitByChapterColumn => NumberCell(row.splitByChapter)
    case ChaptersColumn => TextCell(row.chaptersJson)
    case WorkerNameColumn => NullableCell(row.workerName)
    case CompletedChaptersColumn => NumberCell(row.completedChapters)
    case CreatedAtColumn => TextCell(row.createdAt)
    case StartedAtColumn => NullableCell(row.startedAt)
    case CompletedAtColumn => NullableCell(row.completedAt)
    case PipelineModeColumn => TextCell(row.pipelineMode)
  }

  /** The value a keyword argument stores in its column (JSON text for the JSON ones). */
  function Written(f: Field): Cell {
    match f
    case SetTitle(x) => TextCell(x)
    case SetStatus(x) => StatusCell(x)
    case SetProgress(x) => NumberCell(x)
    case SetCurrentChunk(x) => NumberCell(x)
    case SetTotalChunks(x) => NumberCell(x)
    case SetCurrentChapter(x) => NumberCell(x)
    case SetTotalChapters(x) => NumberCell(x)
    case SetError(x) => NullableCell(Some(x))
    case SetWorkerName(x) => NullableCell(Some(x))
    case SetStartedAt(x) => NullableCell(Some(x))
    case SetCompletedAt(x) => NullableCell(Some(x))
    case SetVoiceAssignments(x) => TextCell(EncodeAssignments(x))
    case SetOutputFiles(x) => TextCell(EncodeStringList(x))
    case SetChapters(x) => TextCell(EncodeStringList(x))
  }

  /** One `col = ?` assignment of the UPDATE statement: that column takes the value, the others keep theirs. */
  function ApplyField(row: JobRow, f: Field): JobRow {
    match f
    case SetTitle(x) => row.(title := x)
    case SetStatus(x) => row.(status := x)
    case SetProgress(x) => row.(progress := x)
    case SetCurrentChunk(x) => row.(currentChunk := x)
    case SetTotalChunks(x) => row.(totalChunks := x)
    case SetCurrentChapter(x) => row.(currentChapter := x)
    case SetTotalChapters(x) => row.(totalChapters := x)
    case SetError(x) => row.(error := Some(x))
    case SetWorkerName(x) => row.(workerName := Some(x))
    case SetStartedAt(x) => row.(startedAt := Some(x))
    case SetCompletedAt(x) => row.(completedAt := Some(x))
    case SetVoiceAssignments(x) => row.(voiceAssignmentsJson := EncodeAssignments(x))
    case SetOutputFiles(x) => row.(outputFilesJson := EncodeStringList(x))
    case SetChapters(x) => row.(chaptersJson := EncodeStringList(x))
  }

  /** The column the keyword argument names takes the value it gives. */
  lemma ApplyFieldWrites(row: JobRow, f: Field)
    ensures Project(ApplyField(row, f), ColumnOf(f)) == Written(f)
  {
    match f
    case SetTitle(_) =>
    case SetStatus(_) =>
    case SetProgress(_) =>
    case SetCurrentChunk(_) =>
    case SetTotalChunks(_) =>
    case SetCurrentChapter(_) =>
    case SetTotalChapters(_) =>
    case SetError(_) =>
    case SetWorkerName(_) =>
    case SetStartedAt(_) =>
    case SetCompletedAt(_) =>
    case SetVoiceAssignments(_) =>
    case SetOutputFiles(_) =>
    case SetChapters(_) =>
  }

  /** The other columns keep their values. */
  lemma ApplyFieldKeeps(row: JobRow, f: Field, c: Column)
    requires c != ColumnOf(f)
    ensures Project(ApplyField(row, f), c) == Project(row, c)
  {
    match f
    case SetTitle(_) =>
    case SetStatus(_) =>
    case SetProgress(_) =>
    case SetCurrentChunk(_) =>
    case SetTotalChunks(_) =>
    case SetCurrentChapter(_) =>
    case SetTotalChapters(_) =>
    case SetError(_) =>
    case SetWorkerName(_) =>
    case SetStartedAt(_) =>
    case SetCompletedAt(_) =>
    case SetVoiceAssignments(_) =>
    case SetOutputFiles(_) =>
    case SetChapters(_) =>
  }

  /** All assignments of one UPDATE, in keyword order. */
  function ApplyFields(row: JobRow, fs: seq<Field>): JobRow
    decreases |fs|
  {
    if fs == [] then row else ApplyFields(ApplyField(row, fs[0]), fs[1..])
  }

  /** Python keyword arguments name each column at most once. */
  predicate DistinctColumns(fs: seq<Field>) {
    forall i, j :: 0 <= i < j < |fs| ==> ColumnOf(fs[i]) != ColumnOf(fs[j])
  }

  /**
   * A job as `db_create_job` leaves it: queued, no progress, no chunks, no
   * chapters done, no output files, no error, not started, and the caller's
   * title, text, voice assignments and chapters.
   */
  predicate Fresh(j: Job, title: string, text: string, voiceAssignments: Assignments, splitByChapter: bool,
                  chapters: seq<string>, totalChapters: int) {
    j.status == Queued && j.progress == 0 && j.currentChunk == 0 && j.totalChunks == 0
    && j.currentChapter == 0 && j.completedChapters == 0 && j.outputFiles == []
    && j.voiceAssignments == voiceAssignments && j.chapters == chapters
    && j.totalChapters == totalChapters && j.splitByChapter == splitByChapter
    && j.title == title && j.text == text && j.error.None? && j.startedAt.None? && j.completedAt.None?
    && j.workerName.None?
  }

  /** The row the INSERT of `db_create_job` writes. */
  function NewRow(jobId: string, title: string, text: string, outputFormat: string, outputBitrateKbps: int,
                  voiceAssignments: Assignments, ttsEngine: string, splitByChapter: bool,
                  chapters: seq<string>, totalChapters: int, pipelineMode: string, now: string): (row: JobRow)
    ensures row.jobId == jobId && RowToJob(row).Some?
    ensures Fresh(RowToJob(row).value, title, text, voiceAssignments, splitByChapter, chapters, totalChapters)
  {
    AssignmentsColumnRoundTrip(voiceAssignments);
    StringListColumnRoundTrip([]);
    StringListColumnRoundTrip(chapters);
    JobRow(jobId, title, text, Queued, 0, 0, 0, 0, totalChapters, outputFormat, outputBitrateKbps,
           EncodeAssignments(voiceAssignments), EncodeStringList([]), None, ttsEngine,
           if splitByChapter then 1 else 0, EncodeStringList(chapters), None, 0, now,
           None, None, pipelineMode)
  }

  /** A row `_row_to_job` can decode, stored under its own id. */
  predicate GoodRow(id: string, row: JobRow) {
    row.jobId == id && RowToJob(row).Some?
  }

  /** One row of `job_chapters` without its key. */
  datatype ChapterRow = ChapterRow(workerName: string, currentChunk: int, totalChunks: int, status: Status, updatedAt: string)

  /** A row of `db_get_chapter_states`, key included. */
  datatype ChapterState = ChapterState(jobId: string, chapterIndex: int, row: ChapterRow)

  class Store {
    /** `dictionary`: word to replacement. */
    var dictionary: map<string, string>
    /** `jobs`, keyed by `job_id`. */
    var jobs: map<string, JobRow>
    /** `job_chapters`, keyed by `(job_id, chapter_index)`; no foreign key ties it to `jobs`. */
    var chapterStates: map<Key, ChapterRow>

    /** Every stored job row decodes. */
    ghost predicate Valid()
      reads this
    {
      AllGood(jobs)
    }

    constructor()
      ensures dictionary == map[] && jobs == map[] && chapterStates == map[]
      ensures Valid()
    {
      dictionary := map[];
      jobs := map[];
      chapterStates := map[];
    }

    // -------------------------------------------------------------------
    // Dictionary
    // -------------------------------------------------------------------

    /** `db_get_dictionary_count`. */
    function DictionaryCount(): (n: nat)
      reads this
      ensures n == |dictionary.Keys|
    {
      |dictionary|
    }

    /** `db_add_word`: insert or replace one entry. */
    method AddWord(word: string, replacement: string)
      modifies this
      ensures dictionary == old(dictionary)[word := replacement]
      ensures jobs == old(jobs) && chapterStates == old(chapterStates)
    {
      dictionary := dictionary[word := replacement];
    }

    /** `db_delete_word`: deleting an absent word changes nothing. */
    method DeleteWord(word: string)
      modifies this
      ensures dictionary == old(dictionary) - {word}
      ensures jobs == old(jobs) && chapterStates == old(chapterStates)
    {
      dictionary := dictionary - {word};
    }

    /** `db_clear_dictionary`. */
    method ClearDictionary()
      modifies this
      ensures dictionary == map[] && DictionaryCount() == 0
      ensures jobs == old(jobs) && chapterStates == old(chapterStates)
    {
      dictionary := map[];
    }

    /** `db_import_dictionary`: one insert-or-replace per entry; imported values win. */
    method ImportDictionary(entries: map<string, string>)
      modifies this
      ensures dictionary == old(dictionary) + entries
      ensures jobs == old(jobs) && chapterStates == old(chapterStates)
    {
      var pending := entries.Keys;
      while pending != {}
        invariant pending <= entries.Keys
        invariant dictionary.Keys == old(dictionary).Keys + (entries.Keys - pending)
        invariant forall k :: k in dictionary ==>
                    dictionary[k] == if k in entries.Keys - pending then entries[k] else old(dictionary)[k]
        invariant jobs == old(jobs) && chapterStates == old(chapterStates)
        decreases pending
      {
        var word :| word in pending;
        dictionary := dictionary[word := entries[word]];
        pending := pending - {word};
      }
    }

    /**
     * `db_apply_dictionary`: the entries sorted longest key first, each
     * substituted into the running text in turn.
     */
    method ApplyDictionary(text: string) returns (r: string)
      ensures r == Normaliser.Normalise(dictionary, text)
    {
      if dictionary == map[] {
        return text;
      }
      var sorted := OrderedKeys(dictionary.Keys);
      OrderedKeysSorted(dictionary.Keys);
      r := text;
      var i := 0;
      while i < |sorted|
        invariant 0 <= i <= |sorted|
        invariant Normaliser.ApplyKeys(dictionary, sorted[i..], r) == Normaliser.ApplyKeys(dictionary, sorted, text)
      {
        assert sorted[i..][1..] == sorted[i + 1..];
        r := Normaliser.Substitute(r, sorted[i], dictionary[sorted[i]]);
        i := i + 1;
      }
    }

    // -------------------------------------------------------------------
    // Jobs
    // -------------------------------------------------------------------

    /** `db_get_job`: `None` for an unknown id. */
    function GetJob(jobId: string): (r: Option<Job>)
      reads this
      requires Valid()
      ensures r.Some? <==> jobId in jobs
      ensures r.Some? ==> r.value.jobId == jobId && r.value.status == jobs[jobId].status
    {
      if jobId in jobs then RowToJob(jobs[jobId]) else None
    }

    /**
     * `db_create_job`: a `queued` row with zero progress, zero chunks and
     * chapters, no output files and the JSON of the given assignments and
     * chapters. A second insert under the same primary key fails.
     */
    method CreateJob(jobId: string, title: string, text: string, outputFormat: string, outputBitrateKbps: int,
                     voiceAssignments: Assignments, ttsEngine: string, splitByChapter: bool,
                     chapters: seq<string>, totalChapters: int, pipelineMode: string, now: string)
      returns (r: Result<Job, string>)
      requires Valid()
      modifies this
      ensures Valid()
      ensures r.Err? <==> jobId in old(jobs)
      ensures r.Err? ==> jobs == old(jobs)
      ensures r.Ok? ==> jobs == old(jobs)[jobId := NewRow(jobId, title, text, outputFormat, outputBitrateKbps,
                          voiceAssignments, ttsEngine, splitByChapter, chapters, totalChapters, pipelineMode, now)]
      ensures r.Ok? ==> RowToJob(jobs[jobId]) == Some(r.value)
      ensures r.Ok? ==> Fresh(r.value, title, text, voiceAssignments, splitByChapter, chapters, totalChapters)
      ensures dictionary == old(dictionary) && chapterStates == old(chapterStates)
    {
      if jobId in jobs {
        return Err("UNIQUE constraint failed: jobs.job_id");
      }
      var row := NewRow(jobId, title, text, outputFormat, outputBitrateKbps, voiceAssignments, ttsEngine,
                        splitByChapter, chapters, totalChapters, pipelineMode, now);
      StoreKeepsGood(jobs, jobId, row);
      jobs := jobs[jobId := row];
      r := Ok(RowToJob(row).value);
    }

    /** `db_increment_completed_chapters`: the new count, or 0 for an unknown job. */
    method IncrementCompletedChapters(jobId: string) returns (n: int)
      requires Valid()
      modifies this
      ensures Valid()
      ensures jobId in old(jobs) ==> jobs == old(jobs)[jobId := old(jobs)[jobId].(completedChapters := n)]
      ensures jobId in old(jobs) ==> n == old(jobs)[jobId].completedChapters + 1
      ensures jobId !in old(jobs) ==> n == 0 && jobs == old(jobs)
      ensures dictionary == old(dictionary) && chapterStates == old(chapterStates)
    {
      if jobId !in jobs {
        return 0;
      }
      n := jobs[jobId].completedChapters + 1;
      StoredGood(jobs, jobId);
      StoreKeepsGood(jobs, jobId, jobs[jobId].(completedChapters := n));
      jobs := jobs[jobId := jobs[jobId].(completedChapters := n)];
    }

    /** `db_update_job`: the named columns of the job's row, if there is one; no fields means no statement. */
    method UpdateJob(jobId: string, fields: seq<Field>)
      requires Valid()
      modifies this
      ensures Valid()
      ensures jobs == Updated(old(jobs), jobId, fields)
      ensures dictionary == old(dictionary) && chapterStates == old(chapterStates)
    {
      UpdateKeepsGood(jobs, jobId, fields);
      if fields == [] {
        return;
      }
      if jobId in jobs {
        jobs := jobs[jobId := ApplyFields(jobs[jobId], fields)];
      }
    }

    /** `db_get_active_job_count`: jobs queued, processing or paused. */
    function ActiveCount(): nat
      reads this
    {
      CountActive(jobs)
    }

    /** `db_delete_job`: true exactly when a row went; chapter rows stay. */
    method DeleteJob(jobId: string) returns (deleted: bool)
      requires Valid()
      modifies this
      ensures Valid()
      ensures deleted <==> jobId in old(jobs)
      ensures jobs == old(jobs) - {jobId}
      ensures dictionary == old(dictionary) && chapterStates == old(chapterStates)
    {
      deleted := jobId in jobs;
      RemoveKeepsGood(jobs, jobId);
      jobs := jobs - {jobId};
    }

    // -------------------------------------------------------------------
    // Chapter states
    // -------------------------------------------------------------------

    /** `db_update_chapter_state`: insert, or overwrite every non-key column of the existing row. */
    method UpdateChapterState(jobId: string, chapterIndex: int, workerName: string, currentChunk: int,
                              totalChunks: int, status: Status, now: string)
      modifies this
      ensures chapterStates == old(chapterStates)[(jobId, chapterIndex) := ChapterRow(workerName, currentChunk, totalChunks, status, now)]
      ensures dictionary == old(dictionary) && jobs == old(jobs)
    {
      chapterStates := chapterStates[(jobId, chapterIndex) := ChapterRow(workerName, currentChunk, totalChunks, status, now)];
    }

    /** `db_get_chapter_states`: the job's chapter rows by ascending index. */
    function GetChapterStates(jobId: string): seq<ChapterState>
      reads this
    {
      ChapterStatesOf(chapterStates, jobId)
    }

  }

  /**
   * Every stored row decodes and carries its own key. The fact about a row
   * is drawn out where the row is decoded.
   */
  ghost predicate AllGood(jobs: map<string, JobRow>) {
    forall id {:trigger RowToJob(jobs[id])} :: id in jobs ==> GoodRow(id, jobs[id])
  }

  /** One stored row of a good table is good. */
  lemma StoredGood(jobs: map<string, JobRow>, id: string)
    requires AllGood(jobs) && id in jobs
    ensures GoodRow(id, jobs[id])
  {
  }

  /** Storing a decodable row keeps every row decodable. */
  lemma StoreKeepsGood(jobs: map<string, JobRow>, id: string, row: JobRow)
    requires AllGood(jobs) && GoodRow(id, row)
    ensures AllGood(jobs[id := row])
  {
    var stored := jobs[id := row];
    forall k | k in stored
      ensures GoodRow(k, stored[k])
    {
      if k != id {
        StoredGood(jobs, k);
      }
    }
  }

  /** Deleting a row keeps the others decodable. */
  lemma RemoveKeepsGood(jobs: map<string, JobRow>, id: string)
    requires AllGood(jobs)
    ensures AllGood(jobs - {id})
  {
    var rest := jobs - {id};
    forall k | k in rest
      ensures GoodRow(k, rest[k])
    {
      StoredGood(jobs, k);
    }
  }

  /** The `jobs` table after `db_update_job(job_id, **fields)`. */
  function Updated(jobs: map<string, JobRow>, id: string, fs: seq<Field>): map<string, JobRow> {
    if fs == [] || id !in jobs then jobs else jobs[id := ApplyFields(jobs[id], fs)]
  }

  /** An UPDATE keeps every stored row decodable. */
  lemma UpdateKeepsGood(jobs: map<string, JobRow>, id: string, fs: seq<Field>)
    requires AllGood(jobs)
    ensures AllGood(Updated(jobs, id, fs))
  {
    if fs != [] && id in jobs {
      StoredGood(jobs, id);
      FieldsKeepRowDecodable(id, jobs[id], fs);
      StoreKeepsGood(jobs, id, ApplyFields(jobs[id], fs));
    }
  }

  /** `db_get_chapter_states` over the table: the job's rows, and only those, by ascending index. */
  function ChapterStatesOf(states: map<Key, ChapterRow>, jobId: string): (r: seq<ChapterState>)
    ensures forall i :: 0 <= i < |r| ==> (jobId, r[i].chapterIndex) in states
                                         && r[i] == ChapterState(jobId, r[i].chapterIndex, states[(jobId, r[i].chapterIndex)])
    ensures forall i, j :: 0 <= i < j < |r| ==> r[i].chapterIndex < r[j].chapterIndex
    ensures forall c :: (jobId, c) in states ==> ChapterState(jobId, c, states[(jobId, c)]) in r
  {
    var keys := Ascending(StoredKeys(states, jobId), jobId);
    AscendingKeysStored(states, jobId, keys);
    StatesAtListsAll(states, jobId, keys);
    StatesAt(states, keys)
  }

  lemma AscendingKeysStored(states: map<Key, ChapterRow>, jobId: string, keys: seq<Key>)
    requires forall k :: k in keys <==> k in StoredKeys(states, jobId)
    ensures forall i :: 0 <= i < |keys| ==> keys[i] in states && keys[i] == (jobId, keys[i].1)
  {
    forall i | 0 <= i < |keys|
      ensures keys[i] in states && keys[i] == (jobId, keys[i].1)
    {
      assert keys[i] in StoredKeys(states, jobId);
    }
  }

  lemma StatesAtListsAll(states: map<Key, ChapterRow>, jobId: string, keys: seq<Key>)
    requires forall k :: k in keys <==> k in StoredKeys(states, jobId)
    requires forall i :: 0 <= i < |keys| ==> keys[i] in states
    ensures forall c :: (jobId, c) in states ==> ChapterState(jobId, c, states[(jobId, c)]) in StatesAt(states, keys)
  {
    var r := StatesAt(states, keys);
    forall c | (jobId, c) in states
      ensures ChapterState(jobId, c, states[(jobId, c)]) in r
    {
      assert (jobId, c) in StoredKeys(states, jobId);
      var i :| 0 <= i < |keys| && keys[i] == (jobId, c);
      assert r[i] == ChapterState(jobId, c, states[(jobId, c)]);
    }
  }

  /** The rows stored under the given keys, in that order. */
  function StatesAt(states: map<Key, ChapterRow>, keys: seq<Key>): (r: seq<ChapterState>)
    requires forall i :: 0 <= i < |keys| ==> keys[i] in states
    ensures |r| == |keys|
    ensures forall i :: 0 <= i < |r| ==> r[i] == ChapterState(keys[i].0, keys[i].1, states[keys[i]])
  {
    if keys == [] then []
    else [ChapterState(keys[0].0, keys[0].1, states[keys[0]])] + StatesAt(states, keys[1..])
  }

  /** The keys stored for one job. */
  function StoredKeys(states: map<Key, ChapterRow>, jobId: string): (s: set<Key>)
    ensures OfJob(s, jobId)
    ensures forall k :: k in s <==> k in states && k.0 == jobId
  {
    set k | k in states && k.0 == jobId
  }

  /** Number of active rows. */
  function CountActive(jobs: map<string, JobRow>): nat {
    |set id | id in jobs && jobs[id].status.Active()|
  }

  lemma {:induction false} FieldsKeepRowDecodable(id: string, row: JobRow, fs: seq<Field>)
    requires GoodRow(id, row)
    ensures GoodRow(id, ApplyFields(row, fs))
    decreases |fs|
  {
    if fs != [] {
      FieldKeepsRowDecodable(id, row, fs[0]);
      FieldsKeepRowDecodable(id, ApplyField(row, fs[0]), fs[1..]);
    }
  }

  lemma FieldKeepsRowDecodable(id: string, row: JobRow, f: Field)
    requires GoodRow(id, row)
    ensures GoodRow(id, ApplyField(row, f))
  {
    match f
    case SetVoiceAssignments(x) => AssignmentsColumnRoundTrip(x);
    case SetOutputFiles(x) => StringListColumnRoundTrip(x);
    case SetChapters(x) => StringListColumnRoundTrip(x);
    case _ =>
  }

  /** An UPDATE of the status alone sets that column of that row. */
  lemma StatusUpdated(jobs: map<string, JobRow>, id: string, st: Status)
    requires id in jobs
    ensures Updated(jobs, id, [SetStatus(st)]) == jobs[id := jobs[id].(status := st)]
  {
    var fs := [SetStatus(st)];
    assert fs[1..] == [];
    assert ApplyFields(jobs[id], fs) == ApplyFields(ApplyField(jobs[id], fs[0]), []);
  }

  /** `db_update_job` leaves every column it was not given as it was. */
  lemma {:induction false} UpdateKeepsOtherColumns(row: JobRow, fs: seq<Field>, c: Column)
    requires forall i :: 0 <= i < |fs| ==> ColumnOf(fs[i]) != c
    ensures Project(ApplyFields(row, fs), c) == Project(row, c)
    decreases |fs|
  {
    if fs != [] {
      ApplyFieldKeeps(row, fs[0], c);
      UpdateKeepsOtherColumns(ApplyField(row, fs[0]), fs[1..], c);
    }
  }

  /** Each column `db_update_job` was given holds the value given for it. */
  lemma {:induction false} UpdateWritesGivenColumns(row: JobRow, fs: seq<Field>, i: nat)
    requires DistinctColumns(fs) && i < |fs|
    ensures Project(ApplyFields(row, fs), ColumnOf(fs[i])) == Written(fs[i])
    decreases |fs|
  {
    if i == 0 {
      ApplyFieldWrites(row, fs[0]);
      UpdateKeepsOtherColumns(ApplyField(row, fs[0]), fs[1..], ColumnOf(fs[0]));
    } else {
      UpdateWritesGivenColumns(ApplyField(row, fs[0]), fs[1..], i - 1);
    }
  }

  /** Output files written through `db_update_job` come back from `_row_to_job` as written. */
  lemma OutputFilesReadBack(row: JobRow, fs: seq<Field>, i: nat)
    requires RowToJob(row).Some? && DistinctColumns(fs) && i < |fs| && fs[i].SetOutputFiles?
    ensures RowToJob(ApplyFields(row, fs)).Some?
    ensures RowToJob(ApplyFields(row, fs)).value.outputFiles == fs[i].outputFiles
  {
    FieldsKeepRowDecodable(row.jobId, row, fs);
    UpdateWritesGivenColumns(row, fs, i);
    var r := ApplyFields(row, fs);
    assert ColumnOf(fs[i]) == OutputFilesColumn && Written(fs[i]) == TextCell(EncodeStringList(fs[i].outputFiles));
    assert Project(r, OutputFilesColumn) == TextCell(r.outputFilesJson);
    OutputFilesColumnRead(r, fs[i].outputFiles);
  }

  /** A decodable row whose `output_files` column holds the JSON of `files` reads back `files`. */
  lemma OutputFilesColumnRead(row: JobRow, files: seq<string>)
    requires RowToJob(row).Some? && row.outputFilesJson == EncodeStringList(files)
    ensures RowToJob(row).value.outputFiles == files
  {
    StringListColumnRoundTrip(files);
  }

  /** A new active row raises the active count by one. */
  lemma ActiveCountGrows(jobs: map<string, JobRow>, id: string, row: JobRow)
    requires id !in jobs && row.status.Active()
    ensures CountActive(jobs[id := row]) == CountActive(jobs) + 1
  {
    var before := set k | k in jobs && jobs[k].status.Active();
    var grown := jobs[id := row];
    var after := set k | k in grown && grown[k].status.Active();
    assert after == before + {id};
  }

  /** Removing a row lowers the active count by one if it was active, else leaves it. */
  lemma ActiveCountShrinks(jobs: map<string, JobRow>, id: string)
    requires id in jobs
    ensures CountActive(jobs - {id}) == CountActive(jobs) - (if jobs[id].status.Active() then 1 else 0)
  {
    var before := set k | k in jobs && jobs[k].status.Active();
    var shrunk := jobs - {id};
    var after := set k | k in shrunk && shrunk[k].status.Active();
    assert after == before - {id};
  }
}
