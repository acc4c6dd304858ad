/** `TaskManager` and `TaskState`: single-task admission, the progress callback, the task's
    background run and the life cycle `running` → `completed` / `error`. The run is one
    atomic step here: what the worker threads and the progress socket interleave with it is
    modelled by the event queue alone. */
module Tasks {
  import opened Wrappers
  import opened Text
  import opened Tables
  import opened Catalogue
  import opened Upstream
  import opened Market
  import opened Events
  import opened Stocks

  /** `TaskState.state`: "running", "completed" or "error". */
  datatype Phase = Running | Completed | Failed

  /** `TaskState`: id, state, progress, total, message, the event queue and the files. */
  datatype Task = Task(id: string, phase: Phase, progress: nat, total: nat, message: string,
                       queue: Queue, files: seq<string>)

  const AlreadyRunningText: string := "已有任务正在运行，请等待完成"
  const NoCodesText: string := "股票代码列表为空"
  const DoneText: string := "查询完成"

  predicate IsRunning(current: Option<Task>) {
    current.Some? && current.value.phase == Running
  }

  /** The manager's current task after `start_task`, and what the call returned or raised. */
  datatype Started = Started(current: Option<Task>, outcome: Result<Task, string>)

  /** `start_task`, under the manager's lock: refuse while a task is running, refuse an
      empty code list, otherwise publish a fresh running task sized to the code list. The
      fresh id stands for `uuid4().hex[:8]`. */
  function StartTask(current: Option<Task>, codes: string, freshId: string): (s: Started)
    ensures IsRunning(current) ==> s.outcome == Failure(AlreadyRunningText)
    ensures !IsRunning(current) && OnlyCommasAndSpace(codes) ==> s.outcome == Failure(NoCodesText)
    ensures s.outcome.Success? <==> !IsRunning(current) && !OnlyCommasAndSpace(codes)
    ensures s.outcome.Failure? ==> s.current == current
    ensures s.outcome.Success? ==> s.current == Some(s.outcome.value)
    ensures s.outcome.Success? ==>
      var t := s.outcome.value;
      t.id == freshId && t.phase == Running && t.progress == 0 && t.total == |ParseCodes(codes)| &&
      t.total > 0 && t.message == "" && t.queue == [] && t.files == []
  {
    if IsRunning(current) then Started(current, Failure(AlreadyRunningText))
    else
      var list := ParseCodes(codes);
      if list == [] then Started(current, Failure(NoCodesText))
      else
        var t := Task(freshId, Running, 0, |list|, "", [], []);
        Started(Some(t), Success(t))
  }

  /** A refused start leaves any running task in place; an accepted one is the only
      running task. */
  lemma StartTaskSingle(current: Option<Task>, codes: string, freshId: string, codes2: string, freshId2: string)
    ensures var s := StartTask(current, codes, freshId);
      s.outcome.Success? ==> StartTask(s.current, codes2, freshId2) == Started(s.current, Failure(AlreadyRunningText))
  {
  }

  /** `progress_cb(done, total)`: record the counters and offer one status event. */
  function ProgressCb(t: Task, done: nat, total: nat): (r: Task)
    ensures r.progress == done && r.total == total
    ensures |t.queue| < QueueCapacity ==> r.queue == t.queue + [Status(done, total)]
    ensures |t.queue| >= QueueCapacity ==> r.queue == t.queue
    ensures r.id == t.id && r.phase == t.phase && r.message == t.message && r.files == t.files
  {
    t.(progress := done, total := total, queue := Offer(t.queue, Status(done, total)))
  }

  /** A log record of the task's logger, through `QueueLogHandler.emit`: appended as a log
      event when the queue has room, dropped silently when it is full. */
  function Logged(t: Task, text: string): (r: Task)
    ensures |t.queue| < QueueCapacity ==> r.queue == t.queue + [Log(text)]
    ensures |t.queue| >= QueueCapacity ==> r.queue == t.queue
    ensures r.id == t.id && r.phase == t.phase && r.progress == t.progress && r.total == t.total
    ensures r.message == t.message && r.files == t.files
  {
    t.(queue := Emit(t.queue, text))
  }

  /** What the fetch's event stream does to the task: status events go through the progress
      callback, log lines through the queue handler. */
  function Apply(t: Task, e: Event): Task {
    match e
    case Status(d, n) => ProgressCb(t, d, n)
    case Log(text) => Logged(t, text)
    case _ => t.(queue := Offer(t.queue, e))
  }

  /** Feeding a run of events to a task touches only its counters and its queue. */
  function ApplyAll(t: Task, es: seq<Event>): (r: Task)
    ensures r.id == t.id && r.phase == t.phase && r.message == t.message && r.files == t.files
    decreases |es|
  {
    if |es| == 0 then t else ApplyAll(Apply(t, es[0]), es[1..])
  }

  /** Feeding the fetch's events to a task, the queue receives them in order, as many as
      fit. */
  lemma {:induction false} ApplyAllQueue(t: Task, es: seq<Event>)
    requires |t.queue| <= QueueCapacity
    ensures var r := ApplyAll(t, es);
      r.queue == OfferAll(t.queue, es) && r.queue == t.queue + es[..Min(|es|, QueueCapacity - |t.queue|)]
    decreases |es|
  {
    OfferAllPrefix(t.queue, es);
    if |es| > 0 {
      var t1 := Apply(t, es[0]);
      assert t1.queue == Offer(t.queue, es[0]);
      ApplyAllQueue(t1, es[1..]);
    }
  }

  /** The progress counters after a run of events are those of its last status event, and
      are untouched by a run with none. */
  lemma {:induction false} ApplyAllProgress(t: Task, es: seq<Event>)
    ensures var ss := Statuses(es); var r := ApplyAll(t, es);
      && (ss == [] ==> r.progress == t.progress && r.total == t.total)
      && (ss != [] ==> r.progress == ss[|ss| - 1].progress && r.total == ss[|ss| - 1].total)
    decreases |es|
  {
    if |es| > 0 {
      var t1 := Apply(t, es[0]);
      ApplyAllProgress(t1, es[1..]);
      assert Statuses(es) == (if es[0].Status? then [es[0]] else []) + Statuses(es[1..]);
      assert es[0].Status? ==> t1.progress == es[0].progress && t1.total == es[0].total;
      assert !es[0].Status? ==> t1.progress == t.progress && t1.total == t.total;
    }
  }

  /** The `except` branch of `run`: state "error", message `str(e)`, and an error event
      offered to the queue. */
  function Fail(t: Task, text: string): (r: Task)
    ensures r.phase == Failed && r.message == text
    ensures |t.queue| < QueueCapacity ==> r.queue == t.queue + [Error(text)]
    ensures |t.queue| >= QueueCapacity ==> r.queue == t.queue
    ensures r.id == t.id && r.progress == t.progress && r.total == t.total && r.files == t.files
  {
    t.(phase := Failed, message := text, queue := Offer(t.queue, Error(text)))
  }

  /** The success path of `run`: the files, state "completed" and "查询完成", then a bare
      `put_nowait` of the completion event. When the queue is full that put raises
      `queue.Full`, whose text is empty, and the task ends in the `except` branch as an
      error with an empty message; the error event it offers is dropped as well. */
  function Finish(t: Task, files: seq<string>): (r: Task)
    ensures r.files == files && r.id == t.id && r.progress == t.progress && r.total == t.total
    ensures |t.queue| < QueueCapacity ==>
      r.phase == Completed && r.message == DoneText && r.queue == t.queue + [Complete(None)]
    ensures |t.queue| >= QueueCapacity ==> r.phase == Failed && r.message == "" && r.queue == t.queue
  {
    var done := t.(files := files, phase := Completed, message := DoneText);
    match PutNowait(done.queue, Complete(None))
    case Success(q) => done.(queue := q)
    case Failure(e) => Fail(done, e)
  }

  /** `run` once the fetch has returned or raised: the task's end, given what setting up
      the fetcher raised (if anything) and the fetch's outcome. The records a fetch queued
      before it returned or raised reach the task either way; a fetch that returns then
      takes the success path with the files `_collect_files` found, and an exception takes
      the error path. */
  function Conclude(t: Task, setup: Option<string>, outcome: Result<Batch, string>, files: seq<string>): (r: Task)
    ensures r.phase != Running
    ensures r.id == t.id
    ensures setup.Some? ==> r == Fail(t, setup.value)
    ensures setup.None? && outcome.Failure? ==> r == Fail(t, outcome.error)
    ensures setup.None? && outcome.Success? && outcome.value.raised.Some? ==>
      r == Fail(ApplyAll(t, outcome.value.events), outcome.value.raised.value)
    ensures setup.None? && outcome.Success? && outcome.value.raised.None? ==>
      r == Finish(ApplyAll(t, outcome.value.events), files)
  {
    if setup.Some? then Fail(t, setup.value)
    else
      match outcome
      case Failure(e) => Fail(t, e)
      case Success(b) =>
        var fed := ApplyAll(t, b.events);
        if b.raised.Some? then Fail(fed, b.raised.value) else Finish(fed, files)
  }

  /** The surroundings of a task's run: the provider, the dates as given, the calendar and
      clock the fetch reads, the files `_collect_files` finds afterwards, and the exception,
      if any, that setting up the fetcher raised. */
  datatype Setting = Setting(p: Provider, start: Option<string>, end: Option<string>, cal: Calendar,
                             files: seq<string>, setup: Option<string>)

  /** The fetch a run performs: a fresh `WebStockFetcher` clears the market cache first, and
      reports progress through the callback. */
  function RunFetch(codes: seq<string>, cat: seq<Entry>, labels: Labels, w: Setting): Result<Batch, string> {
    Fetch(w.p, cat, labels, ClearCache(), Listed(codes), w.start, w.end, w.cal, true)
  }

  /** `run` for the program's catalogue and display labels. */
  function RunQuery(t: Task, codes: seq<string>, w: Setting): Task
  {
    Conclude(t, w.setup, RunFetch(codes, Interfaces, DisplayLabels, w), w.files)
  }

  /** A returned fetch whose records all fit in an empty queue completes the task: the
      counters are those of the last status record, the files are recorded and the
      completion event follows the fetch's records. */
  lemma ConcludeCompletes(t: Task, b: Batch, files: seq<string>)
    requires t.queue == [] && |b.events| < QueueCapacity && b.raised.None?
    requires Statuses(b.events) != []
    ensures var r := Conclude(t, None, Success(b), files); var ss := Statuses(b.events);
      && r.phase == Completed && r.message == DoneText
      && r.progress == ss[|ss| - 1].progress && r.total == ss[|ss| - 1].total
      && r.files == files && r.queue == b.events + [Complete(None)]
  {
    var es := b.events;
    ApplyAllProgress(t, es);
    ApplyAllQueue(t, es);
    assert es[..Min(|es|, QueueCapacity)] == es;
  }

  /** A returned fetch that queues 5000 records or more into an empty queue fills it, and
      the bare `put_nowait` of the completion event then raises: the task ends as an error
      with an empty message and no terminal event in its queue. */
  lemma ConcludeOverflow(t: Task, b: Batch, files: seq<string>)
    requires t.queue == [] && |b.events| >= QueueCapacity && b.raised.None?
    ensures var r := Conclude(t, None, Success(b), files);
      && r.phase == Failed && r.message == "" && r.queue == b.events[..QueueCapacity]
      && forall i :: 0 <= i < |r.queue| ==> r.queue[i] == b.events[i]
  {
    ApplyAllQueue(t, b.events);
  }

  /** A fetch that raised after queueing records (the shared fill's exception) ends the task
      as an error carrying the exception's text, after those records. */
  lemma ConcludeRaised(t: Task, b: Batch, files: seq<string>)
    requires t.queue == [] && |b.events| < QueueCapacity && b.raised.Some?
    ensures var r := Conclude(t, None, Success(b), files);
      r.phase == Failed && r.message == b.raised.value && r.queue == b.events + [Error(b.raised.value)]
  {
    var es := b.events;
    ApplyAllQueue(t, es);
    assert es[..Min(|es|, QueueCapacity)] == es;
  }

  /** A returned batch over `n` codes whose status records count up to `[n/n]` completes
      the task at `[n/n]` when its records fit in the queue, and ends it as an error with an
      empty message when they fill the queue. */
  lemma ConcludeAllFetched(t: Task, b: Batch, files: seq<string>, n: nat)
    requires t.queue == [] && b.raised.None? && n > 0 && b.ok == n
    requires Statuses(b.events) == Counts(0, n, n)
    ensures var r := Conclude(t, None, Success(b), files);
      && (|b.events| < QueueCapacity ==>
            r.phase == Completed && r.progress == n && r.total == n && r.files == files)
      && (|b.events| >= QueueCapacity ==> r.phase == Failed && r.message == "")
  {
    if |b.events| < QueueCapacity {
      var ss := Statuses(b.events);
      assert ss[|ss| - 1] == Status(n, n);
      ConcludeCompletes(t, b, files);
    } else {
      ConcludeOverflow(t, b, files);
    }
  }

  /** A task run whose fetch returns with every security fetched completes at `[n/n]`, `n`
      being the number of codes, when the fetch's records fit in the queue; a run whose fetch
      queues 5000 records or more ends as an error with an empty message. Stated for any
      catalogue and labels; `RunQuery` is the run with the program's own. */
  lemma RunEnds(t: Task, codes: seq<string>, cat: seq<Entry>, labels: Labels, w: Setting)
    requires t.queue == [] && w.setup.None? && |codes| > 0
    requires RunFetch(codes, cat, labels, w).Success?
    requires RunFetch(codes, cat, labels, w).value.raised.None?
    requires RunFetch(codes, cat, labels, w).value.ok == |codes|
    ensures var b := RunFetch(codes, cat, labels, w).value;
      var r := Conclude(t, w.setup, RunFetch(codes, cat, labels, w), w.files);
      && (|b.events| < QueueCapacity ==>
            r.phase == Completed && r.progress == |codes| && r.total == |codes| && r.files == w.files)
      && (|b.events| >= QueueCapacity ==> r.phase == Failed && r.message == "")
  {
    var b := RunFetch(codes, cat, labels, w).value;
    FetchProgress(w.p, cat, labels, ClearCache(), Listed(codes), w.start, w.end, w.cal);
    ConcludeAllFetched(t, b, w.files, |codes|);
  }

  /** A request naming the codes `cs` (trimmed, comma-free, non-empty), joined by commas,
      starts a task sized to `cs`. */
  lemma StartTaskJoined(codes: seq<string>, freshId: string)
    requires |codes| > 0
    requires forall k :: 0 <= k < |codes| ==> codes[k] != [] && ',' !in codes[k] && IsTrimmed(codes[k], Python)
    ensures var s := StartTask(None, Join(codes, ','), freshId);
      s.outcome.Success? && s.outcome.value.total == |codes| && ParseCodes(Join(codes, ',')) == codes
  {
    ParseCodesJoin(codes);
  }
}
