/** A task's progress stream: the events a task produces and the bounded FIFO queue
    (`queue.Queue(maxsize=5000)`) that carries them to the progress socket. */
module Events {
  import opened Wrappers

  /** `TaskState.log_queue`'s `maxsize`. */
  const QueueCapacity: nat := 5000

  /** One queued message: `{"type": "log", "text"}`, `{"type": "status", "progress", "total"}`,
      `{"type": "complete"}` (with a `text` only when the socket synthesises it) or
      `{"type": "error", "text"}`. */
  datatype Event =
    | Log(text: string)
    | Status(progress: nat, total: nat)
    | Complete(note: Option<string>)
    | Error(text: string)

  /** The message types after which the progress socket closes. */
  predicate IsTerminal(e: Event) {
    e.Complete? || e.Error?
  }

  /** The queue, head first. */
  type Queue = seq<Event>

  /** `put_nowait` inside `try … except queue.Full: pass`: append when there is room,
      otherwise drop the event silently. */
  function Offer(q: Queue, e: Event): (r: Queue)
    ensures |q| < QueueCapacity ==> r == q + [e]
    ensures |q| >= QueueCapacity ==> r == q
    ensures q <= r
  {
    if |q| < QueueCapacity then q + [e] else q
  }

  /** A bare `put_nowait`: the event is appended, or `queue.Full` is raised, whose text
      (`str(e)`) is empty. */
  function PutNowait(q: Queue, e: Event): (r: Result<Queue, string>)
    ensures r.Success? <==> |q| < QueueCapacity
    ensures r.Success? ==> r.value == q + [e]
    ensures r.Failure? ==> r.error == ""
  {
    if |q| < QueueCapacity then Success(q + [e]) else Failure("")
  }

  /** `QueueLogHandler.emit`: a formatted log record, offered to the queue. */
  function Emit(q: Queue, text: string): (r: Queue)
    ensures |q| < QueueCapacity ==> r == q + [Log(text)]
    ensures |q| >= QueueCapacity ==> r == q
  {
    Offer(q, Log(text))
  }

  /** Offering a run of events one after another. */
  function OfferAll(q: Queue, es: seq<Event>): (r: Queue)
    ensures q <= r
    decreases |es|
  {
    if |es| == 0 then q else OfferAll(Offer(q, es[0]), es[1..])
  }

  function Min(a: nat, b: nat): nat {
    if a <= b then a else b
  }

  /** Offering a run keeps the queue in FIFO order: what gets in is exactly the longest
      prefix of the run that fits, after the events already queued. */
  lemma {:induction false} OfferAllPrefix(q: Queue, es: seq<Event>)
    requires |q| <= QueueCapacity
    ensures OfferAll(q, es) == q + es[..Min(|es|, QueueCapacity - |q|)]
    ensures |OfferAll(q, es)| <= QueueCapacity
    decreases |es|
  {
    if |es| > 0 {
      var q1 := Offer(q, es[0]);
      OfferAllPrefix(q1, es[1..]);
      if |q| < QueueCapacity {
        var k := Min(|es[1..]|, QueueCapacity - |q1|);
        assert q1 + es[1..][..k] == q + es[..k + 1];
      } else {
        assert es[..0] == [] && es[1..][..0] == [];
      }
    }
  }

  /** The log records of a run of lines, in order. */
  function Logs(lines: seq<string>): (es: seq<Event>)
    ensures |es| == |lines| && forall i :: 0 <= i < |lines| ==> es[i] == Log(lines[i])
  {
    seq(|lines|, i requires 0 <= i < |lines| => Log(lines[i]))
  }

  /** The status events of a run, in order. */
  function Statuses(es: seq<Event>): (ss: seq<Event>)
    ensures forall i :: 0 <= i < |ss| ==> ss[i].Status?
    ensures |ss| <= |es|
  {
    if |es| == 0 then [] else (if es[0].Status? then [es[0]] else []) + Statuses(es[1..])
  }

  lemma {:induction false} StatusesAppend(a: seq<Event>, b: seq<Event>)
    ensures Statuses(a + b) == Statuses(a) + Statuses(b)
    decreases |a|
  {
    if |a| == 0 {
      assert a + b == b;
    } else {
      assert (a + b)[0] == a[0] && (a + b)[1..] == a[1..] + b;
      StatusesAppend(a[1..], b);
    }
  }

  /** Runs without status events around a run add none to it. */
  lemma StatusesBetween(a: seq<Event>, m: seq<Event>, z: seq<Event>)
    requires Statuses(a) == [] && Statuses(z) == []
    ensures Statuses(a + m + z) == Statuses(m)
  {
    StatusesAppend(a, m);
    StatusesAppend(a + m, z);
  }

  /** Log records carry no status. */
  lemma {:induction false} StatusesLogs(lines: seq<string>)
    ensures Statuses(Logs(lines)) == []
    decreases |lines|
  {
    if |lines| > 0 {
      StatusesLogs(lines[1..]);
      assert Logs(lines)[1..] == Logs(lines[1..]);
    }
  }
}
