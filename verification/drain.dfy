/** The progress socket `ws_progress`: each round snapshots the task's state, drains up to
    50 queued events, forwards them until the first terminal one, and synthesises a final
    event once the task has ended and the queue is empty. Sending a message is appending it
    to the output; `asyncio.sleep` is the step to the next round. */
module Drain {
  import opened Wrappers
  import opened Events
  import opened Tasks

  /** Events drained per round at most. */
  const RoundSize: nat := 50

  const NotFoundText: string := "任务不存在"

  /** The index of the first terminal event, `|ms|` when there is none. */
  function FirstTerminal(ms: seq<Event>): (i: nat)
    ensures i <= |ms|
    ensures i < |ms| ==> IsTerminal(ms[i])
    ensures forall j :: 0 <= j < i ==> !IsTerminal(ms[j])
    decreases |ms|
  {
    if |ms| == 0 then 0
    else if IsTerminal(ms[0]) then 0
    else 1 + FirstTerminal(ms[1..])
  }

  /** The event synthesised for an ended task: `complete` when the snapshot says
      "completed", `error` otherwise, carrying the task's message. */
  function Final(phase: Phase, message: string): (e: Event)
    ensures IsTerminal(e)
    ensures e.Complete? <==> phase == Completed
    ensures e.Complete? ==> e.note == Some(message)
    ensures e.Error? ==> e.text == message
  {
    if phase == Completed then Complete(Some(message)) else Error(message)
  }

  /** One round's effect: the messages sent, the queue left behind, whether the socket closed. */
  datatype Round = Round(sent: seq<Event>, rest: Queue, closed: bool)

  /** Exactly one terminal message, and it is the last one. */
  predicate EndsOnce(sent: seq<Event>) {
    |sent| > 0 && IsTerminal(sent[|sent| - 1]) && forall j :: 0 <= j < |sent| - 1 ==> !IsTerminal(sent[j])
  }

  predicate NoTerminal(sent: seq<Event>) {
    forall j :: 0 <= j < |sent| ==> !IsTerminal(sent[j])
  }

  /** One loop iteration, given the state snapshot taken before the drain and the message
      read when synthesising: up to 50 events leave the queue, and those sent are a prefix of
      them, all of them unless the socket closed. */
  function DrainRound(phase: Phase, message: string, q: Queue): (r: Round)
    ensures r.rest == q[Min(|q|, RoundSize)..]
    ensures |q| > 0 ==> r.sent <= q[..Min(|q|, RoundSize)] && r.sent != []
    ensures |q| == 0 ==> r.sent == (if phase != Running then [Final(phase, message)] else [])
    ensures !r.closed ==> r.sent == q[..Min(|q|, RoundSize)]
  {
    var n := Min(|q|, RoundSize);
    var drained := q[..n];
    var i := FirstTerminal(drained);
    if i < n then Round(drained[..i + 1], q[n..], true)
    else if phase != Running && n == 0 then Round([Final(phase, message)], q, true)
    else Round(drained, q[n..], false)
  }

  /** A round closes the socket exactly when it drained a terminal event, or found the task
      ended with nothing left to drain; it then has sent one terminal message, the last, and
      otherwise none. */
  lemma DrainRoundCloses(phase: Phase, message: string, q: Queue)
    ensures var r := DrainRound(phase, message, q);
      r.closed <==> FirstTerminal(q[..Min(|q|, RoundSize)]) < Min(|q|, RoundSize) || (phase != Running && |q| == 0)
    ensures var r := DrainRound(phase, message, q); r.closed ==> EndsOnce(r.sent)
    ensures var r := DrainRound(phase, message, q); !r.closed ==> NoTerminal(r.sent)
  {
  }

  /** What the task does before a round's snapshot: its state and message, and the events it
      queued since the previous round. */
  datatype Tick = Tick(phase: Phase, message: string, arrivals: seq<Event>)

  /** The socket's output over successive rounds: what was sent, whether it closed, whether
      the last message was synthesised, the queue left behind and the rounds run. */
  datatype Session = Session(sent: seq<Event>, closed: bool, synthesised: bool, rest: Queue, rounds: nat)

  /** The loop, one tick per round, until the socket closes or the ticks run out. */
  function Stream(q: Queue, ticks: seq<Tick>): (s: Session)
    ensures s.rounds <= |ticks|
    ensures s.synthesised ==> s.closed && |s.sent| > 0
    ensures !s.closed ==> s.rounds == |ticks|
    decreases |ticks|
  {
    if |ticks| == 0 then Session([], false, false, q, 0)
    else
      var q1 := q + ticks[0].arrivals;
      var r := DrainRound(ticks[0].phase, ticks[0].message, q1);
      if r.closed then Session(r.sent, true, |q1| == 0, r.rest, 1)
      else
        var s := Stream(r.rest, ticks[1..]);
        Session(r.sent + s.sent, s.closed, s.synthesised, s.rest, s.rounds + 1)
  }

  /** A closed socket has sent exactly one terminal message, the last; an open one none. */
  lemma {:induction false} StreamTerminal(q: Queue, ticks: seq<Tick>)
    ensures var s := Stream(q, ticks); s.closed ==> EndsOnce(s.sent)
    ensures var s := Stream(q, ticks); !s.closed ==> NoTerminal(s.sent)
    decreases |ticks|
  {
    if |ticks| > 0 {
      var q1 := q + ticks[0].arrivals;
      var r := DrainRound(ticks[0].phase, ticks[0].message, q1);
      DrainRoundCloses(ticks[0].phase, ticks[0].message, q1);
      if !r.closed {
        var t := Stream(r.rest, ticks[1..]);
        StreamTerminal(r.rest, ticks[1..]);
        assert Stream(q, ticks) == Session(r.sent + t.sent, t.closed, t.synthesised, t.rest, t.rounds + 1);
        TerminalJoin(r.sent, t.sent);
      }
    }
  }

  lemma TerminalJoin(a: seq<Event>, b: seq<Event>)
    requires NoTerminal(a)
    ensures EndsOnce(b) ==> EndsOnce(a + b)
    ensures NoTerminal(b) ==> NoTerminal(a + b)
  {
    assert forall j :: |a| <= j < |a + b| ==> (a + b)[j] == b[j - |a|];
  }

  /** Every event the task queued, in order. */
  function Arrivals(ticks: seq<Tick>): seq<Event>
    decreases |ticks|
  {
    if |ticks| == 0 then [] else ticks[0].arrivals + Arrivals(ticks[1..])
  }

  lemma ArrivalsStep(ticks: seq<Tick>, k: nat)
    requires 0 < k <= |ticks|
    ensures Arrivals(ticks[..k]) == ticks[0].arrivals + Arrivals(ticks[1..][..k - 1])
  {
    assert ticks[..k][1..] == ticks[1..][..k - 1];
  }

  /** The messages of a session that came from the queue: all of them, save a synthesised
      final one. */
  function Forwarded(s: Session): seq<Event>
    requires s.synthesised ==> |s.sent| > 0
  {
    if s.synthesised then s.sent[..|s.sent| - 1] else s.sent
  }

  /** While the socket stays open nothing is lost or reordered: what was sent and what is
      left make up the queue and everything queued since. */
  lemma {:induction false} StreamKeeps(q: Queue, ticks: seq<Tick>)
    ensures !Stream(q, ticks).closed ==> Stream(q, ticks).sent + Stream(q, ticks).rest == q + Arrivals(ticks)
    decreases |ticks|
  {
    if |ticks| > 0 {
      var q1 := q + ticks[0].arrivals;
      var r := DrainRound(ticks[0].phase, ticks[0].message, q1);
      if !r.closed {
        var t := Stream(r.rest, ticks[1..]);
        StreamKeeps(r.rest, ticks[1..]);
        assert Stream(q, ticks) == Session(r.sent + t.sent, t.closed, t.synthesised, t.rest, t.rounds + 1);
        if !t.closed {
          JoinChain(r.sent, t.sent, t.rest, r.rest, Arrivals(ticks[1..]), q, ticks[0].arrivals);
        }
      }
    }
  }

  /** Regrouping the concatenations of one round and the rounds after it. Kept apart from
      `StreamKeeps` because the same steps, taken inside that lemma, are not found there. */
  lemma JoinChain(sent: seq<Event>, s2: seq<Event>, left: seq<Event>, rest: seq<Event>, later: seq<Event>,
                  q: seq<Event>, arrived: seq<Event>)
    requires s2 + left == rest + later
    requires sent + rest == q + arrived
    ensures (sent + s2) + left == q + (arrived + later)
  {
    calc {
      (sent + s2) + left;
      sent + (s2 + left);
      sent + (rest + later);
      (sent + rest) + later;
      (q + arrived) + later;
      q + (arrived + later);
    }
  }

  /** The messages forwarded from the queue are, in queue order, a prefix of what was queued
      up to the last round run; only a synthesised final message comes from elsewhere. */
  lemma {:induction false} StreamFifo(q: Queue, ticks: seq<Tick>)
    ensures Forwarded(Stream(q, ticks)) <= q + Arrivals(ticks[..Stream(q, ticks).rounds])
    decreases |ticks|
  {
    var s := Stream(q, ticks);
    if |ticks| == 0 {
      assert ticks[..0] == [];
    } else {
      var q1 := q + ticks[0].arrivals;
      var r := DrainRound(ticks[0].phase, ticks[0].message, q1);
      if r.closed {
        assert s == Session(r.sent, true, |q1| == 0, r.rest, 1);
        assert Arrivals(ticks[..1]) == ticks[0].arrivals by {
          ArrivalsStep(ticks, 1);
          assert ticks[1..][..0] == [];
        }
        assert Forwarded(s) <= q1;
      } else {
        var t := Stream(r.rest, ticks[1..]);
        assert s == Session(r.sent + t.sent, t.closed, t.synthesised, t.rest, t.rounds + 1);
        var later := Arrivals(ticks[1..][..t.rounds]);
        assert Arrivals(ticks[..s.rounds]) == ticks[0].arrivals + later by {
          ArrivalsStep(ticks, s.rounds);
        }
        StreamFifo(r.rest, ticks[1..]);
        ForwardedAfter(r.sent, t);
        PrefixChain(r.sent, Forwarded(t), r.rest, later, q, ticks[0].arrivals);
      }
    }
  }

  lemma ForwardedAfter(a: seq<Event>, t: Session)
    requires t.synthesised ==> |t.sent| > 0
    ensures Forwarded(Session(a + t.sent, t.closed, t.synthesised, t.rest, t.rounds + 1)) == a + Forwarded(t)
  {
    if t.synthesised {
      assert (a + t.sent)[..|a + t.sent| - 1] == a + t.sent[..|t.sent| - 1];
    }
  }

  /** What a round sent, followed by a prefix of what it left and what came later, is a
      prefix of the queue it started from and everything after. Kept apart from `StreamFifo`
      because the same steps, taken inside that lemma, exhaust its budget. */
  lemma PrefixChain(sent: seq<Event>, f: seq<Event>, rest: seq<Event>, later: seq<Event>, q: seq<Event>, arrived: seq<Event>)
    requires f <= rest + later
    requires sent + rest == q + arrived
    ensures sent + f <= q + (arrived + later)
  {
    calc {
      q + (arrived + later);
      (q + arrived) + later;
      (sent + rest) + later;
      sent + (rest + later);
    }
    assert (sent + (rest + later))[..|sent + f|] == sent + f;
  }

  /** `ceil(n / 50) + 1`. */
  function RoundsFor(n: nat): nat {
    (n + RoundSize - 1) / RoundSize + 1
  }

  /** Rounds with nothing new queued and the task in an ended state. */
  function Quiet(phase: Phase, message: string, k: nat): (ts: seq<Tick>)
    ensures |ts| == k
  {
    seq(k, _ => Tick(phase, message, []))
  }

  /** Once the task has ended and queues nothing more, the socket closes within
      `ceil(n / 50) + 1` rounds, where `n` is the queue's length. */
  lemma {:induction false} StreamEnds(phase: Phase, message: string, q: Queue)
    requires phase != Running
    ensures Stream(q, Quiet(phase, message, RoundsFor(|q|))).closed
    decreases |q|
  {
    var k := RoundsFor(|q|);
    var ts := Quiet(phase, message, k);
    assert ts[0] == Tick(phase, message, []);
    assert q + ts[0].arrivals == q;
    var r := DrainRound(phase, message, q);
    if !r.closed {
      var rest := q[Min(|q|, RoundSize)..];
      assert |q| > 0;
      if |q| >= RoundSize {
        assert RoundsFor(|rest|) == k - 1;
      } else {
        assert rest == [] && k == 2;
      }
      assert ts[1..] == Quiet(phase, message, k - 1);
      StreamEnds(phase, message, rest);
    }
  }

  /** `ws_progress` from the connection on: an unknown task id, or no task at all, gets one
      "任务不存在" error and the socket closes; otherwise the rounds run on the task's queue. */
  function Connect(current: Option<Task>, id: string, ticks: seq<Tick>): (s: Session)
    ensures current.None? || current.value.id != id ==> s.sent == [Error(NotFoundText)] && s.closed
    ensures current.Some? && current.value.id == id ==> s == Stream(current.value.queue, ticks)
    ensures s.closed ==> EndsOnce(s.sent)
  {
    if current.None? || current.value.id != id then Session([Error(NotFoundText)], true, false, [], 0)
    else
      StreamTerminal(current.value.queue, ticks);
      Stream(current.value.queue, ticks)
  }
}
