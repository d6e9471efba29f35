/** The asynchronous worker of the example program, without threads.

    The shared state is the FIFO queue of `(text, level)` entries and the exit
    flag. An execution is a sequence of atomic actions. Pushing and popping
    happen under `queueMutex`; the worker's wait is split into testing the wake
    predicate under the lock and then blocking, because the input loop stores
    the exit flag and notifies without taking the lock, and a notification
    that arrives between those two steps is lost. */
module Worker {

  import opened Levels
  import opened FileLogging

  /** One queued message. */
  datatype Entry = Entry(text: string, level: LogLevel)

  /** The state shared by the producer and the worker. */
  datatype Shared = Shared(queue: seq<Entry>, exitFlag: bool)

  /** Both globals start out empty and false. */
  const Initial: Shared := Shared([], false)

  /** `ShouldWakeWorker`: the worker keeps waiting only while the shared state
      is as it was at start-up, with nothing queued and no exit requested. */
  function ShouldWakeWorker(s: Shared): (wake: bool)
    ensures !wake <==> s == Initial
  {
    |s.queue| > 0 || s.exitFlag
  }

  /** The producer's push: the entry joins the tail behind everything already
      queued, and the worker has something to do. */
  function Push(s: Shared, e: Entry): (r: Shared)
    ensures |r.queue| == |s.queue| + 1 && r.queue[..|s.queue|] == s.queue && r.queue[|s.queue|] == e
    ensures r.exitFlag == s.exitFlag && ShouldWakeWorker(r)
  {
    s.(queue := s.queue + [e])
  }

  /** The producer's handling of `exit`: the flag goes up and the queue is not
      touched, so the worker's next pass never waits, and it stops exactly
      when nothing is queued. */
  function RequestExit(s: Shared): (r: Shared)
    ensures r.queue == s.queue && r.exitFlag
    ensures !WorkerStep(r).Waiting?
    ensures WorkerStep(r).Stopped? <==> s.queue == []
  {
    s.(exitFlag := true)
  }

  /** The outcome of one pass of the worker loop. */
  datatype Step =
    | Waiting                            // still blocked in the wait
    | Stopped                            // left the loop
    | Deliver(entry: Entry, next: Shared) // popped `entry`; hands it to the logger

  /** One pass of `logWorker`'s loop: wait for the wake predicate, leave when
      the exit flag is set and the queue is empty, otherwise pop the head.
      The worker never pops an empty queue and never stops while entries
      remain. */
  function WorkerStep(s: Shared): (r: Step)
    ensures r.Waiting? <==> !ShouldWakeWorker(s)
    ensures r.Stopped? <==> s.exitFlag && |s.queue| == 0
    ensures r.Deliver? <==> |s.queue| > 0
    ensures r.Deliver? ==> s.queue == [r.entry] + r.next.queue && r.next.exitFlag == s.exitFlag
  {
    if !ShouldWakeWorker(s) then Waiting
    else if s.exitFlag && |s.queue| == 0 then Stopped
    else Deliver(s.queue[0], Shared(s.queue[1..], s.exitFlag))
  }

  /** What the environment supplies to the logger for one delivered entry. */
  datatype WriteContext = WriteContext(timestamp: string, canOpen: bool, stored: bool)

  /** The `log` calls the worker makes for `entries`, the `i`-th one with
      context `ctx(i)`. */
  function Handoffs(entries: seq<Entry>, ctx: nat -> WriteContext): (calls: seq<Call>)
    ensures |calls| == |entries|
  {
    seq(|entries|, i requires 0 <= i < |entries| =>
      Call(entries[i].text, entries[i].level, ctx(i).timestamp, ctx(i).canOpen, ctx(i).stored))
  }

  /** `logWorker` running against its logger with no producer active: it
      delivers every queued entry, in order, to `log` (whose result it
      ignores), and then either leaves the loop, when the exit flag is set, or
      blocks in the wait. */
  method LogWorker(s0: Shared, logger: FileLogger, file0: File, ctx: nat -> WriteContext)
    returns (s: Shared, file: File, stopped: bool)
    ensures s.queue == [] && s.exitFlag == s0.exitFlag
    ensures stopped <==> s0.exitFlag
    ensures file == file0 + Written(logger, Handoffs(s0.queue, ctx))
  {
    s, file := s0, file0;
    var n := 0;
    while true
      invariant 0 <= n <= |s0.queue|
      invariant s.queue == s0.queue[n..] && s.exitFlag == s0.exitFlag
      invariant file == file0 + Written(logger, Handoffs(s0.queue[..n], ctx))
      decreases |s.queue|
    {
      match WorkerStep(s) {
        case Waiting =>
          assert s0.queue[..n] == s0.queue;
          stopped := false;
          return;
        case Stopped =>
          assert s0.queue[..n] == s0.queue;
          stopped := true;
          return;
        case Deliver(e, next) =>
          var c := Call(e.text, e.level, ctx(n).timestamp, ctx(n).canOpen, ctx(n).stored);
          var r := Log(logger, file, c.message, c.level, c.timestamp, c.canOpen, c.stored);
          assert Handoffs(s0.queue[..n + 1], ctx) == Handoffs(s0.queue[..n], ctx) + [c];
          WrittenAppend(logger, Handoffs(s0.queue[..n], ctx), [c]);
          file := r.file;
          s := next;
          n := n + 1;
      }
    }
  }

  /** Where the worker thread is, as far as the input loop can tell. */
  datatype Phase =
    | Awake    // outside the wait: about to test the wake predicate, or handing an entry to `log`
    | Checking // found the predicate false under the lock and has not blocked yet
    | Blocked  // blocked in `queueCV.wait` until a notification arrives
    | Exited   // left the loop

  /** One atomic action of an execution. */
  datatype Action =
    | Produce(entry: Entry) // push under the lock, then notify
    | StoreFlag             // store the exit flag without the lock
    | Notify                // `notify_one` without the lock
    | ShutdownLocked        // store the exit flag under the lock, then notify
    | Work                  // the worker's next step

  /** The actions that raise the exit flag. */
  predicate RaisesFlag(a: Action) {
    a.StoreFlag? || a.ShutdownLocked?
  }

  /** Some action of `acts` raises the exit flag. */
  predicate RaisesExit(acts: seq<Action>) {
    StoreFlag in acts || ShutdownLocked in acts
  }

  /** The whole system: the shared state, the worker's phase, and the entries
      it has handed to the logger so far. */
  datatype System = System(shared: Shared, phase: Phase, delivered: seq<Entry>)

  const Start: System := System(Initial, Awake, [])

  /** A worker that has left its loop has seen the exit flag. */
  predicate Valid(sys: System) {
    sys.phase.Exited? ==> sys.shared.exitFlag
  }

  /** A worker that is about to block, or blocked, has nothing to do. Losing a
      notification is harmless exactly while this holds. */
  predicate NoLostWakeup(sys: System) {
    sys.phase.Checking? || sys.phase.Blocked? ==> sys.shared == Initial
  }

  /** The phase after a producer that took the lock has notified: the lock is
      free only once a checking worker has blocked, and the notification then
      wakes it. */
  function AfterLockedNotify(p: Phase): (q: Phase)
    ensures !q.Checking? && !q.Blocked? && (q.Exited? <==> p.Exited?)
  {
    if p.Checking? || p.Blocked? then Awake else p
  }

  /** Performs one action. A worker that has left its loop does nothing, and a
      blocked one waits for a notification. */
  function Apply(sys: System, a: Action): (r: System)
    ensures Valid(sys) ==> Valid(r)
    ensures r.shared.exitFlag <==> sys.shared.exitFlag || RaisesFlag(a)
    ensures sys.phase.Exited? ==> r.phase.Exited? && r.delivered == sys.delivered
    ensures r.delivered + r.shared.queue
            == sys.delivered + sys.shared.queue + (if a.Produce? then [a.entry] else [])
    ensures NoLostWakeup(sys) && !a.StoreFlag? ==> NoLostWakeup(r)
  {
    match a
    case Produce(e) => System(Push(sys.shared, e), AfterLockedNotify(sys.phase), sys.delivered)
    case StoreFlag => sys.(shared := RequestExit(sys.shared))
    case Notify => sys.(phase := if sys.phase.Blocked? then Awake else sys.phase)
    case ShutdownLocked => System(RequestExit(sys.shared), AfterLockedNotify(sys.phase), sys.delivered)
    case Work =>
      match sys.phase
      case Awake =>
        (match WorkerStep(sys.shared)
         case Waiting => sys.(phase := Checking)
         case Stopped => sys.(phase := Exited)
         case Deliver(e, next) => System(next, Awake, sys.delivered + [e]))
      case Checking => sys.(phase := Blocked)
      case Blocked => sys
      case Exited => sys
  }

  /** Performs the actions in order. */
  function Run(sys: System, acts: seq<Action>): (r: System)
    ensures Valid(sys) ==> Valid(r)
    decreases |acts|
  {
    if |acts| == 0 then sys else Run(Apply(sys, acts[0]), acts[1..])
  }

  /** The entries pushed by a sequence of actions, in push order. */
  function Pushed(acts: seq<Action>): seq<Entry>
  {
    if |acts| == 0 then []
    else (if acts[0].Produce? then [acts[0].entry] else []) + Pushed(acts[1..])
  }

  /** FIFO with neither loss nor duplication: at every point, the entries
      handed to the logger followed by those still queued are exactly the
      entries that were queued at the start and then pushed, in push order. */
  lemma {:induction false} RunConserves(sys: System, acts: seq<Action>)
    ensures Run(sys, acts).delivered + Run(sys, acts).shared.queue
            == sys.delivered + sys.shared.queue + Pushed(acts)
    decreases |acts|
  {
    if |acts| > 0 {
      RunConserves(Apply(sys, acts[0]), acts[1..]);
    }
  }

  /** The exit flag only ever goes from false to true; it ends up set exactly
      when it started set or some action raised it. */
  lemma {:induction false} ExitFlagMonotone(sys: System, acts: seq<Action>)
    ensures Run(sys, acts).shared.exitFlag <==> sys.shared.exitFlag || RaisesExit(acts)
    decreases |acts|
  {
    if |acts| > 0 {
      ExitFlagMonotone(Apply(sys, acts[0]), acts[1..]);
      assert acts == [acts[0]] + acts[1..];
    }
  }

  /** No action is a push. */
  predicate ProducerQuiet(acts: seq<Action>) {
    forall i :: 0 <= i < |acts| ==> !acts[i].Produce?
  }

  /** A sequence without pushes pushes nothing. */
  lemma {:induction false} QuietPushesNothing(acts: seq<Action>)
    requires ProducerQuiet(acts)
    ensures Pushed(acts) == []
    decreases |acts|
  {
    if |acts| > 0 {
      assert ProducerQuiet(acts[1..]) by {
        forall i | 0 <= i < |acts[1..]| ensures !acts[1..][i].Produce? {
          assert acts[1..][i] == acts[i + 1];
        }
      }
      QuietPushesNothing(acts[1..]);
    }
  }

  /** The producer pushes nothing after it raises the exit flag: the input
      loop breaks right after handling `exit`. */
  predicate ExitIsLast(acts: seq<Action>)
    decreases |acts|
  {
    |acts| == 0
    || (if RaisesFlag(acts[0]) then ProducerQuiet(acts[1..]) else ExitIsLast(acts[1..]))
  }

  /** Under that discipline a worker that has left its loop has an empty
      queue. */
  lemma {:induction false} StoppedMeansDrained(sys: System, acts: seq<Action>)
    requires Valid(sys) && (sys.phase.Exited? ==> sys.shared.queue == [])
    requires ExitIsLast(acts) && (sys.shared.exitFlag ==> ProducerQuiet(acts))
    ensures Run(sys, acts).phase.Exited? ==> Run(sys, acts).shared.queue == []
    decreases |acts|
  {
    if |acts| > 0 {
      var next := Apply(sys, acts[0]);
      if RaisesFlag(acts[0]) {
        assert ProducerQuiet(acts[1..]) by {
          forall i | 0 <= i < |acts[1..]| ensures !acts[1..][i].Produce? {
          }
        }
        ProducerQuietExitIsLast(acts[1..]);
      } else if sys.shared.exitFlag {
        assert ProducerQuiet(acts[1..]) by {
          forall i | 0 <= i < |acts[1..]| ensures !acts[1..][i].Produce? {
            assert acts[1..][i] == acts[i + 1];
          }
        }
        assert ExitIsLast(acts[1..]) by {
          ProducerQuietExitIsLast(acts[1..]);
        }
      }
      StoppedMeansDrained(next, acts[1..]);
    }
  }

  lemma {:induction false} ProducerQuietExitIsLast(acts: seq<Action>)
    requires ProducerQuiet(acts)
    ensures ExitIsLast(acts)
    decreases |acts|
  {
    if |acts| > 0 {
      assert ProducerQuiet(acts[1..]) by {
        forall i | 0 <= i < |acts[1..]| ensures !acts[1..][i].Produce? {
          assert acts[1..][i] == acts[i + 1];
        }
      }
      ProducerQuietExitIsLast(acts[1..]);
    }
  }

  /** No loss on exit: starting from the program's initial state, whenever the
      worker has left its loop it has handed every pushed entry to the logger,
      in push order, and the exit flag was raised. This holds whether or not
      the flag is stored under the lock. */
  lemma NoLossOnExit(acts: seq<Action>)
    requires ExitIsLast(acts)
    ensures var r := Run(Start, acts);
            r.phase.Exited? ==> r.delivered == Pushed(acts) && r.shared.queue == [] && RaisesExit(acts)
  {
    var r := Run(Start, acts);
    RunConserves(Start, acts);
    StoppedMeansDrained(Start, acts);
    ExitFlagMonotone(Start, acts);
    if r.phase.Exited? {
      assert r.delivered + r.shared.queue == r.delivered;
    }
  }

  /** Without a bare `StoreFlag`, every action keeps a waiting worker's view
      correct, so no notification that matters is ever lost. */
  lemma {:induction false} RunKeepsNoLostWakeup(sys: System, acts: seq<Action>)
    requires NoLostWakeup(sys) && StoreFlag !in acts
    ensures NoLostWakeup(Run(sys, acts))
    decreases |acts|
  {
    if |acts| > 0 {
      assert acts[0] != StoreFlag;
      assert StoreFlag !in acts[1..] by {
        assert acts == [acts[0]] + acts[1..];
      }
      RunKeepsNoLostWakeup(Apply(sys, acts[0]), acts[1..]);
    }
  }

  /** `n` passes of the worker loop. */
  function Works(n: nat): (acts: seq<Action>)
    ensures |acts| == n && forall i :: 0 <= i < n ==> acts[i] == Work
  {
    seq(n, _ => Work)
  }

  /** Once the exit flag is set and the worker is not inside its wait, it
      delivers everything still queued, in order, and leaves its loop after
      one pass per entry plus one. */
  lemma {:induction false} DrainAfterExit(sys: System)
    requires sys.phase.Awake? && sys.shared.exitFlag
    ensures var r := Run(sys, Works(|sys.shared.queue| + 1));
            r.phase.Exited? && r.shared.queue == [] && r.delivered == sys.delivered + sys.shared.queue
    decreases |sys.shared.queue|
  {
    var acts := Works(|sys.shared.queue| + 1);
    var next := Apply(sys, Work);
    assert acts[1..] == Works(|sys.shared.queue|);
    if |sys.shared.queue| > 0 {
      DrainAfterExit(next);
    } else {
      assert Run(next, acts[1..]) == next;
    }
  }

  /** A blocked worker that gets no notification stays blocked, however many
      passes it is given. */
  lemma {:induction false} BlockedStaysBlocked(sys: System, n: nat)
    requires sys.phase.Blocked?
    ensures Run(sys, Works(n)) == sys
    decreases n
  {
    if n > 0 {
      assert Works(n)[1..] == Works(n - 1);
      BlockedStaysBlocked(sys, n - 1);
    }
  }

  /** The lost wake-up as the program is written: the worker finds the
      predicate false, the input loop stores the flag and notifies before the
      worker blocks, and the worker then blocks for good with the flag set. */
  lemma LostWakeup(n: nat)
    ensures var stuck := Run(Start, [Work, StoreFlag, Notify, Work]);
            stuck.phase.Blocked? && stuck.shared.exitFlag && !NoLostWakeup(stuck)
            && Run(stuck, Works(n)) == stuck
  {
    var acts := [Work, StoreFlag, Notify, Work];
    var s1 := Apply(Start, Work);
    assert s1.phase == Checking;
    var s2 := Apply(s1, StoreFlag);
    var s3 := Apply(s2, Notify);
    assert s3.phase == Checking && s3.shared.exitFlag;
    var s4 := Apply(s3, Work);
    assert acts[1..] == [StoreFlag, Notify, Work];
    assert acts[1..][1..] == [Notify, Work];
    assert acts[1..][1..][1..] == [Work];
    assert Run(Start, acts) == s4;
    BlockedStaysBlocked(s4, n);
  }
}
