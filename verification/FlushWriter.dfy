/** The buffered writer with delayed flushing: one writer, one flusher task woken by a token in a
    channel of capacity 1, one task that flushes on drop, and the lock they share. */
module FlushWriter {
  import opened Bytes

  datatype Flush = No | Scheduled | Instant

  /** Inside `write`; all but the first two hold the lock. */
  datatype WriterAt =
    | WIdle
    | WLock(data: seq<byte>, flush: Flush)
    | WWrite(rest: seq<byte>, flush: Flush)
    | WFinish(flush: Flush)
    | WToken
    | WFlush

  datatype FlusherAt = FRecv | FTimer | FLock | FFlush | FAborted

  datatype DropperAt = DWait | DLock | DFlush | DDone

  datatype State = State(
    sink: seq<byte>, buf: seq<byte>, // what has reached the socket, what is still buffered
    given: seq<byte>,                // all bytes taken by the writer so far
    covered: nat,                    // as many of them were there when a scheduled write returned
    tokens: nat,
    writer: WriterAt, flusher: FlusherAt, dropper: DropperAt)

  const START := State([], [], [], 0, 0, WIdle, FRecv, DWait)

  const CAPACITY: nat := 1

  predicate WriterHolds(s: State) {
    !s.writer.WIdle? && !s.writer.WLock?
  }

  predicate LockFree(s: State) {
    !WriterHolds(s) && !s.flusher.FFlush? && !s.dropper.DFlush?
  }

  predicate Flushing(s: State) {
    s.writer.WFlush? || s.flusher.FFlush? || s.dropper.DFlush?
  }

  datatype Step =
    | Begin(data: seq<byte>, flush: Flush) | Lock
    | Accept(n: nat, drained: nat)   // some bytes taken, some of the buffer written through
    | WriteEnds                      // everything taken
    | WriteFails                     // an error, with some of it taken
    | Finish | SendToken | FlushNow | FlushNowFails(drained: nat)
    | Cancel                         // the write is abandoned at a point where it waits
    | Receive | Timer | FlusherLocks | FlusherFlushes
    | FlusherTimesOut | FlusherFails(drained: nat)
    | DropWriter | DropperLocks | DropperFlushes | DropperFails(drained: nat)
    | Trickle(drained: nat)          // a flush under way gets some of the buffer through

  predicate Can(s: State, step: Step) {
    match step
    case Begin(_, _) => s.writer == WIdle && s.dropper == DWait
    case Lock => s.writer.WLock? && LockFree(s)
    case Accept(n, drained) => s.writer.WWrite? && n <= |s.writer.rest| && drained <= |s.buf| + n
    case WriteEnds => s.writer.WWrite? && s.writer.rest == []
    case WriteFails => s.writer.WWrite?
    case Finish => s.writer.WFinish?
    case SendToken => s.writer == WToken && s.tokens < CAPACITY
    case FlushNow => s.writer == WFlush
    case FlushNowFails(drained) => s.writer == WFlush && drained <= |s.buf|
    case Cancel => s.writer.WLock? || s.writer.WWrite? || s.writer.WFlush?
    case Receive => s.flusher == FRecv && s.tokens > 0
    case Timer => s.flusher == FTimer
    case FlusherLocks => s.flusher == FLock && LockFree(s)
    case FlusherFlushes => s.flusher == FFlush
    case FlusherTimesOut => s.flusher == FLock && (!LockFree(s) || s.writer.WLock?)
    case FlusherFails(drained) => s.flusher == FFlush && drained <= |s.buf|
    case DropWriter => s.writer == WIdle && s.dropper == DWait
    case DropperLocks => s.dropper == DLock && LockFree(s)
    case DropperFlushes => s.dropper == DFlush
    case DropperFails(drained) => s.dropper == DFlush && drained <= |s.buf|
    case Trickle(drained) => Flushing(s) && drained <= |s.buf|
  }

  /** Some of the buffer reaches the socket. */
  function Drain(s: State, n: nat): State
    requires n <= |s.buf|
  {
    s.(sink := s.sink + s.buf[..n], buf := s.buf[n..])
  }

  function Flushed(s: State): State {
    s.(sink := s.sink + s.buf, buf := [])
  }

  function Apply(s: State, step: Step): State
    requires Can(s, step)
  {
    match step
    case Begin(data, flush) => s.(writer := WLock(data, flush))
    case Lock => s.(writer := WWrite(s.writer.data, s.writer.flush))
    case Accept(n, drained) =>
      var taken := s.writer.rest[..n];
      var t := s.(given := s.given + taken, buf := s.buf + taken,
                  writer := WWrite(s.writer.rest[n..], s.writer.flush));
      Drain(t, drained)
    case WriteEnds => s.(writer := WFinish(s.writer.flush))
    case WriteFails => s.(writer := WFinish(s.writer.flush))
    case Finish => (
      match s.writer.flush
      case No => s.(writer := WIdle)
      case Instant => s.(writer := WFlush)
      case Scheduled =>
        if s.tokens == 0 then s.(writer := WToken) else s.(writer := WIdle, covered := |s.given|))
    case SendToken => s.(writer := WIdle, covered := |s.given|, tokens := s.tokens + 1)
    case FlushNow => Flushed(s).(writer := WIdle)
    case FlushNowFails(drained) => Drain(s, drained).(writer := WIdle)
    case Cancel => s.(writer := WIdle)
    case Receive => s.(tokens := s.tokens - 1, flusher := FTimer)
    case Timer => s.(flusher := FLock)
    case FlusherLocks => s.(flusher := FFlush)
    case FlusherFlushes => Flushed(s).(flusher := FRecv)
    case FlusherTimesOut => s.(flusher := FRecv)
    case FlusherFails(drained) => Drain(s, drained).(flusher := FRecv)
    case DropWriter => s.(flusher := FAborted, dropper := DLock)
    case DropperLocks => s.(dropper := DFlush)
    case DropperFlushes => Flushed(s).(dropper := DDone)
    case DropperFails(drained) => Drain(s, drained).(dropper := DDone)
    case Trickle(drained) => Drain(s, drained)
  }

  predicate Follows(run: seq<State>, steps: seq<Step>) {
    && |run| == |steps| + 1
    && forall i | 0 <= i < |steps| :: Can(run[i], steps[i]) && run[i + 1] == Apply(run[i], steps[i])
  }

  predicate IsRun(run: seq<State>, steps: seq<Step>) {
    Follows(run, steps) && run[0] == START
  }

  /** A step that can break the promise of a scheduled flush: the flusher gives up on the lock, or its flush,
      or the last one after the drop, times out or fails. All three results are ignored. */
  predicate Unreliable(step: Step) {
    step.FlusherTimesOut? || step.FlusherFails? || step.DropperFails?
  }

  predicate Reliable(steps: seq<Step>) {
    forall step | step in steps :: !Unreliable(step)
  }

  /** What holds in every run, reliable or not: nothing is lost, repeated or reordered, the lock
      excludes, and the channel is empty whenever a token is about to be sent. */
  predicate Sound(s: State) {
    && s.sink + s.buf == s.given
    && s.covered <= |s.given|
    && s.tokens <= CAPACITY
    && (s.writer == WToken ==> s.tokens == 0)
    && (WriterHolds(s) ==> !s.flusher.FFlush? && !s.dropper.DFlush?)
    && (s.flusher.FFlush? ==> !s.dropper.DFlush?)
    && (s.dropper == DWait <==> s.flusher != FAborted)
    && (s.dropper != DWait ==> s.writer == WIdle)
  }

  /** Bytes a scheduled write has left in the buffer will be flushed: a token is queued, or the flusher
      has received one and has yet to flush; after the drop, the last flush is still to come. */
  predicate FlushPending(s: State) {
    |s.sink| < s.covered ==>
      if s.dropper == DWait then s.tokens > 0 || s.flusher in {FTimer, FLock, FFlush}
      else s.dropper in {DLock, DFlush}
  }

  lemma StepKeepsSound(s: State, step: Step)
    requires Sound(s) && Can(s, step)
    ensures Sound(Apply(s, step))
  {
    if step.Accept? {
      AcceptKeepsSound(s, step.n, step.drained);
    } else if step.FlushNowFails? || step.FlusherFails? || step.DropperFails? || step.Trickle? {
      DrainKeepsBytes(s, step.drained);
      hide Drain;
    } else if step.FlushNow? || step.FlusherFlushes? || step.DropperFlushes? {
      FlushKeepsSound(s, step);
    }
  }

  lemma FlushKeepsSound(s: State, step: Step)
    requires Sound(s) && Can(s, step) && (step.FlushNow? || step.FlusherFlushes? || step.DropperFlushes?)
    ensures Sound(Apply(s, step))
  {
    assert Flushed(s).sink + [] == Flushed(s).sink;
  }

  lemma DrainKeepsBytes(s: State, n: nat)
    requires n <= |s.buf|
    ensures var d := Drain(s, n);
      && d.sink + d.buf == s.sink + s.buf
      && d == s.(sink := d.sink, buf := d.buf)
  {
    assert s.buf[..n] + s.buf[n..] == s.buf;
    assert s.sink + s.buf[..n] + s.buf[n..] == s.sink + (s.buf[..n] + s.buf[n..]);
  }

  lemma AcceptKeepsSound(s: State, n: nat, drained: nat)
    requires Sound(s) && Can(s, Accept(n, drained))
    ensures Sound(Apply(s, Accept(n, drained)))
  {
    var taken := s.writer.rest[..n];
    var t := s.(given := s.given + taken, buf := s.buf + taken, writer := WWrite(s.writer.rest[n..], s.writer.flush));
    assert s.sink + (s.buf + taken) == s.given + taken;
    DrainKeepsBytes(t, drained);
    hide Drain;
  }

  lemma StepKeepsPending(s: State, step: Step)
    requires Sound(s) && FlushPending(s) && Can(s, step) && !Unreliable(step)
    ensures FlushPending(Apply(s, step))
  {
    StepKeepsSound(s, step);
  }

  lemma {:induction false} RunKeepsSound(run: seq<State>, steps: seq<Step>, i: nat)
    requires IsRun(run, steps) && i < |run|
    ensures Sound(run[i])
    ensures Reliable(steps) ==> FlushPending(run[i])
  {
    if i > 0 {
      RunKeepsSound(run, steps, i - 1);
      StepKeepsSound(run[i - 1], steps[i - 1]);
      if Reliable(steps) {
        assert steps[i - 1] in steps;
        StepKeepsPending(run[i - 1], steps[i - 1]);
      }
    }
  }

  /** In every interleaving all bytes given are on the socket or in the buffer, in order, and sending
      the token never has to wait although the writer holds the lock meanwhile. */
  lemma NothingLostNothingBlocked(run: seq<State>, steps: seq<Step>, i: nat)
    requires IsRun(run, steps) && i < |run|
    ensures run[i].sink + run[i].buf == run[i].given
    ensures run[i].writer == WToken ==> Can(run[i], SendToken)
  {
    RunKeepsSound(run, steps, i);
  }

  // ----- What a write comes to

  /** One write, from its call to the first moment the writer is idle again; it is not abandoned, and if it
      has to flush itself, that flush does not fail. */
  ghost predicate IsWrite(run: seq<State>, steps: seq<Step>, i: nat, k: nat) {
    && IsRun(run, steps) && i < k < |run| && steps[i].Begin?
    && (forall l | i < l < k :: run[l].writer != WIdle)
    && forall l | i < l < k :: !steps[l].Cancel? && !steps[l].FlushNowFails?
  }

  ghost predicate NoError(steps: seq<Step>, i: nat, k: nat)
    requires i <= k <= |steps|
  {
    forall l | i <= l < k :: !steps[l].WriteFails?
  }

  /** The writer is at this write, and has got as far as its place says. */
  predicate UnderWay(s: State, given: seq<byte>, data: seq<byte>, flush: Flush, whole: bool) {
    match s.writer
    case WIdle => false
    case WLock(d, f) => d == data && f == flush && s.given == given
    case WWrite(rest, f) => f == flush && s.given + rest == given + data
    case WFinish(f) => f == flush && (whole ==> s.given == given + data)
    case WToken => flush == Scheduled && (whole ==> s.given == given + data)
    case WFlush => flush == Instant && (whole ==> s.given == given + data)
  }

  lemma WriteGoesOn(s: State, step: Step, given: seq<byte>, data: seq<byte>, flush: Flush, whole: bool)
    requires Sound(s) && Can(s, step) && UnderWay(s, given, data, flush, whole)
    requires !step.Cancel? && !step.FlushNowFails? && (whole ==> !step.WriteFails?)
    ensures var s' := Apply(s, step);
      if s'.writer == WIdle then Returns(s, s', given, data, flush, whole)
      else UnderWay(s', given, data, flush, whole) && s'.covered == s.covered
  {
    if step.Accept? {
      var n := step.n;
      assert s.writer.rest[..n] + s.writer.rest[n..] == s.writer.rest;
      assert s.given + s.writer.rest[..n] + s.writer.rest[n..] == s.given + s.writer.rest;
    } else if step.WriteEnds? {
      assert s.given + [] == s.given;
    }
  }

  /** What a write leaves behind when it returns: everything given; and, as asked for, everything on the socket,
      or everything covered by a scheduled flush, or nothing more. */
  predicate Returns(s: State, s': State, given: seq<byte>, data: seq<byte>, flush: Flush, whole: bool) {
    && (whole ==> s'.given == given + data)
    && (flush == Instant ==> s'.buf == [] && s'.sink == s'.given)
    && s'.covered == if flush == Scheduled then |s'.given| else s.covered
  }

  lemma {:induction false} WriteUnderWay(run: seq<State>, steps: seq<Step>, i: nat, k: nat, l: nat, whole: bool)
    requires IsWrite(run, steps, i, k) && i < l < k && (whole ==> NoError(steps, i, k))
    ensures UnderWay(run[l], run[i].given, steps[i].data, steps[i].flush, whole)
    ensures run[l].covered == run[i].covered
    decreases l
  {
    RunKeepsSound(run, steps, l - 1);
    assert run[l].writer != WIdle && run[l] == Apply(run[l - 1], steps[l - 1]);
    hide Sound, Reliable, FlushPending;
    if l > i + 1 {
      WriteUnderWay(run, steps, i, k, l - 1, whole);
      hide Apply, Can, UnderWay;
      WriteGoesOn(run[l - 1], steps[l - 1], run[i].given, steps[i].data, steps[i].flush, whole);
    }
  }

  /** In every run, when a write returns, all its bytes are with the writer unless it has met an error. After an
      instant one everything is on the socket; after a scheduled one everything is covered. */
  lemma WriteReturns(run: seq<State>, steps: seq<Step>, i: nat, k: nat)
    requires IsWrite(run, steps, i, k) && run[k].writer == WIdle
    ensures NoError(steps, i, k) ==> run[k].given == run[i].given + steps[i].data
    ensures steps[i].flush == Instant ==> run[k].buf == [] && run[k].sink == run[k].given
    ensures run[k].covered == if steps[i].flush == Scheduled then |run[k].given| else run[i].covered
  {
    var whole := NoError(steps, i, k);
    RunKeepsSound(run, steps, k - 1);
    assert run[k] == Apply(run[k - 1], steps[k - 1]);
    assert k - 1 > i;
    hide Apply, Can, Sound, UnderWay, Reliable, FlushPending;
    WriteUnderWay(run, steps, i, k, k - 1, whole);
    WriteGoesOn(run[k - 1], steps[k - 1], run[i].given, steps[i].data, steps[i].flush, whole);
  }

  // ----- Tokens

  function TokensSent(steps: seq<Step>): nat {
    if steps == [] then 0 else TokensSent(steps[..|steps| - 1]) + if steps[|steps| - 1].SendToken? then 1 else 0
  }

  function TokensReceived(steps: seq<Step>): nat {
    if steps == [] then 0 else TokensReceived(steps[..|steps| - 1]) + if steps[|steps| - 1].Receive? then 1 else 0
  }

  /** How often the flusher has been through with a token, well or badly. */
  function Attempts(steps: seq<Step>): nat {
    if steps == [] then 0
    else
      var last := steps[|steps| - 1];
      Attempts(steps[..|steps| - 1])
        + if last.FlusherFlushes? || last.FlusherFails? || last.FlusherTimesOut? then 1 else 0
  }

  /** Every token sent is queued or has been received once; every token received is being dealt with or has led
      to one attempt to flush, up to the drop. */
  lemma {:induction false} EveryTokenOnce(run: seq<State>, steps: seq<Step>)
    requires IsRun(run, steps)
    ensures var end := run[|steps|];
      && TokensSent(steps) == TokensReceived(steps) + end.tokens
      && (end.dropper == DWait ==>
            TokensReceived(steps) == Attempts(steps) + if end.flusher == FRecv then 0 else 1)
    decreases |steps|
  {
    if steps != [] {
      var n := |steps| - 1;
      EveryTokenOnce(run[..n + 1], steps[..n]);
      RunKeepsSound(run, steps, n);
      assert run[n + 1] == Apply(run[n], steps[n]);
      hide FlushPending, Reliable, Apply, Can, Sound;
      TokensMove(run[n], steps[n]);
    }
  }

  lemma TokensMove(s: State, step: Step)
    requires Sound(s) && Can(s, step)
    ensures var s' := Apply(s, step);
      && s'.tokens + (if step.Receive? then 1 else 0) == s.tokens + (if step.SendToken? then 1 else 0)
      && (s'.dropper == DWait ==>
            && s.dropper == DWait
            && (if s'.flusher == FRecv then 0 else 1)
                 + (if step.FlusherFlushes? || step.FlusherFails? || step.FlusherTimesOut? then 1 else 0)
               == (if s.flusher == FRecv then 0 else 1) + (if step.Receive? then 1 else 0))
  {
  }

  /** No lost flush: from any state of a reliable run in which the writer does not hold the lock, the
      flusher alone (after the drop, the last flush alone) brings everything covered by a scheduled
      write to the socket in at most four steps. */
  lemma FlusherDelivers(run: seq<State>, steps: seq<Step>, i: nat) returns (ahead: seq<State>, more: seq<Step>)
    requires IsRun(run, steps) && i < |run| && Reliable(steps)
    requires !WriterHolds(run[i]) && |run[i].sink| < run[i].covered
    ensures |more| <= 4 && Follows(ahead, more)
    ensures forall step | step in more ::
      step in {Receive, Timer, FlusherLocks, FlusherFlushes, DropperLocks, DropperFlushes}
    ensures ahead[0] == run[i] && ahead[|more|].sink == run[i].given
  {
    RunKeepsSound(run, steps, i);
    var s := run[i];
    if s.dropper != DWait {
      ahead, more := DropperDelivers(s);
    } else {
      ahead, more := TokenDelivers(s);
    }
  }

  lemma DropperDelivers(s: State) returns (ahead: seq<State>, more: seq<Step>)
    requires Sound(s) && FlushPending(s) && !WriterHolds(s) && |s.sink| < s.covered && s.dropper != DWait
    ensures |more| <= 2 && Follows(ahead, more) && forall step | step in more :: step in {DropperLocks, DropperFlushes}
    ensures ahead[0] == s && ahead[|more|].sink == s.given
  {
    ahead, more := [s], [];
    if s.dropper == DLock {
      ahead, more := Extend(ahead, more, DropperLocks);
    }
    ahead, more := Extend(ahead, more, DropperFlushes);
  }

  lemma TokenDelivers(s: State) returns (ahead: seq<State>, more: seq<Step>)
    requires Sound(s) && FlushPending(s) && !WriterHolds(s) && |s.sink| < s.covered && s.dropper == DWait
    ensures |more| <= 4 && Follows(ahead, more)
    ensures forall step | step in more :: step in {Receive, Timer, FlusherLocks, FlusherFlushes}
    ensures ahead[0] == s && ahead[|more|].sink == s.given
  {
    hide Follows;
    ahead, more := [s], [];
    assert Follows(ahead, more) by { NoSteps(s); }
    var t := s;
    if t.flusher == FRecv {
      ahead, more := Extend(ahead, more, Receive);
      t := Apply(t, Receive);
    }
    if t.flusher == FTimer {
      ahead, more := Extend(ahead, more, Timer);
      t := Apply(t, Timer);
    }
    if t.flusher == FLock {
      ahead, more := Extend(ahead, more, FlusherLocks);
      t := Apply(t, FlusherLocks);
    }
    ahead, more := Extend(ahead, more, FlusherFlushes);
  }

  lemma NoSteps(s: State)
    ensures Follows([s], [])
  {
  }

  lemma Extend(run: seq<State>, steps: seq<Step>, step: Step) returns (run': seq<State>, steps': seq<Step>)
    requires Follows(run, steps) && Can(run[|steps|], step)
    ensures steps' == steps + [step] && run' == run + [Apply(run[|steps|], step)] && Follows(run', steps')
  {
    run', steps' := run + [Apply(run[|steps|], step)], steps + [step];
  }

  /** Covered bytes are lost sight of. Before the drop: the flusher has given up or failed with covered bytes
      left and no token queued, and since then no token has been sent, the writer has not been dropped, and not
      all of these bytes have got through. After it: the last flush has failed with covered bytes left. */
  ghost predicate LostSince(run: seq<State>, steps: seq<Step>, i: nat, j: nat)
    requires Follows(run, steps) && j < i < |run|
  {
    && |run[i].sink| < run[j + 1].covered
    && if steps[j].DropperFails? then true else
       && Unreliable(steps[j]) && run[j + 1].tokens == 0
       && forall k | j < k < i :: !steps[k].SendToken? && !steps[k].DropWriter?
  }

  /** Once the last flush is over nobody takes a step any more. */
  lemma {:induction false} DropperIsLast(run: seq<State>, steps: seq<Step>, i: nat, j: nat)
    requires IsRun(run, steps) && j < i < |run| && (steps[j].DropperFlushes? || steps[j].DropperFails?)
    ensures i == j + 1
  {
    RunKeepsSound(run, steps, j);
    StepKeepsSound(run[j], steps[j]);
    if i > j + 1 {
      NothingAfterDrop(run[j + 1], steps[j + 1]);
    }
  }

  lemma NothingAfterDrop(s: State, step: Step)
    requires Sound(s) && s.dropper == DDone
    ensures !Can(s, step)
  {
  }

  lemma {:induction false} NothingSince(run: seq<State>, steps: seq<Step>, i: nat, j: nat)
    requires IsRun(run, steps) && j < i < |run| && Unreliable(steps[j]) && !steps[j].DropperFails?
    requires run[j + 1].tokens == 0 && forall k | j < k < i :: !steps[k].SendToken? && !steps[k].DropWriter?
    ensures run[i].tokens == 0 && run[i].flusher == FRecv && run[i].dropper == DWait
    ensures run[i].covered == run[j + 1].covered
  {
    RunKeepsSound(run, steps, j);
    if i > j + 1 {
      NothingSince(run, steps, i - 1, j);
      hide Reliable, FlushPending;
    }
  }

  /** In any run the promise fails exactly if a timeout or a failure of the flusher or of the last flush has lost
      sight of covered bytes and nothing has made up for it since. */
  lemma {:induction false} PromiseFailsExactly(run: seq<State>, steps: seq<Step>, i: nat)
    requires IsRun(run, steps) && i < |run|
    ensures !FlushPending(run[i]) <==> exists j: nat :: j < i && LostSince(run, steps, i, j)
  {
    if !FlushPending(run[i]) {
      var j := LossFound(run, steps, i);
    }
    if j: nat :| j < i && LostSince(run, steps, i, j) {
      if steps[j].DropperFails? {
        DropperIsLast(run, steps, i, j);
      } else {
        NothingSince(run, steps, i, j);
      }
    }
  }

  lemma {:induction false} LossFound(run: seq<State>, steps: seq<Step>, i: nat) returns (j: nat)
    requires IsRun(run, steps) && i < |run| && !FlushPending(run[i])
    ensures j < i && LostSince(run, steps, i, j)
  {
    assert i > 0;
    hide Sound, FlushPending, Apply, Can, Reliable;
    RunKeepsSound(run, steps, i - 1);
    if FlushPending(run[i - 1]) {
      LossHappens(run[i - 1], steps[i - 1]);
      j := i - 1;
    } else {
      j := LossFound(run, steps, i - 1);
      LossGoesOn(run, steps, i, j);
    }
  }

  lemma {:induction false} LossGoesOn(run: seq<State>, steps: seq<Step>, i: nat, j: nat)
    requires IsRun(run, steps) && j < i - 1 && i < |run| && LostSince(run, steps, i - 1, j)
    requires Sound(run[i - 1]) && !FlushPending(run[i - 1]) && !FlushPending(run[i])
    ensures LostSince(run, steps, i, j)
  {
    if steps[j].DropperFails? {
      DropperIsLast(run, steps, i, j);
    } else {
      NothingSince(run, steps, i - 1, j);
      NoMakingUp(run[i - 1], steps[i - 1]);
      hide Sound, FlushPending, Apply, Can;
    }
  }

  /** When the flusher gives up on the lock, the promise holds on exactly if nothing covered is left in the
      buffer or another token is queued already; likewise when its flush fails. */
  lemma TimeoutKeepsPending(s: State)
    requires Sound(s) && Can(s, FlusherTimesOut)
    ensures FlushPending(Apply(s, FlusherTimesOut)) <==> |s.sink| >= s.covered || s.tokens > 0
  {
  }

  lemma FailureKeepsPending(s: State, drained: nat)
    requires Sound(s) && s.flusher == FFlush && drained <= |s.buf|
    ensures Can(s, FlusherFails(drained))
    ensures FlushPending(Apply(s, FlusherFails(drained)))
       <==> |s.sink| + drained >= s.covered || s.tokens > 0
  {
  }

  lemma LossHappens(s: State, step: Step)
    requires Sound(s) && Can(s, step) && FlushPending(s) && !FlushPending(Apply(s, step))
    ensures Unreliable(step) && |Apply(s, step).sink| < Apply(s, step).covered
    ensures !step.DropperFails? ==> Apply(s, step).tokens == 0
  {
    if step.FlusherTimesOut? {
      TimeoutKeepsPending(s);
    } else if step.FlusherFails? {
      FailureKeepsPending(s, step.drained);
    } else if !step.DropperFails? {
      StepKeepsPending(s, step);
    }
  }

  lemma NoMakingUp(s: State, step: Step)
    requires Sound(s) && Can(s, step) && !FlushPending(s) && !FlushPending(Apply(s, step))
    requires s.tokens == 0 && s.dropper == DWait
    ensures !step.SendToken? && !step.DropWriter?
    ensures Apply(s, step).covered == s.covered && |Apply(s, step).sink| < s.covered
  {
  }

  /** And it can fail to: a byte written with a scheduled flush stays in the buffer for good, because
      the flusher gave up while a second write was holding the lock. */
  lemma TimeoutLosesFlush() returns (run: seq<State>, steps: seq<Step>)
    ensures IsRun(run, steps)
    ensures var end := run[|run| - 1];
      && !FlushPending(end) && end.sink == [] && end.buf == [7] && end.writer == WIdle
      && end.flusher == FRecv && end.tokens == 0
  {
    run, steps := LockIsHeld();
    assert |run| > 0;
    hide Follows, Reliable;
    run, steps := Extend(run, steps, FlusherTimesOut);
    run, steps := Extend(run, steps, WriteEnds);
    run, steps := Extend(run, steps, Finish);
  }

  /** The timer of the flusher has run out, and an empty write holds the lock. */
  lemma LockIsHeld() returns (run: seq<State>, steps: seq<Step>)
    ensures IsRun(run, steps)
    ensures run[|run| - 1] ==
      START.(given := [7], buf := [7], covered := 1, flusher := FLock, writer := WWrite([], No))
  {
    run, steps := ScheduledByte();
    assert |run| > 0;
    hide Follows, Reliable;
    run, steps := Extend(run, steps, Receive);
    run, steps := Extend(run, steps, Timer);
    run, steps := Extend(run, steps, Begin([], No));
    run, steps := Extend(run, steps, Lock);
  }

  /** So can the last flush: the writer is dropped with a scheduled byte in the buffer, and the flush that is
      left to bring it to the socket fails. Nothing is left that could. */
  lemma DropLosesFlush() returns (run: seq<State>, steps: seq<Step>)
    ensures IsRun(run, steps)
    ensures var end := run[|run| - 1];
      && !FlushPending(end) && end.sink == [] && end.buf == [7]
      && forall step :: !Can(end, step)
    ensures forall step | step in steps :: !step.FlusherTimesOut? && !step.FlusherFails?
  {
    run, steps := ScheduledByte();
    assert |run| == 7;
    hide Follows;
    run, steps := Extend(run, steps, DropWriter);
    run, steps := Extend(run, steps, DropperLocks);
    run, steps := Extend(run, steps, DropperFails(0));
    assert run[|run| - 1].dropper == DDone;
  }

  lemma ScheduledByte() returns (run: seq<State>, steps: seq<Step>)
    ensures IsRun(run, steps)
    ensures run[|run| - 1] == START.(given := [7], buf := [7], covered := 1, tokens := 1)
    ensures steps == [Begin([7], Scheduled), Lock, Accept(1, 0), WriteEnds, Finish, SendToken]
  {
    hide Follows, Reliable;
    assert [7][..1] == [7] && [7][1..] == [];
    run, steps := [START], [];
    assert Follows(run, steps) by { NoSteps(START); }
    run, steps := Extend(run, steps, Begin([7], Scheduled));
    run, steps := Extend(run, steps, Lock);
    run, steps := Extend(run, steps, Accept(1, 0));
    run, steps := Extend(run, steps, WriteEnds);
    run, steps := Extend(run, steps, Finish);
    run, steps := Extend(run, steps, SendToken);
  }
}
