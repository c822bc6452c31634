/** The in-memory job queue of irmik/queue/queue.go under every interleaving of producers, delayed
    producers, workers and closers.

    Each step is one critical section or one channel operation; a select with several ready cases may take
    any of them. The timer of a delayed job fires once the job's time has come, at once or later. */
module Queue {
  import opened Common

  /** at is the time before which the job is held back, None for no delay. */
  datatype Job = Job(name: string, at: Option<int>)

  datatype Result = Accepted | ErrClosed | Cancelled

  /** A job on the channel, with the thread that put it there. */
  datatype Item = Item(sender: nat, job: Job)

  /** The fields of Memory. The job channel is never closed. */
  datatype Core = Core(closed: bool, quit: bool, ch: seq<Item>, wg: nat)

  /** The job's time, if it has one, has come. */
  predicate Due(job: Job, now: int) { job.at.None? || job.at.value <= now }

  predicate Delayed(job: Job, now: int) { !Due(job, now) }

  datatype Admission = Refused | Later | AtOnce

  /** The locked part of Enqueue. */
  function Admit(c: Core, job: Job, now: int): (Core, Admission) {
    if c.closed then (c, Refused)
    else if Delayed(job, now) then (c.(wg := c.wg + 1), Later)
    else (c, AtOnce)
  }

  /** The locked part of Close. */
  function Shut(c: Core): (Core, bool) {
    if c.closed then (c, false) else (c.(closed := true, quit := true), true)
  }

  class Memory {
    const buffer: nat
    var closed: bool
    var quit: bool
    var ch: seq<Item>
    var wg: nat

    function Value(): Core
      reads this
    {
      Core(closed, quit, ch, wg)
    }

    constructor (buffer: int)
      ensures Value() == Core(false, false, [], 0) && this.buffer == if buffer <= 0 then 64 else buffer
    {
      this.buffer := if buffer <= 0 then 64 else buffer;
      closed, quit, ch, wg := false, false, [], 0;
    }

    method AdmitJob(job: Job, now: int) returns (a: Admission)
      modifies this
      ensures (Value(), a) == Admit(old(Value()), job, now)
    {
      if closed {
        return Refused;
      }
      if job.at.Some? && job.at.value > now {
        wg := wg + 1;
        return Later;
      }
      return AtOnce;
    }

    /** The send case of select; it is ready only while the channel has room. */
    method Send(item: Item)
      requires |ch| < buffer
      modifies `ch
      ensures ch == old(ch) + [item]
    {
      ch := ch + [item];
    }

    /** The receive case of a worker's select. */
    method Receive() returns (item: Item)
      requires ch != []
      modifies `ch
      ensures [item] + ch == old(ch)
    {
      item := ch[0];
      ch := ch[1..];
    }

    method ShutDown() returns (first: bool)
      modifies this
      ensures (Value(), first) == Shut(old(Value()))
    {
      if closed {
        return false;
      }
      closed := true;
      quit := true;
      return true;
    }

    method Done()
      requires wg > 0
      modifies `wg
      ensures wg == old(wg) - 1
    {
      wg := wg - 1;
    }
  }

  // ----- Threads -----

  datatype Thread =
    | Calling(job: Job)
    | Sending(job: Job)
    | Returned(r: Result)
    | Waiting(job: Job)
    | SendingLate(job: Job)
    | Finishing
    | Gone
    | Working
    | Stopped
    | ClosingCall
    | Draining
    | Closed(first: bool)

  /** sent and taken record what went into and came out of the channel; cancelled the threads whose context is done. */
  datatype World = World(
    core: Core, now: int, threads: map<nat, Thread>, cancelled: set<nat>,
    sent: seq<Item>, taken: seq<Item>)

  datatype Move =
    | Tick(d: nat)
    | Cancel(t: nat)
    | Call(t: nat, job: Job)
    | Check(t: nat, child: nat)
    | Push(t: nat)
    | SeeQuit(t: nat)
    | SeeCancel(t: nat)
    | TimerFires(t: nat)
    | Finish(t: nat)
    | StartWorker(t: nat)
    | TakeJob(t: nat)
    | CallClose(t: nat)
    | EnterClose(t: nat)
    | EndClose(t: nat)

  function Initial(now: int): World {
    World(Core(false, false, [], 0), now, map[], {}, [], [])
  }

  predicate IsDelayed(t: Thread) { t.Waiting? || t.SendingLate? || t.Finishing? }

  predicate IsSending(t: Thread) { t.Sending? || t.SendingLate? }

  /** Threads inside a select that watches quit and the context. */
  predicate InSelect(t: Thread) { IsSending(t) || t.Waiting? || t.Working? }

  predicate Enabled(buffer: nat, w: World, m: Move) {
    match m
    case Tick(_) => true
    case Cancel(_) => true
    case Call(t, _) => t !in w.threads
    case Check(t, child) => t in w.threads && w.threads[t].Calling? && child !in w.threads
    case Push(t) => t in w.threads && IsSending(w.threads[t]) && |w.core.ch| < buffer
    case SeeQuit(t) => t in w.threads && InSelect(w.threads[t]) && w.core.quit
    case SeeCancel(t) => t in w.threads && InSelect(w.threads[t]) && t in w.cancelled
    case TimerFires(t) => t in w.threads && w.threads[t].Waiting? && Due(w.threads[t].job, w.now)
    case Finish(t) => t in w.threads && w.threads[t].Finishing? && w.core.wg > 0
    case StartWorker(t) => t !in w.threads
    case TakeJob(t) => t in w.threads && w.threads[t].Working? && w.core.ch != []
    case CallClose(t) => t !in w.threads
    case EnterClose(t) => t in w.threads && w.threads[t].ClosingCall?
    case EndClose(t) => t in w.threads && w.threads[t].Draining? && w.core.wg == 0
  }

  function Become(w: World, t: nat, s: Thread): World { w.(threads := w.threads[t := s]) }

  /** Where a thread goes when it leaves its select without sending or receiving. */
  function Leave(t: Thread, r: Result): Thread {
    if t.Sending? then Returned(r) else if IsDelayed(t) then Finishing else Stopped
  }

  function StepCheck(w: World, t: nat, child: nat): World
    requires t in w.threads && w.threads[t].Calling?
  {
    var job := w.threads[t].job;
    var (core, a) := Admit(w.core, job, w.now);
    match a
    case Refused => Become(w, t, Returned(ErrClosed))
    case AtOnce => Become(w, t, Sending(job))
    case Later => Become(Become(w, t, Returned(Accepted)), child, Waiting(job)).(core := core)
  }

  function StepPush(w: World, t: nat): World
    requires t in w.threads && IsSending(w.threads[t])
  {
    var s := w.threads[t];
    var item := Item(t, s.job);
    Become(w, t, Leave(s, Accepted)).(core := w.core.(ch := w.core.ch + [item]), sent := w.sent + [item])
  }

  function StepEnterClose(w: World, t: nat): World {
    var (core, first) := Shut(w.core);
    Become(w, t, if first then Draining else Closed(false)).(core := core)
  }

  function Step(buffer: nat, w: World, m: Move): World
    requires Enabled(buffer, w, m)
  {
    match m
    case Tick(d) => w.(now := w.now + d)
    case Cancel(t) => w.(cancelled := w.cancelled + {t})
    case Call(t, job) => Become(w, t, Calling(job))
    case Check(t, child) => StepCheck(w, t, child)
    case Push(t) => StepPush(w, t)
    case SeeQuit(t) => Become(w, t, Leave(w.threads[t], ErrClosed))
    case SeeCancel(t) => Become(w, t, Leave(w.threads[t], Cancelled))
    case TimerFires(t) => Become(w, t, SendingLate(w.threads[t].job))
    case Finish(t) => Become(w, t, Gone).(core := w.core.(wg := w.core.wg - 1))
    case StartWorker(t) => Become(w, t, Working)
    case TakeJob(t) => w.(core := w.core.(ch := w.core.ch[1..]), taken := w.taken + [w.core.ch[0]])
    case CallClose(t) => Become(w, t, ClosingCall)
    case EnterClose(t) => StepEnterClose(w, t)
    case EndClose(t) => Become(w, t, Closed(true))
  }

  /** Moves that are not enabled change nothing. */
  function Try(buffer: nat, w: World, m: Move): World {
    if Enabled(buffer, w, m) then Step(buffer, w, m) else w
  }

  function Run(buffer: nat, w: World, moves: seq<Move>): World
    decreases |moves|
  {
    if moves == [] then w else Try(buffer, Run(buffer, w, moves[..|moves| - 1]), moves[|moves| - 1])
  }

  function Play(buffer: nat, start: int, moves: seq<Move>): World {
    Run(buffer, Initial(start), moves)
  }

  // ----- The channel loses, invents and reorders nothing -----

  ghost predicate ChannelOK(buffer: nat, w: World) {
    && w.sent == w.taken + w.core.ch && |w.core.ch| <= buffer
    && (forall i :: 0 <= i < |w.sent| ==> HasSent(w, w.sent[i].sender))
    && (forall i, j :: 0 <= i < j < |w.sent| ==> w.sent[i].sender != w.sent[j].sender)
  }

  /** A thread that has put its job on the channel never sends again. */
  predicate HasSent(w: World, t: nat) {
    t in w.threads && (w.threads[t] == Returned(Accepted) || w.threads[t].Finishing? || w.threads[t].Gone?)
  }

  lemma ChannelStep(buffer: nat, w: World, m: Move)
    requires ChannelOK(buffer, w) && Enabled(buffer, w, m)
    ensures ChannelOK(buffer, Step(buffer, w, m))
  {
    var w' := Step(buffer, w, m);
    assert forall t :: HasSent(w, t) ==> HasSent(w', t);
    if m.Push? {
      var item := Item(m.t, w.threads[m.t].job);
      assert w'.sent == w.taken + (w.core.ch + [item]);
      assert !HasSent(w, m.t);
    } else if m.TakeJob? {
      assert w.core.ch == [w.core.ch[0]] + w.core.ch[1..];
    }
  }

  lemma {:induction false} ChannelPlay(buffer: nat, start: int, moves: seq<Move>)
    ensures ChannelOK(buffer, Play(buffer, start, moves))
    decreases |moves|
  {
    if moves != [] {
      var n := |moves| - 1;
      ChannelPlay(buffer, start, moves[..n]);
      var w := Play(buffer, start, moves[..n]);
      if Enabled(buffer, w, moves[n]) {
        ChannelStep(buffer, w, moves[n]);
      }
    }
  }

  /** Main result: the jobs sent are, in order, the jobs taken followed by those still buffered; the buffer is
      bounded and no Enqueue puts more than one job on the channel. */
  lemma SentIsTakenThenBuffered(buffer: nat, start: int, moves: seq<Move>)
    ensures var w := Play(buffer, start, moves);
      && w.sent == w.taken + w.core.ch && |w.core.ch| <= buffer
      && (forall i, j :: 0 <= i < j < |w.sent| ==> w.sent[i].sender != w.sent[j].sender)
  {
    ChannelPlay(buffer, start, moves);
  }

  // ----- No job is early, and none that is due waits -----

  /** What a thread about to send holds, and what has been sent, is due. */
  ghost predicate NoneEarly(w: World) {
    && (forall t :: t in w.threads && IsSending(w.threads[t]) ==> Due(w.threads[t].job, w.now))
    && forall i :: 0 <= i < |w.sent| ==> Due(w.sent[i].job, w.now)
  }

  lemma EarlyStep(buffer: nat, w: World, m: Move)
    requires NoneEarly(w) && Enabled(buffer, w, m)
    ensures NoneEarly(Step(buffer, w, m))
  {
  }

  /** Main result: in every interleaving no job is put on the channel before its time. */
  lemma {:induction false} NoJobIsEarly(buffer: nat, start: int, moves: seq<Move>)
    ensures var w := Play(buffer, start, moves);
      && NoneEarly(w)
      && forall i :: 0 <= i < |w.sent| ==> w.sent[i].job.at.None? || w.sent[i].job.at.value <= w.now
    decreases |moves|
  {
    if moves != [] {
      var n := |moves| - 1;
      NoJobIsEarly(buffer, start, moves[..n]);
      var w := Play(buffer, start, moves[..n]);
      if Enabled(buffer, w, moves[n]) {
        EarlyStep(buffer, w, moves[n]);
      }
    }
  }

  /** The n-th move is an Enqueue of the job by thread t, at a time when the job has no time or is due. */
  ghost predicate CallsDue(buffer: nat, start: int, moves: seq<Move>, n: nat, t: nat, job: Job) {
    && n < |moves| && moves[n] == Call(t, job) && Enabled(buffer, Play(buffer, start, moves[..n]), moves[n])
    && (job.at.None? || job.at.value <= Play(buffer, start, moves[..n]).now)
  }

  /** Such an Enqueue sends the job itself and does not return Accepted before it has. */
  ghost predicate Prompt(w: World, t: nat, job: Job) {
    && Due(job, w.now) && t in w.threads
    && (w.threads[t] == Calling(job) || w.threads[t] == Sending(job)
        || w.threads[t] == Returned(ErrClosed) || w.threads[t] == Returned(Cancelled)
        || (w.threads[t] == Returned(Accepted) && Item(t, job) in w.sent))
  }

  lemma PromptStep(buffer: nat, w: World, m: Move, t: nat, job: Job)
    requires Prompt(w, t, job) && Enabled(buffer, w, m)
    ensures Prompt(Step(buffer, w, m), t, job)
  {
    var w' := Step(buffer, w, m);
    assert forall x :: x in w.sent ==> x in w'.sent;
  }

  /** Main result: in every interleaving an Enqueue of a job that is due never returns Accepted before the job is on the
      channel, put there by that call. */
  lemma {:induction false} DueJobIsSentAtOnce(buffer: nat, start: int, moves: seq<Move>, n: nat, t: nat, job: Job)
    requires CallsDue(buffer, start, moves, n, t, job)
    ensures var w := Play(buffer, start, moves);
      && Prompt(w, t, job)
      && (w.threads[t] == Returned(Accepted) ==> exists i :: 0 <= i < |w.sent| && w.sent[i] == Item(t, job))
    decreases |moves|
  {
    var last := |moves| - 1;
    var w := Play(buffer, start, moves[..last]);
    if n < last {
      assert moves[..last][..n] == moves[..n];
      DueJobIsSentAtOnce(buffer, start, moves[..last], n, t, job);
      if Enabled(buffer, w, moves[last]) {
        PromptStep(buffer, w, moves[last], t, job);
      }
    }
  }

  /** An Enqueue whose check finds the queue open and its job not yet due returns Accepted at once; a thread of its own
      waits for the job's time. */
  lemma FutureJobWaits(buffer: nat, w: World, t: nat, child: nat)
    requires Enabled(buffer, w, Check(t, child)) && !w.core.closed
    requires var job := w.threads[t].job; job.at.Some? && job.at.value > w.now
    ensures var job, w' := w.threads[t].job, Step(buffer, w, Check(t, child));
      && w'.threads[t] == Returned(Accepted) && child in w'.threads && w'.threads[child] == Waiting(job)
      && w'.sent == w.sent
      && (forall d :: Enabled(buffer, Step(buffer, w', Tick(d)), TimerFires(child)) <==> w'.now + d >= job.at.value)
  {
    assert t != child;
  }

  // ----- Closing -----

  function DelayedThreads(w: World): set<nat> {
    set t | t in w.threads && IsDelayed(w.threads[t])
  }

  ghost predicate CloseOK(w: World) {
    && w.core.closed == w.core.quit
    && w.core.wg == |DelayedThreads(w)|
    && (forall t :: t in w.threads && w.threads[t].Draining? ==> w.core.closed)
    && (forall t :: t in w.threads && w.threads[t] == Closed(true) ==> w.core.closed && w.core.wg == 0)
  }

  /** An Enqueue that found, or will find, the queue closed. */
  predicate RefusedSoon(w: World, t: nat) {
    w.core.closed && t in w.threads && (w.threads[t].Calling? || w.threads[t] == Returned(ErrClosed))
  }

  lemma DelayedSame(w: World, w': World)
    requires CloseOK(w) && w'.core.wg == w.core.wg
    requires forall t :: (t in w'.threads && IsDelayed(w'.threads[t])) <==> (t in w.threads && IsDelayed(w.threads[t]))
    ensures w'.core.wg == |DelayedThreads(w')|
  {
    assert DelayedThreads(w') == DelayedThreads(w);
  }

  lemma CloseCheck(buffer: nat, w: World, t: nat, child: nat)
    requires CloseOK(w) && Enabled(buffer, w, Check(t, child))
    ensures CloseOK(StepCheck(w, t, child))
  {
    var w' := StepCheck(w, t, child);
    if Admit(w.core, w.threads[t].job, w.now).1 == Later {
      assert DelayedThreads(w') == DelayedThreads(w) + {child};
    } else {
      DelayedSame(w, w');
    }
  }

  lemma CloseFinish(buffer: nat, w: World, t: nat)
    requires CloseOK(w) && Enabled(buffer, w, Finish(t))
    ensures CloseOK(Step(buffer, w, Finish(t)))
  {
    var w' := Step(buffer, w, Finish(t));
    assert t in DelayedThreads(w);
    assert DelayedThreads(w') == DelayedThreads(w) - {t};
  }

  lemma CloseOther(buffer: nat, w: World, m: Move)
    requires CloseOK(w) && Enabled(buffer, w, m) && !m.Check? && !m.Finish?
    ensures CloseOK(Step(buffer, w, m))
  {
    if m.EnterClose? {
      CloseEnter(w, m.t);
    } else {
      CloseKept(buffer, w, m);
    }
  }

  lemma CloseEnter(w: World, t: nat)
    requires CloseOK(w) && t in w.threads && w.threads[t].ClosingCall?
    ensures CloseOK(StepEnterClose(w, t))
  {
    DelayedSame(w, StepEnterClose(w, t));
  }

  /** Moves of threads other than delayed senders: none becomes one. */
  predicate OfOthers(m: Move) {
    m.Tick? || m.Cancel? || m.Call? || m.StartWorker? || m.TakeJob? || m.CallClose? || m.EndClose?
  }

  lemma CloseOthers(buffer: nat, w: World, m: Move)
    requires CloseOK(w) && Enabled(buffer, w, m) && OfOthers(m)
    ensures CloseOK(Step(buffer, w, m))
  {
    var w' := Step(buffer, w, m);
    assert w'.core.closed == w.core.closed && w'.core.quit == w.core.quit;
    DelayedSame(w, w');
  }

  lemma CloseSends(buffer: nat, w: World, m: Move)
    requires CloseOK(w) && Enabled(buffer, w, m) && (m.Push? || m.SeeQuit? || m.SeeCancel? || m.TimerFires?)
    ensures CloseOK(Step(buffer, w, m))
  {
    var w' := Step(buffer, w, m);
    assert w'.core.closed == w.core.closed && w'.core.quit == w.core.quit;
    DelayedSame(w, w');
  }

  lemma CloseKept(buffer: nat, w: World, m: Move)
    requires CloseOK(w) && Enabled(buffer, w, m) && !m.Check? && !m.Finish? && !m.EnterClose?
    ensures CloseOK(Step(buffer, w, m))
  {
    if OfOthers(m) {
      CloseOthers(buffer, w, m);
    } else {
      CloseSends(buffer, w, m);
    }
  }

  lemma {:induction false} ClosePlay(buffer: nat, start: int, moves: seq<Move>)
    ensures CloseOK(Play(buffer, start, moves))
    decreases |moves|
  {
    if moves != [] {
      var n := |moves| - 1;
      ClosePlay(buffer, start, moves[..n]);
      var w, m := Play(buffer, start, moves[..n]), moves[n];
      if Enabled(buffer, w, m) {
        match m {
          case Check(t, child) => CloseCheck(buffer, w, t, child);
          case Finish(t) => CloseFinish(buffer, w, t);
          case _ => CloseOther(buffer, w, m);
        }
      }
    } else {
      assert DelayedThreads(Initial(start)) == {};
    }
  }

  /** Main result: once the Close that did the closing has returned, no delayed sender is alive. */
  lemma NoDelayedSenderAfterClose(buffer: nat, start: int, moves: seq<Move>, closer: nat)
    requires var w := Play(buffer, start, moves); closer in w.threads && w.threads[closer] == Closed(true)
    ensures var w := Play(buffer, start, moves); forall t :: t in w.threads ==> !IsDelayed(w.threads[t])
  {
    ClosePlay(buffer, start, moves);
    var w := Play(buffer, start, moves);
    assert DelayedThreads(w) == {};
    forall t | t in w.threads ensures !IsDelayed(w.threads[t]) {
      assert t !in DelayedThreads(w);
    }
  }

  /** The n-th move is an Enqueue by thread t of a queue that has been closed. */
  ghost predicate CallsClosed(buffer: nat, start: int, moves: seq<Move>, n: nat, t: nat, job: Job) {
    && n < |moves| && moves[n] == Call(t, job) && Enabled(buffer, Play(buffer, start, moves[..n]), moves[n])
    && Play(buffer, start, moves[..n]).core.closed
  }

  lemma RefusedStep(buffer: nat, w: World, m: Move, t: nat)
    requires RefusedSoon(w, t) && Enabled(buffer, w, m)
    ensures RefusedSoon(Step(buffer, w, m), t)
  {
  }

  /** Every Enqueue called after the queue was closed returns ErrClosed, if it has returned, and sends nothing. */
  lemma {:induction false} LateEnqueueIsRefused(buffer: nat, start: int, moves: seq<Move>, n: nat, t: nat, job: Job)
    requires CallsClosed(buffer, start, moves, n, t, job)
    ensures var w := Play(buffer, start, moves);
      && RefusedSoon(w, t)
      && (w.threads[t].Returned? ==> w.threads[t].r == ErrClosed) && !IsSending(w.threads[t])
    decreases |moves|
  {
    var last := |moves| - 1;
    var w := Play(buffer, start, moves[..last]);
    if n < last {
      assert moves[..last][..n] == moves[..n];
      LateEnqueueIsRefused(buffer, start, moves[..last], n, t, job);
      if Enabled(buffer, w, moves[last]) {
        RefusedStep(buffer, w, moves[last], t);
      }
    }
  }

  // ----- Cancelling -----

  lemma CancelStep(buffer: nat, w: World, m: Move, t: nat)
    requires Enabled(buffer, w, m)
    ensures t in Step(buffer, w, m).cancelled <==> t in w.cancelled || m == Cancel(t)
    ensures var w' := Step(buffer, w, m);
      t in w'.threads && w'.threads[t] == Returned(Cancelled)
      ==> t in w.cancelled || (t in w.threads && w.threads[t] == Returned(Cancelled))
  {
  }

  /** In every interleaving an Enqueue gives up for its context only if that was cancelled, and once it was, a thread
      waiting in a select can leave it. */
  lemma {:induction false} CancelledIff(buffer: nat, start: int, moves: seq<Move>, t: nat)
    ensures var w := Play(buffer, start, moves);
      && (t in w.cancelled <==> Cancel(t) in moves)
      && (t in w.threads && w.threads[t] == Returned(Cancelled) ==> Cancel(t) in moves)
      && (t in w.threads && InSelect(w.threads[t]) && Cancel(t) in moves ==> Enabled(buffer, w, SeeCancel(t)))
    decreases |moves|
  {
    if moves != [] {
      var n := |moves| - 1;
      CancelledIff(buffer, start, moves[..n], t);
      assert Cancel(t) in moves <==> Cancel(t) in moves[..n] || moves[n] == Cancel(t);
      var w := Play(buffer, start, moves[..n]);
      if Enabled(buffer, w, moves[n]) {
        CancelStep(buffer, w, moves[n], t);
      }
    }
  }

  // ----- Nobody is stuck once quit is closed -----

  /** Thread t has a step of its own to take. */
  ghost predicate CanMove(buffer: nat, w: World, t: nat) {
    exists m :: Enabled(buffer, w, m) && Step(buffer, w, m).threads != w.threads && MoveOf(m) == Some(t)
  }

  function MoveOf(m: Move): Option<nat> {
    match m
    case Check(t, _) => Some(t)
    case Push(t) => Some(t)
    case SeeQuit(t) => Some(t)
    case SeeCancel(t) => Some(t)
    case TimerFires(t) => Some(t)
    case Finish(t) => Some(t)
    case EnterClose(t) => Some(t)
    case EndClose(t) => Some(t)
    case _ => None
  }

  /** A thread inside an operation that has not returned. */
  predicate Busy(t: Thread) { InSelect(t) || t.Calling? || t.Finishing? || t.ClosingCall? || t.Draining? }

  /** After quit, in every interleaving, each thread that has not returned can take a step, except a closer
      waiting for delayed senders, and those can all take steps. */
  lemma NobodyStuckAfterQuit(buffer: nat, start: int, moves: seq<Move>, t: nat)
    requires var w := Play(buffer, start, moves); w.core.quit && t in w.threads && Busy(w.threads[t])
    ensures var w := Play(buffer, start, moves);
      CanMove(buffer, w, t) || (w.threads[t].Draining? && exists d :: d in w.threads && IsDelayed(w.threads[d]))
  {
    ClosePlay(buffer, start, moves);
    var w := Play(buffer, start, moves);
    var s := w.threads[t];
    var child := FreshId(w.threads.Keys);
    var m := if InSelect(s) then SeeQuit(t)
             else if s.Calling? then Check(t, child)
             else if s.Finishing? then Finish(t)
             else if s.ClosingCall? then EnterClose(t)
             else EndClose(t);
    if s.Draining? && w.core.wg > 0 {
      var d :| d in DelayedThreads(w);
    } else {
      if s.Finishing? {
        assert t in DelayedThreads(w);
      }
      assert Enabled(buffer, w, m);
      assert Step(buffer, w, m).threads[t] != s;
    }
  }

  lemma {:induction false} RunConcat(buffer: nat, w: World, a: seq<Move>, b: seq<Move>)
    ensures Run(buffer, w, a + b) == Run(buffer, Run(buffer, w, a), b)
    decreases |b|
  {
    if b == [] {
      assert a + b == a;
    } else {
      assert (a + b)[..|a + b| - 1] == a + b[..|b| - 1];
      RunConcat(buffer, w, a, b[..|b| - 1]);
    }
  }

  /** Moves of delayed senders only, at most two each, that leave none of them alive. */
  lemma {:induction false} DelayedSendersEnd(buffer: nat, w: World) returns (more: seq<Move>)
    requires CloseOK(w) && w.core.quit
    ensures var w' := Run(buffer, w, more);
      && CloseOK(w') && w'.core.wg == 0 && |more| <= 2 * w.core.wg
      && (forall t :: t in w.threads && !IsDelayed(w.threads[t]) ==> t in w'.threads && w'.threads[t] == w.threads[t])
    ensures forall i :: 0 <= i < |more| ==> more[i].SeeQuit? || more[i].Finish?
    decreases w.core.wg
  {
    more := [];
    if w.core.wg > 0 {
      var t :| t in DelayedThreads(w);
      var first := [SeeQuit(t), Finish(t)];
      var w1 := EndOne(buffer, w, t);
      var rest := DelayedSendersEnd(buffer, w1);
      RunConcat(buffer, w, first, rest);
      more := first + rest;
    }
  }

  lemma EndOne(buffer: nat, w: World, t: nat) returns (w': World)
    requires CloseOK(w) && w.core.quit && t in DelayedThreads(w)
    ensures w' == Run(buffer, w, [SeeQuit(t), Finish(t)])
    ensures CloseOK(w') && w'.core.quit && w'.core.wg == w.core.wg - 1
    ensures forall o :: o in w.threads && o != t ==> o in w'.threads && w'.threads[o] == w.threads[o]
  {
    var w1 := Try(buffer, w, SeeQuit(t));
    assert [SeeQuit(t), Finish(t)][..1] == [SeeQuit(t)] && [SeeQuit(t)][..0] == [];
    assert Run(buffer, w, [SeeQuit(t)]) == w1;
    if Enabled(buffer, w, SeeQuit(t)) {
      CloseOther(buffer, w, SeeQuit(t));
    }
    assert w1.threads[t].Finishing? && t in DelayedThreads(w1);
    CloseFinish(buffer, w1, t);
    w' := Step(buffer, w1, Finish(t));
  }

  /** Main result: a Close under way can always complete, by steps of the delayed senders alone; no producer,
      worker or timer is needed. */
  lemma CloseCanComplete(buffer: nat, start: int, moves: seq<Move>, closer: nat) returns (more: seq<Move>)
    requires var w := Play(buffer, start, moves); closer in w.threads && w.threads[closer].Draining?
    ensures var w' := Play(buffer, start, moves + more); closer in w'.threads && w'.threads[closer] == Closed(true)
    ensures forall i :: 0 <= i < |more| ==> more[i].SeeQuit? || more[i].Finish? || more[i] == EndClose(closer)
  {
    ClosePlay(buffer, start, moves);
    var w := Play(buffer, start, moves);
    var ends := DelayedSendersEnd(buffer, w);
    more := ends + [EndClose(closer)];
    RunConcat(buffer, Initial(start), moves, more);
    assert more[..|more| - 1] == ends;
  }

  // ----- What Close does not promise -----

  /** A script whose every move is enabled plays out as written. */
  lemma {:induction false} RunScript(buffer: nat, script: seq<Move>, ws: seq<World>)
    requires |ws| == |script| + 1
    requires forall i :: 0 <= i < |script| ==> Enabled(buffer, ws[i], script[i]) && ws[i + 1] == Step(buffer, ws[i], script[i])
    ensures Run(buffer, ws[0], script) == ws[|script|]
    decreases |script|
  {
    if script != [] {
      var n := |script| - 1;
      RunScript(buffer, script[..n], ws[..n + 1]);
    }
  }

  /** One Enqueue by thread 0, up to the end of its check. */
  function Entered(start: int, job: Job): World {
    if Delayed(job, start)
    then Initial(start).(core := Core(false, false, [], 1), threads := map[0 := Returned(Accepted), 1 := Waiting(job)])
    else Initial(start).(threads := map[0 := Sending(job)])
  }

  lemma EnqueueEnters(buffer: nat, start: int, job: Job)
    ensures Play(buffer, start, [Call(0, job), Check(0, 1)]) == Entered(start, job)
  {
    var w0 := Initial(start);
    var w1 := w0.(threads := map[0 := Calling(job)]);
    assert StepCheck(w1, 0, 1) == Entered(start, job);
    RunScript(buffer, [Call(0, job), Check(0, 1)], [w0, w1, Entered(start, job)]);
  }

  /** Close called by thread c, up to the end of its locked part. */
  function AfterClose(w: World, c: nat): World {
    var (core, first) := Shut(w.core);
    w.(core := core, threads := w.threads[c := if first then Draining else Closed(false)])
  }

  lemma CloseEnters(buffer: nat, w: World, c: nat)
    requires c !in w.threads
    ensures Run(buffer, w, [CallClose(c), EnterClose(c)]) == AfterClose(w, c)
  {
    var w1 := w.(threads := w.threads[c := ClosingCall]);
    assert w1.threads[c := Draining] == w.threads[c := Draining];
    assert w1.threads[c := Closed(false)] == w.threads[c := Closed(false)];
    RunScript(buffer, [CallClose(c), EnterClose(c)], [w, w1, AfterClose(w, c)]);
  }

  /** One Enqueue past its check, and a Close that has returned. */
  function Overtaken(start: int, job: Job): World {
    Initial(start).(core := Core(true, true, [], 0), threads := map[0 := Sending(job), 1 := Closed(true)])
  }

  lemma CloseOvertakes(buffer: nat, start: int, job: Job) returns (moves: seq<Move>)
    requires !Delayed(job, start)
    ensures Play(buffer, start, moves) == Overtaken(start, job)
  {
    var enter, closing := [Call(0, job), Check(0, 1)], [CallClose(1), EnterClose(1)];
    EnqueueEnters(buffer, start, job);
    CloseEnters(buffer, Entered(start, job), 1);
    RunConcat(buffer, Initial(start), enter, closing);
    moves := enter + closing + [EndClose(1)];
    assert moves[..|moves| - 1] == enter + closing;
    var w := AfterClose(Entered(start, job), 1);
    assert Step(buffer, w, EndClose(1)) == Overtaken(start, job);
  }

  /** An Enqueue that passed its check before Close can still put its job on the channel after Close has returned. */
  lemma PushAfterCloseReturned(buffer: nat, start: int, job: Job)
    requires buffer > 0 && !Delayed(job, start)
    ensures exists moves :: var w := Play(buffer, start, moves);
      && 1 in w.threads && w.threads[1] == Closed(true) && w.sent == []
      && Play(buffer, start, moves + [Push(0)]).sent == [Item(0, job)]
  {
    var moves := CloseOvertakes(buffer, start, job);
    PushesLate(buffer, start, moves, Overtaken(start, job));
  }

  lemma PushesLate(buffer: nat, start: int, moves: seq<Move>, w: World)
    requires Play(buffer, start, moves) == w && Enabled(buffer, w, Push(0)) && w.sent == []
    ensures Play(buffer, start, moves + [Push(0)]).sent == [Item(0, w.threads[0].job)]
  {
  }

  /** Only the Close that does the closing waits: a second one returns while a delayed sender is alive. */
  lemma SecondCloseDoesNotWait(buffer: nat, start: int, job: Job)
    requires Delayed(job, start)
    ensures exists moves :: var w := Play(buffer, start, moves);
      && 3 in w.threads && w.threads[3] == Closed(false) && 1 in w.threads && w.threads[1] == Waiting(job)
  {
    var enter := [Call(0, job), Check(0, 1)];
    EnqueueEnters(buffer, start, job);
    TwoCloses(buffer, start, enter, Entered(start, job));
  }

  /** Two closers in a row on an open queue: the second returns and no other thread has moved. */
  lemma TwoCloses(buffer: nat, start: int, moves: seq<Move>, w: World)
    requires Play(buffer, start, moves) == w && 2 !in w.threads && 3 !in w.threads && !w.core.closed
    ensures var w' := Play(buffer, start, moves + [CallClose(2), EnterClose(2)] + [CallClose(3), EnterClose(3)]);
      && w' == AfterClose(AfterClose(w, 2), 3)
      && 3 in w'.threads && w'.threads[3] == Closed(false)
      && forall t :: t in w.threads ==> t in w'.threads && w'.threads[t] == w.threads[t]
  {
    var first, second := [CallClose(2), EnterClose(2)], [CallClose(3), EnterClose(3)];
    CloseEnters(buffer, w, 2);
    RunConcat(buffer, Initial(start), moves, first);
    CloseEnters(buffer, AfterClose(w, 2), 3);
    RunConcat(buffer, Initial(start), moves + first, second);
  }

  // ----- Exactly when a Close returns too early -----

  predicate SomeDelayed(w: World) { exists t :: t in w.threads && IsDelayed(w.threads[t]) }

  predicate SomeDraining(w: World) { exists t :: t in w.threads && w.threads[t].Draining? }

  /** Whoever closed the queue is waiting for the delayed senders or has waited for them. */
  predicate CloserKnown(w: World) {
    w.core.closed ==> exists t :: t in w.threads && (w.threads[t].Draining? || w.threads[t] == Closed(true))
  }

  lemma CloserStep(buffer: nat, w: World, m: Move)
    requires CloserKnown(w) && Enabled(buffer, w, m)
    ensures CloserKnown(Step(buffer, w, m))
  {
    var w' := Step(buffer, w, m);
    if w.core.closed {
      var t :| t in w.threads && (w.threads[t].Draining? || w.threads[t] == Closed(true));
      assert t in w'.threads && (w'.threads[t].Draining? || w'.threads[t] == Closed(true));
    } else if m.EnterClose? {
      assert w'.threads[m.t].Draining?;
    }
  }

  lemma {:induction false} CloserPlay(buffer: nat, start: int, moves: seq<Move>)
    ensures CloserKnown(Play(buffer, start, moves))
    decreases |moves|
  {
    if moves != [] {
      var n := |moves| - 1;
      CloserPlay(buffer, start, moves[..n]);
      var w := Play(buffer, start, moves[..n]);
      if Enabled(buffer, w, moves[n]) {
        CloserStep(buffer, w, moves[n]);
      }
    }
  }

  lemma DelayedCounted(w: World)
    requires CloseOK(w)
    ensures SomeDelayed(w) <==> w.core.wg > 0
  {
    if SomeDelayed(w) {
      var t :| t in w.threads && IsDelayed(w.threads[t]);
      assert t in DelayedThreads(w);
    } else {
      assert DelayedThreads(w) == {};
    }
  }

  /** Main result: in every run, a call of Close returns while a delayed sender is alive if and only if, when it took
      the lock, another Close was waiting for one. */
  lemma ReturnsEarlyIff(buffer: nat, start: int, moves: seq<Move>, m: Move)
    requires Enabled(buffer, Play(buffer, start, moves), m) && (m.EnterClose? || m.EndClose?)
    ensures var w := Play(buffer, start, moves); var w' := Step(buffer, w, m);
      w'.threads[m.t].Closed? && SomeDelayed(w') <==> m.EnterClose? && SomeDraining(w) && w.core.wg > 0
  {
    var w := Play(buffer, start, moves);
    ClosePlay(buffer, start, moves);
    CloserPlay(buffer, start, moves);
    if m.EnterClose? {
      CloseEnter(w, m.t);
    } else {
      CloseOthers(buffer, w, m);
    }
    DelayedCounted(Step(buffer, w, m));
  }

  // ----- Exactly when something can still be put on a closed queue -----

  predicate SomeSender(w: World) { exists t :: t in w.threads && w.threads[t].Sending? }

  /** Closed, with every delayed sender gone and no Enqueue past its check. */
  ghost predicate Quiet(w: World) {
    w.core.closed && !SomeSender(w) && forall t :: t in w.threads ==> !IsDelayed(w.threads[t])
  }

  lemma QuietStep(buffer: nat, w: World, m: Move)
    requires Quiet(w) && Enabled(buffer, w, m)
    ensures Quiet(Step(buffer, w, m)) && Step(buffer, w, m).sent == w.sent
  {
    var w' := Step(buffer, w, m);
    forall t | t in w'.threads ensures !w'.threads[t].Sending? && !IsDelayed(w'.threads[t]) {
      assert t in w.threads ==> !w.threads[t].Sending? && !IsDelayed(w.threads[t]);
    }
  }

  lemma {:induction false} QuietRun(buffer: nat, w: World, more: seq<Move>)
    requires Quiet(w)
    ensures Quiet(Run(buffer, w, more)) && Run(buffer, w, more).sent == w.sent
    decreases |more|
  {
    if more != [] {
      var n := |more| - 1;
      QuietRun(buffer, w, more[..n]);
      var w1 := Run(buffer, w, more[..n]);
      if Enabled(buffer, w1, more[n]) {
        QuietStep(buffer, w1, more[n]);
      }
    }
  }

  /** A thread past its check can put its job on the channel, if need be after a new worker has made room. */
  lemma SenderSends(buffer: nat, w: World, t: nat) returns (more: seq<Move>)
    requires buffer > 0 && t in w.threads && IsSending(w.threads[t]) && |w.core.ch| <= buffer
    ensures Run(buffer, w, more).sent == w.sent + [Item(t, w.threads[t].job)]
  {
    assert [Push(t)][..0] == [];
    if |w.core.ch| < buffer {
      more := [Push(t)];
    } else {
      more := MakeRoomAndSend(buffer, w, t);
    }
  }

  lemma MakeRoomAndSend(buffer: nat, w: World, t: nat) returns (more: seq<Move>)
    requires buffer > 0 && t in w.threads && IsSending(w.threads[t]) && w.core.ch != []
    requires |w.core.ch| <= buffer
    ensures Run(buffer, w, more).sent == w.sent + [Item(t, w.threads[t].job)]
  {
    var worker := FreshId(w.threads.Keys);
    assert worker !in w.threads.Keys;
    var w1 := Step(buffer, w, StartWorker(worker));
    var w2 := Step(buffer, w1, TakeJob(worker));
    more := [StartWorker(worker), TakeJob(worker), Push(t)];
    RunScript(buffer, more, [w, w1, w2, Step(buffer, w2, Push(t))]);
  }

  /** A delayed job can always still arrive, once its time has come. */
  lemma DelayedJobCanArrive(buffer: nat, start: int, moves: seq<Move>, t: nat) returns (more: seq<Move>)
    requires buffer > 0
    requires var w := Play(buffer, start, moves); t in w.threads && w.threads[t].Waiting?
    ensures var w := Play(buffer, start, moves);
      Play(buffer, start, moves + more).sent == w.sent + [Item(t, w.threads[t].job)]
  {
    var w := Play(buffer, start, moves);
    ChannelPlay(buffer, start, moves);
    var job := w.threads[t].job;
    var wait := Tick(if Due(job, w.now) then 0 else job.at.value - w.now);
    var w1 := Step(buffer, w, wait);
    var w2 := Step(buffer, w1, TimerFires(t));
    RunScript(buffer, [wait, TimerFires(t)], [w, w1, w2]);
    var rest := SenderSends(buffer, w2, t);
    more := [wait, TimerFires(t)] + rest;
    RunConcat(buffer, w, [wait, TimerFires(t)], rest);
    RunConcat(buffer, Initial(start), moves, more);
  }

  /** Main result: once the closing Close has returned, something can still be put on the channel if and only if an
      Enqueue that passed its check before closing has not finished sending. */
  lemma SendsAfterCloseIff(buffer: nat, start: int, moves: seq<Move>, closer: nat)
    requires var w := Play(buffer, start, moves); closer in w.threads && w.threads[closer] == Closed(true)
    requires buffer > 0
    ensures var w := Play(buffer, start, moves);
      (exists more :: Play(buffer, start, moves + more).sent != w.sent) <==> SomeSender(w)
  {
    var w := Play(buffer, start, moves);
    ClosePlay(buffer, start, moves);
    ChannelPlay(buffer, start, moves);
    NoDelayedSenderAfterClose(buffer, start, moves, closer);
    if SomeSender(w) {
      var t :| t in w.threads && w.threads[t].Sending?;
      var more := SenderSends(buffer, w, t);
      RunConcat(buffer, Initial(start), moves, more);
      assert Play(buffer, start, moves + more).sent != w.sent;
    } else {
      forall more ensures Play(buffer, start, moves + more).sent == w.sent {
        RunConcat(buffer, Initial(start), moves, more);
        QuietRun(buffer, w, more);
      }
    }
  }
}
