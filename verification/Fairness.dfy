/** Runs of the stream that never end, and the fairness that rules them out. */
module Fairness {
  import opened Gateway
  import opened Streaming

  /** An endless run: its actions and its states. */
  ghost predicate Endless(env: Env, frames: seq<StreamFrame>, f: nat -> Action, st: nat -> State) {
    && st(0) == Start(frames)
    && forall n: nat {:trigger f(n)} :: Enabled(st(n), f(n)) && st(n + 1) == Apply(env, st(n), f(n))
  }

  ghost predicate Taken(f: nat -> Action, a: Action, m: nat) {
    exists n: nat :: n >= m && f(n) == a
  }

  ghost predicate StaysEnabled(st: nat -> State, a: Action, m: nat) {
    forall n: nat :: n >= m ==> Enabled(st(n), a)
  }

  ghost predicate EnabledLater(st: nat -> State, a: Action, m: nat) {
    exists n: nat :: n >= m && Enabled(st(n), a)
  }

  /** An action that stays enabled is taken. */
  ghost predicate WeaklyFair(f: nat -> Action, st: nat -> State, a: Action) {
    forall m: nat :: StaysEnabled(st, a, m) ==> Taken(f, a, m)
  }

  /** An action that is enabled again and again is taken again and again. */
  ghost predicate StronglyFair(f: nat -> Action, st: nat -> State, a: Action) {
    (forall m: nat :: EnabledLater(st, a, m)) ==> forall m: nat :: Taken(f, a, m)
  }

  /** The graph run gets on, and a poll that finds a frame again and again does
      not time out every time. */
  ghost predicate Fair(f: nat -> Action, st: nat -> State) {
    WeaklyFair(f, st, Put) && WeaklyFair(f, st, FinishTask) && StronglyFair(f, st, GetFrame)
  }

  // ---------------------------------------------------------------- what remains

  predicate InLoop(s: State) { s.phase.Polling? || s.phase.Waiting? }

  /** What the two processes have yet to do before the loop is left; polling
      does not change it. */
  function Work(s: State): nat {
    if InLoop(s) then 1 + 4 * |s.toPut| + 3 * |s.queue| + (if s.taskDone then 0 else 1) else 0
  }

  predicate IsPolling(s: State, a: Action) {
    a.PollTimeout? || (a.CheckDone? && !(s.taskDone && s.queue == []))
  }

  lemma StepWork(env: Env, frames: seq<StreamFrame>, s: State, a: Action)
    requires Inv(env, frames, s) && Enabled(s, a)
    ensures var next := Apply(env, s, a);
            && Work(next) <= Work(s)
            && (InLoop(s) ==> (Work(next) == Work(s) <==> IsPolling(s, a)))
            && (!InLoop(s) ==> !InLoop(next) && a.Yield?)
  {
  }

  lemma {:induction false} EndlessInv(env: Env, frames: seq<StreamFrame>, f: nat -> Action, st: nat -> State, n: nat)
    requires Endless(env, frames, f, st)
    ensures Inv(env, frames, st(n))
  {
    if n == 0 {
      StartInv(env, frames);
    } else {
      EndlessInv(env, frames, f, st, n - 1);
      StepKeepsInv(env, frames, st(n - 1), f(n - 1));
    }
  }

  lemma StepAt(env: Env, frames: seq<StreamFrame>, f: nat -> Action, st: nat -> State, n: nat)
    requires Endless(env, frames, f, st)
    ensures Inv(env, frames, st(n)) && Enabled(st(n), f(n)) && st(n + 1) == Apply(env, st(n), f(n))
    ensures Work(st(n + 1)) <= Work(st(n))
    ensures InLoop(st(n)) ==> (Work(st(n + 1)) == Work(st(n)) <==> IsPolling(st(n), f(n)))
    ensures !InLoop(st(n)) ==> !InLoop(st(n + 1)) && f(n).Yield?
  {
    EndlessInv(env, frames, f, st, n);
    StepWork(env, frames, st(n), f(n));
  }

  ghost predicate SettledFrom(st: nat -> State, m: nat) {
    forall n: nat :: n >= m ==> Work(st(n)) >= Work(st(m))
  }

  /** The work reaches its least value. */
  lemma {:induction false} WorkSettles(st: nat -> State, m: nat) returns (k: nat)
    ensures k >= m && SettledFrom(st, k)
    decreases Work(st(m))
  {
    if SettledFrom(st, m) {
      return m;
    }
    var n: nat :| n >= m && Work(st(n)) < Work(st(m));
    k := WorkSettles(st, n);
  }

  /** Past the loop only the tail is left, and it is finite. */
  lemma {:induction false} TailIsFinite(env: Env, frames: seq<StreamFrame>, f: nat -> Action, st: nat -> State, n: nat)
    requires Endless(env, frames, f, st)
    ensures InLoop(st(n))
    decreases if st(n).phase.Yielding? then |st(n).phase.rest| else 0
  {
    if !InLoop(st(n)) {
      StepAt(env, frames, f, st, n);
      StepAt(env, frames, f, st, n + 1);
      TailIsFinite(env, frames, f, st, n + 1);
    }
  }

  /** From where the work has settled, the run only polls, and nothing else
      changes. */
  lemma {:induction false} OnlyPolls(env: Env, frames: seq<StreamFrame>, f: nat -> Action, st: nat -> State,
                                     k: nat, n: nat)
    requires Endless(env, frames, f, st) && SettledFrom(st, k) && n >= k
    ensures Inv(env, frames, st(n)) && InLoop(st(n)) && IsPolling(st(n), f(n))
    ensures Work(st(n)) == Work(st(k))
    ensures st(n).toPut == st(k).toPut && st(n).queue == st(k).queue && st(n).taskDone == st(k).taskDone
    decreases n
  {
    if n > k {
      OnlyPolls(env, frames, f, st, k, n - 1);
      StepAt(env, frames, f, st, n - 1);
    }
    StepAt(env, frames, f, st, n);
    TailIsFinite(env, frames, f, st, n);
    assert Work(st(n + 1)) >= Work(st(k));
  }

  /** There the consumer waits again and again, and is never about to leave. */
  lemma KeepsWaiting(env: Env, frames: seq<StreamFrame>, f: nat -> Action, st: nat -> State, k: nat, n: nat)
    requires Endless(env, frames, f, st) && SettledFrom(st, k) && n >= k
    ensures st(n).phase.Waiting? || st(n + 1).phase.Waiting?
    ensures !(st(k).taskDone && st(k).queue == [])
  {
    OnlyPolls(env, frames, f, st, k, n);
    OnlyPolls(env, frames, f, st, k, n + 1);
    StepAt(env, frames, f, st, n);
    StepAt(env, frames, f, st, n + 1);
  }

  lemma NothingTaken(env: Env, frames: seq<StreamFrame>, f: nat -> Action, st: nat -> State, k: nat, a: Action)
    requires Endless(env, frames, f, st) && SettledFrom(st, k)
    requires a.Put? || a.FinishTask? || a.GetFrame?
    ensures !Taken(f, a, k)
  {
    if Taken(f, a, k) {
      var n: nat :| n >= k && f(n) == a;
      OnlyPolls(env, frames, f, st, k, n);
    }
  }

  lemma ProducerStays(env: Env, frames: seq<StreamFrame>, f: nat -> Action, st: nat -> State, k: nat, a: Action)
    requires Endless(env, frames, f, st) && SettledFrom(st, k)
    requires (a.Put? || a.FinishTask?) && Enabled(st(k), a)
    ensures StaysEnabled(st, a, k)
  {
    forall n: nat | n >= k ensures Enabled(st(n), a) {
      OnlyPolls(env, frames, f, st, k, n);
    }
  }

  lemma FrameWaits(env: Env, frames: seq<StreamFrame>, f: nat -> Action, st: nat -> State, k: nat, m: nat)
    requires Endless(env, frames, f, st) && SettledFrom(st, k)
    requires st(k).taskDone
    ensures EnabledLater(st, GetFrame, m)
  {
    var n := m + k;
    KeepsWaiting(env, frames, f, st, k, n);
    OnlyPolls(env, frames, f, st, k, n);
    OnlyPolls(env, frames, f, st, k, n + 1);
    assert Enabled(st(n), GetFrame) || Enabled(st(n + 1), GetFrame);
  }

  /** Under fairness every run ends. */
  lemma FairRunsEnd(env: Env, frames: seq<StreamFrame>, f: nat -> Action, st: nat -> State)
    requires Endless(env, frames, f, st)
    ensures !Fair(f, st)
  {
    var k := WorkSettles(st, 0);
    NothingTaken(env, frames, f, st, k, Put);
    NothingTaken(env, frames, f, st, k, FinishTask);
    NothingTaken(env, frames, f, st, k, GetFrame);
    if st(k).toPut != [] {
      ProducerStays(env, frames, f, st, k, Put);
    } else if !st(k).taskDone {
      ProducerStays(env, frames, f, st, k, FinishTask);
    } else {
      forall m: nat ensures EnabledLater(st, GetFrame, m) {
        FrameWaits(env, frames, f, st, k, m);
      }
    }
  }

  // ---------------------------------------------------------------- prompt polls

  /** A poll that begins with a frame in the queue does not time out: `wait_for`
      on a `get` that need not wait returns without suspending. */
  ghost predicate Prompt(f: nat -> Action, st: nat -> State) {
    forall n: nat :: f(n) == CheckDone && st(n).queue != [] ==> f(n + 1) != PollTimeout
  }

  /** Then no fairness is asked of the consumer at all. */
  lemma PromptRunsEnd(env: Env, frames: seq<StreamFrame>, f: nat -> Action, st: nat -> State)
    requires Endless(env, frames, f, st) && Prompt(f, st)
    ensures !(WeaklyFair(f, st, Put) && WeaklyFair(f, st, FinishTask))
  {
    var k := WorkSettles(st, 0);
    NothingTaken(env, frames, f, st, k, Put);
    NothingTaken(env, frames, f, st, k, FinishTask);
    if st(k).toPut != [] {
      ProducerStays(env, frames, f, st, k, Put);
    } else if !st(k).taskDone {
      ProducerStays(env, frames, f, st, k, FinishTask);
    } else {
      PollTimesOut(env, frames, f, st, k);
    }
  }

  /** From where the work has settled, a poll beside a frame times out. */
  lemma PollTimesOut(env: Env, frames: seq<StreamFrame>, f: nat -> Action, st: nat -> State, k: nat)
    requires Endless(env, frames, f, st) && SettledFrom(st, k) && st(k).taskDone
    ensures !Prompt(f, st)
  {
    KeepsWaiting(env, frames, f, st, k, k);
    var n := if st(k).phase.Polling? then k else k + 1;
    OnlyPolls(env, frames, f, st, k, k);
    StepAt(env, frames, f, st, k);
    OnlyPolls(env, frames, f, st, k, n);
    StepAt(env, frames, f, st, n);
    OnlyPolls(env, frames, f, st, k, n + 1);
    StepAt(env, frames, f, st, n + 1);
    assert f(n) == CheckDone && f(n + 1) == PollTimeout;
  }

  // ------------------------------------------------------------ fairness is needed

  function Unlucky(n: nat): Action {
    if n == 0 then Put else if n == 1 then FinishTask else if n % 2 == 0 then CheckDone else PollTimeout
  }

  function UnluckyRun(frame: StreamFrame): nat -> State {
    (n: nat) => UnluckyState(frame, n)
  }

  function UnluckyState(frame: StreamFrame, n: nat): State {
    var s := Start([frame]);
    if n == 0 then s
    else
      var put := s.(toPut := [], queue := [frame]);
      if n == 1 then put else put.(taskDone := true, phase := if n % 2 == 0 then Polling else Waiting)
  }

  lemma UnluckyStep(env: Env, frame: StreamFrame, n: nat)
    ensures Enabled(UnluckyState(frame, n), Unlucky(n))
    ensures UnluckyState(frame, n + 1) == Apply(env, UnluckyState(frame, n), Unlucky(n))
  {
    assert [frame][1..] == [] && [] + [frame] == [frame];
  }

  /** Weak fairness alone is not enough in the model, which lets a poll time out
      beside a frame that was queued before it began. This is a freedom of the
      model: with Python 3.12 such a poll takes the frame at once, and
      `PromptRunsEnd` applies. */
  lemma WeakFairnessIsNotEnough(env: Env, frame: StreamFrame)
    ensures Endless(env, [frame], Unlucky, UnluckyRun(frame))
    ensures forall a: Action :: WeaklyFair(Unlucky, UnluckyRun(frame), a)
  {
    var st := UnluckyRun(frame);
    forall n: nat ensures Enabled(st(n), Unlucky(n)) && st(n + 1) == Apply(env, st(n), Unlucky(n)) {
      UnluckyStep(env, frame, n);
    }
    forall a: Action, m: nat ensures !StaysEnabled(st, a, m) {
      NothingStays(frame, a, m);
      assert !Enabled(st(2 * m + 2), a) || !Enabled(st(2 * m + 3), a);
    }
  }

  lemma NothingStays(frame: StreamFrame, a: Action, m: nat)
    ensures !Enabled(UnluckyState(frame, 2 * m + 2), a) || !Enabled(UnluckyState(frame, 2 * m + 3), a)
  {
  }
}
