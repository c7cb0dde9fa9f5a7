/** The reader-preferred lock: two mutexes and a counter, stepped one instruction at a time by any number of threads. */
module RpwMutex {

  /** Where a thread stands. `Ready` and `Writing` are outside the lock's own code; each other value names
      the instruction the thread runs next. */
  datatype Pc =
    | Ready
    | Writing
    | LockTakeW
    | RLockTakeR | RLockCount | RLockTest | RLockTakeW | RLockLeave
    | RUnlockTakeR | RUnlockCount | RUnlockTest | RUnlockFreeW | RUnlockLeave

  /** `holds` counts the read locks the thread has been granted and not begun to give back. */
  datatype Thread = Thread(pc: Pc, holds: nat)

  /** A mutex is free or held; the model also remembers on whose behalf, which no instruction looks at. */
  datatype WriterLock = Free | ByWriter(t: nat) | ByReaders
  datatype CounterLock = Open | HeldBy(t: nat)

  datatype State = State(threads: seq<Thread>, w: WriterLock, r: CounterLock, n: int)

  datatype Call = Lock | Unlock | RLock | RUnlock

  function Start(count: nat): State {
    State(seq(count, _ => Thread(Ready, 0)), Free, Open, 0)
  }

  function At(s: State, t: nat): Pc
    requires t < |s.threads|
  {
    s.threads[t].pc
  }

  function Goto(s: State, t: nat, pc: Pc): State
    requires t < |s.threads|
  {
    s.(threads := s.threads[t := s.threads[t].(pc := pc)])
  }

  /** What the lock asks of its callers: unlock what you hold, and take the write lock empty-handed. */
  predicate MayCall(s: State, t: nat, c: Call)
    requires t < |s.threads|
  {
    match c
    case Lock => At(s, t) == Ready && s.threads[t].holds == 0
    case Unlock => At(s, t) == Writing
    case RLock => At(s, t) == Ready
    case RUnlock => At(s, t) == Ready && s.threads[t].holds > 0
  }

  function Begin(s: State, t: nat, c: Call): State
    requires t < |s.threads| && MayCall(s, t, c)
  {
    match c
    case Lock => Goto(s, t, LockTakeW)
    case Unlock => Goto(s.(w := Free), t, Ready)
    case RLock => Goto(s, t, RLockTakeR)
    case RUnlock => s.(threads := s.threads[t := Thread(RUnlockTakeR, s.threads[t].holds - 1)])
  }

  predicate InLockCode(pc: Pc) {
    pc != Ready && pc != Writing
  }

  /** Can the thread run its next instruction, or does it wait for a mutex? */
  predicate Enabled(s: State, t: nat)
    requires t < |s.threads|
  {
    match At(s, t)
    case LockTakeW | RLockTakeW => s.w == Free
    case RLockTakeR | RUnlockTakeR => s.r == Open
    case Ready | Writing => false
    case _ => true
  }

  /** One instruction. */
  function Do(s: State, t: nat): State
    requires t < |s.threads| && Enabled(s, t)
  {
    match At(s, t)
    case LockTakeW => Goto(s.(w := ByWriter(t)), t, Writing)
    case RLockTakeR => Goto(s.(r := HeldBy(t)), t, RLockCount)
    case RLockCount => Goto(s.(n := s.n + 1), t, RLockTest)
    case RLockTest => Goto(s, t, if s.n == 1 then RLockTakeW else RLockLeave)
    case RLockTakeW => Goto(s.(w := ByReaders), t, RLockLeave)
    case RLockLeave => s.(r := Open, threads := s.threads[t := Thread(Ready, s.threads[t].holds + 1)])
    case RUnlockTakeR => Goto(s.(r := HeldBy(t)), t, RUnlockCount)
    case RUnlockCount => Goto(s.(n := s.n - 1), t, RUnlockTest)
    case RUnlockTest => Goto(s, t, if s.n == 0 then RUnlockFreeW else RUnlockLeave)
    case RUnlockFreeW => Goto(s.(w := Free), t, RUnlockLeave)
    case RUnlockLeave => Goto(s.(r := Open), t, Ready)
  }

  ghost predicate StepOf(s: State, s': State, t: nat)
    requires t < |s.threads|
  {
    (Enabled(s, t) && s' == Do(s, t)) || exists c :: MayCall(s, t, c) && s' == Begin(s, t, c)
  }

  ghost predicate Step(s: State, s': State) {
    exists t :: 0 <= t < |s.threads| && StepOf(s, s', t)
  }

  ghost predicate IsRun(run: seq<State>) {
    |run| > 0 && run[0] == Start(|run[0].threads|) && forall i | 0 < i < |run| :: Step(run[i - 1], run[i])
  }

  // ---------------------------------------------------------------- counting readers

  predicate HasR(pc: Pc) {
    pc in {RLockCount, RLockTest, RLockTakeW, RLockLeave, RUnlockCount, RUnlockTest, RUnlockFreeW, RUnlockLeave}
  }

  /** What a thread contributes to `n`. */
  function Share(t: Thread): nat {
    t.holds + if t.pc in {RLockTest, RLockTakeW, RLockLeave, RUnlockTakeR, RUnlockCount} then 1 else 0
  }

  ghost function Shares(ts: seq<Thread>): nat {
    if ts == [] then 0 else Share(ts[0]) + Shares(ts[1..])
  }

  lemma {:induction false} SharesUpdate(ts: seq<Thread>, i: nat, x: Thread)
    requires i < |ts|
    ensures Shares(ts[i := x]) == Shares(ts) - Share(ts[i]) + Share(x)
  {
    if i > 0 {
      assert ts[i := x][1..] == ts[1..][i - 1 := x];
      SharesUpdate(ts[1..], i - 1, x);
    } else {
      assert ts[i := x][1..] == ts[1..];
    }
  }

  lemma {:induction false} SharesAtLeast(ts: seq<Thread>, i: nat, j: nat)
    requires i < |ts| && j < |ts|
    ensures Shares(ts) >= if i == j then Share(ts[i]) else Share(ts[i]) + Share(ts[j])
  {
    if i > 0 && j > 0 {
      SharesAtLeast(ts[1..], i - 1, j - 1);
    } else if i > 0 {
      SharesAtLeast(ts[1..], i - 1, i - 1);
    } else if j > 0 {
      SharesAtLeast(ts[1..], j - 1, j - 1);
    }
  }

  lemma {:induction false} SomeoneShares(ts: seq<Thread>) returns (i: nat)
    requires Shares(ts) > 0
    ensures i < |ts| && Share(ts[i]) > 0
  {
    if Share(ts[0]) > 0 {
      i := 0;
    } else {
      i := SomeoneShares(ts[1..]);
      i := i + 1;
    }
  }

  // ---------------------------------------------------------------- the invariant

  /** Should `w` be held on behalf of the readers, given what the holder of `r` (if any) is about to do? */
  predicate ReadersOwnW(s: State) {
    if s.r.Open? || s.r.t >= |s.threads| then s.n > 0
    else match At(s, s.r.t)
      case RLockTest => s.n > 1
      case RLockTakeW => false
      case RUnlockTest | RUnlockFreeW => true
      case _ => s.n > 0
  }

  ghost predicate Local(s: State, t: nat)
    requires t < |s.threads|
  {
    && (HasR(At(s, t)) <==> s.r == HeldBy(t))
    && (At(s, t) == Writing <==> s.w == ByWriter(t))
    && (At(s, t) in {Writing, LockTakeW} ==> s.threads[t].holds == 0)
    && (At(s, t) == RLockTakeW ==> s.n == 1)
    && (At(s, t) == RUnlockFreeW ==> s.n == 0)
  }

  ghost predicate Inv(s: State) {
    && s.n == Shares(s.threads)
    && (forall t | 0 <= t < |s.threads| :: Local(s, t))
    && (s.r.HeldBy? ==> s.r.t < |s.threads|)
    && (s.w.ByWriter? ==> s.w.t < |s.threads|)
    && (s.w == ByReaders <==> ReadersOwnW(s))
  }

  lemma {:induction false} StartInv(count: nat)
    ensures Inv(Start(count))
  {
    NoShares(Start(count).threads);
  }

  lemma {:induction false} NoShares(ts: seq<Thread>)
    requires forall i | 0 <= i < |ts| :: ts[i] == Thread(Ready, 0)
    ensures Shares(ts) == 0
  {
    if ts != [] {
      NoShares(ts[1..]);
    }
  }

  lemma BeginInv(s: State, t: nat, c: Call)
    requires Inv(s) && t < |s.threads| && MayCall(s, t, c)
    ensures Inv(Begin(s, t, c))
  {
    var s' := Begin(s, t, c);
    SharesUpdate(s.threads, t, s'.threads[t]);
    assert Local(s, t);
    forall u | 0 <= u < |s.threads|
      ensures Local(s', u)
    {
      assert Local(s, u);
    }
  }

  lemma DoInv(s: State, t: nat)
    requires Inv(s) && t < |s.threads| && Enabled(s, t)
    ensures Inv(Do(s, t))
  {
    var s' := Do(s, t);
    SharesUpdate(s.threads, t, s'.threads[t]);
    SharesAtLeast(s.threads, t, t);
    assert Local(s, t);
    forall u | 0 <= u < |s.threads|
      ensures Local(s', u)
    {
      assert Local(s, u);
      DoLocal(s, t, u);
    }
  }

  lemma DoLocal(s: State, t: nat, u: nat)
    requires t < |s.threads| && u < |s.threads| && Enabled(s, t) && Local(s, t) && Local(s, u)
    requires Share(s.threads[t]) <= s.n && (s.w == ByReaders <==> ReadersOwnW(s))
    ensures Local(Do(s, t), u)
  {
  }

  lemma {:induction false} RunInv(run: seq<State>, i: nat)
    requires IsRun(run) && i < |run|
    ensures Inv(run[i]) && |run[i].threads| == |run[0].threads|
  {
    if i == 0 {
      StartInv(|run[0].threads|);
    } else {
      RunInv(run, i - 1);
      assert Step(run[i - 1], run[i]);
      var t :| 0 <= t < |run[i - 1].threads| && StepOf(run[i - 1], run[i], t);
      if Enabled(run[i - 1], t) && run[i] == Do(run[i - 1], t) {
        DoInv(run[i - 1], t);
      } else {
        var c :| MayCall(run[i - 1], t, c) && run[i] == Begin(run[i - 1], t, c);
        BeginInv(run[i - 1], t, c);
      }
    }
  }

  // ---------------------------------------------------------------- what the lock guarantees

  /** A writer excludes every reader and every other writer, in every state of every run. */
  lemma Exclusion(run: seq<State>, i: nat, t: nat, u: nat)
    requires IsRun(run) && i < |run| && t < |run[i].threads| && u < |run[i].threads| && t != u
    requires At(run[i], t) == Writing
    ensures At(run[i], u) != Writing && run[i].threads[u].holds == 0
  {
    var s := run[i];
    RunInv(run, i);
    assert Local(s, t) && Local(s, u);
    SharesAtLeast(s.threads, u, u);
    if s.r.HeldBy? {
      assert Local(s, s.r.t);
      SharesAtLeast(s.threads, s.r.t, u);
    }
  }

  /** No instruction unlocks a mutex that is not locked, or that another party holds. */
  lemma UnlocksOwnMutex(run: seq<State>, i: nat, t: nat)
    requires IsRun(run) && i < |run| && t < |run[i].threads|
    ensures At(run[i], t) == Writing ==> run[i].w == ByWriter(t)
    ensures At(run[i], t) == RUnlockFreeW ==> run[i].w == ByReaders
    ensures At(run[i], t) in {RLockLeave, RUnlockLeave} ==> run[i].r == HeldBy(t)
  {
    RunInv(run, i);
    assert Local(run[i], t);
  }

  predicate CanMove(s: State, t: nat) {
    t < |s.threads| && InLockCode(At(s, t)) && Enabled(s, t)
  }

  predicate Critical(s: State, t: nat) {
    t < |s.threads| && (At(s, t) == Writing || (At(s, t) == Ready && s.threads[t].holds > 0))
  }

  /** The lock is never stuck: if some thread is inside the lock's code, then one such thread can move, or a
      thread sits in its critical section and everyone waits for it. */
  lemma NeverStuck(run: seq<State>, i: nat, t: nat)
    requires IsRun(run) && i < |run| && t < |run[i].threads| && InLockCode(At(run[i], t))
    ensures exists u :: CanMove(run[i], u) || Critical(run[i], u)
  {
    var s := run[i];
    RunInv(run, i);
    assert Local(s, t);
    var u := t;
    if s.r.HeldBy? && Enabled(s, s.r.t) {
      u := s.r.t;
    } else if s.w.ByWriter? {
      u := s.w.t;
    } else if s.w == ByReaders {
      u := SomeoneShares(s.threads);
    }
    assert Local(s, u) && (s.r.HeldBy? ==> Local(s, s.r.t));
    assert CanMove(s, u) || Critical(s, u);
  }

  // ---------------------------------------------------------------- re-entry

  /** Thread `u` runs alone from `path[0]`, one enabled instruction after the other. */
  ghost predicate Solo(path: seq<State>, u: nat) {
    && |path| > 0
    && forall i | 0 < i < |path| :: Moves(path[i - 1], path[i], u)
  }

  predicate Moves(s: State, s': State, u: nat) {
    u < |s.threads| && Enabled(s, u) && s' == Do(s, u)
  }

  function Left(pc: Pc): nat {
    match pc
    case RLockTakeR | RUnlockTakeR => 6
    case RLockCount | RUnlockCount => 5
    case RLockTest | RUnlockTest => 4
    case RLockTakeW | RUnlockFreeW => 3
    case RLockLeave | RUnlockLeave => 2
    case _ => 0
  }

  function Granted(pc: Pc): nat {
    if pc in {RLockTakeR, RLockCount, RLockTest, RLockTakeW, RLockLeave} then 1 else 0
  }

  /** While some thread `t` holds a read lock, no thread inside RLock or RUnlock waits for `w`. */
  lemma ReadersDoNotWait(s: State, t: nat, u: nat)
    requires Inv(s) && t < |s.threads| && u < |s.threads| && s.threads[t].holds > 0
    requires InLockCode(At(s, u)) && At(s, u) != LockTakeW
    requires s.r == Open || s.r == HeldBy(u)
    ensures Enabled(s, u) && At(s, u) != RLockTakeW
  {
    assert Local(s, u);
    SharesAtLeast(s.threads, t, u);
  }

  lemma StepThrough(s: State, t: nat, u: nat)
    requires Inv(s) && t < |s.threads| && u < |s.threads| && s.threads[t].holds > 0
    requires InLockCode(At(s, u)) && At(s, u) != LockTakeW
    requires s.r == Open || s.r == HeldBy(u)
    ensures Enabled(s, u)
    ensures var s1 := Do(s, u);
            && Inv(s1) && |s1.threads| == |s.threads| && s1.threads[t].holds > 0
            && s1.threads == s.threads[u := s1.threads[u]]
            && if At(s1, u) == Ready then
                 s1.r == Open && s1.threads[u] == Thread(Ready, s.threads[u].holds + Granted(At(s, u)))
               else
                 && s1.r == HeldBy(u) && InLockCode(At(s1, u)) && At(s1, u) != LockTakeW
                 && Left(At(s1, u)) < Left(At(s, u)) && Left(At(s1, u)) >= 2
                 && s1.threads[u].holds == s.threads[u].holds && Granted(At(s1, u)) == Granted(At(s, u))
  {
    ReadersDoNotWait(s, t, u);
    DoInv(s, u);
    assert Local(s, u) && Local(Do(s, u), u);
  }

  lemma {:induction false} RunsThrough(s: State, t: nat, u: nat) returns (path: seq<State>)
    requires Inv(s) && t < |s.threads| && u < |s.threads| && s.threads[t].holds > 0
    requires InLockCode(At(s, u)) && At(s, u) != LockTakeW
    requires s.r == Open || s.r == HeldBy(u)
    ensures Solo(path, u) && path[0] == s && |path| <= Left(At(s, u))
    ensures var s' := path[|path| - 1];
            && Inv(s') && s'.r == Open
            && s'.threads == s.threads[u := Thread(Ready, s.threads[u].holds + Granted(At(s, u)))]
    decreases Left(At(s, u))
  {
    hide Do, Inv, Enabled;
    StepThrough(s, t, u);
    var s1 := Do(s, u);
    if At(s1, u) == Ready {
      path := [s, s1];
    } else {
      var rest := RunsThrough(s1, t, u);
      path := [s] + rest;
    }
  }

  /** From `s`, `first` is let through (if it holds `r`), then `t` calls RLock and gets its second read lock. */
  ghost predicate ReentersBy(s: State, t: nat, first: seq<State>, second: seq<State>) {
    && t < |s.threads|
    && |first| > 0 && first[0] == s && |first| <= 5
    && (s.r == Open ==> first == [s])
    && (s.r.HeldBy? ==> Solo(first, s.r.t))
    && var mid := first[|first| - 1];
    && t < |mid.threads| && MayCall(mid, t, RLock)
    && Solo(second, t) && second[0] == Begin(mid, t, RLock) && |second| <= 6
    && var end := second[|second| - 1];
    && t < |end.threads| && end.threads[t] == Thread(Ready, s.threads[t].holds + 1)
    && |end.threads| == |s.threads|
    && forall u | 0 <= u < |s.threads| && u != t && s.r != HeldBy(u) :: end.threads[u] == s.threads[u]
  }

  /** A thread that already holds the read lock can take it again within ten instructions of its own and of the
      thread inside the counter section, whatever the waiting writers do. */
  lemma Reentry(run: seq<State>, i: nat, t: nat)
    requires IsRun(run) && i < |run| && t < |run[i].threads|
    requires At(run[i], t) == Ready && run[i].threads[t].holds > 0
    ensures exists first, second :: ReentersBy(run[i], t, first, second)
  {
    hide Do, Shares;
    var s := run[i];
    RunInv(run, i);
    var first := [s];
    if s.r.HeldBy? {
      assert Local(s, s.r.t) && Local(s, t);
      first := RunsThrough(s, t, s.r.t);
    }
    var mid := first[|first| - 1];
    BeginInv(mid, t, RLock);
    var called := Begin(mid, t, RLock);
    var second := RunsThrough(called, t, t);
    assert ReentersBy(s, t, first, second);
  }
}
