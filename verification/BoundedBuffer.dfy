/**
  extracredit_semaphore.c: producers and consumers that share a bounded buffer
  through two semaphores and a mutex, for any number of threads of each kind.
*/
module BoundedBuffer {
  import opened Options
  import opened Sums
  import Semaphore

  const N: nat := 5

  /** The semaphores: `consumer` counts free places, `producer` counts items. */
  const PLACES: nat := 0
  const ITEMS: nat := 1

  /** Where a thread is in prod_work() or cons_work(); i counts its turns. */
  datatype Stage =
    | Top(i: nat)
    | Waiting(i: nat)    // in sem_wait()
    | Locking(i: nat)    // thread_mutex_lock(&mLock)
    | Access(i: nat)     // insertbuffer() or dequeuebuffer()
    | Unlocking(i: nat)
    | Posting(i: nat)    // in sem_post()
    | Exited

  /** inserted and removed record what went through the buffer. */
  datatype State = State(
    sem: Semaphore.State, stage: map<nat, Stage>, producers: set<nat>, mLock: Option<nat>,
    buffer: seq<int>, index: int, overflow: bool, underflow: bool,
    inserted: multiset<int>, removed: multiset<int>)

  function WaitsOn(s: State, t: nat): nat {
    if t in s.producers then PLACES else ITEMS
  }

  function PostsTo(s: State, t: nat): nat {
    if t in s.producers then ITEMS else PLACES
  }

  predicate At(s: State, t: nat) {
    t in s.stage && t in s.sem.pc
  }

  // ---------------------------------------------------------------- steps

  /** while (i++ < N) sem_wait() */
  predicate DoBegin(s: State, t: nat, sem': Semaphore.State, s': State) {
    && At(s, t) && s.stage[t].Top? && s.stage[t].i < N
    && Semaphore.DoCall(s.sem, t, WaitsOn(s, t), false, sem')
    && s' == s.(sem := sem', stage := s.stage[t := Waiting(s.stage[t].i + 1)])
  }

  predicate DoExit(s: State, t: nat, s': State) {
    At(s, t) && s.stage[t].Top? && N <= s.stage[t].i && s' == s.(stage := s.stage[t := Exited])
  }

  /** A step inside sem_wait() or sem_post(). */
  predicate DoSem(s: State, t: nat, k: nat, kind: Semaphore.Kind, sem': Semaphore.State, s': State) {
    && At(s, t) && !kind.Call? && Semaphore.Next(s.sem, t, k, kind, sem')
    && s' == s.(sem := sem')
  }

  predicate DoReturn(s: State, t: nat, s': State) {
    && At(s, t) && s.sem.pc[t].Idle? && (s.stage[t].Waiting? || s.stage[t].Posting?)
    && s' == s.(stage := s.stage[t := if s.stage[t].Waiting? then Locking(s.stage[t].i) else Top(s.stage[t].i)])
  }

  predicate DoLock(s: State, t: nat, s': State) {
    && At(s, t) && s.stage[t].Locking? && s.mLock.None?
    && s' == s.(mLock := Some(t), stage := s.stage[t := Access(s.stage[t].i)])
  }

  /** insertbuffer(i) */
  predicate DoInsert(s: State, t: nat, s': State) {
    && At(s, t) && s.stage[t].Access? && t in s.producers
    && var done := s.stage[t := Unlocking(s.stage[t].i)];
    s' == if 0 <= s.index < N && |s.buffer| == N then
            s.(buffer := s.buffer[s.index := s.stage[t].i], index := s.index + 1,
               inserted := s.inserted + multiset{s.stage[t].i}, stage := done)
          else s.(overflow := true, stage := done)
  }

  /** dequeuebuffer() */
  predicate DoRemove(s: State, t: nat, s': State) {
    && At(s, t) && s.stage[t].Access? && t !in s.producers
    && var done := s.stage[t := Unlocking(s.stage[t].i)];
    s' == if 0 < s.index <= |s.buffer| then
            s.(index := s.index - 1, removed := s.removed + multiset{s.buffer[s.index - 1]}, stage := done)
          else s.(underflow := true, stage := done)
  }

  /** thread_mutex_unlock(&mLock); sem_post() */
  predicate DoUnlock(s: State, t: nat, sem': Semaphore.State, s': State) {
    && At(s, t) && s.stage[t].Unlocking?
    && Semaphore.DoCall(s.sem, t, PostsTo(s, t), true, sem')
    && s' == s.(mLock := None, sem := sem', stage := s.stage[t := Posting(s.stage[t].i)])
  }

  ghost predicate Next(s: State, t: nat, s': State) {
    || DoBegin(s, t, s'.sem, s') || DoExit(s, t, s') || DoReturn(s, t, s')
    || (exists k, kind :: DoSem(s, t, k, kind, s'.sem, s'))
    || DoLock(s, t, s') || DoInsert(s, t, s') || DoRemove(s, t, s') || DoUnlock(s, t, s'.sem, s')
  }

  predicate Init(s: State) {
    && Semaphore.Init(s.sem) && |s.sem.sems| == 2 && s.sem.sems[PLACES].init == N && s.sem.sems[ITEMS].init == 0
    && s.stage.Keys == s.sem.pc.Keys && (forall t :: t in s.stage ==> s.stage[t] == Top(0))
    && s.mLock.None? && |s.buffer| == N && s.index == 0 && !s.overflow && !s.underflow
    && s.inserted == multiset{} && s.removed == multiset{}
  }

  ghost predicate SomeNext(s: State, s': State) {
    exists t :: Next(s, t, s')
  }

  ghost predicate IsRun(states: seq<State>) {
    0 < |states| && Init(states[0]) && forall i :: 0 <= i < |states| - 1 ==> SomeNext(states[i], states[i + 1])
  }

  // ---------------------------------------------------------------- accounts

  /** t got through sem_wait() and has not been at the buffer yet. */
  predicate Took(stage: Stage, pc: Semaphore.Pc) {
    stage.Locking? || stage.Access? || (stage.Waiting? && (pc.Idle? || pc.WUnlock?))
  }

  /** t was at the buffer and has not raised the other semaphore yet. */
  predicate Owes(stage: Stage, pc: Semaphore.Pc) {
    stage.Unlocking? || (stage.Posting? && (pc.PLock? || pc.PInc?))
  }

  predicate HoldsUp(producer: bool, stage: Stage, pc: Semaphore.Pc, k: nat) {
    if producer == (k == PLACES) then Took(stage, pc) else Owes(stage, pc)
  }

  /** 1 for each thread that holds a place (or an item) that semaphore k no longer
      counts and the buffer does not show. */
  function Weights(s: State, k: nat): map<nat, nat>
    requires s.stage.Keys == s.sem.pc.Keys
  {
    map t | t in s.stage :: if HoldsUp(t in s.producers, s.stage[t], s.sem.pc[t], k) then 1 else 0
  }

  /** A thread is in the semaphore operation that its stage says. */
  predicate Agrees(stage: Stage, pc: Semaphore.Pc, waits: nat, posts: nat) {
    match stage
    case Waiting(_) => pc.Idle? || Semaphore.InWait(pc, waits)
    case Posting(_) => pc.Idle? || Semaphore.InPost(pc, posts)
    case _ => pc.Idle?
  }

  ghost predicate Shape(s: State) {
    && |s.sem.sems| == 2 && s.stage.Keys == s.sem.pc.Keys
    && (forall t :: t in s.stage ==> Agrees(s.stage[t], s.sem.pc[t], WaitsOn(s, t), PostsTo(s, t)))
  }

  /** Places and items are conserved. */
  ghost predicate Accounts(s: State)
    requires s.stage.Keys == s.sem.pc.Keys && |s.sem.sems| == 2
  {
    && s.sem.sems[ITEMS].count + Sum(Weights(s, ITEMS)) == s.index
    && s.sem.sems[PLACES].count + Sum(Weights(s, PLACES)) + s.index == N
  }

  ghost predicate Buffered(s: State) {
    && |s.buffer| == N && 0 <= s.index <= N && !s.overflow && !s.underflow
    && s.inserted == s.removed + multiset(s.buffer[..s.index])
  }

  /** mLock keeps the buffer to one thread. */
  ghost predicate Exclusive(s: State) {
    forall t :: t in s.stage ==> ((s.stage[t].Access? || s.stage[t].Unlocking?) <==> s.mLock == Some(t))
  }

  ghost predicate Inv(s: State) {
    Semaphore.Inv(s.sem) && Shape(s) && Accounts(s) && Buffered(s) && Exclusive(s)
  }

  lemma InitInv(s: State)
    requires Init(s)
    ensures Inv(s)
  {
    InitSemaphores(s);
    InitAccounts(s);
    InitBuffer(s);
  }

  lemma InitSemaphores(s: State)
    requires Init(s)
    ensures Semaphore.Inv(s.sem)
  {
    Semaphore.RunInv([s.sem], 0);
  }

  lemma InitBuffer(s: State)
    requires Init(s)
    ensures Buffered(s) && Exclusive(s)
  {
    assert s.buffer[..0] == [];
  }

  lemma InitAccounts(s: State)
    requires Init(s)
    ensures Accounts(s)
  {
    ZeroSum(Weights(s, ITEMS));
    ZeroSum(Weights(s, PLACES));
  }

  lemma {:induction false} ZeroSum(m: map<nat, nat>)
    requires forall t :: t in m ==> m[t] == 0
    ensures Sum(m) == 0
    decreases |m|
  {
    if m != map[] {
      var t :| t in m;
      SumSplit(m, t);
      ZeroSum(m - {t});
    }
  }

  // ---------------------------------------------------------------- what a step keeps

  lemma StepKeepsSemaphores(s: State, t: nat, s': State)
    requires Semaphore.Inv(s.sem) && Next(s, t, s')
    ensures Semaphore.Inv(s'.sem)
  {
    if DoBegin(s, t, s'.sem, s') {
      Semaphore.StepKeepsInv(s.sem, t, WaitsOn(s, t), Semaphore.Call(false), s'.sem);
    } else if DoUnlock(s, t, s'.sem, s') {
      Semaphore.StepKeepsInv(s.sem, t, PostsTo(s, t), Semaphore.Call(true), s'.sem);
    } else if k, kind :| DoSem(s, t, k, kind, s'.sem, s') {
      Semaphore.StepKeepsInv(s.sem, t, k, kind, s'.sem);
    }
  }

  lemma SemKeepsShape(s: State, t: nat, k: nat, kind: Semaphore.Kind, s': State)
    requires Shape(s) && DoSem(s, t, k, kind, s'.sem, s')
    ensures Shape(s')
  {
    Semaphore.InsideStep(s.sem, t, k, kind, s'.sem);
    forall x | x in s'.stage ensures Agrees(s'.stage[x], s'.sem.pc[x], WaitsOn(s', x), PostsTo(s', x)) {
      assert Agrees(s.stage[x], s.sem.pc[x], WaitsOn(s, x), PostsTo(s, x));
    }
  }

  /** The other steps. */
  ghost predicate Plain(s: State, t: nat, s': State) {
    || DoBegin(s, t, s'.sem, s') || DoExit(s, t, s') || DoReturn(s, t, s')
    || DoLock(s, t, s') || DoInsert(s, t, s') || DoRemove(s, t, s') || DoUnlock(s, t, s'.sem, s')
  }

  /** What a step of t leaves alone. */
  ghost predicate Framed(s: State, t: nat, s': State) {
    && At(s, t) && s'.producers == s.producers && s'.stage.Keys == s.stage.Keys && s'.sem.pc.Keys == s.sem.pc.Keys
    && (forall x :: x in s.stage && x in s.sem.pc && x != t ==>
          s'.stage[x] == s.stage[x] && s'.sem.pc[x] == s.sem.pc[x])
    && s'.sem.sems == s.sem.sems
  }

  lemma CallFrame(s: State, t: nat, s': State)
    requires DoBegin(s, t, s'.sem, s') || DoUnlock(s, t, s'.sem, s')
    ensures Framed(s, t, s')
  {
  }

  lemma BufferFrame(s: State, t: nat, s': State)
    requires DoInsert(s, t, s') || DoRemove(s, t, s')
    ensures Framed(s, t, s')
  {
  }

  lemma PlainFrame(s: State, t: nat, s': State)
    requires Plain(s, t, s')
    ensures Framed(s, t, s')
  {
    if DoBegin(s, t, s'.sem, s') || DoUnlock(s, t, s'.sem, s') {
      CallFrame(s, t, s');
    } else if DoInsert(s, t, s') || DoRemove(s, t, s') {
      BufferFrame(s, t, s');
    }
  }

  lemma PlainAgrees(s: State, t: nat, s': State)
    requires Shape(s) && Plain(s, t, s') && At(s', t)
    ensures Agrees(s'.stage[t], s'.sem.pc[t], WaitsOn(s, t), PostsTo(s, t))
  {
    assert Agrees(s.stage[t], s.sem.pc[t], WaitsOn(s, t), PostsTo(s, t));
  }

  lemma PlainKeepsShape(s: State, t: nat, s': State)
    requires Shape(s) && Plain(s, t, s')
    ensures Shape(s')
  {
    PlainFrame(s, t, s');
    PlainAgrees(s, t, s');
    forall x | x in s'.stage ensures Agrees(s'.stage[x], s'.sem.pc[x], WaitsOn(s', x), PostsTo(s', x)) {
      if x != t {
        assert Agrees(s.stage[x], s.sem.pc[x], WaitsOn(s, x), PostsTo(s, x));
      }
    }
  }

  function Weight(s: State, t: nat, k: nat): nat
    requires At(s, t)
  {
    if HoldsUp(t in s.producers, s.stage[t], s.sem.pc[t], k) then 1 else 0
  }

  lemma WeightsMove(s: State, t: nat, s': State, k: nat)
    requires s.stage.Keys == s.sem.pc.Keys == s'.stage.Keys == s'.sem.pc.Keys && t in s.stage
    requires forall x :: x in s.stage && x != t ==> Weight(s', x, k) == Weight(s, x, k)
    ensures Sum(Weights(s', k)) + Weight(s, t, k) == Sum(Weights(s, k)) + Weight(s', t, k)
  {
    assert Weights(s', k) == Weights(s, k)[t := Weight(s', t, k)];
    SumUpdate(Weights(s, k), t, Weight(s', t, k));
  }

  /** Semaphore steps: a count goes down as its thread takes, and up as it gives. */
  lemma SemKeepsAccounts(s: State, t: nat, k: nat, kind: Semaphore.Kind, s': State)
    requires Shape(s) && Accounts(s) && DoSem(s, t, k, kind, s'.sem, s') && Shape(s')
    ensures Accounts(s')
  {
    SemKeepsAccount(s, t, k, kind, s', PLACES);
    SemKeepsAccount(s, t, k, kind, s', ITEMS);
  }

  lemma SemKeepsAccount(s: State, t: nat, k: nat, kind: Semaphore.Kind, s': State, j: nat)
    requires Shape(s) && DoSem(s, t, k, kind, s'.sem, s') && Shape(s') && j < 2
    ensures s'.sem.sems[j].count + Sum(Weights(s', j)) == s.sem.sems[j].count + Sum(Weights(s, j))
  {
    Semaphore.InsideStep(s.sem, t, k, kind, s'.sem);
    SemWeight(s, t, k, kind, s', j);
    WeightsMove(s, t, s', j);
  }

  lemma SemWeight(s: State, t: nat, k: nat, kind: Semaphore.Kind, s': State, j: nat)
    requires Shape(s) && DoSem(s, t, k, kind, s'.sem, s') && Shape(s') && j < 2
    ensures Weight(s', t, j) + s'.sem.sems[j].count == Weight(s, t, j) + s.sem.sems[j].count
  {
    Semaphore.InsideStep(s.sem, t, k, kind, s'.sem);
    Semaphore.CountStep(s.sem, t, k, kind, s'.sem, j);
    assert Agrees(s.stage[t], s.sem.pc[t], WaitsOn(s, t), PostsTo(s, t));
  }

  /** At the buffer a place turns into an item or an item into a place. */
  lemma PlainKeepsAccounts(s: State, t: nat, s': State)
    requires Shape(s) && Accounts(s) && Buffered(s) && Plain(s, t, s')
    requires DoInsert(s, t, s') ==> s.index < N
    requires DoRemove(s, t, s') ==> 0 < s.index
    ensures s'.stage.Keys == s'.sem.pc.Keys && |s'.sem.sems| == 2 && Accounts(s')
  {
    PlainFrame(s, t, s');
    WeightsMove(s, t, s', PLACES);
    WeightsMove(s, t, s', ITEMS);
    PlainWeight(s, t, s');
  }

  lemma PlainWeight(s: State, t: nat, s': State)
    requires Shape(s) && Buffered(s) && Plain(s, t, s') && At(s', t)
    requires DoInsert(s, t, s') ==> s.index < N
    requires DoRemove(s, t, s') ==> 0 < s.index
    ensures Weight(s', t, ITEMS) - s'.index == Weight(s, t, ITEMS) - s.index
    ensures Weight(s', t, PLACES) + s'.index == Weight(s, t, PLACES) + s.index
  {
    assert Agrees(s.stage[t], s.sem.pc[t], WaitsOn(s, t), PostsTo(s, t));
  }

  /** A thread at the buffer holds a place or an item, so there is one. */
  lemma RoomAtAccess(s: State, t: nat)
    requires Inv(s) && At(s, t) && s.stage[t].Access?
    ensures t in s.producers ==> s.index < N
    ensures t !in s.producers ==> 0 < s.index
  {
    var k := if t in s.producers then PLACES else ITEMS;
    SumSplit(Weights(s, k), t);
    assert Weights(s, k)[t] == 1;
    assert Semaphore.CountOk(s.sem.sems[k]);
  }

  lemma PlainKeepsBuffer(s: State, t: nat, s': State)
    requires Buffered(s) && Plain(s, t, s')
    requires DoInsert(s, t, s') ==> s.index < N
    requires DoRemove(s, t, s') ==> 0 < s.index
    ensures Buffered(s')
  {
    if DoInsert(s, t, s') {
      InsertKeepsBuffer(s, t, s');
    } else if DoRemove(s, t, s') {
      RemoveKeepsBuffer(s, t, s');
    }
  }

  lemma InsertKeepsBuffer(s: State, t: nat, s': State)
    requires Buffered(s) && DoInsert(s, t, s') && s.index < N
    ensures Buffered(s')
  {
    assert s'.buffer[..s'.index] == s.buffer[..s.index] + [s.stage[t].i];
  }

  lemma RemoveKeepsBuffer(s: State, t: nat, s': State)
    requires Buffered(s) && DoRemove(s, t, s') && 0 < s.index
    ensures Buffered(s')
  {
    assert s.buffer[..s.index] == s'.buffer[..s'.index] + [s.buffer[s.index - 1]];
  }

  lemma PlainKeepsExclusive(s: State, t: nat, s': State)
    requires Exclusive(s) && Plain(s, t, s')
    ensures Exclusive(s')
  {
    PlainFrame(s, t, s');
    PlainLocks(s, t, s');
    forall x | x in s'.stage ensures (s'.stage[x].Access? || s'.stage[x].Unlocking?) <==> s'.mLock == Some(x) {
      if x != t {
        assert x in s.stage;
      }
    }
  }

  lemma PlainLocks(s: State, t: nat, s': State)
    requires Exclusive(s) && Plain(s, t, s') && At(s', t)
    ensures (s'.stage[t].Access? || s'.stage[t].Unlocking?) <==> s'.mLock == Some(t)
    ensures s'.mLock == s.mLock || (s.mLock.None? && s'.mLock == Some(t)) || (s.mLock == Some(t) && s'.mLock.None?)
  {
  }

  lemma StepKeepsInv(s: State, t: nat, s': State)
    requires Inv(s) && Next(s, t, s')
    ensures Inv(s')
  {
    StepKeepsSemaphores(s, t, s');
    if k, kind :| DoSem(s, t, k, kind, s'.sem, s') {
      SemKeepsShape(s, t, k, kind, s');
      SemKeepsAccounts(s, t, k, kind, s');
    } else {
      if At(s, t) && s.stage[t].Access? {
        RoomAtAccess(s, t);
      }
      PlainKeepsShape(s, t, s');
      PlainKeepsAccounts(s, t, s');
      PlainKeepsBuffer(s, t, s');
      PlainKeepsExclusive(s, t, s');
    }
  }

  lemma {:induction false} RunInv(states: seq<State>, i: nat)
    requires IsRun(states) && i < |states|
    ensures Inv(states[i])
  {
    if i == 0 {
      InitInv(states[0]);
    } else {
      RunInv(states, i - 1);
      assert SomeNext(states[i - 1], states[i - 1 + 1]);
      var t :| Next(states[i - 1], t, states[i]);
      StepKeepsInv(states[i - 1], t, states[i]);
    }
  }

  // ---------------------------------------------------------------- what the program promises

  /** In every run the buffer neither overflows nor underflows, and what was put
      in is what was taken out and what is still there. */
  lemma BufferSafe(states: seq<State>, i: nat)
    requires IsRun(states) && i < |states|
    ensures var s := states[i]; 0 <= s.index <= N && |s.buffer| == N && !s.overflow && !s.underflow
    ensures var s := states[i]; 0 <= s.index <= |s.buffer| ==> s.inserted == s.removed + multiset(s.buffer[..s.index])
  {
    RunInv(states, i);
  }

  /** In every run the two counts never exceed the size of the buffer. */
  lemma CountsBounded(states: seq<State>, i: nat)
    requires IsRun(states) && i < |states|
    ensures var s := states[i]; |s.sem.sems| == 2 && 0 <= s.sem.sems[PLACES].count && 0 <= s.sem.sems[ITEMS].count
    ensures var s := states[i]; |s.sem.sems| == 2 ==> s.sem.sems[PLACES].count + s.sem.sems[ITEMS].count <= N
  {
    RunInv(states, i);
    assert Semaphore.CountOk(states[i].sem.sems[PLACES]) && Semaphore.CountOk(states[i].sem.sems[ITEMS]);
  }
}
