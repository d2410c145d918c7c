/**
  extracredit_semaphore.c: what has gone through the buffer when the threads are done,
  for any number of producers and consumers.
*/
module BufferTotals {
  import opened Sums
  import opened BoundedBuffer
  import Semaphore

  /** How often a thread at this stage has been at the buffer. */
  function Visits(stage: Stage): nat {
    match stage
    case Top(i) => i
    case Waiting(i) => if 0 < i then i - 1 else 0
    case Locking(i) => if 0 < i then i - 1 else 0
    case Access(i) => if 0 < i then i - 1 else 0
    case Unlocking(i) => i
    case Posting(i) => i
    case Exited => N
  }

  /** i counts from 1 to N inside the loop. */
  predicate TurnOk(stage: Stage) {
    match stage
    case Top(i) => i <= N
    case Exited => true
    case _ => 1 <= stage.i <= N
  }

  /** 1 for each producer that has inserted v. */
  function Inserters(s: State, v: int): map<nat, nat> {
    map t | t in s.stage :: if t in s.producers && 1 <= v <= Visits(s.stage[t]) then 1 else 0
  }

  /** The visits of the producers, or of the consumers. */
  function VisitsOf(s: State, producers: bool): map<nat, nat> {
    map t | t in s.stage :: if (t in s.producers) == producers then Visits(s.stage[t]) else 0
  }

  /** The i-th visit of a producer inserts i, and each visit of a consumer removes an item. */
  ghost predicate Totals(s: State) {
    && (forall t :: t in s.stage ==> TurnOk(s.stage[t]))
    && (forall v :: s.inserted[v] == Sum(Inserters(s, v)))
    && |s.inserted| == Sum(VisitsOf(s, true)) && |s.removed| == Sum(VisitsOf(s, false))
  }

  // ---------------------------------------------------------------- what a step keeps

  /** Only the stage of t changes. */
  ghost predicate Moves(s: State, t: nat, s': State) {
    && t in s.stage && t in s'.stage && s'.producers == s.producers && s'.stage == s.stage[t := s'.stage[t]]
    && TurnOk(s'.stage[t])
  }

  lemma ShiftInserters(s: State, t: nat, s': State, v: int)
    requires Moves(s, t, s')
    ensures Sum(Inserters(s', v)) + Inserters(s, v)[t] == Sum(Inserters(s, v)) + Inserters(s', v)[t]
  {
    assert Inserters(s', v) == Inserters(s, v)[t := Inserters(s', v)[t]];
    SumUpdate(Inserters(s, v), t, Inserters(s', v)[t]);
  }

  lemma ShiftVisits(s: State, t: nat, s': State, b: bool)
    requires Moves(s, t, s')
    ensures Sum(VisitsOf(s', b)) + VisitsOf(s, b)[t] == Sum(VisitsOf(s, b)) + VisitsOf(s', b)[t]
  {
    assert VisitsOf(s', b) == VisitsOf(s, b)[t := VisitsOf(s', b)[t]];
    SumUpdate(VisitsOf(s, b), t, VisitsOf(s', b)[t]);
  }

  /** Steps that are not at the buffer. */
  lemma AwayKeeps(s: State, t: nat, s': State)
    requires Totals(s) && Away(s, t, s')
    ensures Totals(s')
  {
    forall v
      ensures s'.inserted[v] == Sum(Inserters(s', v))
    {
      ShiftInserters(s, t, s', v);
    }
    ShiftVisits(s, t, s', true);
    ShiftVisits(s, t, s', false);
  }

  /** A visit to the buffer. */
  ghost predicate Visit(s: State, t: nat, s': State) {
    Moves(s, t, s') && Visits(s.stage[t]) + 1 == Visits(s'.stage[t]) && s.stage[t].Access?
  }

  lemma InsertCounts(s: State, t: nat, s': State, v: int)
    requires Visit(s, t, s') && t in s.producers && TurnOk(s.stage[t]) && s.inserted[v] == Sum(Inserters(s, v))
    requires s'.inserted == s.inserted + multiset{s.stage[t].i}
    ensures s'.inserted[v] == Sum(Inserters(s', v))
  {
    ShiftInserters(s, t, s', v);
    assert s'.inserted[v] == s.inserted[v] + if v == s.stage[t].i then 1 else 0;
  }

  lemma InsertKeeps(s: State, t: nat, s': State)
    requires Totals(s) && Visit(s, t, s') && t in s.producers
    requires s'.inserted == s.inserted + multiset{s.stage[t].i} && s'.removed == s.removed
    ensures Totals(s')
  {
    forall v
      ensures s'.inserted[v] == Sum(Inserters(s', v))
    {
      InsertCounts(s, t, s', v);
    }
    assert |s'.inserted| == |s.inserted| + 1;
    ShiftVisits(s, t, s', true);
    ShiftVisits(s, t, s', false);
  }

  lemma RemoveKeeps(s: State, t: nat, s': State)
    requires Totals(s) && Visit(s, t, s') && t !in s.producers
    requires s'.inserted == s.inserted && |s'.removed| == |s.removed| + 1
    ensures Totals(s')
  {
    forall v
      ensures s'.inserted[v] == Sum(Inserters(s', v))
    {
      ShiftInserters(s, t, s', v);
    }
    ShiftVisits(s, t, s', true);
    ShiftVisits(s, t, s', false);
  }

  lemma InsertIs(s: State, t: nat, s': State)
    requires DoInsert(s, t, s') && 0 <= s.index < N && |s.buffer| == N && TurnOk(s.stage[t])
    ensures Visit(s, t, s') && s'.inserted == s.inserted + multiset{s.stage[t].i} && s'.removed == s.removed
  {
  }

  lemma RemoveIs(s: State, t: nat, s': State)
    requires DoRemove(s, t, s') && 0 < s.index <= |s.buffer| && TurnOk(s.stage[t])
    ensures Visit(s, t, s') && s'.inserted == s.inserted && |s'.removed| == |s.removed| + 1
  {
  }

  /** A step elsewhere. */
  ghost predicate Away(s: State, t: nat, s': State) {
    && Moves(s, t, s') && Visits(s'.stage[t]) == Visits(s.stage[t])
    && s'.inserted == s.inserted && s'.removed == s.removed
  }

  lemma CallIsAway(s: State, t: nat, s': State)
    requires (DoBegin(s, t, s'.sem, s') || DoUnlock(s, t, s'.sem, s')) && TurnOk(s.stage[t])
    ensures Away(s, t, s')
  {
  }

  lemma LocalIsAway(s: State, t: nat, s': State)
    requires (DoExit(s, t, s') || DoReturn(s, t, s') || DoLock(s, t, s')) && TurnOk(s.stage[t])
    ensures Away(s, t, s')
  {
  }

  lemma VisitKeeps(s: State, t: nat, s': State)
    requires Totals(s) && Buffered(s) && (DoInsert(s, t, s') || DoRemove(s, t, s'))
    requires if t in s.producers then s.index < N else 0 < s.index
    ensures Totals(s')
  {
    if t in s.producers {
      InsertIs(s, t, s');
      InsertKeeps(s, t, s');
    } else {
      RemoveIs(s, t, s');
      RemoveKeeps(s, t, s');
    }
  }

  lemma StepKeepsTotals(s: State, t: nat, s': State)
    requires Inv(s) && Totals(s) && Next(s, t, s')
    ensures Totals(s')
  {
    if k, kind :| DoSem(s, t, k, kind, s'.sem, s') {
      assert Away(s, t, s');
      AwayKeeps(s, t, s');
    } else if DoInsert(s, t, s') || DoRemove(s, t, s') {
      RoomAtAccess(s, t);
      VisitKeeps(s, t, s');
    } else {
      if DoBegin(s, t, s'.sem, s') || DoUnlock(s, t, s'.sem, s') {
        CallIsAway(s, t, s');
      } else {
        LocalIsAway(s, t, s');
      }
      AwayKeeps(s, t, s');
    }
  }

  lemma InitTotals(s: State)
    requires Init(s)
    ensures Totals(s)
  {
    forall v
      ensures Sum(Inserters(s, v)) == 0
    {
      ZeroSum(Inserters(s, v));
    }
    ZeroSum(VisitsOf(s, true));
    ZeroSum(VisitsOf(s, false));
  }

  lemma {:induction false} RunTotals(states: seq<State>, i: nat)
    requires IsRun(states) && i < |states|
    ensures Totals(states[i])
  {
    if i == 0 {
      InitTotals(states[0]);
    } else {
      RunTotals(states, i - 1);
      RunInv(states, i - 1);
      assert SomeNext(states[i - 1], states[i - 1 + 1]);
      var t :| Next(states[i - 1], t, states[i]);
      StepKeepsTotals(states[i - 1], t, states[i]);
    }
  }

  // ---------------------------------------------------------------- the end

  /** The threads of one kind. */
  function Threads(s: State, producers: bool): set<nat> {
    set t | t in s.stage && (t in s.producers) == producers
  }

  ghost predicate Ended(s: State) {
    forall t :: t in s.stage ==> s.stage[t].Exited?
  }

  lemma InsertedAll(s: State, v: int)
    requires Totals(s) && Ended(s)
    ensures s.inserted[v] == if 1 <= v <= N then |Threads(s, true)| else 0
  {
    SumAll(Inserters(s, v), if 1 <= v <= N then Threads(s, true) else {}, 1);
  }

  lemma VisitedAll(s: State)
    requires Totals(s) && Ended(s)
    ensures |s.inserted| == N * |Threads(s, true)| && |s.removed| == N * |Threads(s, false)|
  {
    SumAll(VisitsOf(s, true), Threads(s, true), N);
    SumAll(VisitsOf(s, false), Threads(s, false), N);
  }

  lemma Emptied(s: State)
    requires Buffered(s)
    ensures |s.inserted| == |s.removed| + s.index
    ensures s.index == 0 ==> s.removed == s.inserted
  {
    if s.index == 0 {
      assert s.buffer[..s.index] == [];
    }
  }

  /** When all threads have exited, each producer has inserted 1 to N and nothing else, each
      consumer has removed N items, and the rest is in the buffer: nothing, if there are as
      many of one kind as of the other. */
  lemma AllDone(states: seq<State>, i: nat)
    requires IsRun(states) && i < |states| && Ended(states[i])
    ensures var s := states[i]; forall v :: s.inserted[v] == if 1 <= v <= N then |Threads(s, true)| else 0
    ensures var s := states[i]; |s.removed| == N * |Threads(s, false)|
    ensures var s := states[i]; s.index == N * |Threads(s, true)| - N * |Threads(s, false)|
    ensures var s := states[i]; |Threads(s, true)| == |Threads(s, false)| ==> s.removed == s.inserted
  {
    var s := states[i];
    RunTotals(states, i);
    RunInv(states, i);
    forall v
      ensures s.inserted[v] == if 1 <= v <= N then |Threads(s, true)| else 0
    {
      InsertedAll(s, v);
    }
    VisitedAll(s);
    Emptied(s);
  }

  lemma {:induction false} SumAll(m: map<nat, nat>, keys: set<nat>, c: nat)
    requires keys <= m.Keys && forall k :: k in m ==> m[k] == if k in keys then c else 0
    ensures Sum(m) == c * |keys|
    decreases |m|
  {
    if k :| k in m {
      var rest := keys - {k};
      SumSplit(m, k);
      SumAll(m - {k}, rest, c);
      if k in keys {
        assert |rest| == |keys| - 1;
        TimesLess(c, |keys|);
      } else {
        assert rest == keys;
      }
    } else {
      assert m == map[] && keys == {};
    }
  }
}
