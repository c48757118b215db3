/** Starting background jobs against closing the library (serverjobs.go, waxbin.go), as a state
    machine over the steps of any number of starters, jobs and closers. */
module JobDrain {
  import opened Common

  /** A start: before the lock, holding it, past the closed check with it, its job handed to the
      wait group with it, then waiting on its channel, and answered; or refused. */
  datatype StartPc = Fresh | Locked | Passed | Spawned | Waiting | Answered | Refused

  /** The job's goroutine: in the job runner before its body, in the body, back from the runner
      with its outcome sent, and gone from the wait group. */
  datatype JobPc = NoJob | Entering | InBody | Leaving | Gone

  datatype Outcome = Started | NotStarted

  /** entered says that the job's body was called; the start has been sent that many outcomes. */
  datatype Start = Start(pc: StartPc, job: JobPc, entered: bool, channel: seq<Outcome>, sent: nat, got: seq<Outcome>)

  /** A close: before the lock, holding it, the flag set with it, draining, drained, and done. */
  datatype ClosePc = Open | Holding | Flagged | Draining | Drained | Closed

  datatype Owner = Nobody | Starter(i: nat) | Closer(j: nat)

  datatype State = State(lock: Owner, closed: bool, wg: nat, storeOpen: bool,
                         starts: map<nat, Start>, closes: map<nat, ClosePc>)

  datatype Step =
    | Arrive(i: nat) | TakeLock(i: nat) | PassCheck(i: nat) | Refuse(i: nat) | Spawn(i: nat) | Unlock(i: nat)
    | Receive(i: nat)
    | FailRun(i: nat) | EnterBody(i: nat) | LeaveBody(i: nat) | Finish(i: nat)
    | ArriveClose(j: nat) | LockClose(j: nat) | SetFlag(j: nat) | UnlockClose(j: nat) | Drain(j: nat)
    | CloseStore(j: nat)

  const START := State(Nobody, false, 0, true, map[], map[])
  const FRESH := Start(Fresh, NoJob, false, [], 0, [])

  // ---------------------------------------------------------------------------
  // The steps
  // ---------------------------------------------------------------------------

  predicate StartAt(s: State, i: nat, pc: StartPc) {
    i in s.starts && s.starts[i].pc == pc
  }

  predicate JobAt(s: State, i: nat, pc: JobPc) {
    i in s.starts && s.starts[i].job == pc
  }

  predicate CloseAt(s: State, j: nat, pc: ClosePc) {
    j in s.closes && s.closes[j] == pc
  }

  predicate Enabled(s: State, t: Step) {
    match t
    case Arrive(i) => i !in s.starts
    case TakeLock(i) => StartAt(s, i, Fresh) && s.lock == Nobody
    case PassCheck(i) => StartAt(s, i, Locked) && !s.closed
    case Refuse(i) => StartAt(s, i, Locked) && s.closed
    case Spawn(i) => StartAt(s, i, Passed)
    case Unlock(i) => StartAt(s, i, Spawned)
    case Receive(i) => StartAt(s, i, Waiting) && s.starts[i].channel != []
    case FailRun(i) => JobAt(s, i, Entering)
    case EnterBody(i) => JobAt(s, i, Entering)
    case LeaveBody(i) => JobAt(s, i, InBody)
    case Finish(i) => JobAt(s, i, Leaving)
    case ArriveClose(j) => j !in s.closes
    case LockClose(j) => CloseAt(s, j, Open) && s.lock == Nobody
    case SetFlag(j) => CloseAt(s, j, Holding)
    case UnlockClose(j) => CloseAt(s, j, Flagged)
    case Drain(j) => CloseAt(s, j, Draining) && s.wg == 0
    case CloseStore(j) => CloseAt(s, j, Drained)
  }

  function Move(s: State, i: nat, pc: StartPc): State
    requires i in s.starts
  {
    s.(starts := s.starts[i := s.starts[i].(pc := pc)])
  }

  /** A job sends its outcome as it enters its body, or on leaving a runner that never called it. */
  function Send(a: Start, o: Outcome): Start {
    a.(channel := a.channel + [o], sent := a.sent + 1)
  }

  function Apply(s: State, t: Step): State
    requires Enabled(s, t)
  {
    match t
    case Arrive(i) => s.(starts := s.starts[i := FRESH])
    case TakeLock(i) => Move(s, i, Locked).(lock := Starter(i))
    case PassCheck(i) => Move(s, i, Passed)
    case Refuse(i) => Move(s, i, Refused).(lock := Nobody)
    case Spawn(i) => s.(wg := s.wg + 1, starts := s.starts[i := s.starts[i].(pc := Spawned, job := Entering)])
    case Unlock(i) => Move(s, i, Waiting).(lock := Nobody)
    case Receive(i) =>
      var a := s.starts[i];
      s.(starts := s.starts[i := a.(pc := Answered, channel := a.channel[1..], got := a.got + [a.channel[0]])])
    case FailRun(i) => s.(starts := s.starts[i := Send(s.starts[i], NotStarted).(job := Leaving)])
    case EnterBody(i) => s.(starts := s.starts[i := Send(s.starts[i], Started).(job := InBody, entered := true)])
    case LeaveBody(i) => s.(starts := s.starts[i := s.starts[i].(job := Leaving)])
    case Finish(i) =>
      s.(wg := if s.wg > 0 then s.wg - 1 else 0, starts := s.starts[i := s.starts[i].(job := Gone)])
    case ArriveClose(j) => s.(closes := s.closes[j := Open])
    case LockClose(j) => s.(lock := Closer(j), closes := s.closes[j := Holding])
    case SetFlag(j) => s.(closed := true, closes := s.closes[j := Flagged])
    case UnlockClose(j) => s.(lock := Nobody, closes := s.closes[j := Draining])
    case Drain(j) => s.(closes := s.closes[j := Drained])
    case CloseStore(j) => s.(storeOpen := false, closes := s.closes[j := Closed])
  }

  /** Where an interleaving leads, if each of its steps can be taken. */
  function After(s: State, run: seq<Step>): Option<State> {
    if run == [] then Some(s)
    else
      match After(s, run[..|run| - 1])
      case None => None
      case Some(s0) => if Enabled(s0, run[|run| - 1]) then Some(Apply(s0, run[|run| - 1])) else None
  }

  predicate Reached(run: seq<Step>, s: State) {
    After(START, run) == Some(s)
  }

  // ---------------------------------------------------------------------------
  // What every interleaving keeps
  // ---------------------------------------------------------------------------

  predicate Live(a: Start) {
    a.job == Entering || a.job == InBody || a.job == Leaving
  }

  function LiveJobs(starts: map<nat, Start>): set<nat> {
    set i | i in starts && Live(starts[i])
  }

  /** One start's own account: its job's place fits its own, and the one outcome is on its way
      exactly from the moment the job sends it until the start takes it. */
  predicate StartFits(s: State, i: nat, a: Start) {
    && (a.pc == Locked || a.pc == Passed || a.pc == Spawned <==> s.lock == Starter(i))
    && (a.pc == Passed || a.pc == Spawned ==> !s.closed)
    && (a.job == NoJob <==> a.pc == Fresh || a.pc == Locked || a.pc == Passed || a.pc == Refused)
    && a.sent == (if a.job == NoJob || a.job == Entering then 0 else 1)
    && (a.job == InBody ==> a.entered) && (a.job == NoJob || a.job == Entering ==> !a.entered)
    && a.got + a.channel == (if a.sent == 0 then [] else [if a.entered then Started else NotStarted])
    && (a.pc == Answered <==> |a.got| == 1)
  }

  predicate CloseFits(s: State, j: nat, pc: ClosePc) {
    && (pc == Holding || pc == Flagged <==> s.lock == Closer(j))
    && (pc == Flagged || pc == Draining || pc == Drained || pc == Closed ==> s.closed)
    && (pc == Drained || pc == Closed ==> LiveJobs(s.starts) == {})
  }

  ghost predicate Inv(s: State) {
    && (forall i :: i in s.starts ==> StartFits(s, i, s.starts[i]))
    && (forall j :: j in s.closes ==> CloseFits(s, j, s.closes[j]))
    && (s.lock.Starter? ==> s.lock.i in s.starts)
    && (s.lock.Closer? ==> s.lock.j in s.closes)
    && s.wg == |LiveJobs(s.starts)|
    && (!s.storeOpen ==> s.closed && LiveJobs(s.starts) == {})
  }

  lemma LiveJobsUpdate(starts: map<nat, Start>, i: nat, a: Start)
    ensures LiveJobs(starts[i := a])
         == if Live(a) then LiveJobs(starts) + {i} else LiveJobs(starts) - {i}
  {}

  lemma LiveCountStep(starts: map<nat, Start>, i: nat, a: Start)
    ensures var was, jobs, jobs' := i in starts && Live(starts[i]), LiveJobs(starts), LiveJobs(starts[i := a]);
            && |jobs'| == |jobs| + (if Live(a) && !was then 1 else 0) - (if was && !Live(a) then 1 else 0)
            && (jobs == {} && !Live(a) ==> jobs' == {})
            && (was ==> jobs != {})
  {
    LiveJobsUpdate(starts, i, a);
    assert i in LiveJobs(starts) <==> i in starts && Live(starts[i]);
  }

  /** What a step of one start, or of its job, may do: change that start alone, take or give up
      the lock for it, and count its job in or out. */
  lemma StartStepKeeps(s: State, s': State, i: nat, a: Start)
    requires Inv(s) && s'.starts == s.starts[i := a] && StartFits(s', i, a)
    requires s'.closes == s.closes && s'.closed == s.closed && s'.storeOpen == s.storeOpen
    requires s'.lock == s.lock || (s.lock in {Nobody, Starter(i)} && s'.lock in {Nobody, Starter(i)})
    requires var was := i in s.starts && Live(s.starts[i]);
             && s'.wg == s.wg + (if Live(a) && !was then 1 else 0) - (if was && !Live(a) then 1 else 0)
             && (Live(a) && !was ==> !s.closed)
    ensures Inv(s')
  {
    hide LiveJobs, Live;
    LiveCountStep(s.starts, i, a);
    forall k | k in s'.starts ensures StartFits(s', k, s'.starts[k]) {
      if k != i {
        assert StartFits(s, k, s.starts[k]);
      }
    }
    forall j | j in s'.closes ensures CloseFits(s', j, s'.closes[j]) {
      assert CloseFits(s, j, s.closes[j]);
    }
  }

  /** What a step of one close may do: change that close alone, take or give up the lock for it,
      set the flag, and close a store nothing runs on. */
  lemma CloseStepKeeps(s: State, s': State, j: nat, pc: ClosePc)
    requires Inv(s) && s'.closes == s.closes[j := pc] && CloseFits(s', j, pc)
    requires s'.starts == s.starts && s'.wg == s.wg
    requires s'.lock == s.lock || (s.lock in {Nobody, Closer(j)} && s'.lock in {Nobody, Closer(j)})
    requires (s.closed ==> s'.closed) && (s'.closed && !s.closed ==> s.lock == Closer(j))
    requires s'.storeOpen || !s.storeOpen || (s'.closed && LiveJobs(s.starts) == {})
    requires !s'.storeOpen || s.storeOpen
    ensures Inv(s')
  {
    hide LiveJobs, Live;
    forall k | k in s'.starts ensures StartFits(s', k, s'.starts[k]) {
      assert StartFits(s, k, s.starts[k]);
    }
    forall k | k in s'.closes ensures CloseFits(s', k, s'.closes[k]) {
      if k != j {
        assert CloseFits(s, k, s.closes[k]);
      }
    }
  }

  lemma LiveCounted(s: State, i: nat)
    requires Inv(s) && i in s.starts && Live(s.starts[i])
    ensures s.wg > 0
  {
    assert i in LiveJobs(s.starts);
  }

  /** What the invariant says of one start and of one close. */
  lemma InvAtStart(s: State, i: nat)
    requires Inv(s)
    ensures i in s.starts ==> StartFits(s, i, s.starts[i])
    ensures s.lock == Starter(i) ==> i in s.starts
  {}

  lemma InvAtClose(s: State, j: nat)
    requires Inv(s)
    ensures j in s.closes ==> CloseFits(s, j, s.closes[j])
    ensures s.lock == Closer(j) ==> j in s.closes
    ensures s.wg == 0 <==> LiveJobs(s.starts) == {}
  {}

  lemma KeepsInvByStart(s: State, t: Step)
    requires Inv(s) && Enabled(s, t)
    requires t.Arrive? || t.TakeLock? || t.PassCheck? || t.Refuse? || t.Spawn? || t.Unlock? || t.Receive?
    ensures Inv(Apply(s, t))
  {
    hide Inv, StartFits;
    var s' := Apply(s, t);
    StartStepArranged(s, t);
    StartStepKeeps(s, s', t.i, s'.starts[t.i]);
  }

  lemma StartStepArranged(s: State, t: Step)
    requires Inv(s) && Enabled(s, t)
    requires t.Arrive? || t.TakeLock? || t.PassCheck? || t.Refuse? || t.Spawn? || t.Unlock? || t.Receive?
    ensures var s' := Apply(s, t);
            && t.i in s'.starts && StartFits(s', t.i, s'.starts[t.i])
            && (s'.lock == s.lock || (s.lock in {Nobody, Starter(t.i)} && s'.lock in {Nobody, Starter(t.i)}))
            && (t.i in s.starts && Live(s.starts[t.i]) ==> Live(s'.starts[t.i]))
            && (Live(s'.starts[t.i]) && !(t.i in s.starts && Live(s.starts[t.i])) <==> t.Spawn?)
            && (t.Spawn? ==> !s.closed)
  {
    hide Inv, LiveJobs;
    InvAtStart(s, t.i);
  }

  lemma KeepsInvByJob(s: State, t: Step)
    requires Inv(s) && Enabled(s, t) && (t.FailRun? || t.EnterBody? || t.LeaveBody? || t.Finish?)
    ensures Inv(Apply(s, t))
  {
    hide Inv, LiveJobs;
    var s' := Apply(s, t);
    InvAtStart(s, t.i);
    LiveCounted(s, t.i);
    assert StartFits(s', t.i, s'.starts[t.i]);
    hide StartFits;
    StartStepKeeps(s, s', t.i, s'.starts[t.i]);
  }

  lemma KeepsInvByClose(s: State, t: Step)
    requires Inv(s) && Enabled(s, t)
    requires t.ArriveClose? || t.LockClose? || t.SetFlag? || t.UnlockClose? || t.Drain? || t.CloseStore?
    ensures Inv(Apply(s, t))
  {
    hide Inv, LiveJobs;
    var s' := Apply(s, t);
    InvAtClose(s, t.j);
    assert CloseFits(s', t.j, s'.closes[t.j]);
    CloseStepKeeps(s, s', t.j, s'.closes[t.j]);
  }

  /** Every step keeps the invariant. */
  lemma KeepsInv(s: State, t: Step)
    requires Inv(s) && Enabled(s, t)
    ensures Inv(Apply(s, t))
  {
    hide Inv, Enabled, Apply;
    if t.FailRun? || t.EnterBody? || t.LeaveBody? || t.Finish? {
      KeepsInvByJob(s, t);
    } else if t.ArriveClose? || t.LockClose? || t.SetFlag? || t.UnlockClose? || t.Drain? || t.CloseStore? {
      KeepsInvByClose(s, t);
    } else {
      KeepsInvByStart(s, t);
    }
  }

  lemma {:induction false} ReachedKeepsInv(run: seq<Step>, s: State)
    requires Reached(run, s)
    ensures Inv(s)
  {
    hide Inv, Enabled, Apply;
    if run == [] {
      StartInv();
    } else {
      var s0 := After(START, run[..|run| - 1]).value;
      ReachedKeepsInv(run[..|run| - 1], s0);
      KeepsInv(s0, run[|run| - 1]);
    }
  }

  lemma StartInv()
    ensures Inv(START)
  {
    assert LiveJobs(map[]) == {};
  }

  /** In every interleaving: no job's body, nor anything else of its run, is under way once the
      store is closed; and every start has at most one outcome sent, on its channel or taken. */
  lemma NoJobOutlivesTheStore(run: seq<Step>, s: State, i: nat)
    requires Reached(run, s) && i in s.starts
    ensures !s.storeOpen ==> !Live(s.starts[i])
    ensures s.starts[i].sent <= 1 && |s.starts[i].channel| + |s.starts[i].got| == s.starts[i].sent
    ensures s.starts[i].job == Gone || s.starts[i].job == Leaving ==> s.starts[i].sent == 1
    ensures s.starts[i].pc == Answered ==> |s.starts[i].got| == 1
    ensures s.starts[i].pc == Answered ==> s.starts[i].got == [if s.starts[i].entered then Started else NotStarted]
  {
    ReachedKeepsInv(run, s);
    assert StartFits(s, i, s.starts[i]);
    assert i in LiveJobs(s.starts) <==> Live(s.starts[i]);
  }

  /** A send never blocks: its channel, of one place, is empty. */
  lemma SendsDoNotBlock(run: seq<Step>, s: State, i: nat)
    requires Reached(run, s) && (Enabled(s, EnterBody(i)) || Enabled(s, FailRun(i)))
    ensures s.starts[i].channel == [] && s.starts[i].got == []
  {
    hide Apply, After, Inv, LiveJobs;
    ReachedKeepsInv(run, s);
    InvAtStart(s, i);
  }

  /** Once the flag is set no start gets past the check, so every start that comes to it is
      refused. */
  lemma ClosedRefuses(run: seq<Step>, s: State, i: nat)
    requires Reached(run, s) && s.closed
    ensures !Enabled(s, PassCheck(i)) && !Enabled(s, Spawn(i))
    ensures StartAt(s, i, Locked) ==> Enabled(s, Refuse(i))
  {
    hide Apply, After, Inv, LiveJobs;
    ReachedKeepsInv(run, s);
    InvAtStart(s, i);
  }

  /** A start without a job stays without one once the flag is set. */
  lemma ClosedKeepsJobless(s: State, t: Step, i: nat)
    requires Inv(s) && s.closed && Enabled(s, t) && (i in s.starts ==> s.starts[i].job == NoJob)
    ensures Apply(s, t).closed && (i in Apply(s, t).starts ==> Apply(s, t).starts[i].job == NoJob)
  {
    hide Inv, LiveJobs;
    InvAtStart(s, i);
  }

  /** So a start not past the check when the flag is set never has a job, however the run goes on. */
  lemma {:induction false} LateStartsNeverRun(run: seq<Step>, s: State, more: seq<Step>, s': State, i: nat)
    requires Reached(run, s) && s.closed && After(s, more) == Some(s')
    requires i in s.starts ==> s.starts[i].job == NoJob
    ensures Inv(s') && s'.closed && (i in s'.starts ==> s'.starts[i].job == NoJob)
  {
    hide Inv, Enabled, Apply;
    ReachedKeepsInv(run, s);
    if more != [] {
      var s0 := After(s, more[..|more| - 1]).value;
      LateStartsNeverRun(run, s, more[..|more| - 1], s0, i);
      KeepsInv(s0, more[|more| - 1]);
      ClosedKeepsJobless(s0, more[|more| - 1], i);
    }
  }

  /** Once every job is gone a start still waiting has its outcome to take. */
  lemma WaitersAreAnswered(run: seq<Step>, s: State, i: nat)
    requires Reached(run, s) && StartAt(s, i, Waiting) && !Live(s.starts[i])
    ensures Enabled(s, Receive(i))
  {
    hide Apply, After, Inv, LiveJobs;
    ReachedKeepsInv(run, s);
    InvAtStart(s, i);
  }

  /** Nobody is stuck: whoever holds the lock can go on, whoever wants it can take it when it is free,
      every job can take its next step, and a close goes through once no job is left. */
  lemma StartsNotStuck(run: seq<Step>, s: State, i: nat)
    requires Reached(run, s)
    ensures s.lock == Starter(i) ==>
              Enabled(s, PassCheck(i)) || Enabled(s, Refuse(i)) || Enabled(s, Spawn(i)) || Enabled(s, Unlock(i))
    ensures s.lock == Nobody && i in s.starts && s.starts[i].pc == Fresh ==> Enabled(s, TakeLock(i))
    ensures i in s.starts && s.starts[i].job == Entering ==> Enabled(s, EnterBody(i)) && Enabled(s, FailRun(i))
    ensures i in s.starts && s.starts[i].job == InBody ==> Enabled(s, LeaveBody(i))
    ensures i in s.starts && s.starts[i].job == Leaving ==> Enabled(s, Finish(i))
  {
    hide Apply, After, Inv, LiveJobs;
    ReachedKeepsInv(run, s);
    InvAtStart(s, i);
  }

  lemma ClosesNotStuck(run: seq<Step>, s: State, j: nat)
    requires Reached(run, s)
    ensures s.lock == Closer(j) ==> Enabled(s, SetFlag(j)) || Enabled(s, UnlockClose(j))
    ensures s.lock == Nobody && j in s.closes && s.closes[j] == Open ==> Enabled(s, LockClose(j))
    ensures j in s.closes && s.closes[j] == Draining && (forall k :: k in s.starts ==> !Live(s.starts[k])) ==>
              Enabled(s, Drain(j))
    ensures j in s.closes && s.closes[j] == Drained ==> Enabled(s, CloseStore(j))
  {
    hide Apply, After, Inv;
    ReachedKeepsInv(run, s);
    InvAtClose(s, j);
    if forall k :: k in s.starts ==> !Live(s.starts[k]) {
      assert LiveJobs(s.starts) == {};
    }
  }

  /** A start gets past the check only before the flag, and is refused only after it. */
  lemma CheckMeans(s: State, i: nat)
    ensures i in s.starts && s.starts[i].pc == Locked ==>
              (Enabled(s, PassCheck(i)) <==> !s.closed) && (Enabled(s, Refuse(i)) <==> s.closed)
  {}

  /** One more step of a run. */
  lemma {:induction false} Then(run: seq<Step>, s: State, t: Step)
    requires Reached(run, s) && Enabled(s, t)
    ensures Reached(run + [t], Apply(s, t))
  {
    hide Enabled, Apply;
    var more := run + [t];
    assert more[..|more| - 1] == run && more[|more| - 1] == t;
    assert Reached(more, Apply(s, t));
  }

  /** A job started, entered and answered. */
  lemma StartedRun() returns (run: seq<Step>, s: State)
    ensures Reached(run, s)
    ensures s == State(Nobody, false, 1, true, map[0 := Start(Answered, InBody, true, [], 1, [Started])], map[])
  {
    hide After;
    run, s := Begun();
    Then(run, s, Arrive(0));
    run, s := run + [Arrive(0)], Apply(s, Arrive(0));
    Then(run, s, TakeLock(0));
    run, s := run + [TakeLock(0)], Apply(s, TakeLock(0));
    Then(run, s, PassCheck(0));
    run, s := run + [PassCheck(0)], Apply(s, PassCheck(0));
    Then(run, s, Spawn(0));
    run, s := run + [Spawn(0)], Apply(s, Spawn(0));
    Then(run, s, Unlock(0));
    run, s := run + [Unlock(0)], Apply(s, Unlock(0));
    Then(run, s, EnterBody(0));
    run, s := run + [EnterBody(0)], Apply(s, EnterBody(0));
    Then(run, s, Receive(0));
    run, s := run + [Receive(0)], Apply(s, Receive(0));
    assert s.starts[0] == Start(Answered, InBody, true, [], 1, [Started]);
    assert s.starts == map[0 := s.starts[0]];
  }

  lemma Begun() returns (run: seq<Step>, s: State)
    ensures Reached(run, s) && s == START
  {
    run, s := [], START;
  }

  /** The flag set while that job runs, and a later start refused. */
  lemma FlaggedRun() returns (run: seq<Step>, s: State)
    ensures Reached(run, s)
    ensures s == State(Nobody, true, 1, true,
                       map[0 := Start(Answered, InBody, true, [], 1, [Started]),
                           1 := Start(Refused, NoJob, false, [], 0, [])],
                       map[0 := Draining])
  {
    hide After;
    run, s := StartedRun();
    Then(run, s, ArriveClose(0));
    run, s := run + [ArriveClose(0)], Apply(s, ArriveClose(0));
    Then(run, s, LockClose(0));
    run, s := run + [LockClose(0)], Apply(s, LockClose(0));
    Then(run, s, SetFlag(0));
    run, s := run + [SetFlag(0)], Apply(s, SetFlag(0));
    Then(run, s, UnlockClose(0));
    run, s := run + [UnlockClose(0)], Apply(s, UnlockClose(0));
    Then(run, s, Arrive(1));
    run, s := run + [Arrive(1)], Apply(s, Arrive(1));
    Then(run, s, TakeLock(1));
    run, s := run + [TakeLock(1)], Apply(s, TakeLock(1));
    Then(run, s, Refuse(1));
    run, s := run + [Refuse(1)], Apply(s, Refuse(1));
  }

  /** A whole run: a job started and answered, the library closed while it runs, a later start refused,
      and the store closed once the job is gone and not before. */
  lemma WholeRun() returns (run: seq<Step>, s: State)
    ensures Reached(run, s) && !s.storeOpen && s.closed && s.wg == 0 && 0 in s.closes && s.closes[0] == Closed
    ensures 0 in s.starts && s.starts[0] == Start(Answered, Gone, true, [], 1, [Started])
    ensures 1 in s.starts && s.starts[1] == Start(Refused, NoJob, false, [], 0, [])
  {
    hide After;
    run, s := FlaggedRun();
    assert !Enabled(s, Drain(0));
    Then(run, s, LeaveBody(0));
    run, s := run + [LeaveBody(0)], Apply(s, LeaveBody(0));
    Then(run, s, Finish(0));
    run, s := run + [Finish(0)], Apply(s, Finish(0));
    Then(run, s, Drain(0));
    run, s := run + [Drain(0)], Apply(s, Drain(0));
    Then(run, s, CloseStore(0));
    run, s := run + [CloseStore(0)], Apply(s, CloseStore(0));
  }
}
