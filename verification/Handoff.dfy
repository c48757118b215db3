/** The maintenance hand-off of serve.go: suspending, reopening, and the hooks a host hears,
    with a failure allowed at every step. */
module Handoff {

  /** What the hooks heard. A reopen carries the feed position to resume from and whether the
      catalog was replaced. */
  datatype Hook = OnSuspend | OnReopen(seq_: nat, replaced: bool)

  datatype Config = Config(hasSuspend: bool, hasReopen: bool, readOnly: bool)

  /** head is the change feed's last position, rows the positions of the catalog rows this
      process appended, and replacements how often the store said the catalog was replaced. */
  datatype State = State(open: bool, owed: bool, replaced: bool, head: nat,
                         rows: seq<nat>, replacements: nat, trace: seq<Hook>)

  /** A library opened on a catalog whose feed stands at head. */
  function Opened(head: nat): State {
    State(true, false, false, head, [], 0, [])
  }

  // What the collaborators answer. A store call fails while the store is closed, whatever is
  // written here.
  datatype FinishEnv = FinishEnv(rootsOk: bool, noteOk: bool)
  datatype StoreReopen = ReopenFails | ReopenAnswers(replaced: bool, head: nat)
  datatype ReopenEnv = ReopenEnv(store: StoreReopen, finish: FinishEnv)
  datatype JobAnswer = Idle | Running | Unknown
  datatype BeginEnv = BeginEnv(finish: FinishEnv, firstJob: JobAnswer, headOk: bool, hookWrites: nat,
                               secondJob: JobAnswer, suspendOk: bool, reopen: ReopenEnv)

  /** Between the calls the host writes, while the store is open. */
  datatype Op = BeginMaintenance(begin: BeginEnv) | Reopen(reopen: ReopenEnv) | HostWrites(n: nat)

  // ---------------------------------------------------------------------------
  // Specification: what each call does to the state
  // ---------------------------------------------------------------------------

  function Heard(s: State, present: bool, h: Hook): State {
    if present then s.(trace := s.trace + [h]) else s
  }

  predicate CanFinish(s: State, e: FinishEnv) {
    s.open && e.rootsOk && e.noteOk
  }

  function Finished(c: Config, s: State, e: FinishEnv): State {
    if !s.owed || !CanFinish(s, e) then s
    else
      var s1 := if s.replaced then s.(head := s.head + 1, rows := s.rows + [s.head + 1]) else s;
      Heard(s1.(owed := false, replaced := false), c.hasReopen, OnReopen(s1.head, s.replaced))
  }

  function Reopened(c: Config, s: State, e: ReopenEnv): State {
    if c.readOnly || e.store.ReopenFails? then s
    else if s.open then Finished(c, s, e.finish)
    else
      var n := if e.store.replaced then 1 else 0;
      Finished(c, s.(open := true, owed := true, replaced := s.replaced || e.store.replaced,
                     head := e.store.head, replacements := s.replacements + n), e.finish)
  }

  /** OnSuspend heard, the second job check passed or answered. */
  function HookRun(c: Config, s: State, e: BeginEnv): State {
    if !c.hasSuspend then s
    else
      var s1 := Heard(s.(head := s.head + e.hookWrites), true, OnSuspend);
      if e.secondJob == Idle then s1 else Heard(s1, c.hasReopen, OnReopen(s.head, false))
  }

  function Suspended(c: Config, s: State, e: BeginEnv): State {
    if e.suspendOk then s.(open := false) else Reopened(c, s.(open := false), e.reopen)
  }

  function Begun(c: Config, s: State, e: BeginEnv): State {
    var s1 := Finished(c, s, e.finish);
    if s1.owed || !s1.open || e.firstJob != Idle || (c.hasSuspend && !e.headOk) then s1
    else
      var s2 := HookRun(c, s1, e);
      if c.hasSuspend && e.secondJob != Idle then s2 else Suspended(c, s2, e)
  }

  /** When a hand-off goes through: the store is open, what is owed is paid, no job runs, before the
      hook or after it, the position can be read, and the store lets go. */
  predicate HandsOff(c: Config, s: State, e: BeginEnv) {
    && s.open && (s.owed ==> e.finish.rootsOk && e.finish.noteOk)
    && e.firstJob == Idle && (c.hasSuspend ==> e.headOk && e.secondJob == Idle)
    && e.suspendOk
  }

  function Step(c: Config, s: State, op: Op): State {
    match op
    case BeginMaintenance(e) => Begun(c, s, e)
    case Reopen(e) => Reopened(c, s, e)
    case HostWrites(n) => if s.open then s.(head := s.head + n) else s
  }

  function Run(c: Config, s: State, ops: seq<Op>): State {
    if ops == [] then s else Step(c, Run(c, s, ops[..|ops| - 1]), ops[|ops| - 1])
  }

  // ---------------------------------------------------------------------------
  // The calls, step by step
  // ---------------------------------------------------------------------------

  class Library {
    const config: Config
    var open: bool
    var reopenOwed: bool
    var reopenReplaced: bool
    var head: nat
    var rows: seq<nat>
    var replacements: nat
    var trace: seq<Hook>

    function View(): State
      reads this
    {
      State(open, reopenOwed, reopenReplaced, head, rows, replacements, trace)
    }

    constructor (config: Config, head: nat)
      ensures this.config == config && View() == Opened(head)
    {
      this.config, this.head := config, head;
      open, reopenOwed, reopenReplaced := true, false, false;
      rows, replacements, trace := [], 0, [];
    }

    method RefuseRunningJob(answer: JobAnswer) returns (ok: bool)
      ensures ok <==> open && answer == Idle
    {
      ok := open && answer == Idle;
    }

    method FinishReopenLocked(e: FinishEnv) returns (ok: bool)
      modifies this
      ensures View() == Finished(config, old(View()), e)
      ensures ok <==> !reopenOwed
    {
      if !reopenOwed {
        return true;
      }
      if !(open && e.rootsOk) {
        return false;
      }
      if !(open && e.noteOk) {
        return false;
      }
      if reopenReplaced {
        head := head + 1;
        rows := rows + [head];
      }
      var ev := OnReopen(head, reopenReplaced);
      reopenOwed, reopenReplaced := false, false;
      if config.hasReopen {
        trace := trace + [ev];
      }
      return true;
    }

    method DoReopen(e: ReopenEnv) returns (ok: bool)
      modifies this
      ensures View() == Reopened(config, old(View()), e)
      ensures ok <==> !config.readOnly && e.store.ReopenAnswers? && !reopenOwed
    {
      if config.readOnly {
        return false;
      }
      match e.store
      case ReopenFails =>
        return false;
      case ReopenAnswers(catalogReplaced, newHead) =>
        if !open {
          open, head := true, newHead;
          replacements := replacements + if catalogReplaced then 1 else 0;
          reopenOwed := true;
          reopenReplaced := reopenReplaced || catalogReplaced;
        }
        ok := FinishReopenLocked(e.finish);
    }

    method DoBeginMaintenance(e: BeginEnv) returns (ok: bool)
      modifies this
      ensures View() == Begun(config, old(View()), e)
      ensures ok ==> !open && !reopenOwed
      ensures ok <==> HandsOff(config, old(View()), e)
    {
      var finished := FinishReopenLocked(e.finish);
      if !finished {
        return false;
      }
      var idle := RefuseRunningJob(e.firstJob);
      if !idle {
        return false;
      }
      if config.hasSuspend {
        if !e.headOk {
          return false;
        }
        var before := head;
        trace := trace + [OnSuspend];
        head := head + e.hookWrites;
        idle := RefuseRunningJob(e.secondJob);
        if !idle {
          if config.hasReopen {
            trace := trace + [OnReopen(before, false)];
          }
          return false;
        }
      }
      open := false;
      if !e.suspendOk {
        var _ := DoReopen(e.reopen);
        return false;
      }
      return true;
    }

    /** Any sequence of calls takes the object where the specification says. */
    method Drive(ops: seq<Op>)
      modifies this
      ensures View() == Run(config, old(View()), ops)
    {
      ghost var s := View();
      for i := 0 to |ops|
        invariant View() == Run(config, s, ops[..i])
      {
        assert ops[..i + 1][..i] == ops[..i];
        match ops[i]
        case BeginMaintenance(e) => var _ := DoBeginMaintenance(e);
        case Reopen(e) => var _ := DoReopen(e);
        case HostWrites(n) =>
          if open {
            head := head + n;
          }
      }
      assert ops[..|ops|] == ops;
    }
  }

  // ---------------------------------------------------------------------------
  // What every run keeps
  // ---------------------------------------------------------------------------

  /** OnSuspend first, then strictly in turn. */
  ghost predicate Alternates(t: seq<Hook>) {
    forall i :: 0 <= i < |t| ==> (t[i].OnSuspend? <==> i % 2 == 0)
  }

  /** The feed positions the host was told a replaced catalog at. */
  ghost function ReplacedAt(t: seq<Hook>): seq<nat> {
    if t == [] then []
    else
      var h := t[|t| - 1];
      ReplacedAt(t[..|t| - 1]) + if h.OnReopen? && h.replaced then [h.seq_] else []
  }

  lemma ReplacedAtAppends(t: seq<Hook>, h: Hook)
    ensures ReplacedAt(t + [h]) == ReplacedAt(t) + if h.OnReopen? && h.replaced then [h.seq_] else []
  {
    assert (t + [h])[..|t|] == t;
  }

  /** The configurations whose hooks alternate. */
  predicate Paired(c: Config) {
    c.hasSuspend == c.hasReopen || (c.readOnly && !c.hasSuspend)
  }

  /** The flags and the rows, whatever hooks are set: a flag is set only while open, and every
      replaced catalog has its one row, or is owed it. */
  ghost predicate Accounted(c: Config, s: State) {
    && (s.owed ==> s.open)
    && (s.replaced ==> s.owed)
    && (c.readOnly ==> !s.owed)
    && |s.rows| + (if s.replaced then 1 else 0) == s.replacements
    && (c.hasReopen ==> s.rows == ReplacedAt(s.trace))
  }

  /** The hooks alternate, and an OnSuspend stands unanswered exactly while the store is closed
      or a reopen is owed. */
  ghost predicate Bracketed(c: Config, s: State) {
    if c.hasSuspend && c.hasReopen
    then Alternates(s.trace) && (|s.trace| % 2 == 1 <==> !s.open || s.owed)
    else s.trace == []
  }

  ghost predicate Inv(c: Config, s: State) {
    Accounted(c, s) && (Paired(c) ==> Bracketed(c, s))
  }

  lemma PaidAccounts(c: Config, s: State, e: FinishEnv)
    requires Accounted(c, s) && s.owed && CanFinish(s, e)
    ensures Accounted(c, Finished(c, s, e)) && s.open && !c.readOnly
  {
    hide ReplacedAt;
    ReplacedAtAppends(s.trace, OnReopen(if s.replaced then s.head + 1 else s.head, s.replaced));
  }

  lemma AlternatesOn(t: seq<Hook>, h: Hook)
    requires Alternates(t) && (h.OnSuspend? <==> |t| % 2 == 0)
    ensures Alternates(t + [h])
  {}

  lemma FinishedKeeps(c: Config, s: State, e: FinishEnv)
    requires Inv(c, s)
    ensures Inv(c, Finished(c, s, e))
  {
    hide ReplacedAt, Alternates, Accounted;
    if s.owed && CanFinish(s, e) {
      PaidAccounts(c, s, e);
      if c.hasSuspend && c.hasReopen {
        AlternatesOn(s.trace, OnReopen(if s.replaced then s.head + 1 else s.head, s.replaced));
      }
    }
  }

  lemma ReopenedKeeps(c: Config, s: State, e: ReopenEnv)
    requires Inv(c, s)
    ensures Inv(c, Reopened(c, s, e))
  {
    if !c.readOnly && e.store.ReopenAnswers? {
      if s.open {
        FinishedKeeps(c, s, e.finish);
      } else {
        var n := if e.store.replaced then 1 else 0;
        FinishedKeeps(c, s.(open := true, owed := true, replaced := s.replaced || e.store.replaced,
                            head := e.store.head, replacements := s.replacements + n), e.finish);
      }
    }
  }

  /** Between the hook and the suspend, one OnSuspend stands unanswered. */
  ghost predicate Quiesced(c: Config, s: State) {
    && Accounted(c, s) && s.open && !s.owed
    && (Paired(c) ==> if c.hasSuspend then Alternates(s.trace) && |s.trace| % 2 == 1 else s.trace == [])
  }

  lemma HookRunKeeps(c: Config, s: State, e: BeginEnv)
    requires Inv(c, s) && s.open && !s.owed
    ensures var s' := HookRun(c, s, e);
            if c.hasSuspend && e.secondJob != Idle then Inv(c, s') else Quiesced(c, s')
  {
    ReplacedAtAppends(s.trace, OnSuspend);
    ReplacedAtAppends(s.trace + [OnSuspend], OnReopen(s.head, false));
    hide ReplacedAt;
  }

  lemma SuspendedKeeps(c: Config, s: State, e: BeginEnv)
    requires Quiesced(c, s)
    ensures Inv(c, Suspended(c, s, e))
  {
    hide Reopened, ReplacedAt;
    assert Inv(c, s.(open := false));
    ReopenedKeeps(c, s.(open := false), e.reopen);
  }

  lemma BegunKeeps(c: Config, s: State, e: BeginEnv)
    requires Inv(c, s)
    ensures Inv(c, Begun(c, s, e))
  {
    hide Inv, Quiesced, HookRun, Suspended, Finished;
    var s1 := Finished(c, s, e.finish);
    FinishedKeeps(c, s, e.finish);
    if !(s1.owed || !s1.open || e.firstJob != Idle || (c.hasSuspend && !e.headOk)) {
      HookRunKeeps(c, s1, e);
      if !(c.hasSuspend && e.secondJob != Idle) {
        SuspendedKeeps(c, HookRun(c, s1, e), e);
      }
    }
  }

  /** Every run, with any failures, keeps the accounts and the brackets. */
  lemma {:induction false} RunKeeps(c: Config, head: nat, ops: seq<Op>)
    ensures Inv(c, Run(c, Opened(head), ops))
  {
    hide Begun, Reopened, ReplacedAt;
    if ops != [] {
      var init, last := ops[..|ops| - 1], ops[|ops| - 1];
      RunKeeps(c, head, init);
      match last
      case BeginMaintenance(e) => BegunKeeps(c, Run(c, Opened(head), init), e);
      case Reopen(e) => ReopenedKeeps(c, Run(c, Opened(head), init), e);
      case HostWrites(n) =>
    } else {
      NothingReplaced();
    }
  }

  lemma NothingReplaced()
    ensures ReplacedAt([]) == []
  {}

  /** With both hooks set: they alternate from OnSuspend on, each catalog row is told by its own
      OnReopen in order, and each replaced catalog has one or is owed one. */
  lemma EveryRun(c: Config, head: nat, ops: seq<Op>)
    requires c.hasSuspend && c.hasReopen
    ensures var s := Run(c, Opened(head), ops);
            && Alternates(s.trace)
            && (|s.trace| % 2 == 1 <==> !s.open || s.owed)
            && ReplacedAt(s.trace) == s.rows
            && |ReplacedAt(s.trace)| == s.replacements - if s.owed && s.replaced then 1 else 0
  {
    RunKeeps(c, head, ops);
  }

  /** The hooks alternate in every run exactly when they are set as a pair, or when nothing
      can ever be reopened and only OnReopen is set. */
  lemma AlternationCondition(c: Config, head: nat)
    ensures (forall ops :: Alternates(Run(c, Opened(head), ops).trace)) <==> Paired(c)
  {
    hide Run;
    if Paired(c) {
      forall ops ensures Alternates(Run(c, Opened(head), ops).trace) {
        RunKeeps(c, head, ops);
      }
    } else {
      var ops := Unpaired(c, head);
      assert !Alternates(Run(c, Opened(head), ops).trace);
    }
  }

  /** A run whose hooks do not alternate, when only one of them is set: a hand-off refused after
      an OnSuspend nothing answers, twice; or a hand-off with no OnSuspend, reopened. */
  lemma Unpaired(c: Config, head: nat) returns (ops: seq<Op>)
    requires !Paired(c)
    ensures !Alternates(Run(c, Opened(head), ops).trace)
  {
    var fine := FinishEnv(true, true);
    var back := ReopenEnv(ReopenAnswers(false, 0), fine);
    var begin := BeginMaintenance(BeginEnv(fine, Idle, true, 0, Running, true, back));
    ops := [begin, if c.hasSuspend then begin else Reopen(back)];
    TwoSteps(c, Opened(head), begin, ops[1]);
    hide Run;
    var t := Run(c, Opened(head), ops).trace;
    if c.hasSuspend {
      assert t == [OnSuspend, OnSuspend];
      assert t[1].OnSuspend?;
    } else {
      assert t == [OnReopen(0, false)];
      assert t[0].OnReopen?;
    }
  }

  lemma TwoSteps(c: Config, s: State, a: Op, b: Op)
    ensures Run(c, s, [a, b]) == Step(c, Step(c, s, a), b)
  {
    hide Step;
    assert [a, b][..1] == [a] && [a][..0] == [];
    assert Run(c, s, [a]) == Step(c, Run(c, s, []), a);
  }

  lemma ReopenedOnlyAppends(c: Config, s: State, e: ReopenEnv)
    ensures s.trace <= Reopened(c, s, e).trace && s.rows <= Reopened(c, s, e).rows
  {}

  /** Past the reopen it owed, a hand-off only adds to what was heard and appended. */
  lemma BegunOnlyAppends(c: Config, s: State, e: BeginEnv)
    ensures var s1 := Finished(c, s, e.finish);
            && s1.trace <= Begun(c, s, e).trace && s1.rows <= Begun(c, s, e).rows
            && (s1.owed ==> Begun(c, s, e) == s1)
  {
    hide Finished, Reopened;
    ReopenedOnlyAppends(c, HookRun(c, Finished(c, s, e.finish), e).(open := false), e.reopen);
  }

  /** What finishing an owed reopen hears and appends. */
  lemma Paid(c: Config, s: State, e: FinishEnv)
    requires s.owed && s.open
    ensures var s1, told := Finished(c, s, e), OnReopen(if s.replaced then s.head + 1 else s.head, s.replaced);
            if !CanFinish(s, e) then s1 == s
            else
              && !s1.owed && s1.trace == (if c.hasReopen then s.trace + [told] else s.trace)
              && s1.rows == if s.replaced then s.rows + [s.head + 1] else s.rows
  {}

  /** An owed reopen is never lost: no call tells the host of a new suspend before it pays the
      reopen, and the pay is one OnReopen carrying whether the catalog was replaced. */
  lemma OwedIsNotLost(c: Config, s: State, op: Op)
    requires Inv(c, s) && s.owed && c.hasReopen
    ensures var s' := Step(c, s, op);
            (s'.owed && s'.replaced == s.replaced && s'.trace == s.trace && s'.rows == s.rows)
            || (|s'.trace| > |s.trace| && s.trace <= s'.trace
                && s'.trace[|s.trace|].OnReopen? && s'.trace[|s.trace|].replaced == s.replaced)
  {
    hide Begun, Finished, CanFinish, ReplacedAt, Bracketed;
    match op
    case HostWrites(n) =>
    case Reopen(e) => Paid(c, s, e.finish);
    case BeginMaintenance(e) =>
      Paid(c, s, e.finish);
      BegunOnlyAppends(c, s, e);
  }

  /** Once the collaborators answer, the next call of either kind pays it. */
  lemma OwedIsPaid(c: Config, s: State, op: Op)
    requires Inv(c, s) && s.owed
    requires match op
             case BeginMaintenance(e) => e.finish == FinishEnv(true, true)
             case Reopen(e) => e.store.ReopenAnswers? && e.finish == FinishEnv(true, true)
             case HostWrites(_) => false
    ensures s.replaced ==> s.rows + [s.head + 1] <= Step(c, s, op).rows
    ensures c.hasReopen ==>
              s.trace + [OnReopen(if s.replaced then s.head + 1 else s.head, s.replaced)] <= Step(c, s, op).trace
  {
    hide Begun, Finished, ReplacedAt, Bracketed;
    Paid(c, s, FinishEnv(true, true));
    if op.BeginMaintenance? {
      BegunOnlyAppends(c, s, op.begin);
    }
  }

  /** A hand-off never closes the store under a running job, or one it cannot rule out, and one refused
      for a job before the hook has done no more than pay what was owed. */
  lemma JobsAreNotCutOff(c: Config, s: State, e: BeginEnv)
    ensures s.open && (e.firstJob != Idle || (c.hasSuspend && e.secondJob != Idle)) ==> Begun(c, s, e).open
    ensures e.firstJob != Idle || (c.hasSuspend && !e.headOk) ==> Begun(c, s, e) == Finished(c, s, e.finish)
    ensures !s.open ==> Begun(c, s, e) == s
  {}

  /** One that goes through leaves the store closed, the host having heard OnSuspend and nothing more. */
  lemma HandOffTells(c: Config, s: State, e: BeginEnv)
    requires HandsOff(c, s, e)
    ensures var s1, s' := Finished(c, s, e.finish), Begun(c, s, e);
            && !s'.open && !s'.owed && s'.rows == s1.rows
            && s'.trace == if c.hasSuspend then s1.trace + [OnSuspend] else s1.trace
  {}

  /** One refused after the hook tells the host to resume from the position read before it, whatever
      the hook wrote. */
  lemma RefusalTells(c: Config, s: State, e: BeginEnv)
    requires s.open && !s.owed && e.firstJob == Idle && c.hasSuspend && e.headOk && e.secondJob != Idle
    ensures var s' := Begun(c, s, e);
            && s' == s.(head := s.head + e.hookWrites, trace := s'.trace)
            && s'.trace == s.trace + if c.hasReopen then [OnSuspend, OnReopen(s.head, false)] else [OnSuspend]
  {}

  /** A suspend that fails is reopened on the spot, as by a call of its own. */
  lemma FailedSuspendReopens(c: Config, s: State, e: BeginEnv)
    requires s.open && !s.owed && e.firstJob == Idle && !c.hasSuspend && !e.suspendOk
    ensures Begun(c, s, e) == Step(c, s.(open := false), Reopen(e.reopen))
  {}

  /** A reopen that the store and the finishing steps allow leaves nothing owed and tells the position
      the reopened catalog stands at, past the row it appends when that was replaced; one the store
      refuses, or asked of a read-only library, changes nothing. */
  lemma ReopenTells(c: Config, s: State, e: ReopenEnv)
    requires !s.open && !s.owed && !s.replaced
    ensures c.readOnly || e.store.ReopenFails? ==> Reopened(c, s, e) == s
    ensures !c.readOnly && e.store.ReopenAnswers? && !(e.finish.rootsOk && e.finish.noteOk) ==>
              Reopened(c, s, e) == State(true, true, e.store.replaced, e.store.head, s.rows,
                                         s.replacements + (if e.store.replaced then 1 else 0), s.trace)
    ensures !c.readOnly && e.store.ReopenAnswers? && e.finish.rootsOk && e.finish.noteOk ==>
              var seq_ := e.store.head + if e.store.replaced then 1 else 0;
              Reopened(c, s, e) == State(true, false, false, seq_, s.rows + (if e.store.replaced then [seq_] else []),
                                         s.replacements + (if e.store.replaced then 1 else 0),
                                         s.trace + if c.hasReopen then [OnReopen(seq_, e.store.replaced)] else [])
  {}
}
