/**
 The event-sourced policy decision: one evaluation that emits two events in steps, operators who
 approve concurrently, and repeated emissions.
 */
module EventLedger {
  import opened Common
  import opened EventLog

  // ---------------------------------------------------------------- the protocol

  /**
   The action evaluated; whether operators start only once event 2 asks for approval; whether
   another insert may commit between an insert's trigger and its index.
   */
  datatype Setting = Setting(action: PolicyAction, guarded: bool, overlapping: bool)

  /**
   How far the evaluation got: `Checked` is past the trigger but not in the log. A refused
   number or a crash ends it, since the execution row cannot be created twice.
   */
  datatype Evaluation = Unstarted | Created | Checked(sequence: int) | Validated | Decided | Finished | Ended

  /** An operator who read the last number, whose grant is past the trigger, or is emitted. */
  datatype Approval = Read(last: int) | Granting(last: int) | Granted(last: int)

  /** `begun` is the last number the evaluation began to emit; `resends` are repeats past the trigger. */
  datatype State = State(
    stage: Option<Stage>, events: Events, evaluation: Evaluation, begun: nat,
    approvals: map<int, Approval>, resends: map<int, int>)

  datatype Action =
    | Create | CheckEvent | InsertEvent | SetDecisionStage | CrashEvaluation
    | Resend(q: int, sequence: int) | InsertResent(q: int)
    | ReadTimeline(p: int) | CheckGrant(p: int) | InsertGrant(p: int) | SetExecuting(p: int) | CrashApproval(p: int)

  const START := State(None, map[], Unstarted, 0, map[], map[])

  /** The evaluation has emitted event 1, and nothing else has happened. */
  const VALIDATED := State(Some(DecisionGate), map[1 := ValidationExecuted], Validated, 1, map[], map[])

  function EventAt(a: PolicyAction, sequence: int): EventType {
    if sequence == 1 then ValidationExecuted else DecisionEvent(a)
  }

  /** Whether an operator may start. */
  ghost predicate MayApprove(guarded: bool, events: Events) {
    events != map[] && (guarded ==> 2 in events && events[2].ApprovalRequired?)
  }

  function Checking(s: State): State {
    if s.evaluation.Created? || s.evaluation.Validated? then
      var n := if s.evaluation.Created? then 1 else 2;
      if Passes(s.events, n) then s.(evaluation := Checked(n), begun := n) else s.(evaluation := Ended)
    else s
  }

  function Inserting(a: PolicyAction, s: State): State {
    if s.evaluation.Checked? then
      var n := s.evaluation.sequence;
      s.(events := Emit(s.events, n, EventAt(a, n)), evaluation := if n == 1 then Validated else Decided)
    else s
  }

  function Resending(s: State, q: int, n: int): State {
    if q !in s.resends && 1 <= n <= s.begun && Passes(s.events, n) then s.(resends := s.resends[q := n]) else s
  }

  function InsertingResent(a: PolicyAction, s: State, q: int): State {
    if q in s.resends
    then s.(events := Emit(s.events, s.resends[q], EventAt(a, s.resends[q])), resends := s.resends - {q})
    else s
  }

  function CheckingGrant(s: State, p: int): State {
    if p in s.approvals && s.approvals[p].Read? then
      var last := s.approvals[p].last;
      s.(approvals := if Passes(s.events, last + 1) then s.approvals[p := Granting(last)] else s.approvals - {p})
    else s
  }

  function InsertingGrant(s: State, p: int): State {
    if p in s.approvals && s.approvals[p].Granting? then
      var last := s.approvals[p].last;
      s.(events := Emit(s.events, last + 1, ApprovalGranted), approvals := s.approvals[p := Granted(last)])
    else s
  }

  ghost function Step(w: Setting, s: State, act: Action): State {
    match act
    case Create =>
      if s.evaluation.Unstarted? && s.stage.None? then s.(stage := Some(DecisionGate), evaluation := Created) else s
    case CheckEvent => if w.overlapping then Checking(s) else Inserting(w.action, Checking(s))
    case InsertEvent => Inserting(w.action, s)
    case SetDecisionStage =>
      if s.evaluation.Decided? then s.(stage := Some(DecisionStage(w.action)), evaluation := Finished) else s
    case CrashEvaluation => if s.evaluation.Unstarted? then s else s.(evaluation := Ended)
    case Resend(q, n) =>
      if w.overlapping then Resending(s, q, n)
      else if q in s.resends then s
      else InsertingResent(w.action, Resending(s, q, n), q)
    case InsertResent(q) => InsertingResent(w.action, s, q)
    case ReadTimeline(p) =>
      if p !in s.approvals && MayApprove(w.guarded, s.events)
      then s.(approvals := s.approvals[p := Read(LastSequence(s.events))])
      else s
    case CheckGrant(p) => if w.overlapping then CheckingGrant(s, p) else InsertingGrant(CheckingGrant(s, p), p)
    case InsertGrant(p) => InsertingGrant(s, p)
    case SetExecuting(p) =>
      if p in s.approvals && s.approvals[p].Granted?
      then s.(stage := Some(Executing), approvals := s.approvals - {p})
      else s
    case CrashApproval(p) => s.(approvals := s.approvals - {p})
  }

  ghost function Run(w: Setting, s: State, actions: seq<Action>): State
    decreases |actions|
  {
    if actions == [] then s else Run(w, Step(w, s, actions[0]), actions[1..])
  }

  // ---------------------------------------------------------------- runs nothing disturbs

  const EVALUATION := [Create, CheckEvent, InsertEvent, CheckEvent, InsertEvent, SetDecisionStage]

  function OneApproval(p: int): seq<Action> {
    [ReadTimeline(p), CheckGrant(p), InsertGrant(p), SetExecuting(p)]
  }

  /** The state an evaluation leaves that nobody disturbs. */
  function Evaluated(stage: Stage, decision: EventType): State {
    State(Some(stage), map[1 := ValidationExecuted, 2 := decision], Finished, 2, map[], map[])
  }

  /** Blocked, waiting for an operator, or started: what an evaluation decides about each action. */
  lemma EvaluationDecides(w: Setting)
    ensures Run(w, START, EVALUATION) ==
            match w.action
            case DisablePciLogs => Evaluated(Failed, EnforcementBlocked)
            case DropProdSpans => Evaluated(DecisionGate, ApprovalRequired)
            case StripStagingDebug => Evaluated(Executing, EnforcementAllowed)
  {
    var decision := DecisionEvent(w.action);
    var created := State(Some(DecisionGate), map[], Created, 0, map[], map[]);
    var decided := State(
      Some(DecisionGate), map[1 := ValidationExecuted, 2 := decision], Decided, 2, map[], map[]);
    assert map[][1 := ValidationExecuted] == VALIDATED.events;
    assert VALIDATED.events[2 := decision] == decided.events;
    RunCons(w, START, Create, EVALUATION[1..]);
    assert EVALUATION == [Create] + EVALUATION[1..] && EVALUATION[1..] == [CheckEvent, InsertEvent] + EVALUATION[3..];
    assert EVALUATION[3..] == [CheckEvent, InsertEvent] + EVALUATION[5..] && EVALUATION[5..] == [SetDecisionStage] + [];
    EmitNext(w, created, EVALUATION[3..]);
    EmitNext(w, VALIDATED, EVALUATION[5..]);
    RunCons(w, decided, SetDecisionStage, []);
  }

  lemma RunCons(w: Setting, s: State, act: Action, rest: seq<Action>)
    ensures Run(w, s, [act] + rest) == Run(w, Step(w, s, act), rest)
  {
    assert ([act] + rest)[1..] == rest;
  }

  /** Check and insert, in one go or one after the other. */
  lemma EmitNext(w: Setting, s: State, rest: seq<Action>)
    requires s.evaluation.Created? || s.evaluation.Validated?
    requires Passes(s.events, if s.evaluation.Created? then 1 else 2)
    ensures Run(w, s, [CheckEvent, InsertEvent] + rest) == Run(w, Inserting(w.action, Checking(s)), rest)
  {
    RunCons(w, s, CheckEvent, [InsertEvent] + rest);
    RunCons(w, Step(w, s, CheckEvent), InsertEvent, rest);
    assert [CheckEvent, InsertEvent] + rest == [CheckEvent] + ([InsertEvent] + rest);
  }

  /** An operator whose approval nothing disturbs takes the next number and starts the execution. */
  lemma ApprovalStarts(w: Setting, s: State, p: int)
    requires Dense(s.events) && MayApprove(w.guarded, s.events) && p !in s.approvals
    ensures var t := Run(w, s, OneApproval(p));
            t.stage == Some(Executing) && t.events == s.events[|s.events| + 1 := ApprovalGranted]
  {
    var n := |s.events|;
    var read := s.(approvals := s.approvals[p := Read(n)]);
    var checked := Step(w, read, CheckGrant(p));
    LastIsSize(s.events);
    GrantSteps(w, s, p);
    var emit, start := InsertGrant(p), SetExecuting(p);
    assert OneApproval(p) == [ReadTimeline(p)] + ([CheckGrant(p)] + ([emit] + ([start] + [])));
    RunCons(w, s, ReadTimeline(p), [CheckGrant(p)] + ([emit] + ([start] + [])));
    RunCons(w, read, CheckGrant(p), [emit] + ([start] + []));
    RunCons(w, checked, emit, [start] + []);
    RunCons(w, Step(w, checked, emit), start, []);
  }

  lemma GrantSteps(w: Setting, s: State, p: int)
    requires Dense(s.events) && p !in s.approvals
    ensures var n := |s.events|;
            Step(w, Step(w, s.(approvals := s.approvals[p := Read(n)]), CheckGrant(p)), InsertGrant(p))
            == s.(events := s.events[n + 1 := ApprovalGranted], approvals := s.approvals[p := Granted(n)])
  {
    var n := |s.events|;
    var read := s.(approvals := s.approvals[p := Read(n)]);
    GrantIsChecked(s, p);
    GrantIsInserted(s, p);
    assert w.overlapping ==> Step(w, read, CheckGrant(p)) == CheckingGrant(read, p);
    assert !w.overlapping ==> Step(w, read, CheckGrant(p)) == InsertingGrant(CheckingGrant(read, p), p);
  }

  lemma GrantIsChecked(s: State, p: int)
    requires Dense(s.events)
    ensures var n := |s.events|;
            CheckingGrant(s.(approvals := s.approvals[p := Read(n)]), p)
            == s.(approvals := s.approvals[p := Granting(n)])
  {
    var n := |s.events|;
    assert Passes(s.events, n + 1);
    assert s.approvals[p := Read(n)][p := Granting(n)] == s.approvals[p := Granting(n)];
  }

  lemma GrantIsInserted(s: State, p: int)
    requires Dense(s.events)
    ensures var n := |s.events|;
            InsertingGrant(s.(approvals := s.approvals[p := Granting(n)]), p)
            == s.(events := s.events[n + 1 := ApprovalGranted], approvals := s.approvals[p := Granted(n)])
  {
    var n := |s.events|;
    assert s.approvals[p := Granting(n)][p := Granted(n)] == s.approvals[p := Granted(n)];
  }

  // ---------------------------------------------------------------- the log has no gaps

  /** What holds whoever approves, and whenever. */
  ghost predicate WellNumbered(s: State) {
    && Dense(s.events) && s.begun <= 2
    && (s.evaluation.Unstarted? ==> s.stage.None?)
    && (s.evaluation.Unstarted? || s.evaluation.Created? ==> s.begun == 0)
    && (s.begun == 0 ==> s.events == map[])
    && (s.begun == 2 ==> 1 in s.events)
    && (s.evaluation.Checked? ==> s.evaluation.sequence == s.begun && s.begun >= 1)
    && (s.evaluation.Validated? ==> s.begun == 1 && 1 in s.events)
    && (s.evaluation.Decided? ==> 2 in s.events)
    && (forall q :: q in s.resends ==> 1 <= s.resends[q] <= s.begun)
    && (forall p :: p in s.approvals ==>
          1 <= s.approvals[p].last <= |s.events| && (s.approvals[p].Granted? ==> s.approvals[p].last + 1 in s.events))
  }

  lemma EvaluationNumbered(a: PolicyAction, s: State)
    requires WellNumbered(s)
    ensures WellNumbered(Checking(s)) && WellNumbered(Inserting(a, s))
  {
    if s.evaluation.Checked? {
      EmitKeeps(s.events, s.evaluation.sequence, EventAt(a, s.evaluation.sequence));
    }
  }

  lemma ResendNumbered(a: PolicyAction, s: State, q: int, n: int)
    requires WellNumbered(s)
    ensures WellNumbered(Resending(s, q, n)) && WellNumbered(InsertingResent(a, s, q))
  {
    if q in s.resends {
      EmitKeeps(s.events, s.resends[q], EventAt(a, s.resends[q]));
    }
  }

  lemma GrantNumbered(s: State, p: int)
    requires WellNumbered(s)
    ensures WellNumbered(CheckingGrant(s, p)) && WellNumbered(InsertingGrant(s, p))
  {
    if p in s.approvals {
      EmitKeeps(s.events, s.approvals[p].last + 1, ApprovalGranted);
    }
  }

  lemma StepNumbered(w: Setting, s: State, act: Action)
    requires WellNumbered(s)
    ensures WellNumbered(Step(w, s, act))
  {
    if act.CheckEvent? || act.InsertEvent? {
      EvaluationNumbered(w.action, s);
      EvaluationNumbered(w.action, Checking(s));
    } else if act.Resend? {
      ResendNumbered(w.action, s, act.q, act.sequence);
      ResendNumbered(w.action, Resending(s, act.q, act.sequence), act.q, act.sequence);
    } else if act.InsertResent? {
      ResendNumbered(w.action, s, act.q, 1);
    } else if act.CheckGrant? || act.InsertGrant? {
      GrantNumbered(s, act.p);
      GrantNumbered(CheckingGrant(s, act.p), act.p);
    } else {
      LastIsSize(s.events);
    }
  }

  /**
   Every reachable log is numbered 1..n without gaps, across crashes between steps, refused,
   repeated and overlapping emissions, and any number of concurrent approvals.
   */
  lemma {:induction false} LogHasNoGaps(w: Setting, s: State, actions: seq<Action>)
    requires WellNumbered(s)
    ensures WellNumbered(Run(w, s, actions))
    decreases |actions|
  {
    if actions != [] {
      StepNumbered(w, s, actions[0]);
      LogHasNoGaps(w, Step(w, s, actions[0]), actions[1..]);
    }
  }

  /** An event once emitted is never replaced. */
  lemma {:induction false} EventsAreImmutable(w: Setting, s: State, actions: seq<Action>, k: int)
    requires k in s.events
    ensures k in Run(w, s, actions).events && Run(w, s, actions).events[k] == s.events[k]
    decreases |actions|
  {
    if actions != [] {
      EventsAreImmutable(w, Step(w, s, actions[0]), actions[1..], k);
    }
  }

  /**
   A repeat of an event whose emission was begun: the trigger lets it through, and then
   nothing is thrown, exactly while the event is not committed; it writes nothing exactly when
   somebody else committed the number since.
   */
  lemma RepeatExact(w: Setting, before: seq<Action>, n: int, since: seq<Action>)
    requires 1 <= n <= Run(w, START, before).begun
    ensures Passes(Run(w, START, before).events, n) <==> n !in Run(w, START, before).events
    ensures var later := Run(w, Run(w, START, before), since).events;
            n !in Run(w, START, before).events ==>
              (Emit(later, n, EventAt(w.action, n)) == later <==> n in later)
  {
    LogHasNoGaps(w, START, before);
    var s := Run(w, START, before);
    RefusedExact(s.events, n);
    var later := Run(w, s, since).events;
    if n !in later {
      assert n in Emit(later, n, EventAt(w.action, n));
    }
  }

  // ---------------------------------------------------------------- authorised execution

  /** Some event of the log allows execution. */
  ghost predicate Authorised(events: Events) {
    exists k :: k in events && Allows(events[k])
  }

  predicate Allows(e: EventType) {
    e == EnforcementAllowed || e == ApprovalGranted
  }

  /** The first number an operator's grant may take. */
  function FirstGrant(guarded: bool): int {
    if guarded then 3 else 2
  }

  ghost predicate ShapeOk(w: Setting, events: Events) {
    && (1 in events ==> events[1] == ValidationExecuted)
    && (2 in events ==> events[2] == DecisionEvent(w.action) || (!w.guarded && events[2] == ApprovalGranted))
    && (forall k :: k in events && k >= 3 ==> events[k] == ApprovalGranted)
  }

  /** When no insert overlaps another none is ever between its trigger and its index. */
  ghost predicate Serial(w: Setting, s: State) {
    !w.overlapping ==>
      && !s.evaluation.Checked? && s.resends == map[]
      && forall p :: p in s.approvals ==> !s.approvals[p].Granting?
  }

  ghost predicate Lawful(w: Setting, s: State) {
    && ShapeOk(w, s.events)
    && (w.guarded ==> forall p :: p in s.approvals ==> w.action.DropProdSpans? && s.approvals[p].last >= 2)
    && ((exists p :: p in s.approvals && s.approvals[p].Granted?) ==> Authorised(s.events))
    && (s.stage == Some(Executing) ==> Authorised(s.events))
    && (s.stage == Some(Failed) ==> w.action.DisablePciLogs?)
    && (w.action.DisablePciLogs? ==> s.stage != Some(Executing))
  }

  /** The settings in which nothing can go wrong. */
  predicate Safe(w: Setting) {
    w.guarded || w.action.StripStagingDebug? || (w.action.DropProdSpans? && !w.overlapping)
  }

  /** What the evaluation, its repeats and the operators may emit. */
  predicate MayEmit(w: Setting, sequence: int, event: EventType) {
    || (sequence >= FirstGrant(w.guarded) && event == ApprovalGranted)
    || (1 <= sequence <= 2 && event == EventAt(w.action, sequence))
  }

  lemma EmitShape(w: Setting, events: Events, sequence: int, event: EventType)
    requires ShapeOk(w, events)
    requires MayEmit(w, sequence, event)
    ensures ShapeOk(w, Emit(events, sequence, event))
    ensures Authorised(events) ==> Authorised(Emit(events, sequence, event))
    ensures Allows(event) && sequence !in events ==> Authorised(Emit(events, sequence, event))
  {
    var after := Emit(events, sequence, event);
    if k :| k in events && Allows(events[k]) {
      assert k in after && after[k] == events[k];
    }
    if sequence !in events {
      assert sequence in after && after[sequence] == event;
    }
  }

  lemma EvaluationLawful(w: Setting, s: State)
    requires WellNumbered(s) && Lawful(w, s)
    ensures Lawful(w, Checking(s)) && Lawful(w, Inserting(w.action, s))
  {
    if s.evaluation.Checked? {
      EmitShape(w, s.events, s.evaluation.sequence, EventAt(w.action, s.evaluation.sequence));
    }
  }

  lemma ResendLawful(w: Setting, s: State, q: int, n: int)
    requires WellNumbered(s) && Lawful(w, s)
    ensures Lawful(w, Resending(s, q, n)) && Lawful(w, InsertingResent(w.action, s, q))
  {
    if q in s.resends {
      EmitShape(w, s.events, s.resends[q], EventAt(w.action, s.resends[q]));
    }
  }

  /** The number a grant goes to allows execution afterwards, if it was free or can only allow it. */
  lemma GrantLawful(w: Setting, s: State, p: int)
    requires WellNumbered(s) && Lawful(w, s) && p in s.approvals && s.approvals[p].Granting?
    requires w.guarded || w.action.StripStagingDebug? || s.approvals[p].last + 1 !in s.events
    ensures Lawful(w, InsertingGrant(s, p))
  {
    var n := s.approvals[p].last + 1;
    EmitShape(w, s.events, n, ApprovalGranted);
    if n in s.events {
      assert Allows(s.events[n]);
    }
  }

  lemma GrantStepLawful(w: Setting, s: State, act: Action)
    requires Safe(w) && WellNumbered(s) && Lawful(w, s) && Serial(w, s) && (act.CheckGrant? || act.InsertGrant?)
    ensures Lawful(w, Step(w, s, act))
  {
    var p := act.p;
    assert Lawful(w, CheckingGrant(s, p));
    if act.CheckGrant? && !w.overlapping && p in CheckingGrant(s, p).approvals {
      GrantNumbered(s, p);
      if CheckingGrant(s, p).approvals[p].Granting? {
        GrantLawful(w, CheckingGrant(s, p), p);
      }
    } else if act.InsertGrant? && p in s.approvals && s.approvals[p].Granting? {
      GrantLawful(w, s, p);
    }
  }

  lemma StepLawful(w: Setting, s: State, act: Action)
    requires Safe(w) && WellNumbered(s) && Lawful(w, s) && Serial(w, s)
    ensures Lawful(w, Step(w, s, act))
  {
    if act.CheckEvent? || act.InsertEvent? {
      EvaluationLawful(w, s);
      EvaluationNumbered(w.action, s);
      EvaluationLawful(w, Checking(s));
    } else if act.Resend? || act.InsertResent? {
      var n := if act.Resend? then act.sequence else 1;
      ResendLawful(w, s, act.q, n);
      ResendNumbered(w.action, s, act.q, n);
      ResendLawful(w, Resending(s, act.q, n), act.q, n);
    } else if act.CheckGrant? || act.InsertGrant? {
      GrantStepLawful(w, s, act);
    }
  }

  lemma StepSerial(w: Setting, s: State, act: Action)
    requires Serial(w, s)
    ensures Serial(w, Step(w, s, act))
  {
    if act.Resend? && !w.overlapping {
      assert Step(w, s, act).resends == map[];
    }
  }

  lemma {:induction false} RunLawful(w: Setting, s: State, actions: seq<Action>)
    requires Safe(w) && WellNumbered(s) && Lawful(w, s) && Serial(w, s)
    ensures var s' := Run(w, s, actions); WellNumbered(s') && Lawful(w, s') && Serial(w, s')
    decreases |actions|
  {
    if actions != [] {
      StepNumbered(w, s, actions[0]);
      StepLawful(w, s, actions[0]);
      StepSerial(w, s, actions[0]);
      RunLawful(w, Step(w, s, actions[0]), actions[1..]);
    }
  }

  /** Whatever happens, execution is authorised and a failed execution never executes. */
  ghost predicate AlwaysLawful(w: Setting) {
    && (forall actions :: Run(w, START, actions).stage == Some(Executing) ==> Authorised(Run(w, START, actions).events))
    && (forall actions, more :: Run(w, START, actions).stage == Some(Failed) ==>
          Run(w, Run(w, START, actions), more).stage != Some(Executing))
  }

  // ---------------------------------------------------------------- the runs that go wrong

  lemma RunStep(w: Setting, s: State, act: Action, rest: seq<Action>)
    ensures Run(w, s, [act] + rest) == Run(w, Step(w, s, act), rest)
  {
    assert ([act] + rest)[1..] == rest;
  }

  lemma FirstEvent(w: Setting, rest: seq<Action>)
    ensures Run(w, START, [Create] + ([CheckEvent] + ([InsertEvent] + rest))) == Run(w, VALIDATED, rest)
  {
    var created := State(Some(DecisionGate), map[], Created, 0, map[], map[]);
    RunStep(w, START, Create, [CheckEvent] + ([InsertEvent] + rest));
    assert Inserting(w.action, Checking(created)) == VALIDATED;
  }

  /**
   An operator reads after event 1; the grant and the decision both pass the trigger for
   number 2, the decision is inserted first, and the grant is swallowed.
   */
  lemma OverlappingApprovalExecutes(w: Setting) returns (actions: seq<Action>)
    requires !w.guarded && w.overlapping && !w.action.StripStagingDebug?
    ensures var s := Run(w, START, actions);
            s.stage == Some(Executing) && s.events == map[1 := ValidationExecuted, 2 := DecisionEvent(w.action)]
  {
    var overlap := [CheckGrant(0)] + ([CheckEvent] + ([InsertEvent] + ([InsertGrant(0)] + ([SetExecuting(0)] + []))));
    actions := [Create] + ([CheckEvent] + ([InsertEvent] + ([ReadTimeline(0)] + overlap)));
    FirstEvent(w, [ReadTimeline(0)] + overlap);
    var s1 := VALIDATED.(approvals := map[0 := Read(1)]);
    assert Step(w, VALIDATED, ReadTimeline(0)) == s1 by {
      assert 1 in VALIDATED.events;
    }
    RunStep(w, VALIDATED, ReadTimeline(0), overlap);
    LateGrantIsSwallowed(w, s1);
  }

  lemma LateGrantIsSwallowed(w: Setting, s: State)
    requires w.overlapping && s == VALIDATED.(approvals := map[0 := Read(1)])
    ensures Run(w, s, [CheckGrant(0)] + ([CheckEvent] + ([InsertEvent]
                    + ([InsertGrant(0)] + ([SetExecuting(0)] + [])))))
         == State(Some(Executing), map[1 := ValidationExecuted, 2 := DecisionEvent(w.action)], Decided, 2, map[], map[])
  {
    var end := [InsertGrant(0)] + ([SetExecuting(0)] + []);
    var s1 := s.(approvals := map[0 := Granting(1)]);
    var events := map[1 := ValidationExecuted, 2 := DecisionEvent(w.action)];
    var s2 := s1.(events := events, evaluation := Decided, begun := 2);
    assert Step(w, s, CheckGrant(0)) == s1;
    RunStep(w, s, CheckGrant(0), [CheckEvent] + ([InsertEvent] + end));
    assert Inserting(w.action, Checking(s1)) == s2;
    GrantSwallowed(w, s2);
  }

  lemma GrantSwallowed(w: Setting, s: State)
    requires s.approvals == map[0 := Granting(1)] && 2 in s.events
    ensures Run(w, s, [InsertGrant(0)] + ([SetExecuting(0)] + [])) == s.(stage := Some(Executing), approvals := map[])
  {
    var s1 := s.(approvals := map[0 := Granted(1)]);
    assert Step(w, s, InsertGrant(0)) == s1;
    RunStep(w, s, InsertGrant(0), [SetExecuting(0)] + []);
    RunStep(w, s1, SetExecuting(0), []);
  }

  /** Blocked and failed, with every insert on its own. */
  lemma BlockedFails(w: Setting) returns (actions: seq<Action>)
    requires w.action.DisablePciLogs?
    ensures Run(w, START, actions) == State(
              Some(Failed), map[1 := ValidationExecuted, 2 := EnforcementBlocked], Finished, 2, map[], map[])
  {
    var e := map[1 := ValidationExecuted, 2 := EnforcementBlocked];
    var end := [SetDecisionStage] + [];
    actions := [Create] + ([CheckEvent] + ([InsertEvent] + ([CheckEvent] + ([InsertEvent] + end))));
    FirstEvent(w, [CheckEvent] + ([InsertEvent] + end));
    var decided := State(Some(DecisionGate), e, Decided, 2, map[], map[]);
    assert Inserting(w.action, Checking(VALIDATED)) == decided;
    RunStep(w, decided, SetDecisionStage, []);
  }

  /** An operator who comes after that reads number 2, and the grant takes number 3. */
  lemma FailedThenApproved(w: Setting, s: State) returns (more: seq<Action>)
    requires !w.guarded && s.stage.Some? && s.approvals == map[]
    requires s.events == map[1 := ValidationExecuted, 2 := EnforcementBlocked]
    ensures Run(w, s, more).stage == Some(Executing)
  {
    var end := [SetExecuting(0)] + [];
    more := [ReadTimeline(0)] + ([CheckGrant(0)] + ([InsertGrant(0)] + end));
    var s1 := s.(approvals := map[0 := Read(2)]);
    assert Step(w, s, ReadTimeline(0)) == s1 by {
      assert 2 in s.events;
    }
    RunStep(w, s, ReadTimeline(0), [CheckGrant(0)] + ([InsertGrant(0)] + end));
    var s2 := GrantUndisturbed(w, s1, end);
    RunStep(w, s2, SetExecuting(0), []);
  }

  lemma GrantUndisturbed(w: Setting, s: State, rest: seq<Action>) returns (after: State)
    requires 0 in s.approvals && s.approvals[0].Read? && Passes(s.events, s.approvals[0].last + 1)
    ensures Run(w, s, [CheckGrant(0)] + ([InsertGrant(0)] + rest)) == Run(w, after, rest)
    ensures after == InsertingGrant(CheckingGrant(s, 0), 0)
  {
    RunStep(w, s, CheckGrant(0), [InsertGrant(0)] + rest);
    RunStep(w, Step(w, s, CheckGrant(0)), InsertGrant(0), rest);
    after := InsertingGrant(CheckingGrant(s, 0), 0);
  }

  /**
   Over every run, execution is authorised and failure is final exactly when operators start
   only once event 2 asks for their approval, or the action needs none, or it needs one and no
   insert overlaps another.
   */
  lemma AlwaysLawfulExact(w: Setting)
    ensures AlwaysLawful(w) <==> Safe(w)
  {
    if Safe(w) {
      forall actions ensures Lawful(w, Run(w, START, actions)) {
        RunLawful(w, START, actions);
      }
      forall actions, more | Run(w, START, actions).stage == Some(Failed)
        ensures Run(w, Run(w, START, actions), more).stage != Some(Executing)
      {
        RunLawful(w, START, actions);
        RunLawful(w, Run(w, START, actions), more);
      }
    } else if w.action.DisablePciLogs? {
      var actions := BlockedFails(w);
      var more := FailedThenApproved(w, Run(w, START, actions));
    } else {
      var actions := OverlappingApprovalExecutes(w);
      assert !Authorised(Run(w, START, actions).events);
    }
  }
}
