/**
 The numbered event log of one execution. Every insert is looked at twice: a trigger compares
 its number with the numbers committed, and then the unique index with what has been committed
 since.
 */
module EventLog {
  import opened Common

  datatype PolicyAction = DisablePciLogs | DropProdSpans | StripStagingDebug

  datatype EventType =
    | ValidationExecuted | EnforcementBlocked | ApprovalRequired | EnforcementAllowed | ApprovalGranted

  datatype Stage = Queued | DecisionGate | Executing | Failed

  type Events = map<int, EventType>

  /** An event of a batch, with its number. */
  datatype Entry = Entry(sequence: int, event: EventType)

  // ---------------------------------------------------------------- the store

  /** The trigger: a number must be above every number present, and not negative in an empty log. */
  predicate Passes(events: Events, sequence: int) {
    (events == map[] ==> sequence > -1) && forall k :: k in events ==> k < sequence
  }

  /** The unique index: a number taken since the trigger looked is swallowed as a retry. */
  function Emit(events: Events, sequence: int, event: EventType): Events {
    if sequence in events then events else events[sequence := event]
  }

  /** The largest of a set of numbers, 0 for none. */
  ghost function Highest(numbers: set<int>): (m: int)
    ensures numbers == {} ==> m == 0
    ensures numbers != {} ==> m in numbers
    ensures forall j :: j in numbers ==> j <= m
  {
    if !exists k :: k in numbers then 0
    else
      var k :| k in numbers;
      var best := Highest(numbers - {k});
      assert forall j :: j in numbers ==> j == k || j in numbers - {k};
      if numbers == {k} || best < k then k else best
  }

  /** The highest sequence number in use, 0 if there is none. */
  ghost function LastSequence(events: Events): int {
    Highest(events.Keys)
  }

  function DecisionEvent(a: PolicyAction): EventType {
    match a
    case DisablePciLogs => EnforcementBlocked
    case DropProdSpans => ApprovalRequired
    case StripStagingDebug => EnforcementAllowed
  }

  function DecisionStage(a: PolicyAction): Stage {
    match a
    case DisablePciLogs => Failed
    case DropProdSpans => DecisionGate
    case StripStagingDebug => Executing
  }

  /** What becomes of one emission: the last two are thrown. */
  datatype Outcome = Emitted | Swallowed | Refused | UnknownExecution

  /** The events of a batch that are let in, one after another, before the first that is refused. */
  function LetIn(events: Events, batch: seq<Entry>): (n: nat)
    ensures n <= |batch|
    decreases |batch|
  {
    if batch == [] || !Passes(events, batch[0].sequence) then 0
    else 1 + LetIn(events[batch[0].sequence := batch[0].event], batch[1..])
  }

  function AppendAll(events: Events, batch: seq<Entry>): Events {
    if batch == [] then events
    else AppendAll(events, batch[..|batch| - 1])[Last(batch).sequence := Last(batch).event]
  }

  /** The numbers of the batch increase, from above all those present. */
  ghost predicate Increasing(events: Events, batch: seq<Entry>) {
    && (forall i, j :: 0 <= i < j < |batch| ==> batch[i].sequence < batch[j].sequence)
    && (batch != [] ==> Passes(events, batch[0].sequence))
  }

  /** A batch is let in whole exactly when its numbers increase from above those present. */
  lemma {:induction false} BatchAcceptedExact(events: Events, batch: seq<Entry>)
    ensures LetIn(events, batch) == |batch| <==> Increasing(events, batch)
    decreases |batch|
  {
    if batch != [] && Passes(events, batch[0].sequence) {
      var next, rest := events[batch[0].sequence := batch[0].event], batch[1..];
      BatchAcceptedExact(next, rest);
      if Increasing(next, rest) && rest != [] {
        assert batch[0].sequence in next;
        assert forall i :: 0 <= i < |rest| ==> rest[i] == batch[i + 1];
        assert forall j :: 0 < j < |rest| ==> rest[0].sequence < rest[j].sequence;
      }
      if Increasing(events, batch) {
        assert forall i :: 0 <= i < |rest| ==> rest[i] == batch[i + 1];
      }
    }
  }

  lemma {:induction false} LetInSplit(events: Events, batch: seq<Entry>, k: nat)
    requires k < |batch| && k <= LetIn(events, batch)
    ensures k < LetIn(events, batch) <==> Passes(AppendAll(events, batch[..k]), batch[k].sequence)
    decreases k
  {
    if k > 0 {
      var next := events[batch[0].sequence := batch[0].event];
      LetInSplit(next, batch[1..], k - 1);
      AppendFirst(events, batch[..k]);
      assert batch[..k][1..] == batch[1..][..k - 1];
    }
  }

  lemma {:induction false} AppendFirst(events: Events, batch: seq<Entry>)
    requires batch != []
    ensures AppendAll(events, batch) == AppendAll(events[batch[0].sequence := batch[0].event], batch[1..])
    decreases |batch|
  {
    var front := batch[..|batch| - 1];
    if front != [] {
      AppendFirst(events, front);
      assert front[1..] == batch[1..][..|batch| - 2];
    }
  }

  /** One execution's row and events. */
  class EventStore {
    var stage: Option<Stage>
    var events: Events

    /** INSERT INTO pipeline_executions; the id is unique. */
    method CreateExecution(initial: Stage) returns (ok: bool)
      modifies this`stage
      ensures ok <==> old(stage).None?
      ensures stage == if ok then Some(initial) else old(stage)
    {
      ok := stage.None?;
      if ok {
        stage := Some(initial);
      }
    }

    method UpdateExecutionStage(next: Stage)
      modifies this`stage
      ensures stage == if old(stage).Some? then Some(next) else None
    {
      if stage.Some? {
        stage := Some(next);
      }
    }

    /**
     One emission. `rival` is an event another connection commits under the same number after
     the trigger has looked and before the index has.
     */
    method EmitPipelineEvent(sequence: int, event: EventType, rival: Option<EventType>) returns (outcome: Outcome)
      modifies this`events
      ensures outcome.Refused? <==> !Passes(old(events), sequence)
      ensures outcome.UnknownExecution? <==> Passes(old(events), sequence) && stage.None?
      ensures outcome.Swallowed? <==> Passes(old(events), sequence) && stage.Some? && rival.Some?
      ensures outcome.Emitted? ==> events == old(events)[sequence := event]
      ensures outcome.Swallowed? ==> events == old(events)[sequence := rival.value]
      ensures outcome.Refused? || outcome.UnknownExecution? ==> events == old(events)
    {
      if !Passes(events, sequence) {
        return Refused;
      }
      if stage.None? {
        return UnknownExecution;
      }
      if rival.Some? {
        events := events[sequence := rival.value];
      }
      if sequence in events {
        return Swallowed;
      }
      events := events[sequence := event];
      return Emitted;
    }

    /**
     The batch emits one event after another with no transaction around them: when the trigger
     refuses one, or the database fails at event `failAt`, the events before it stay.
     */
    method EmitPipelineEventBatch(batch: seq<Entry>, failAt: nat) returns (ok: bool)
      requires stage.Some?
      modifies this`events
      ensures ok <==> failAt >= |batch| && LetIn(old(events), batch) == |batch|
      ensures var n := LetIn(old(events), batch);
              events == AppendAll(old(events), batch[..if failAt < n then failAt else n])
    {
      for k := 0 to |batch|
        invariant k <= failAt && k <= LetIn(old(events), batch)
        invariant events == AppendAll(old(events), batch[..k]) && stage.Some?
      {
        if k == failAt {
          return false;
        }
        LetInSplit(old(events), batch, k);
        var outcome := EmitPipelineEvent(batch[k].sequence, batch[k].event, None);
        if outcome.Refused? {
          return false;
        }
        assert batch[..k + 1][..k] == batch[..k];
      }
      assert batch[..|batch|] == batch;
      return true;
    }

    /** One undisturbed evaluation: create, emit event 1, emit the decision, set its stage. */
    method ExecutePolicyEvaluation(a: PolicyAction) returns (ok: bool)
      requires stage.None? ==> events == map[]
      modifies this
      ensures ok <==> old(stage).None?
      ensures ok && a == DisablePciLogs ==>
        stage == Some(Failed) && events == map[1 := ValidationExecuted, 2 := EnforcementBlocked]
      ensures ok && a == DropProdSpans ==>
        stage == Some(DecisionGate) && events == map[1 := ValidationExecuted, 2 := ApprovalRequired]
      ensures ok && a == StripStagingDebug ==>
        stage == Some(Executing) && events == map[1 := ValidationExecuted, 2 := EnforcementAllowed]
      ensures !ok ==> stage == old(stage) && events == old(events)
    {
      ok := CreateExecution(DecisionGate);
      if ok {
        var first := EmitPipelineEvent(1, ValidationExecuted, None);
        var second := EmitPipelineEvent(2, DecisionEvent(a), None);
        UpdateExecutionStage(DecisionStage(a));
      }
    }

    /** One undisturbed approval: it takes the number after the last one and starts execution. */
    method ApproveOperatorDecision() returns (sequence: Option<int>)
      requires stage.None? ==> events == map[]
      modifies this
      ensures sequence.None? <==> old(events) == map[]
      ensures sequence.None? ==> stage == old(stage) && events == old(events)
      ensures sequence.Some? ==>
        && (forall k :: k in old(events) ==> k < sequence.value)
        && events == old(events)[sequence.value := ApprovalGranted]
        && stage == Some(Executing)
      ensures Dense(old(events)) && sequence.Some? ==> sequence.value == |old(events)| + 1
    {
      if events == map[] {
        return None;
      }
      var todo, last := events.Keys, 0;
      while exists k :: k in todo
        invariant todo <= events.Keys && (forall k :: k in events && k !in todo ==> k <= last)
        invariant last == 0 || last in events
        decreases todo
      {
        var k :| k in todo;
        last := if k > last then k else last;
        todo := todo - {k};
      }
      assert Dense(events) ==> |events| in events;
      var outcome := EmitPipelineEvent(last + 1, ApprovalGranted, None);
      UpdateExecutionStage(Executing);
      return Some(last + 1);
    }
  }

  // ---------------------------------------------------------------- logs without gaps

  /** The sequence numbers in use are exactly 1..n. */
  ghost predicate Dense(events: Events) {
    forall k :: k in events <==> 1 <= k <= |events|
  }

  lemma LastIsSize(events: Events)
    requires Dense(events)
    ensures LastSequence(events) == |events|
  {
    if |events| > 0 {
      assert |events| in events;
    }
  }

  /** A number that could come next is refused exactly when it is already committed. */
  lemma RefusedExact(events: Events, sequence: int)
    requires Dense(events) && 1 <= sequence <= |events| + 1
    ensures !Passes(events, sequence) <==> sequence in events
  {
  }

  lemma EmitKeeps(events: Events, sequence: int, event: EventType)
    requires Dense(events) && 1 <= sequence <= |events| + 1
    ensures Dense(Emit(events, sequence, event)) && |events| <= |Emit(events, sequence, event)|
    ensures sequence in Emit(events, sequence, event)
    ensures forall k :: k in events ==>
              k in Emit(events, sequence, event) && Emit(events, sequence, event)[k] == events[k]
  {
    if sequence !in events {
      assert events[sequence := event].Keys == events.Keys + {sequence};
      assert |events[sequence := event].Keys| == |events.Keys| + 1;
    }
  }
}
