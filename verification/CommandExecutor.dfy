/**
 Idempotent command execution: concurrent and repeated deliveries of one command ID share one
 action, and an acknowledgement that is still remembered answers without acting.
 The awaits of the source cut its executeCommand into the steps below; any number of callers
 may interleave them.
 */
module CommandExecutor {
  import opened Options
  import opened CommandRegistry

  datatype OpState =
    | Running
    | Succeeded(ack: Ack, position: nat)
    | Failed

  /** One execution of an action. startedAt is how many acknowledgements had been remembered by then. */
  datatype Op = Op(commandId: CommandId, sessionId: string, startedAt: nat, state: OpState)

  /**
   registry and inFlight are the source's two maps. ops records every action ever started, and
   history every key ever inserted into the registry.
   */
  datatype Executor = Executor(
    capacity: nat,
    registry: seq<Ack>,
    inFlight: map<CommandId, nat>,
    ops: seq<Op>,
    history: seq<CommandId>)

  /** How a delivery proceeds: answered from memory, waiting on an earlier delivery's action, or acting itself. */
  datatype Outcome = Cached(ack: Ack) | Joined(op: nat) | Started(op: nat)

  function Initial(capacity: nat): Executor {
    Executor(capacity, [], map[], [], [])
  }

  // -------------------------------------------------------------- steps ---

  ghost function Begin(x: Executor, sessionId: string, id: CommandId): (r: (Executor, Outcome)) {
    match Find(x.registry, id)
    case Some(ack) => (x, Cached(ack))
    case None =>
      if id in x.inFlight then (x, Joined(x.inFlight[id])) else
      var k := |x.ops|;
      (x.(inFlight := x.inFlight[id := k], ops := x.ops + [Op(id, sessionId, |x.history|, Running)]), Started(k))
  }

  ghost predicate IsRunning(x: Executor, k: nat) {
    k < |x.ops| && x.ops[k].state == Running
  }

  ghost function RememberIn(x: Executor, ack: Ack): Executor {
    x.(registry := Remembered(x.registry, ack, x.capacity),
       history := if Holds(x.registry, ack.commandId) then x.history else x.history + [ack.commandId])
  }

  /** The action succeeds and its acknowledgement is remembered. */
  ghost function Succeed(x: Executor, k: nat, lastSequence: nat): Executor
    requires IsRunning(x, k)
  {
    var ack := Ack(x.ops[k].commandId, x.ops[k].sessionId, lastSequence);
    RememberIn(x, ack).(ops := x.ops[k := x.ops[k].(state := Succeeded(ack, |x.history|))])
  }

  ghost function Fail(x: Executor, k: nat): Executor
    requires IsRunning(x, k)
  {
    x.(ops := x.ops[k := x.ops[k].(state := Failed)])
  }

  /** The first caller leaves: the ID is no longer in flight. */
  ghost function Retire(x: Executor, k: nat): Executor
    requires k < |x.ops|
  {
    x.(inFlight := x.inFlight - {x.ops[k].commandId})
  }

  ghost predicate CanRetire(x: Executor, k: nat) {
    k < |x.ops| && !x.ops[k].state.Running? && x.ops[k].commandId in x.inFlight && x.inFlight[x.ops[k].commandId] == k
  }

  /** Uploads remember acknowledgements of their own; command IDs are not shared between the two. */
  ghost predicate IsUploadId(x: Executor, id: CommandId) {
    forall k :: 0 <= k < |x.ops| ==> x.ops[k].commandId != id
  }

  datatype Step =
    | BeginStep(sessionId: string, id: CommandId)
    | SucceedStep(op: nat, lastSequence: nat)
    | FailStep(op: nat)
    | RetireStep(op: nat)
    | UploadStep(ack: Ack)

  ghost predicate Enabled(x: Executor, step: Step) {
    match step
    case BeginStep(_, _) => true
    case SucceedStep(k, _) => IsRunning(x, k)
    case FailStep(k) => IsRunning(x, k)
    case RetireStep(k) => CanRetire(x, k)
    case UploadStep(ack) => IsUploadId(x, ack.commandId)
  }

  ghost function Apply(x: Executor, step: Step): Executor
    requires Enabled(x, step)
  {
    match step
    case BeginStep(sessionId, id) => Begin(x, sessionId, id).0
    case SucceedStep(k, lastSequence) => Succeed(x, k, lastSequence)
    case FailStep(k) => Fail(x, k)
    case RetireStep(k) => Retire(x, k)
    case UploadStep(ack) => RememberIn(x, ack)
  }

  // ---------------------------------------------------------- invariant ---

  /** The registry is the newest part of the history, at most capacity long. */
  ghost predicate RegistryIsWindow(x: Executor) {
    && x.capacity > 0 && DistinctIds(x.registry)
    && |x.registry| == (if x.capacity < |x.history| then x.capacity else |x.history|)
    && forall i :: 0 <= i < |x.registry| ==> x.registry[i].commandId == x.history[|x.history| - |x.registry| + i]
  }

  ghost predicate InFlightIsRight(x: Executor) {
    && (forall id :: id in x.inFlight ==> x.inFlight[id] < |x.ops| && x.ops[x.inFlight[id]].commandId == id)
    && (forall k :: 0 <= k < |x.ops| && x.ops[k].state.Running? ==>
         && x.ops[k].commandId in x.inFlight && x.inFlight[x.ops[k].commandId] == k
         && !Holds(x.registry, x.ops[k].commandId))
  }

  /** A success is recorded in the history, and in the registry for as long as it is in the window. */
  ghost predicate SuccessIsRemembered(x: Executor, k: nat)
    requires k < |x.ops| && |x.registry| <= |x.history|
  {
    x.ops[k].state.Succeeded? ==>
      var ack, p := x.ops[k].state.ack, x.ops[k].state.position;
      && ack.commandId == x.ops[k].commandId && ack.sessionId == x.ops[k].sessionId
      && p < |x.history| && x.history[p] == x.ops[k].commandId
      && (p >= |x.history| - |x.registry| ==> x.registry[p - (|x.history| - |x.registry|)] == ack)
  }

  /** An action with the same ID as an earlier one starts only if that one failed or was since forgotten. */
  ghost predicate RestartIsLate(x: Executor, j: nat, k: nat)
    requires j < k < |x.ops|
  {
    x.ops[j].commandId == x.ops[k].commandId ==>
      match x.ops[j].state
      case Running => false
      case Failed => true
      case Succeeded(_, p) => p + 1 + x.capacity <= x.ops[k].startedAt
  }

  ghost predicate Inv(x: Executor) {
    && RegistryIsWindow(x)
    && InFlightIsRight(x)
    && (forall k :: 0 <= k < |x.ops| ==> SuccessIsRemembered(x, k) && x.ops[k].startedAt <= |x.history|)
    && (forall j, k :: 0 <= j < k < |x.ops| ==> RestartIsLate(x, j, k))
  }

  lemma InitialInv(capacity: nat)
    requires capacity > 0
    ensures Inv(Initial(capacity))
  {
  }

  lemma BeginKeepsInv(x: Executor, sessionId: string, id: CommandId)
    requires Inv(x)
    ensures Inv(Begin(x, sessionId, id).0)
  {
    var y := Begin(x, sessionId, id).0;
    if y != x {
      var n := |x.ops|;
      forall j | 0 <= j < n
        ensures RestartIsLate(y, j, n)
      {
        assert SuccessIsRemembered(x, j);
        if x.ops[j].commandId == id && x.ops[j].state.Succeeded? {
          if Low(x) <= x.ops[j].state.position {
            WindowIsHeld(x, x.ops[j].state.position);
          }
        }
      }
      forall j, k | 0 <= j < k < |y.ops|
        ensures RestartIsLate(y, j, k)
      {
        if k < n {
          assert RestartIsLate(x, j, k);
        }
      }
      forall k | 0 <= k < |y.ops|
        ensures SuccessIsRemembered(y, k)
      {
        if k < n {
          assert SuccessIsRemembered(x, k);
        }
      }
    }
  }

  /** Where the registry's window on the history begins. */
  ghost function Low(x: Executor): int {
    |x.history| - |x.registry|
  }

  lemma WindowIsHeld(x: Executor, p: nat)
    requires RegistryIsWindow(x) && Low(x) <= p < |x.history|
    ensures Holds(x.registry, x.history[p])
  {
    assert x.registry[p - Low(x)].commandId == x.history[Low(x) + (p - Low(x))];
  }

  lemma TrimKeepsDistinct(entries: seq<Ack>, capacity: nat)
    requires DistinctIds(entries)
    ensures DistinctIds(Trim(entries, capacity))
  {
  }

  lemma RememberKeepsWindow(x: Executor, ack: Ack)
    requires RegistryIsWindow(x)
    ensures RegistryIsWindow(RememberIn(x, ack))
  {
    PutKeepsDistinct(x.registry, ack);
    TrimKeepsDistinct(Put(x.registry, ack), x.capacity);
    if Holds(x.registry, ack.commandId) {
      assert Remembered(x.registry, ack, x.capacity) == Put(x.registry, ack);
    } else {
      hide Put, Holds, DistinctIds;
      PutNew(x.registry, ack);
    }
  }

  lemma PutNew(entries: seq<Ack>, ack: Ack)
    requires !Holds(entries, ack.commandId)
    ensures Put(entries, ack) == entries + [ack]
  {
  }

  /** Remembering does not disturb the entries of other commands that stay in the window. */
  lemma OtherEntriesStay(x: Executor, ack: Ack, p: nat)
    requires RegistryIsWindow(x) && p < |x.history| && x.history[p] != ack.commandId
    ensures var y := RememberIn(x, ack);
      && Low(x) <= Low(y)
      && (Low(y) <= p ==> p - Low(y) < |y.registry| && y.registry[p - Low(y)] == x.registry[p - Low(x)])
  {
    hide RegistryIsWindow, Remembered, Holds;
    WindowSize(x);
    RememberedSize(x.registry, ack, x.capacity);
    if p >= Low(x) {
      EntryAt(x, p);
      OtherEntryStays(x.registry, ack, x.capacity, p - Low(x));
    }
  }

  lemma WindowSize(x: Executor)
    requires RegistryIsWindow(x)
    ensures |x.registry| <= x.capacity && |x.registry| <= |x.history|
  {
    hide DistinctIds;
  }

  lemma EntryAt(x: Executor, p: nat)
    requires RegistryIsWindow(x) && Low(x) <= p < |x.history|
    ensures x.registry[p - Low(x)].commandId == x.history[p]
  {
    hide DistinctIds;
    assert x.history[p] == x.history[|x.history| - |x.registry| + (p - Low(x))];
  }

  lemma RememberedSize(entries: seq<Ack>, ack: Ack, capacity: nat)
    requires |entries| <= capacity
    ensures |Remembered(entries, ack, capacity)| ==
      if Holds(entries, ack.commandId) then |entries| else if |entries| < capacity then |entries| + 1 else capacity
  {
    hide Holds, Trim;
  }

  lemma OtherEntryStays(entries: seq<Ack>, ack: Ack, capacity: nat, i: nat)
    requires |entries| <= capacity && i < |entries| && entries[i].commandId != ack.commandId
    ensures var after := Remembered(entries, ack, capacity);
      var dropped := |entries| + (if Holds(entries, ack.commandId) then 0 else 1) - |after|;
      0 <= dropped && (dropped <= i ==> i - dropped < |after| && after[i - dropped] == entries[i])
  {
    hide Holds, Put, Trim;
    if Holds(entries, ack.commandId) {
      PutKeepsSize(entries, ack);
      TrimNothing(Put(entries, ack), capacity);
      PutElsewhere(entries, ack, i);
    } else {
      PutNew(entries, ack);
      TrimShifts(entries + [ack], capacity, i);
    }
  }

  lemma PutKeepsSize(entries: seq<Ack>, ack: Ack)
    requires Holds(entries, ack.commandId)
    ensures |Put(entries, ack)| == |entries|
  {
  }

  lemma TrimNothing(entries: seq<Ack>, capacity: nat)
    requires |entries| <= capacity
    ensures Trim(entries, capacity) == entries
  {
  }

  lemma PutElsewhere(entries: seq<Ack>, ack: Ack, i: nat)
    requires i < |entries| && entries[i].commandId != ack.commandId
    ensures Put(entries, ack)[i] == entries[i]
  {
  }

  lemma TrimShifts(entries: seq<Ack>, capacity: nat, i: int)
    requires 0 <= i < |entries|
    ensures var dropped := |entries| - |Trim(entries, capacity)|;
      dropped <= i ==> Trim(entries, capacity)[i - dropped] == entries[i]
  {
  }

  /** A new key becomes the newest entry. */
  lemma NewEntryIsLast(x: Executor, ack: Ack)
    requires RegistryIsWindow(x) && !Holds(x.registry, ack.commandId)
    ensures var y := RememberIn(x, ack);
      && y.history == x.history + [ack.commandId]
      && Low(x) <= Low(y) && y.registry != [] && y.registry[|y.registry| - 1] == ack
  {
    assert Put(x.registry, ack) == x.registry + [ack];
  }

  lemma RememberedHolds(x: Executor, ack: Ack, id: CommandId)
    requires id != ack.commandId && !Holds(x.registry, id)
    ensures !Holds(RememberIn(x, ack).registry, id)
  {
    var put := Put(x.registry, ack);
    forall i | 0 <= i < |put|
      ensures put[i].commandId != id
    {
    }
  }

  lemma OtherSuccessStays(x: Executor, ack: Ack, j: nat)
    requires RegistryIsWindow(x) && j < |x.ops| && SuccessIsRemembered(x, j)
    requires x.ops[j].commandId == ack.commandId ==> !Holds(x.registry, ack.commandId)
    ensures SuccessIsRemembered(RememberIn(x, ack), j)
  {
    hide Holds, RegistryIsWindow, Remembered;
    if x.ops[j].state.Succeeded? {
      var p := x.ops[j].state.position;
      if x.ops[j].commandId != ack.commandId {
        OtherEntriesStay(x, ack, p);
      } else {
        NewEntryIsLast(x, ack);
        if Low(x) <= p {
          WindowIsHeld(x, p);
        }
      }
    }
  }

  lemma SucceedKeepsInv(x: Executor, k: nat, lastSequence: nat)
    requires Inv(x) && IsRunning(x, k)
    ensures Inv(Succeed(x, k, lastSequence))
  {
    hide Holds, Remembered;
    var id := x.ops[k].commandId;
    var ack := Ack(id, x.ops[k].sessionId, lastSequence);
    var y := Succeed(x, k, lastSequence);
    RememberKeepsWindow(x, ack);
    NewEntryIsLast(x, ack);
    forall j | 0 <= j < |y.ops|
      ensures SuccessIsRemembered(y, j) && y.ops[j].startedAt <= |y.history|
      ensures y.ops[j].state.Running? ==> !Holds(y.registry, y.ops[j].commandId)
    {
      if j != k {
        assert SuccessIsRemembered(x, j);
        OtherSuccessStays(x, ack, j);
        if y.ops[j].state.Running? {
          RememberedHolds(x, ack, y.ops[j].commandId);
        }
      }
    }
    forall i, j | 0 <= i < j < |y.ops|
      ensures RestartIsLate(y, i, j)
    {
      assert RestartIsLate(x, i, j);
    }
  }

  lemma UploadKeepsInv(x: Executor, ack: Ack)
    requires Inv(x) && IsUploadId(x, ack.commandId)
    ensures Inv(RememberIn(x, ack))
  {
    hide Holds, Remembered;
    var y := RememberIn(x, ack);
    RememberKeepsWindow(x, ack);
    forall j | 0 <= j < |y.ops|
      ensures SuccessIsRemembered(y, j)
      ensures y.ops[j].state.Running? ==> !Holds(y.registry, y.ops[j].commandId)
    {
      OtherSuccessStays(x, ack, j);
      if y.ops[j].state.Running? {
        RememberedHolds(x, ack, y.ops[j].commandId);
      }
    }
    forall i, j | 0 <= i < j < |y.ops|
      ensures RestartIsLate(y, i, j)
    {
      assert RestartIsLate(x, i, j);
    }
  }

  lemma FailKeepsInv(x: Executor, k: nat)
    requires Inv(x) && IsRunning(x, k)
    ensures Inv(Fail(x, k))
  {
    var y := Fail(x, k);
    forall j | 0 <= j < |y.ops|
      ensures SuccessIsRemembered(y, j)
    {
      assert SuccessIsRemembered(x, j);
    }
    forall i, j | 0 <= i < j < |y.ops|
      ensures RestartIsLate(y, i, j)
    {
      assert RestartIsLate(x, i, j);
    }
  }

  lemma RetireKeepsInv(x: Executor, k: nat)
    requires Inv(x) && CanRetire(x, k)
    ensures Inv(Retire(x, k))
  {
    var y := Retire(x, k);
    forall j | 0 <= j < |y.ops|
      ensures SuccessIsRemembered(y, j)
    {
      assert SuccessIsRemembered(x, j);
    }
    forall i, j | 0 <= i < j < |y.ops|
      ensures RestartIsLate(y, i, j)
    {
      assert RestartIsLate(x, i, j);
    }
  }

  lemma StepKeepsInv(x: Executor, step: Step)
    requires Inv(x) && Enabled(x, step)
    ensures Inv(Apply(x, step))
  {
    hide Inv, Begin, Succeed, Fail, Retire, RememberIn;
    match step
    case BeginStep(sessionId, id) => BeginKeepsInv(x, sessionId, id);
    case SucceedStep(k, lastSequence) => SucceedKeepsInv(x, k, lastSequence);
    case FailStep(k) => FailKeepsInv(x, k);
    case RetireStep(k) => RetireKeepsInv(x, k);
    case UploadStep(ack) => UploadKeepsInv(x, ack);
  }

  // ------------------------------------------------------------- all runs ---

  /** y is reached from x by these steps, each enabled when it is taken. */
  ghost predicate Reaches(x: Executor, steps: seq<Step>, y: Executor)
    decreases |steps|
  {
    if steps == [] then x == y
    else Enabled(x, steps[0]) && Reaches(Apply(x, steps[0]), steps[1..], y)
  }

  lemma {:induction false} RunKeepsInv(x: Executor, steps: seq<Step>, y: Executor)
    requires Inv(x) && Reaches(x, steps, y)
    ensures Inv(y) && y.capacity == x.capacity
    decreases |steps|
  {
    hide Inv, Apply, Enabled;
    if steps != [] {
      HistoryGrows(x, steps[0]);
      StepKeepsInv(x, steps[0]);
      RunKeepsInv(Apply(x, steps[0]), steps[1..], y);
    }
  }

  /** The action of execution k is running or has succeeded. */
  ghost predicate Active(x: Executor, k: nat)
    requires k < |x.ops|
  {
    !x.ops[k].state.Failed?
  }

  /**
   In every run, two executions of one command ID that are both running or succeeded are apart:
   the first had succeeded, and at least capacity other acknowledgements were remembered after its
   own before the second began.
   */
  lemma AtMostOneActionPerWindow(steps: seq<Step>, capacity: nat, y: Executor, j: nat, k: nat)
    requires capacity > 0 && Reaches(Initial(capacity), steps, y)
    requires j < k < |y.ops| && y.ops[j].commandId == y.ops[k].commandId
    requires Active(y, j) && Active(y, k)
    ensures y.ops[j].state.Succeeded?
    ensures y.ops[j].state.position < |y.history| && y.history[y.ops[j].state.position] == y.ops[j].commandId
    ensures y.ops[j].state.position + 1 + capacity <= y.ops[k].startedAt <= |y.history|
  {
    InitialInv(capacity);
    RunKeepsInv(Initial(capacity), steps, y);
    assert RestartIsLate(y, j, k);
    assert SuccessIsRemembered(y, j);
  }

  lemma FindIs(entries: seq<Ack>, i: nat)
    requires i < |entries| && DistinctIds(entries)
    ensures Find(entries, entries[i].commandId) == Some(entries[i])
  {
    assert Holds(entries, entries[i].commandId);
  }

  /**
   In every run, a delivery that repeats a command whose action succeeded, while that is still
   among the last capacity acknowledgements, starts nothing and gets the first one's answer.
   */
  lemma DuplicateGetsTheSameAnswer(steps: seq<Step>, capacity: nat, y: Executor, k: nat, sessionId: string)
    requires capacity > 0 && Reaches(Initial(capacity), steps, y)
    requires k < |y.ops| && y.ops[k].state.Succeeded?
    requires |y.history| <= y.ops[k].state.position + capacity
    ensures Begin(y, sessionId, y.ops[k].commandId) == (y, Cached(y.ops[k].state.ack))
  {
    hide RegistryIsWindow, InFlightIsRight, SuccessIsRemembered, RestartIsLate, Reaches, Begin;
    InitialInv(capacity);
    RunKeepsInv(Initial(capacity), steps, y);
    RememberedIsAnswered(y, k, sessionId);
  }

  lemma RememberedIsAnswered(y: Executor, k: nat, sessionId: string)
    requires RegistryIsWindow(y) && k < |y.ops| && SuccessIsRemembered(y, k) && y.ops[k].state.Succeeded?
    requires |y.history| <= y.ops[k].state.position + y.capacity
    ensures Begin(y, sessionId, y.ops[k].commandId) == (y, Cached(y.ops[k].state.ack))
  {
    hide Holds, DistinctIds;
    FindIs(y.registry, y.ops[k].state.position - Low(y));
  }

  /** In every run, a delivery that arrives while the action is running waits for that action. */
  lemma DuplicateJoinsTheRunningAction(steps: seq<Step>, capacity: nat, y: Executor, k: nat, sessionId: string)
    requires capacity > 0 && Reaches(Initial(capacity), steps, y)
    requires IsRunning(y, k)
    ensures Begin(y, sessionId, y.ops[k].commandId) == (y, Joined(k))
  {
    InitialInv(capacity);
    RunKeepsInv(Initial(capacity), steps, y);
  }

  /** This ID is among the last capacity keys that were newly remembered. */
  ghost predicate InWindow(x: Executor, id: CommandId) {
    exists i :: 0 <= i < |x.history| && |x.history| - i <= x.capacity && x.history[i] == id
  }

  lemma WindowIsRegistry(x: Executor, id: CommandId)
    requires RegistryIsWindow(x)
    ensures InWindow(x, id) <==> Holds(x.registry, id)
  {
    if i :| 0 <= i < |x.history| && |x.history| - i <= x.capacity && x.history[i] == id {
      WindowIsHeld(x, i);
    }
    if k :| 0 <= k < |x.registry| && x.registry[k].commandId == id {
      assert x.history[Low(x) + k] == id;
    }
  }

  /**
   In every run, a delivery acts exactly if its ID is neither in flight nor among the last capacity keys
   remembered: whatever the command did before.
   */
  lemma ActsExactlyWhenForgotten(steps: seq<Step>, capacity: nat, y: Executor, sessionId: string, id: CommandId)
    requires capacity > 0 && Reaches(Initial(capacity), steps, y)
    ensures Begin(y, sessionId, id).1.Started? <==> id !in y.inFlight && !InWindow(y, id)
  {
    hide RegistryIsWindow, InFlightIsRight, SuccessIsRemembered, RestartIsLate, Reaches, InWindow;
    InitialInv(capacity);
    RunKeepsInv(Initial(capacity), steps, y);
    WindowIsRegistry(y, id);
  }

  lemma {:induction false} RunPush(x: Executor, steps: seq<Step>, y: Executor, step: Step)
    requires Reaches(x, steps, y) && Enabled(y, step)
    ensures Reaches(x, steps + [step], Apply(y, step))
    decreases |steps|
  {
    hide Enabled, Apply;
    if steps == [] {
      assert [step][1..] == [];
    } else {
      assert (steps + [step])[1..] == steps[1..] + [step];
      RunPush(Apply(x, steps[0]), steps[1..], y, step);
    }
  }

  /** IDs of uploads, all different and none of them "c". */
  function UploadId(i: nat): CommandId {
    seq(i + 1, _ => 'u')
  }

  function UploadIds(n: nat): (ids: seq<CommandId>)
    ensures |ids| == n && forall i :: 0 <= i < n ==> ids[i] == UploadId(i)
  {
    seq(n, i requires 0 <= i => UploadId(i))
  }

  lemma UploadIdIsNew(n: nat)
    ensures UploadId(n) != "c" && UploadId(n) !in UploadIds(n) && UploadIds(n) + [UploadId(n)] == UploadIds(n + 1)
  {
    assert UploadId(n)[0] != "c"[0];
    forall i | 0 <= i < n
      ensures UploadId(i) != UploadId(n)
    {
      assert |UploadId(i)| == i + 1 && |UploadId(n)| == n + 1;
    }
  }

  /** A command that has succeeded and whose caller has left, with n uploads remembered since. */
  ghost predicate DoneBefore(y: Executor, capacity: nat, n: nat) {
    && y.capacity == capacity && y.inFlight == map[] && y.history == ["c"] + UploadIds(n)
    && |y.ops| == 1 && y.ops[0].commandId == "c" && y.ops[0].state.Succeeded?
  }

  lemma DoneOnce(capacity: nat) returns (steps: seq<Step>, y: Executor)
    requires capacity > 0
    ensures Reaches(Initial(capacity), steps, y) && DoneBefore(y, capacity, 0)
  {
    hide Reaches, Apply, Enabled, DoneBefore;
    var x := Initial(capacity);
    NothingReached(x);
    var a := BeginsFirst(capacity);
    RunPush(x, [], x, BeginStep("s", "c"));
    var b := SucceedsFirst(capacity, a);
    RunPush(x, [] + [BeginStep("s", "c")], a, SucceedStep(0, 0));
    y := LeavesFirst(capacity, b);
    RunPush(x, [] + [BeginStep("s", "c")] + [SucceedStep(0, 0)], b, RetireStep(0));
    steps := [] + [BeginStep("s", "c")] + [SucceedStep(0, 0)] + [RetireStep(0)];
  }

  lemma BeginsFirst(capacity: nat) returns (a: Executor)
    ensures Enabled(Initial(capacity), BeginStep("s", "c")) && a == Apply(Initial(capacity), BeginStep("s", "c"))
    ensures a == Executor(capacity, [], map["c" := 0], [Op("c", "s", 0, Running)], [])
  {
    a := Executor(capacity, [], map["c" := 0], [Op("c", "s", 0, Running)], []);
  }

  lemma SucceedsFirst(capacity: nat, a: Executor) returns (b: Executor)
    requires a == Executor(capacity, [], map["c" := 0], [Op("c", "s", 0, Running)], [])
    ensures Enabled(a, SucceedStep(0, 0)) && b == Apply(a, SucceedStep(0, 0))
    ensures b.capacity == capacity && b.inFlight == map["c" := 0] && b.history == ["c"]
    ensures |b.ops| == 1 && b.ops[0].commandId == "c" && b.ops[0].state.Succeeded?
  {
    hide Remembered;
    b := Apply(a, SucceedStep(0, 0));
  }

  lemma LeavesFirst(capacity: nat, b: Executor) returns (y: Executor)
    requires b.capacity == capacity && b.inFlight == map["c" := 0] && b.history == ["c"]
    requires |b.ops| == 1 && b.ops[0].commandId == "c" && b.ops[0].state.Succeeded?
    ensures Enabled(b, RetireStep(0)) && y == Apply(b, RetireStep(0)) && DoneBefore(y, capacity, 0)
  {
    y := Apply(b, RetireStep(0));
    assert map["c" := 0] - {"c"} == map[];
    assert UploadIds(0) == [];
  }

  lemma NothingReached(x: Executor)
    ensures Reaches(x, [], x)
  {
  }

  lemma {:induction false} DoneLongAgo(capacity: nat, n: nat) returns (steps: seq<Step>, y: Executor)
    requires capacity > 0
    ensures Reaches(Initial(capacity), steps, y) && DoneBefore(y, capacity, n)
    decreases n
  {
    hide Reaches, Inv, UploadId, Enabled, Apply;
    if n == 0 {
      steps, y := DoneOnce(capacity);
    } else {
      var before, x := DoneLongAgo(capacity, n - 1);
      var upload := UploadStep(Ack(UploadId(n - 1), "s", 0));
      InitialInv(capacity);
      RunKeepsInv(Initial(capacity), before, x);
      UploadIdIsNew(n - 1);
      UploadPasses(x, capacity, n - 1, upload.ack);
      RunPush(Initial(capacity), before, x, upload);
      steps, y := before + [upload], Apply(x, upload);
    }
  }

  lemma UploadPasses(x: Executor, capacity: nat, n: nat, ack: Ack)
    requires DoneBefore(x, capacity, n) && Inv(x) && ack.commandId == UploadId(n)
    ensures Enabled(x, UploadStep(ack)) && DoneBefore(Apply(x, UploadStep(ack)), capacity, n + 1)
  {
    hide UploadId, InFlightIsRight, SuccessIsRemembered, RestartIsLate;
    UploadIdIsNew(n);
    WindowIsRegistry(x, ack.commandId);
    assert ["c"] + UploadIds(n) + [UploadId(n)] == ["c"] + UploadIds(n + 1);
  }

  /** A run in which one command acts twice and succeeds both times: capacity uploads came between. */
  lemma ActsTwice(capacity: nat) returns (steps: seq<Step>, y: Executor)
    requires capacity > 0
    ensures Reaches(Initial(capacity), steps, y) && |y.ops| == 2
    ensures y.ops[0].commandId == y.ops[1].commandId && y.ops[0].state.Succeeded? && y.ops[1].state.Succeeded?
  {
    hide Reaches, UploadId, Inv, DoneBefore, Apply, Enabled;
    steps, y := DoneLongAgo(capacity, capacity);
    ForgottenBy(y, capacity);
    ActsExactlyWhenForgotten(steps, capacity, y, "s", "c");
    var again, settled := SucceedsAgain(y, capacity);
    RunPush(Initial(capacity), steps, y, BeginStep("s", "c"));
    RunPush(Initial(capacity), steps + [BeginStep("s", "c")], again, SucceedStep(1, 0));
    steps, y := steps + [BeginStep("s", "c")] + [SucceedStep(1, 0)], settled;
  }

  lemma ForgottenBy(y: Executor, capacity: nat)
    requires DoneBefore(y, capacity, capacity)
    ensures "c" !in y.inFlight && !InWindow(y, "c")
  {
    hide UploadId;
    forall i | 0 <= i < |y.history| && |y.history| - i <= capacity
      ensures y.history[i] != "c"
    {
      UploadIdIsNew(i - 1);
    }
  }

  lemma SucceedsAgain(y: Executor, capacity: nat) returns (again: Executor, settled: Executor)
    requires DoneBefore(y, capacity, capacity) && Begin(y, "s", "c").1.Started?
    ensures Enabled(y, BeginStep("s", "c")) && again == Apply(y, BeginStep("s", "c"))
    ensures Enabled(again, SucceedStep(1, 0)) && settled == Apply(again, SucceedStep(1, 0))
    ensures |settled.ops| == 2 && settled.ops[0] == y.ops[0] && settled.ops[0].commandId == settled.ops[1].commandId
    ensures settled.ops[0].state.Succeeded? && settled.ops[1].state.Succeeded?
  {
    again := Apply(y, BeginStep("s", "c"));
    settled := Apply(again, SucceedStep(1, 0));
  }

  /** Remembering never changes capacity, and history only grows at the end. */
  lemma HistoryGrows(x: Executor, step: Step)
    requires Enabled(x, step)
    ensures x.history <= Apply(x, step).history && x.capacity == Apply(x, step).capacity
    ensures |x.ops| <= |Apply(x, step).ops|
    ensures forall k :: 0 <= k < |x.ops| ==>
      && Apply(x, step).ops[k].commandId == x.ops[k].commandId
      && (x.ops[k].state.Running? || Apply(x, step).ops[k] == x.ops[k])
  {
  }

  // ------------------------------------------------------- as an object ---

  /** The part of the bridge that executes commands, cut at its awaits. */
  class CommandService {
    const registry: CommandRegistry
    /** For each ID in flight, the number of the promise that its deliveries await. */
    var inFlight: map<CommandId, nat>
    var started: nat
    ghost var ops: seq<Op>
    ghost var history: seq<CommandId>

    ghost predicate Valid()
      reads this, registry
    {
      registry.Valid() && started == |ops| && Inv(Abs())
    }

    ghost function Abs(): Executor
      reads this, registry
    {
      Executor(registry.capacity, registry.commands, inFlight, ops, history)
    }

    constructor (capacity: nat)
      requires capacity > 0
      ensures Valid() && Abs() == Initial(capacity) && fresh(registry)
    {
      registry := new CommandRegistry(capacity);
      inFlight := map[];
      started := 0;
      ops := [];
      history := [];
      new;
      InitialInv(capacity);
    }

    /** From the call up to its first await: answer, join, or start the action. */
    method Enter(sessionId: string, id: CommandId) returns (outcome: Outcome)
      requires Valid()
      modifies this
      ensures Valid() && (Abs(), outcome) == Begin(old(Abs()), sessionId, id)
    {
      hide Inv;
      BeginKeepsInv(Abs(), sessionId, id);
      var duplicate := registry.Get(id);
      if duplicate.Some? {
        return Cached(duplicate.value.ack);
      }
      if id in inFlight {
        return Joined(inFlight[id]);
      }
      outcome := Started(started);
      inFlight := inFlight[id := started];
      started := started + 1;
      ops := ops + [Op(id, sessionId, |history|, Running)];
    }

    /** The action's await returns: remember the acknowledgement, or let the failure through. */
    method Settle(op: nat, id: CommandId, sessionId: string, lastSequence: Option<nat>) returns (result: Option<Ack>)
      requires Valid() && IsRunning(Abs(), op) && ops[op].commandId == id && ops[op].sessionId == sessionId
      modifies this, registry
      ensures Valid()
      ensures lastSequence.Some? ==> Abs() == Succeed(old(Abs()), op, lastSequence.value)
      ensures lastSequence.Some? ==> result == Some(Ack(id, sessionId, lastSequence.value))
      ensures lastSequence.None? ==> Abs() == Fail(old(Abs()), op) && result == None
    {
      match lastSequence
      case None =>
        LetThrough(op);
        result := None;
      case Some(sequence) =>
        var ack := Ack(id, sessionId, sequence);
        Acknowledge(op, ack);
        result := Some(ack);
    }

    method LetThrough(ghost op: nat)
      requires Valid() && IsRunning(Abs(), op)
      modifies this`ops
      ensures Valid() && Abs() == Fail(old(Abs()), op)
    {
      hide Inv;
      FailKeepsInv(Abs(), op);
      ops := ops[op := ops[op].(state := Failed)];
    }

    method Acknowledge(ghost op: nat, ack: Ack)
      requires Valid() && IsRunning(Abs(), op) && ops[op].commandId == ack.commandId && ops[op].sessionId == ack.sessionId
      modifies this`ops, this`history, registry
      ensures Valid() && Abs() == Succeed(old(Abs()), op, ack.lastSequence)
    {
      hide Inv, Remembered, Holds;
      SucceedKeepsInv(Abs(), op, ack.lastSequence);
      ops := ops[op := ops[op].(state := Succeeded(ack, |history|))];
      history := if Holds(registry.commands, ack.commandId) then history else history + [ack.commandId];
      registry.Remember(ack);
    }

    /** The finally clause of the call that started the action. */
    method Leave(ghost op: nat, id: CommandId)
      requires Valid() && CanRetire(Abs(), op) && ops[op].commandId == id
      modifies this
      ensures Valid() && Abs() == Retire(old(Abs()), op)
    {
      RetireKeepsInv(Abs(), op);
      inFlight := inFlight - {id};
    }
  }
}
