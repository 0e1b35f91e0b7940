/** The stop handshake of the Sionna extension: the command thread runs `onStart` and `onStop` while the
    poll thread marks channels, and channels come and go. */
module SionnaStop {

  /** Where the poll thread is: the scene loop's test, the poll loop's test, inside `computeAndApplyCIR`
      with at most `left` updates to make, or past the end of `pollLoop`. `NoThread` is a thread
      object that is not joinable. */
  datatype Worker = NoThread | SceneTest | PollTest | Applying(left: nat) | Finished

  /** Where the command thread is: between commands, after `m_running.store(true)` but before the thread is
      created, at the join of `onStop`, or in `clearExtensionFlags` with the channels still to visit. */
  datatype Command = Idle | Starting | Joining | Clearing(todo: set<nat>)

  /** `active` gives the active extension of every channel of every intermediate, "" for none. */
  datatype System = System(running: bool, worker: Worker, command: Command, active: map<nat, string>)

  const NAME := "sionna"

  datatype Action =
    | OnStart
    | Spawn
    | OnStop
    | Join
    | ClearOne(channel: nat)
    | ClearDone
    | SceneCheck(created: bool)
    | PollCheck(updates: nat)
    | Mark(channel: nat)
    | EndPoll
    | AddChannel(channel: nat)
    | RemoveChannel(channel: nat)
    | OtherExtension(channel: nat, name: string)

  predicate Enabled(s: System, a: Action) {
    match a
    case OnStart => s.command.Idle?
    case Spawn => s.command.Starting?
    case OnStop => s.command.Idle?
    case Join => s.command.Joining? && s.worker.Finished?
    case ClearOne(c) => s.command.Clearing? && c in s.command.todo
    case ClearDone => s.command.Clearing? && s.command.todo == {}
    case SceneCheck(_) => s.worker.SceneTest?
    case PollCheck(_) => s.worker.PollTest?
    case Mark(c) => s.worker.Applying? && s.worker.left > 0 && c in s.active
    case EndPoll => s.worker.Applying?
    case AddChannel(c) => c !in s.active
    case RemoveChannel(c) => c in s.active
    case OtherExtension(c, name) => c in s.active && name != NAME
  }

  /** One atomic step. A command that finds nothing to do returns at once and changes nothing. */
  function After(s: System, a: Action): System
    requires Enabled(s, a)
  {
    match a
    case OnStart => if s.running then s else s.(running := true, command := Starting)
    case Spawn => s.(worker := SceneTest, command := Idle)
    case OnStop => if s.running then s.(running := false, command := Joining) else s
    case Join => s.(worker := NoThread, command := Clearing(s.active.Keys))
    case ClearOne(c) =>
      var active := if c in s.active && s.active[c] == NAME then s.active[c := ""] else s.active;
      s.(active := active, command := Clearing(s.command.todo - {c}))
    case ClearDone => s.(command := Idle)
    case SceneCheck(created) => if s.running && !created then s else s.(worker := PollTest)
    case PollCheck(updates) => s.(worker := if s.running then Applying(updates) else Finished)
    case Mark(c) => s.(worker := Applying(s.worker.left - 1), active := s.active[c := NAME])
    case EndPoll => s.(worker := PollTest)
    case AddChannel(c) => s.(active := s.active[c := ""])
    case RemoveChannel(c) => s.(active := s.active - {c})
    case OtherExtension(c, name) => s.(active := s.active[c := name])
  }

  /** Every state of the run is reached from the one before by an enabled action. */
  ghost predicate IsRun(run: seq<System>, actions: seq<Action>) {
    |run| == |actions| + 1
    && run[0].command.Idle? && !run[0].running && run[0].worker.NoThread? && Unmarked(run[0])
    && forall i {:trigger actions[i]} :: 0 <= i < |actions| ==>
         Enabled(run[i], actions[i]) && run[i + 1] == After(run[i], actions[i])
  }

  predicate Unmarked(s: System) {
    forall c :: c in s.active ==> s.active[c] != NAME
  }

  ghost predicate Invariant(s: System) {
    match s.command
    case Idle => if s.running then !s.worker.NoThread? && !s.worker.Finished? else s.worker.NoThread? && Unmarked(s)
    case Starting => s.running && s.worker.NoThread?
    case Joining => !s.running && !s.worker.NoThread?
    case Clearing(todo) =>
      !s.running && s.worker.NoThread? && forall c :: c in s.active && s.active[c] == NAME ==> c in todo
  }

  lemma Preserved(s: System, a: Action)
    requires Invariant(s) && Enabled(s, a)
    ensures Invariant(After(s, a))
  {
  }

  lemma {:induction false} InvariantHolds(run: seq<System>, actions: seq<Action>, n: nat)
    requires IsRun(run, actions) && n < |run|
    ensures Invariant(run[n])
  {
    if n > 0 {
      InvariantHolds(run, actions, n - 1);
      Preserved(run[n - 1], actions[n - 1]);
    }
  }

  /** In every interleaving: between the return of `onStop` and the next `onStart` no channel carries the
      extension's mark, and there is no poll thread left to set one. */
  lemma NoMarkAfterStop(run: seq<System>, actions: seq<Action>, n: nat)
    requires IsRun(run, actions) && n < |run| && run[n].command.Idle? && !run[n].running
    ensures Unmarked(run[n]) && run[n].worker.NoThread?
  {
    InvariantHolds(run, actions, n);
  }

  // ----- The join returns ---------------------------------------------------------------------

  /** Steps of the poll thread. */
  predicate OfWorker(a: Action) {
    a.SceneCheck? || a.PollCheck? || a.Mark? || a.EndPoll?
  }

  /** How many steps the poll thread can still take once `m_running` is false. */
  function StepsToEnd(w: Worker): nat {
    match w
    case SceneTest => 2
    case Applying(left) => left + 2
    case PollTest => 1
    case _ => 0
  }

  function WorkerSteps(actions: seq<Action>): nat {
    if actions == [] then
      0
    else
      WorkerSteps(actions[..|actions| - 1]) + if OfWorker(actions[|actions| - 1]) then 1 else 0
  }

  /** While `onStop` waits, each step of the poll thread brings it closer to its end, and nothing else
      touches it. */
  lemma WorkerAdvances(s: System, a: Action)
    requires Invariant(s) && Enabled(s, a) && s.command.Joining? && !a.Join?
    ensures After(s, a).command.Joining?
    ensures if OfWorker(a) then StepsToEnd(After(s, a).worker) < StepsToEnd(s.worker)
            else After(s, a).worker == s.worker
  {
  }

  /** While `onStop` waits, the thread can take a step or the join can return. */
  lemma NeverStuck(s: System)
    requires Invariant(s) && s.command.Joining?
    ensures Enabled(s, Join) || exists a :: OfWorker(a) && Enabled(s, a)
    ensures Enabled(s, Join) <==> StepsToEnd(s.worker) == 0
  {
    match s.worker {
      case SceneTest => assert Enabled(s, SceneCheck(false)) && OfWorker(SceneCheck(false));
      case PollTest => assert Enabled(s, PollCheck(0)) && OfWorker(PollCheck(0));
      case Applying(_) => assert Enabled(s, EndPoll) && OfWorker(EndPoll);
      case _ =>
    }
  }

  /** In every interleaving: from the moment `onStop` waits at its join, the poll thread takes no more steps
      than its own state then allows, whatever happens to the channels, and until the join can return it
      always has a step to take. */
  lemma {:induction false} WorkerEnds(run: seq<System>, actions: seq<Action>, i: nat, j: nat)
    requires IsRun(run, actions) && i <= j < |run|
    requires forall k :: i <= k <= j ==> run[k].command.Joining?
    ensures WorkerSteps(actions[i..j]) + StepsToEnd(run[j].worker) <= StepsToEnd(run[i].worker)
    ensures Enabled(run[j], Join) || exists a :: OfWorker(a) && Enabled(run[j], a)
    ensures WorkerSteps(actions[i..j]) == StepsToEnd(run[i].worker) ==> Enabled(run[j], Join)
    decreases j
  {
    InvariantHolds(run, actions, j);
    NeverStuck(run[j]);
    if i == j {
      assert actions[i..j] == [];
    } else {
      WorkerEnds(run, actions, i, j - 1);
      InvariantHolds(run, actions, j - 1);
      StepsSnoc(actions, i, j);
      assert run[j] == After(run[j - 1], actions[j - 1]);
      WorkerAdvances(run[j - 1], actions[j - 1]);
    }
  }

  lemma StepsSnoc(actions: seq<Action>, i: nat, j: nat)
    requires i < j <= |actions|
    ensures WorkerSteps(actions[i..j]) == WorkerSteps(actions[i..j - 1]) + if OfWorker(actions[j - 1]) then 1 else 0
  {
    assert actions[i..j][..j - i - 1] == actions[i..j - 1];
  }

  // ----- Other extensions ---------------------------------------------------------------------

  /** Steps that put something else on the channel: its removal, its creation, another extension's mark, or the mark
      of a channel update. */
  predicate Touches(a: Action, channel: nat) {
    a == AddChannel(channel) || a == RemoveChannel(channel) || a == Mark(channel)
    || (a.OtherExtension? && a.channel == channel)
  }

  /** Starting and stopping, with all their clearing, leave the mark of every other extension as it was, in every
      interleaving. */
  lemma {:induction false} OtherMarksStay(run: seq<System>, actions: seq<Action>, i: nat, j: nat, channel: nat)
    requires IsRun(run, actions) && i <= j < |run|
    requires channel in run[i].active && run[i].active[channel] != "sionna"
    requires forall k :: i <= k < j ==> !Touches(actions[k], channel)
    ensures channel in run[j].active && run[j].active[channel] == run[i].active[channel]
    decreases j
  {
    if i < j {
      OtherMarksStay(run, actions, i, j - 1, channel);
      assert run[j] == After(run[j - 1], actions[j - 1]);
    }
  }
}
