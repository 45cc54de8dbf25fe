// Supervisor: keeps one generation of a component running, hears of its end through an error channel
// or its join handle, and restarts it. Components are arbitrary tasks that run beside it.
module Supervision {
  import opened Wrappers

  const CHANNEL_SIZE: nat := 10
  const UNEXPECTED_SHUTDOWN := "An unexpected shutdown was observed in a component."

  // One started task and its two channels.
  datatype Generation = Generation(
    inbox: seq<string>,    // messages in the error channel
    receiving: bool,       // the supervisor holds the receiver
    cancelled: bool,       // the cancellation sender has been dropped
    finished: bool,        // the task has ended
    sent: seq<string>)     // every message the channel has accepted

  datatype Event =
    | Started(gen: nat)
    | Handled(gen: nat, message: string)   // a call of handle_irrecoverable
    | Cancelled(gen: nat)

  // Where the supervisor is between two of its own steps.
  datatype Stage =
    | Starting                              // about to call start
    | AssigningReceiver | AssigningCancellation | AssigningJoinHandle
    | Selecting                             // suspended in select
    | Handling(gen: nat, message: string)   // about to call handle_irrecoverable
    | Stopped                               // run has returned the handler's error

  datatype State = State(
    gens: seq<Generation>,
    stage: Stage,
    irrecoverableSignal: Option<nat>,
    cancellationSignal: Option<nat>,
    joinHandle: Option<nat>,
    events: seq<Event>)

  datatype Action =
    | Start | AssignReceiver | AssignCancellation | AssignJoinHandle
    | SelectMessage | SelectJoin            // either branch, when both are ready
    | HandlerOk | HandlerErr
    | TaskSend(gen: nat, message: string) | TaskReturn(gen: nat)

  const UNSPAWNED := State([], Starting, None, None, None, [])

  function Fresh(): Generation {
    Generation([], true, false, false, [])
  }

  predicate Current(gens: seq<Generation>, signal: Option<nat>) {
    signal.Some? && signal.value < |gens|
  }

  // ----- Dropping the supervisor's ends of the channels -----

  function DropReceiver(gens: seq<Generation>, signal: Option<nat>): seq<Generation> {
    if Current(gens, signal) then gens[signal.value := gens[signal.value].(inbox := [], receiving := false)] else gens
  }

  function DropCancellation(gens: seq<Generation>, signal: Option<nat>): seq<Generation> {
    if Current(gens, signal) then gens[signal.value := gens[signal.value].(cancelled := true)] else gens
  }

  function CancellationEvents(gens: seq<Generation>, signal: Option<nat>): seq<Event> {
    if Current(gens, signal) then [Cancelled(signal.value)] else []
  }

  // ----- Steps of the tasks -----

  predicate IsTaskStep(a: Action) {
    a.TaskSend? || a.TaskReturn?
  }

  predicate CanAct(gens: seq<Generation>, a: Action)
    requires IsTaskStep(a)
  {
    match a
    case TaskSend(g, _) => g < |gens| && gens[g].receiving && |gens[g].inbox| < CHANNEL_SIZE
    case TaskReturn(g) => g < |gens| && !gens[g].finished
  }

  function Acted(gens: seq<Generation>, a: Action): (r: seq<Generation>)
    requires IsTaskStep(a) && CanAct(gens, a)
    ensures |r| == |gens|
  {
    match a
    case TaskSend(g, m) => gens[g := gens[g].(inbox := gens[g].inbox + [m], sent := gens[g].sent + [m])]
    case TaskReturn(g) => gens[g := gens[g].(finished := true)]
  }

  // ----- Steps -----

  predicate Enabled(s: State, a: Action) {
    match a
    case Start => s.stage.Starting?
    case AssignReceiver => s.stage.AssigningReceiver? && s.gens != []
    case AssignCancellation => s.stage.AssigningCancellation? && s.gens != []
    case AssignJoinHandle => s.stage.AssigningJoinHandle? && s.gens != []
    case SelectMessage =>
      s.stage.Selecting? && Current(s.gens, s.irrecoverableSignal) && s.gens[s.irrecoverableSignal.value].inbox != []
    case SelectJoin =>
      s.stage.Selecting? && Current(s.gens, s.joinHandle) && s.gens[s.joinHandle.value].finished
    case HandlerOk => s.stage.Handling?
    case HandlerErr => s.stage.Handling?
    case TaskSend(_, _) => CanAct(s.gens, a)
    case TaskReturn(_) => CanAct(s.gens, a)
  }

  function Next(s: State, a: Action): State
    requires Enabled(s, a)
  {
    match a
    case Start =>
      s.(gens := s.gens + [Fresh()], stage := AssigningReceiver, events := s.events + [Started(|s.gens|)])
    case AssignReceiver =>
      s.(gens := DropReceiver(s.gens, s.irrecoverableSignal),
         stage := AssigningCancellation,
         irrecoverableSignal := Some(|s.gens| - 1))
    case AssignCancellation =>
      s.(gens := DropCancellation(s.gens, s.cancellationSignal),
         stage := AssigningJoinHandle,
         cancellationSignal := Some(|s.gens| - 1),
         events := s.events + CancellationEvents(s.gens, s.cancellationSignal))
    case AssignJoinHandle =>
      s.(stage := Selecting, joinHandle := Some(|s.gens| - 1))
    case SelectMessage =>
      var g := s.irrecoverableSignal.value;
      s.(gens := s.gens[g := s.gens[g].(inbox := s.gens[g].inbox[1..])], stage := Handling(g, s.gens[g].inbox[0]))
    case SelectJoin =>
      s.(stage := Handling(s.joinHandle.value, UNEXPECTED_SHUTDOWN))
    case HandlerOk =>
      s.(stage := Starting, events := s.events + [Handled(s.stage.gen, s.stage.message)])
    case HandlerErr =>
      // run returns, and the supervisor is dropped with everything it holds
      s.(gens := DropCancellation(DropReceiver(s.gens, s.irrecoverableSignal), s.cancellationSignal),
         stage := Stopped,
         events := s.events + [Handled(s.stage.gen, s.stage.message)]
                   + CancellationEvents(s.gens, s.cancellationSignal),
         irrecoverableSignal := None, cancellationSignal := None, joinHandle := None)
    case TaskSend(_, _) => s.(gens := Acted(s.gens, a))
    case TaskReturn(_) => s.(gens := Acted(s.gens, a))
  }

  // ----- Runs -----

  function After(run: seq<Action>): Option<State> {
    if run == [] then Some(UNSPAWNED) else
      match After(run[..|run| - 1])
      case None => None
      case Some(s) => if Enabled(s, run[|run| - 1]) then Some(Next(s, run[|run| - 1])) else None
  }

  // ----- The object -----

  // The supervisor's own actions in a run, without the steps of the tasks in between.
  function Own(run: seq<Action>): seq<Action> {
    if run == [] then [] else
      var a := run[|run| - 1];
      Own(run[..|run| - 1]) + if IsTaskStep(a) then [] else [a]
  }

  lemma RunGrows(run: seq<Action>, s: State, a: Action)
    requires After(run) == Some(s) && Enabled(s, a)
    ensures After(run + [a]) == Some(Next(s, a))
    ensures Own(run + [a]) == Own(run) + if IsTaskStep(a) then [] else [a]
  {
    assert (run + [a])[..|run|] == run;
  }

  // The supervisor's own code. Its log is the run that has led to its present state, in which the
  // tasks may step between any two of its actions.
  class Supervisor {
    var gens: seq<Generation>        // the tasks and channels of the runtime
    var stage: Stage
    var irrecoverableSignal: Option<nat>
    var cancellationSignal: Option<nat>
    var joinHandle: Option<nat>
    ghost var events: seq<Event>
    ghost var log: seq<Action>

    ghost function Now(): State
      reads this
    {
      State(gens, stage, irrecoverableSignal, cancellationSignal, joinHandle, events)
    }

    ghost predicate Valid()
      reads this
    {
      After(log) == Some(Now())
    }

    constructor ()
      ensures Valid() && Now() == UNSPAWNED && log == []
    {
      gens, stage := [], Starting;
      irrecoverableSignal, cancellationSignal, joinHandle := None, None, None;
      events, log := [], [];
    }

    // Any tasks, doing anything that they can do at this moment.
    method TasksAct(steps: seq<Action>)
      requires Valid()
      modifies this`gens, this`log
      ensures Valid() && old(log) <= log && Own(log) == Own(old(log)) && |gens| == |old(gens)|
    {
      hide After, Own;
      for i := 0 to |steps|
        invariant Valid() && old(log) <= log && Own(log) == Own(old(log)) && |gens| == |old(gens)|
      {
        if IsTaskStep(steps[i]) && CanAct(gens, steps[i]) {
          RunGrows(log, Now(), steps[i]);
          gens := Acted(gens, steps[i]);
          log := log + [steps[i]];
        }
      }
    }

    // The call of start, in spawn and in restart.
    method CallStart()
      requires Valid() && Enabled(Now(), Start)
      modifies this
      ensures Valid() && Now() == Next(old(Now()), Start) && log == old(log) + [Start]
    {
      hide After;
      RunGrows(log, Now(), Start);
      events := events + [Started(|gens|)];
      gens := gens + [Fresh()];
      stage := AssigningReceiver;
      log := log + [Start];
    }

    // The assignments that follow start. Each drops what the field held before.
    method AssignNewReceiver()
      requires Valid() && Enabled(Now(), AssignReceiver)
      modifies this
      ensures Valid() && Now() == Next(old(Now()), AssignReceiver) && log == old(log) + [AssignReceiver]
    {
      hide After;
      RunGrows(log, Now(), AssignReceiver);
      if irrecoverableSignal.Some? && irrecoverableSignal.value < |gens| {
        var g := irrecoverableSignal.value;
        gens := gens[g := gens[g].(inbox := [], receiving := false)];
      }
      irrecoverableSignal := Some(|gens| - 1);
      stage := AssigningCancellation;
      log := log + [AssignReceiver];
    }

    method AssignNewCancellation()
      requires Valid() && Enabled(Now(), AssignCancellation)
      modifies this
      ensures Valid() && Now() == Next(old(Now()), AssignCancellation) && log == old(log) + [AssignCancellation]
    {
      hide After;
      RunGrows(log, Now(), AssignCancellation);
      assert events + [] == events;
      if cancellationSignal.Some? && cancellationSignal.value < |gens| {
        var g := cancellationSignal.value;
        gens := gens[g := gens[g].(cancelled := true)];
        events := events + [Cancelled(g)];
      }
      cancellationSignal := Some(|gens| - 1);
      stage := AssigningJoinHandle;
      log := log + [AssignCancellation];
    }

    method AssignNewJoinHandle()
      requires Valid() && Enabled(Now(), AssignJoinHandle)
      modifies this
      ensures Valid() && Now() == Next(old(Now()), AssignJoinHandle) && log == old(log) + [AssignJoinHandle]
    {
      hide After;
      RunGrows(log, Now(), AssignJoinHandle);
      joinHandle := Some(|gens| - 1);
      stage := Selecting;
      log := log + [AssignJoinHandle];
    }

    // restart, and the first half of spawn, with tasks stepping meanwhile.
    method Restart(tasks: nat -> seq<Action>)
      requires Valid() && Enabled(Now(), Start)
      modifies this
      ensures Valid() && stage.Selecting? && old(log) <= log && |gens| == |old(gens)| + 1
      ensures Own(log) == Own(old(log)) + [Start, AssignReceiver, AssignCancellation, AssignJoinHandle]
    {
      hide After, Own, Acted;
      OwnGrows(log, Start);
      CallStart();
      TasksAct(tasks(0));
      OwnGrows(log, AssignReceiver);
      AssignNewReceiver();
      TasksAct(tasks(1));
      OwnGrows(log, AssignCancellation);
      AssignNewCancellation();
      TasksAct(tasks(2));
      OwnGrows(log, AssignJoinHandle);
      AssignNewJoinHandle();
    }

    // The select of run; messageFirst is its choice when both branches are ready.
    method Select(messageFirst: bool)
      requires Valid() && (Enabled(Now(), SelectMessage) || Enabled(Now(), SelectJoin))
      modifies this
      ensures Valid() && Now() == Picked(old(Now()), messageFirst)
      ensures log == old(log) + [Choice(old(Now()), messageFirst)]
    {
      hide After;
      RunGrows(log, Now(), Choice(Now(), messageFirst));
      log := log + [Choice(Now(), messageFirst)];
      var message := UNEXPECTED_SHUTDOWN;
      var source: nat;
      var messageReady := Current(gens, irrecoverableSignal) && gens[irrecoverableSignal.value].inbox != [];
      var joinReady := Current(gens, joinHandle) && gens[joinHandle.value].finished;
      if messageReady && (messageFirst || !joinReady) {
        source := irrecoverableSignal.value;
        message := gens[source].inbox[0];
        gens := gens[source := gens[source].(inbox := gens[source].inbox[1..])];
      } else {
        source := joinHandle.value;
      }
      stage := Handling(source, message);
    }

    // The call of handle_irrecoverable: on an error run returns, and drops the supervisor.
    method HandleIrrecoverable(fails: bool)
      requires Valid() && Enabled(Now(), HandlerOk)
      modifies this
      ensures var a := if fails then HandlerErr else HandlerOk;
              Valid() && Now() == Next(old(Now()), a) && log == old(log) + [a]
    {
      hide After;
      RunGrows(log, Now(), if fails then HandlerErr else HandlerOk);
      log := log + [if fails then HandlerErr else HandlerOk];
      events := events + [Handled(stage.gen, stage.message)];
      if fails {
        events := events + CancellationEvents(gens, cancellationSignal);
        gens := DropCancellation(DropReceiver(gens, irrecoverableSignal), cancellationSignal);
        stage := Stopped;
        irrecoverableSignal, cancellationSignal, joinHandle := None, None, None;
      } else {
        stage := Starting;
      }
    }

    // One turn of the loop in run, from select to the end of restart or the return of the handler's
    // error: the supervisor takes these actions in this order, whatever the tasks do in between.
    method Turn(messageFirst: bool, handlerFails: bool, tasks: nat -> seq<Action>) returns (failed: bool)
      requires Valid() && (Enabled(Now(), SelectMessage) || Enabled(Now(), SelectJoin))
      modifies this
      ensures Valid() && failed == handlerFails && old(log) <= log
      ensures Own(log) == Own(old(log)) + [Choice(old(Now()), messageFirst)] +
                if handlerFails then [HandlerErr]
                else [HandlerOk, Start, AssignReceiver, AssignCancellation, AssignJoinHandle]
    {
      hide After, Own, Acted, Picked, Choice;
      PickedIsHandling(Now(), messageFirst);
      OwnGrows(log, Choice(Now(), messageFirst));
      Select(messageFirst);
      TasksAct(tasks(3));
      OwnGrows(log, if handlerFails then HandlerErr else HandlerOk);
      HandleIrrecoverable(handlerFails);
      if handlerFails {
        return true;
      }
      TasksAct(tasks(4));
      Restart(tasks);
      failed := false;
    }
  }

  lemma OwnGrows(run: seq<Action>, a: Action)
    ensures Own(run + [a]) == Own(run) + if IsTaskStep(a) then [] else [a]
  {
    assert (run + [a])[..|run|] == run;
  }

  // What select does when it is handed its choice.
  function Choice(s: State, messageFirst: bool): Action
    requires Enabled(s, SelectMessage) || Enabled(s, SelectJoin)
  {
    if Enabled(s, SelectMessage) && (messageFirst || !Enabled(s, SelectJoin)) then SelectMessage else SelectJoin
  }

  function Picked(s: State, messageFirst: bool): State
    requires Enabled(s, SelectMessage) || Enabled(s, SelectJoin)
  {
    Next(s, Choice(s, messageFirst))
  }

  lemma PickedIsHandling(s: State, messageFirst: bool)
    requires Enabled(s, SelectMessage) || Enabled(s, SelectJoin)
    ensures Enabled(Picked(s, messageFirst), HandlerOk)
    ensures !IsTaskStep(Choice(s, messageFirst))
  {
  }

  // ----- Generation accounting, for any component -----

  // The events of a supervision, in the only order in which they can happen: generation g is handled
  // before generation g + 1 is started, and cancelled after that.
  function Expected(i: nat): Event {
    if i == 0 then Started(0)
    else var g := (i - 1) / 3;
         if i % 3 == 1 then Handled(g, "") else if i % 3 == 2 then Started(g + 1) else Cancelled(g)
  }

  lemma ExpectedKinds(g: nat)
    ensures Expected(0) == Started(0)
    ensures Expected(3 * g + 1) == Handled(g, "") && Expected(3 * g + 2) == Started(g + 1)
    ensures Expected(3 * g + 3) == Cancelled(g)
  {
    assert 3 * g / 3 == g && (3 * g + 1) / 3 == g && (3 * g + 2) / 3 == g;
  }

  predicate SameKind(a: Event, b: Event) {
    a.gen == b.gen && (a.Started? <==> b.Started?) && (a.Handled? <==> b.Handled?)
  }

  predicate InOrder(events: seq<Event>) {
    forall i :: 0 <= i < |events| ==> SameKind(events[i], Expected(i))
  }

  // How many events the supervisor has caused with n generations started.
  function EventCount(stage: Stage, n: nat): nat {
    match stage
    case Starting => if n == 0 then 0 else 3 * n - 1
    case AssigningReceiver => if n <= 1 then n else 3 * n - 3
    case AssigningCancellation => if n <= 1 then n else 3 * n - 3
    case _ => if n == 0 then 0 else 3 * n - 2
  }

  // The generations that the supervisor's three handles belong to.
  predicate HandlesInv(s: State) {
    var n := |s.gens|;
    var previous, latest := (if n <= 1 then None else Some(n - 2)), (if n == 0 then None else Some(n - 1));
    match s.stage
    case Starting => s.irrecoverableSignal == s.cancellationSignal == s.joinHandle == latest
    case AssigningReceiver => n > 0 && s.irrecoverableSignal == s.cancellationSignal == s.joinHandle == previous
    case AssigningCancellation =>
      n > 0 && s.irrecoverableSignal == latest && s.cancellationSignal == s.joinHandle == previous
    case AssigningJoinHandle =>
      n > 0 && s.irrecoverableSignal == s.cancellationSignal == latest && s.joinHandle == previous
    case Selecting => n > 0 && s.irrecoverableSignal == s.cancellationSignal == s.joinHandle == latest
    case Handling(g, _) =>
      n > 0 && g == n - 1 && s.irrecoverableSignal == s.cancellationSignal == s.joinHandle == latest
    case Stopped => n > 0 && s.irrecoverableSignal == s.cancellationSignal == s.joinHandle == None
  }

  // How many generations have been cancelled: all before the latest, except while it is taking over.
  function CancelledCount(stage: Stage, n: nat): nat {
    if stage.Stopped? || n == 0 then n
    else if (stage.AssigningReceiver? || stage.AssigningCancellation?) && n > 1 then n - 2
    else n - 1
  }

  predicate AccountingInv(s: State) {
    HandlesInv(s) && CancelledInv(s) && EventsInv(s)
  }

  lemma InOrderGrows(events: seq<Event>, e: Event)
    requires InOrder(events) && SameKind(e, Expected(|events|))
    ensures InOrder(events + [e])
  {
  }

  lemma HandlesStep(s: State, a: Action)
    requires HandlesInv(s) && Enabled(s, a)
    ensures HandlesInv(Next(s, a))
  {
  }

  predicate CancelledInv(s: State) {
    forall g :: 0 <= g < |s.gens| ==> (s.gens[g].cancelled <==> g < CancelledCount(s.stage, |s.gens|))
  }

  predicate EventsInv(s: State) {
    var n := |s.gens|;
    if s.stage.Stopped?
    then n > 0 && |s.events| == 3 * n && InOrder(s.events[..3 * n - 1]) && s.events[3 * n - 1] == Cancelled(n - 1)
    else |s.events| == EventCount(s.stage, n) && InOrder(s.events)
  }

  lemma CancelledStep(s: State, a: Action)
    requires HandlesInv(s) && CancelledInv(s) && Enabled(s, a)
    ensures CancelledInv(Next(s, a))
  {
  }

  lemma StopStep(s: State)
    requires HandlesInv(s) && EventsInv(s) && Enabled(s, HandlerErr)
    ensures EventsInv(Next(s, HandlerErr))
  {
    hide InOrder, Expected;
    var n := |s.gens|;
    ExpectedKinds(n - 1);
    var handled := s.events + [Handled(n - 1, s.stage.message)];
    InOrderGrows(s.events, Handled(n - 1, s.stage.message));
    assert Next(s, HandlerErr).events[..3 * n - 1] == handled;
  }

  lemma EventsStep(s: State, a: Action)
    requires HandlesInv(s) && EventsInv(s) && Enabled(s, a)
    ensures EventsInv(Next(s, a))
  {
    hide InOrder, Expected;
    var n := |s.gens|;
    match a {
      case Start =>
        ExpectedKinds(if n == 0 then 0 else n - 1);
        InOrderGrows(s.events, Started(n));
      case AssignCancellation =>
        if n > 1 {
          ExpectedKinds(n - 2);
          InOrderGrows(s.events, Cancelled(n - 2));
        } else {
          assert s.events + [] == s.events;
        }
      case HandlerOk =>
        ExpectedKinds(n - 1);
        InOrderGrows(s.events, Handled(n - 1, s.stage.message));
      case HandlerErr =>
        StopStep(s);
      case AssignReceiver =>
      case _ =>
        assert Next(s, a).events == s.events && |Next(s, a).gens| == n;
    }
  }

  lemma AccountingStep(s: State, a: Action)
    requires AccountingInv(s) && Enabled(s, a)
    ensures AccountingInv(Next(s, a))
  {
    hide HandlesInv, CancelledInv, EventsInv;
    HandlesStep(s, a);
    CancelledStep(s, a);
    EventsStep(s, a);
  }

  lemma {:induction false} AccountingHolds(run: seq<Action>, s: State)
    requires After(run) == Some(s)
    ensures AccountingInv(s)
    decreases |run|
  {
    if run != [] {
      var before := After(run[..|run| - 1]).value;
      AccountingHolds(run[..|run| - 1], before);
      AccountingStep(before, run[|run| - 1]);
    }
  }

  lemma EventKind(s: State, i: nat)
    requires AccountingInv(s) && i < |s.events|
    ensures s.stage.Stopped? && i == |s.events| - 1 ==> s.events[i] == Cancelled(|s.gens| - 1) && i == 3 * |s.gens| - 1
    ensures !(s.stage.Stopped? && i == |s.events| - 1) ==> SameKind(s.events[i], Expected(i))
  {
    if s.stage.Stopped? && i < |s.events| - 1 {
      assert s.events[..3 * |s.gens| - 1][i] == s.events[i];
    }
  }

  // Where an event stands in the only possible order.
  function Position(e: Event): nat {
    match e
    case Started(g) => if g == 0 then 0 else 3 * g - 1
    case Handled(g, _) => 3 * g + 1
    case Cancelled(g) => 3 * g + 3
  }

  lemma PositionOf(e: Event, i: nat)
    requires SameKind(e, Expected(i))
    ensures i == Position(e)
  {
    if i > 0 {
      var g := (i - 1) / 3;
      assert i - 1 == 3 * g + (i - 1) % 3;
      ThreeCases(i, g);
    }
  }

  lemma ThreeCases(i: nat, g: nat)
    requires 0 <= i - 1 - 3 * g < 3
    ensures i % 3 == 1 <==> i == 3 * g + 1
    ensures i % 3 == 2 <==> i == 3 * g + 2
  {
  }

  lemma HandledAt(s: State, i: nat)
    requires AccountingInv(s) && i < |s.events| && s.events[i].Handled?
    ensures i == 3 * s.events[i].gen + 1
  {
    hide AccountingInv, SameKind, Expected;
    EventKind(s, i);
    PositionOf(s.events[i], i);
  }

  // In every state of every run: handle_irrecoverable has been called at most once for a generation,
  // right before the next one is started, which is right before this one is cancelled; only the
  // generation whose handler failed is cancelled without a successor. No generation but the first is
  // started, and none is cancelled, without its predecessor, or it itself, having been handled.
  lemma GenerationsFollowOneAnother(run: seq<Action>, s: State, g: nat, i: nat, j: nat)
    requires After(run) == Some(s) && i < |s.events| && j < |s.events|
    ensures IsHandled(s.events[i], g) && IsHandled(s.events[j], g) ==> i == j
    ensures IsHandled(s.events[i], g) && s.events[j] == Started(g + 1) ==> j == i + 1
    ensures IsHandled(s.events[i], g) && s.events[j] == Cancelled(g) ==>
              j == i + 2 || (j == i + 1 && s.stage.Stopped? && g == |s.gens| - 1)
    ensures s.events[j] == Started(g + 1) ==> j > 0 && IsHandled(s.events[j - 1], g)
    ensures s.events[j] == Cancelled(g) ==>
              || (j > 1 && s.events[j - 1] == Started(g + 1) && IsHandled(s.events[j - 2], g))
              || (j > 0 && j == |s.events| - 1 && s.stage.Stopped? && g == |s.gens| - 1
                  && IsHandled(s.events[j - 1], g))
  {
    AccountingHolds(run, s);
    hide AccountingInv, IsHandled, After;
    if IsHandled(s.events[i], g) {
      EffectsOfHandling(s, g, i, j);
    }
    CausesOfEvents(s, g, j);
  }

  lemma EffectsOfHandling(s: State, g: nat, i: nat, j: nat)
    requires AccountingInv(s) && i < |s.events| && j < |s.events| && IsHandled(s.events[i], g)
    ensures IsHandled(s.events[j], g) ==> i == j
    ensures s.events[j] == Started(g + 1) ==> j == i + 1
    ensures s.events[j] == Cancelled(g) ==> j == i + 2 || (j == i + 1 && s.stage.Stopped? && g == |s.gens| - 1)
  {
    hide AccountingInv, SameKind, Expected;
    EventAt(s, i);
    EventAt(s, j);
  }

  lemma CausesOfEvents(s: State, g: nat, j: nat)
    requires AccountingInv(s) && j < |s.events|
    ensures s.events[j] == Started(g + 1) ==> j > 0 && IsHandled(s.events[j - 1], g)
    ensures s.events[j] == Cancelled(g) ==>
              || (j > 1 && s.events[j - 1] == Started(g + 1) && IsHandled(s.events[j - 2], g))
              || (j > 0 && j == |s.events| - 1 && s.stage.Stopped? && g == |s.gens| - 1
                  && IsHandled(s.events[j - 1], g))
  {
    hide AccountingInv, SameKind, Expected;
    EventAt(s, j);
    if s.events[j] == Started(g + 1) {
      HandledStands(s, g, j - 1);
    } else if s.events[j] == Cancelled(g) {
      if IsLastCancelled(s, j) {
        HandledStands(s, g, j - 1);
      } else {
        HandledStands(s, g, j - 2);
        StartedStands(s, g, j - 1);
      }
    }
  }

  predicate IsHandled(e: Event, g: nat) {
    e.Handled? && e.gen == g
  }

  // The one event out of order: the cancellation when the handler has failed.
  predicate IsLastCancelled(s: State, k: nat) {
    s.stage.Stopped? && |s.events| == k + 1 == 3 * |s.gens| && s.gens != [] && s.events[k] == Cancelled(|s.gens| - 1)
  }

  lemma EventAt(s: State, k: nat)
    requires AccountingInv(s) && k < |s.events|
    ensures k == Position(s.events[k]) || IsLastCancelled(s, k)
    ensures !IsLastCancelled(s, k) ==> SameKind(s.events[k], Expected(k))
  {
    hide SameKind, Expected;
    LastEvent(s);
    EventKind(s, k);
    if !(s.stage.Stopped? && k == |s.events| - 1) {
      PositionOf(s.events[k], k);
    }
  }

  lemma LastEvent(s: State)
    requires AccountingInv(s)
    ensures s.stage.Stopped? ==> |s.events| == 3 * |s.gens| && s.gens != []
  {
  }

  lemma HandledStands(s: State, g: nat, k: nat)
    requires AccountingInv(s) && k == 3 * g + 1 < |s.events|
    ensures IsHandled(s.events[k], g)
  {
    hide AccountingInv;
    EventAt(s, k);
    ExpectedKinds(g);
  }

  lemma StartedStands(s: State, g: nat, k: nat)
    requires AccountingInv(s) && k == 3 * g + 2 < |s.events| - 1
    ensures s.events[k] == Started(g + 1)
  {
    hide AccountingInv;
    EventAt(s, k);
    ExpectedKinds(g);
  }

  // Exactly the latest generation is uncancelled, and the one before it as well while the latest has
  // been started and the old cancellation sender not yet been dropped. Once the handler has failed,
  // none is.
  lemma LatestIsUncancelled(run: seq<Action>, s: State, g: nat)
    requires After(run) == Some(s) && g < |s.gens|
    ensures s.stage.Selecting? || s.stage.Handling? || s.stage.Starting? || s.stage.AssigningJoinHandle? ==>
              (!s.gens[g].cancelled <==> g == |s.gens| - 1)
    ensures s.stage.AssigningReceiver? || s.stage.AssigningCancellation? ==>
              (!s.gens[g].cancelled <==> g >= |s.gens| - 2)
    ensures s.stage.Stopped? ==> s.gens[g].cancelled
    ensures s.gens[g].cancelled && !s.stage.Stopped? ==> g + 1 < |s.gens|
  {
    AccountingHolds(run, s);
  }

  // ----- Who is heard -----

  // The first generation whose receiver the supervisor still holds.
  function FirstHeard(stage: Stage, n: nat): nat {
    if stage.Stopped? || n == 0 then n
    else if stage.AssigningReceiver? && n > 1 then n - 2
    else n - 1
  }

  // Whether a generation has been started and nothing of it has been taken yet.
  predicate IsUntaken(stage: Stage, n: nat, g: nat) {
    g + 1 == n && !stage.Starting? && !stage.Handling? && !stage.Stopped?
  }

  // A held channel delivers in the order of sending, at most one of its messages has been taken, and at
  // most ten wait in it. A dropped one holds nothing.
  predicate HeardAt(s: State, g: nat)
    requires g < |s.gens|
  {
    var gen := s.gens[g];
    && (gen.receiving <==> g >= FirstHeard(s.stage, |s.gens|))
    && |gen.inbox| <= 10
    && (!gen.receiving ==> gen.inbox == [])
    && (gen.receiving ==> gen.inbox == gen.sent || IsAfterOne(gen.inbox, gen.sent))
    && (IsUntaken(s.stage, |s.gens|, g) ==> gen.inbox == gen.sent)
  }

  predicate IsAfterOne(inbox: seq<string>, sent: seq<string>) {
    sent != [] && inbox == sent[1..]
  }

  predicate HeardInv(s: State) {
    forall g :: 0 <= g < |s.gens| ==> HeardAt(s, g)
  }

  lemma SendKeepsOrder(inbox: seq<string>, sent: seq<string>, m: string)
    ensures IsAfterOne(inbox, sent) ==> IsAfterOne(inbox + [m], sent + [m])
    ensures sent != [] ==> IsAfterOne(sent[1..], sent)
  {
    if IsAfterOne(inbox, sent) {
      assert (sent + [m])[1..] == inbox + [m];
    }
  }

  lemma HeardStepAt(s: State, a: Action, g: nat)
    requires HandlesInv(s) && g < |s.gens| && HeardAt(s, g) && Enabled(s, a)
    ensures HeardAt(Next(s, a), g)
  {
    hide IsAfterOne;
    var gen := s.gens[g];
    SendKeepsOrder(gen.inbox, gen.sent, if a.TaskSend? then a.message else "");
  }

  lemma HeardStep(s: State, a: Action)
    requires HandlesInv(s) && HeardInv(s) && Enabled(s, a)
    ensures HeardInv(Next(s, a))
  {
    hide HeardAt;
    var s' := Next(s, a);
    forall g | 0 <= g < |s'.gens| ensures HeardAt(s', g) {
      if g < |s.gens| {
        HeardStepAt(s, a, g);
      } else {
        NewIsHeard(s);
      }
    }
  }

  lemma NewIsHeard(s: State)
    requires Enabled(s, Start)
    ensures HeardAt(Next(s, Start), |s.gens|)
  {
  }

  lemma {:induction false} HeardHolds(run: seq<Action>, s: State)
    requires After(run) == Some(s)
    ensures HeardInv(s) && HandlesInv(s)
    decreases |run|
  {
    AccountingHolds(run, s);
    hide HeardAt;
    if run != [] {
      var before := After(run[..|run| - 1]).value;
      HeardHolds(run[..|run| - 1], before);
      HeardStep(before, run[|run| - 1]);
    }
  }

  // Outside the takeover the supervisor holds the latest generation's receiver alone, and none after the
  // handler's error: a send on any other channel fails. A held channel has room for ten messages, and
  // while the supervisor waits for the latest generation, the message that it would take is the oldest.
  lemma OnlyLatestIsHeard(run: seq<Action>, s: State, g: nat, m: string)
    requires After(run) == Some(s) && g < |s.gens|
    ensures s.stage.Stopped? ==> !Enabled(s, TaskSend(g, m))
    ensures !s.stage.Stopped? && !s.stage.AssigningReceiver? && g < |s.gens| - 1 ==> !Enabled(s, TaskSend(g, m))
    ensures !s.stage.Stopped? && g == |s.gens| - 1 ==> (Enabled(s, TaskSend(g, m)) <==> |s.gens[g].inbox| < 10)
    ensures Enabled(s, TaskSend(g, m)) ==> Next(s, TaskSend(g, m)).gens[g].sent == s.gens[g].sent + [m]
    ensures Enabled(s, SelectMessage) ==>
              && s.gens[|s.gens| - 1].sent != []
              && Next(s, SelectMessage).stage == Handling(|s.gens| - 1, s.gens[|s.gens| - 1].sent[0])
  {
    HeardHolds(run, s);
    hide HeardInv, After;
    assert HeardAt(s, g) && HeardAt(s, |s.gens| - 1) by {
      assert HeardInv(s);
    }
  }

  // ----- No error is lost under the documented contract -----

  // A task sends at most one error, and after that returns only once it has been cancelled.
  predicate KeepsContract(s: State, a: Action)
    requires Enabled(s, a)
  {
    match a
    case TaskSend(g, _) => s.gens[g].sent == [] && !s.gens[g].finished
    case TaskReturn(g) => s.gens[g].sent == [] || s.gens[g].cancelled
    case _ => true
  }

  function AfterUnderContract(run: seq<Action>): Option<State> {
    if run == [] then Some(UNSPAWNED) else
      match AfterUnderContract(run[..|run| - 1])
      case None => None
      case Some(s) =>
        var a := run[|run| - 1];
        if Enabled(s, a) && KeepsContract(s, a) then Some(Next(s, a)) else None
  }

  // What the handler must be told of a generation.
  function Report(g: Generation): string {
    if g.sent != [] then g.sent[0] else UNEXPECTED_SHUTDOWN
  }

  // Whether handle_irrecoverable has returned for a generation.
  predicate HasBeenHandled(s: State, g: nat) {
    g + 1 < |s.gens| || (g + 1 == |s.gens| && (s.stage.Starting? || s.stage.Stopped?))
  }

  predicate GenerationInv(s: State, g: nat)
    requires g < |s.gens|
  {
    var gen := s.gens[g];
    && |gen.sent| <= 1
    && (gen.finished && gen.sent != [] ==> gen.cancelled)
    && (HasBeenHandled(s, g) ==>
         (gen.sent != [] || gen.finished) && 3 * g + 1 < |s.events| && s.events[3 * g + 1] == Handled(g, Report(gen)))
    && (!HasBeenHandled(s, g) && s.stage.Handling? ==>
         (gen.sent != [] || gen.finished) && s.stage.message == Report(gen))
    && (!HasBeenHandled(s, g) && !s.stage.Handling? ==> gen.receiving && gen.inbox == gen.sent)
  }

  predicate ContractInv(s: State) {
    AccountingInv(s) && forall g :: 0 <= g < |s.gens| ==> GenerationInv(s, g)
  }

  lemma ContractStep(s: State, a: Action)
    requires ContractInv(s) && Enabled(s, a) && KeepsContract(s, a)
    ensures ContractInv(Next(s, a))
  {
    AccountingStep(s, a);
    var s' := Next(s, a);
    forall g | 0 <= g < |s'.gens| ensures GenerationInv(s', g) {
      if g < |s.gens| {
        assert GenerationInv(s, g);
        GenerationStep(s, a, g);
      }
    }
  }

  lemma GenerationStep(s: State, a: Action, g: nat)
    requires AccountingInv(s) && Enabled(s, a) && KeepsContract(s, a) && g < |s.gens| && GenerationInv(s, g)
    ensures GenerationInv(Next(s, a), g)
  {
    hide InOrder;
  }

  lemma {:induction false} ContractHolds(run: seq<Action>, s: State)
    requires AfterUnderContract(run) == Some(s)
    ensures ContractInv(s) && After(run) == Some(s)
    decreases |run|
  {
    if run != [] {
      var before := AfterUnderContract(run[..|run| - 1]).value;
      ContractHolds(run[..|run| - 1], before);
      ContractStep(before, run[|run| - 1]);
    }
  }

  // The error of a generation that keeps the contract reaches handle_irrecoverable, whatever select
  // picks: until then the task is still running, so that its message is the only ready branch, and
  // the one call made for the generation is given that message. A generation that ends silently is
  // reported once, with the generic message.
  lemma NoErrorIsLost(run: seq<Action>, s: State, g: nat)
    requires AfterUnderContract(run) == Some(s) && g < |s.gens|
    ensures HasBeenHandled(s, g) ==>
              && 3 * g + 1 < |s.events| && s.events[3 * g + 1] == Handled(g, Report(s.gens[g]))
              && forall i :: 0 <= i < |s.events| && s.events[i].Handled? && s.events[i].gen == g ==> i == 3 * g + 1
    ensures HasBeenHandled(s, g) && s.gens[g].sent != [] ==> s.events[3 * g + 1] == Handled(g, s.gens[g].sent[0])
    ensures HasBeenHandled(s, g) && s.gens[g].sent == [] ==>
              s.events[3 * g + 1] == Handled(g, "An unexpected shutdown was observed in a component.")
    ensures !HasBeenHandled(s, g) && s.stage.Handling? ==> s.stage == Handling(g, Report(s.gens[g]))
    ensures s.gens[g].sent != [] && s.stage.Selecting? && g + 1 == |s.gens| ==>
              && Enabled(s, SelectMessage) && !Enabled(s, SelectJoin)
              && Next(s, SelectMessage).stage == Handling(g, s.gens[g].sent[0])
    ensures s.gens[g].sent == [] && s.gens[g].finished && s.stage.Selecting? && g + 1 == |s.gens| ==>
              !Enabled(s, SelectMessage) && Enabled(s, SelectJoin)
  {
    ContractHolds(run, s);
    assert GenerationInv(s, g);
    forall i | 0 <= i < |s.events| && s.events[i].Handled? && s.events[i].gen == g ensures i == 3 * g + 1 {
      HandledAt(s, i);
    }
  }

  // For any component: the oldest error in the channel reaches the handler, whatever select picks,
  // exactly as long as the task that sent it has not returned.
  lemma ErrorIsSafeUntilReturn(run: seq<Action>, s: State)
    requires After(run) == Some(s) && Enabled(s, SelectMessage)
    ensures var g := s.irrecoverableSignal.value;
            var error := s.gens[g].inbox[0];
            error != UNEXPECTED_SHUTDOWN ==>
              ((forall messageFirst :: Picked(s, messageFirst).stage == Handling(g, error)) <==> !s.gens[g].finished)
  {
    AccountingHolds(run, s);
    hide InOrder;
    var g := s.irrecoverableSignal.value;
    assert HandlesInv(s);
    assert Enabled(s, SelectJoin) <==> s.gens[g].finished;
    assert Picked(s, true).stage == Handling(g, s.gens[g].inbox[0]);
    assert s.gens[g].finished ==> Picked(s, false).stage == Handling(g, UNEXPECTED_SHUTDOWN);
  }

  // Without the contract an error can be lost: a task that returns right after sending may be
  // noticed through its join handle, and the handler hears only the generic message.
  lemma EarlyReturnLosesError(m: string)
    ensures var run := STARTUP + [TaskSend(0, m)] + [TaskReturn(0)] + [SelectJoin] + [HandlerOk];
            && After(run).Some?
            && After(run).value.gens == [Generation([m], true, false, true, [m])]
            && After(run).value.events == [Started(0), Handled(0, UNEXPECTED_SHUTDOWN)]
  {
    hide After;
    var sent := Generation([m], true, false, false, [m]);
    var lost := sent.(finished := true);
    var one, two := [Started(0)], [Started(0), Handled(0, UNEXPECTED_SHUTDOWN)];
    var s0 := State([Fresh()], Selecting, Some(0), Some(0), Some(0), one);
    var s1 := s0.(gens := [sent]);
    var s2 := s0.(gens := [lost]);
    var s3 := s2.(stage := Handling(0, UNEXPECTED_SHUTDOWN));
    StartupRuns();
    assert [] + [m] == [m] && [Fresh()][0 := sent] == [sent];
    Chain(STARTUP, s0, TaskSend(0, m), s1);
    Chain(STARTUP + [TaskSend(0, m)], s1, TaskReturn(0), s2);
    Chain(STARTUP + [TaskSend(0, m)] + [TaskReturn(0)], s2, SelectJoin, s3);
    Chain(STARTUP + [TaskSend(0, m)] + [TaskReturn(0)] + [SelectJoin], s3, HandlerOk,
          s3.(stage := Starting, events := two));
  }

  const STARTUP: seq<Action> := [Start] + [AssignReceiver] + [AssignCancellation] + [AssignJoinHandle]

  lemma StartupRuns()
    ensures After(STARTUP) == Some(State([Fresh()], Selecting, Some(0), Some(0), Some(0), [Started(0)]))
  {
    hide After;
    var s := State([Fresh()], AssigningReceiver, None, None, None, [Started(0)]);
    var s1 := s.(stage := AssigningCancellation, irrecoverableSignal := Some(0));
    var s2 := s1.(stage := AssigningJoinHandle, cancellationSignal := Some(0));
    RunStarts();
    Chain([], UNSPAWNED, Start, s);
    assert [] + [Start] == [Start];
    Chain([Start], s, AssignReceiver, s1);
    Chain([Start] + [AssignReceiver], s1, AssignCancellation, s2);
    Chain([Start] + [AssignReceiver] + [AssignCancellation], s2, AssignJoinHandle,
          s2.(stage := Selecting, joinHandle := Some(0)));
  }

  lemma RunStarts()
    ensures After([]) == Some(UNSPAWNED)
  {
  }

  lemma Chain(run: seq<Action>, s: State, a: Action, s': State)
    requires After(run) == Some(s) && Enabled(s, a) && Next(s, a) == s'
    ensures After(run + [a]) == Some(s')
  {
    RunGrows(run, s, a);
  }
}
