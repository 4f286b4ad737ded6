/**
 * Who is subscribed: the manager replaces and stops subscriptions under its
 * lock while each subscription's own thread keeps testing its stop flag and pushing.
 */
module Subscriptions {
  import opened Prelude

  /** `thread` is None once the pushing thread has ended; `Pushing` means its test of the flag came out clear. */
  datatype Thread = Looping | Pushing | Finished

  datatype Subscription = Subscription(flag: bool, thread: Thread, events: nat)

  datatype Manager = Manager(active: Option<nat>, nextId: nat, subs: map<nat, Subscription>)

  // ---- what the manager does under its lock -----------------------------------------

  /** What `subscribe` finds in the session and the registry. */
  datatype Target = Ready | NoSession | NoDevice | UnknownDevice

  function FlagSet(m: Manager): Manager
    requires m.active.Some? ==> m.active.value in m.subs
  {
    if m.active.None? then m
    else m.(subs := m.subs[m.active.value := m.subs[m.active.value].(flag := true)])
  }

  function Dropped(m: Manager): Manager {
    m.(active := None)
  }

  function Created(m: Manager): Manager {
    Manager(Some(m.nextId), m.nextId + 1, m.subs[m.nextId := Subscription(false, Looping, 0)])
  }

  datatype Reply = Subscribed(id: nat) | SessionError | DispatchError | KeyError

  class SubscriptionManager {
    var active: Option<nat>
    var nextId: nat
    var subs: map<nat, Subscription>

    function View(): Manager
      reads this
    {
      Manager(active, nextId, subs)
    }

    predicate Valid()
      reads this
    {
      active.Some? ==> active.value in subs
    }

    constructor ()
      ensures Valid() && View() == Manager(None, 0, map[])
    {
      active, nextId, subs := None, 0, map[];
    }

    /** `_stop_locked`; the join is the caller's wait and changes nothing here. */
    method Stop()
      requires Valid()
      modifies this
      ensures Valid() && View() == Dropped(FlagSet(old(View())))
    {
      if active.Some? {
        var id := active.value;
        subs := subs[id := subs[id].(flag := true)];
        active := None;
      }
    }

    method Subscribe(target: Target) returns (r: Reply)
      requires Valid()
      modifies this
      ensures Valid()
      ensures var idle := Dropped(FlagSet(old(View())));
        if target == Ready then r == Subscribed(old(nextId)) && View() == Created(idle)
        else View() == idle && r == match target case NoSession => SessionError case NoDevice => DispatchError case _ => KeyError
    {
      Stop();
      match target {
        case NoSession => return SessionError;
        case NoDevice => return DispatchError;
        case UnknownDevice => return KeyError;
        case Ready =>
          var id := nextId;
          nextId := nextId + 1;
          subs := subs[id := Subscription(false, Looping, 0)];
          active := Some(id);
          return Subscribed(id);
      }
    }

    method Unsubscribe()
      requires Valid()
      modifies this
      ensures Valid() && View() == Dropped(FlagSet(old(View())))
    {
      Stop();
    }
  }

  // ---- manager and threads as one step system -------------------------------------------

  datatype Op = Subscribe(target: Target) | Unsubscribe

  /** The holder of the manager's lock: waiting in `join`, or past it. */
  datatype Lock = Free | Joining(id: nat, op: Op) | Stopped(op: Op)

  datatype Sys = Sys(m: Manager, lock: Lock)

  const IDLE: Sys := Sys(Manager(None, 0, map[]), Free)

  datatype Step =
    | Begin(op: Op)
    | JoinCompletes
    | JoinTimesOut
    | Finish
    | TestClear(id: nat)     // the flag is clear: the push goes ahead
    | TestStops(id: nat)     // the flag is set: the thread ends
    | Send(id: nat)
    | Die(id: nat)           // the connection or the device raises

  predicate Enabled(s: Sys, step: Step) {
    match step
    case Begin(_) => s.lock.Free? && (s.m.active.Some? ==> s.m.active.value in s.m.subs)
    case JoinCompletes => s.lock.Joining? && s.lock.id in s.m.subs && s.m.subs[s.lock.id].thread.Finished?
    case JoinTimesOut => s.lock.Joining?
    case Finish => s.lock.Stopped?
    case TestClear(id) => id in s.m.subs && s.m.subs[id].thread.Looping? && !s.m.subs[id].flag
    case TestStops(id) => id in s.m.subs && s.m.subs[id].thread.Looping? && s.m.subs[id].flag
    case Send(id) => id in s.m.subs && s.m.subs[id].thread.Pushing?
    case Die(id) => id in s.m.subs && !s.m.subs[id].thread.Finished?
  }

  function WithThread(s: Sys, id: nat, t: Thread, sent: nat): Sys
    requires id in s.m.subs
  {
    var sub := s.m.subs[id];
    s.(m := s.m.(subs := s.m.subs[id := sub.(thread := t, events := sub.events + sent)]))
  }

  function Apply(s: Sys, step: Step): Sys
    requires Enabled(s, step)
  {
    match step
    case Begin(op) =>
      if s.m.active.Some? then Sys(FlagSet(s.m), Joining(s.m.active.value, op)) else s.(lock := Stopped(op))
    case JoinCompletes => Sys(Dropped(s.m), Stopped(s.lock.op))
    case JoinTimesOut => Sys(Dropped(s.m), Stopped(s.lock.op))
    case Finish => if s.lock.op == Subscribe(Ready) then Sys(Created(s.m), Free) else s.(lock := Free)
    case TestClear(id) => WithThread(s, id, Pushing, 0)
    case TestStops(id) => WithThread(s, id, Finished, 0)
    case Send(id) => WithThread(s, id, Looping, 1)
    case Die(id) => WithThread(s, id, Finished, 0)
  }

  ghost predicate RunFrom(s: Sys, run: seq<Sys>, steps: seq<Step>) {
    && |run| == |steps| + 1 && run[0] == s
    && forall i :: 0 <= i < |steps| ==> Enabled(run[i], steps[i]) && run[i + 1] == Apply(run[i], steps[i])
  }

  /** Every unflagged subscription is the active one, and ids run from 0 to `nextId`. */
  ghost predicate Inv(s: Sys) {
    && (forall id :: id in s.m.subs <==> 0 <= id < s.m.nextId)
    && (forall id :: id in s.m.subs && !s.m.subs[id].flag ==> s.m.active == Some(id) && s.lock.Free?)
    && (s.m.active.Some? ==> s.m.active.value in s.m.subs)
    && (s.m.active.Some? && s.lock.Free? ==> !s.m.subs[s.m.active.value].flag)
    && (s.lock.Joining? ==> s.m.active == Some(s.lock.id))
    && (s.lock.Stopped? ==> s.m.active.None?)
  }

  lemma StepKeepsInv(s: Sys, step: Step)
    requires Inv(s) && Enabled(s, step)
    ensures Inv(Apply(s, step))
  {
  }

  lemma {:induction false} RunInv(run: seq<Sys>, steps: seq<Step>, i: nat)
    requires RunFrom(IDLE, run, steps) && i < |run|
    ensures Inv(run[i])
  {
    if i > 0 {
      RunInv(run, steps, i - 1);
      StepKeepsInv(run[i - 1], steps[i - 1]);
    }
  }

  // ---- the promises -------------------------------------------------------------------------

  /** At most one subscription has not been told to stop, in every state of every interleaving; with the lock free it is the active one. */
  lemma AtMostOneActive(run: seq<Sys>, steps: seq<Step>, i: nat, a: nat, b: nat)
    requires RunFrom(IDLE, run, steps) && i < |run|
    requires a in run[i].m.subs && b in run[i].m.subs && !run[i].m.subs[a].flag && !run[i].m.subs[b].flag
    ensures a == b && run[i].m.active == Some(a)
  {
    RunInv(run, steps, i);
  }

  ghost predicate AllFlagged(s: Sys) {
    forall id :: id in s.m.subs ==> s.m.subs[id].flag
  }

  /** A subscribe that fails leaves nothing active, and every earlier subscription flagged. */
  lemma FailedSubscribeLeavesNone(run: seq<Sys>, steps: seq<Step>, i: nat)
    requires RunFrom(IDLE, run, steps) && i < |steps| && steps[i] == Finish
    requires run[i].lock.op != Subscribe(Ready)
    ensures run[i + 1].m.active.None?
    ensures AllFlagged(run[i + 1])
  {
    RunInv(run, steps, i);
    assert run[i + 1] == Apply(run[i], Finish);
  }

  /** `Finish` of a successful subscribe: creates one subscription. */
  predicate Creates(s: Sys, step: Step) {
    step == Finish && s.lock.Stopped? && s.lock.op == Subscribe(Ready)
  }

  lemma {:induction false} NextIdGrows(s: Sys, run: seq<Sys>, steps: seq<Step>, i: nat)
    requires RunFrom(s, run, steps) && i < |run|
    ensures s.m.nextId <= run[i].m.nextId
  {
    if i > 0 {
      NextIdGrows(s, run, steps, i - 1);
      assert run[i] == Apply(run[i - 1], steps[i - 1]);
    }
  }

  /** Ids strictly increase: a later subscription has a larger id than any earlier one, and a fresh one. */
  lemma IdsIncrease(run: seq<Sys>, steps: seq<Step>, i: nat, j: nat)
    requires RunFrom(IDLE, run, steps) && i < j < |steps|
    requires Creates(run[i], steps[i]) && Creates(run[j], steps[j])
    ensures run[i + 1].m.active.Some? && run[j + 1].m.active.Some?
    ensures run[i + 1].m.active.value < run[j + 1].m.active.value
    ensures run[j + 1].m.active.value !in run[j].m.subs
  {
    RunInv(run, steps, j);
    assert run[i + 1] == Apply(run[i], steps[i]) && run[j + 1] == Apply(run[j], steps[j]);
    var rest, moves := run[i + 1..], steps[i + 1..];
    assert RunFrom(run[i + 1], rest, moves) by {
      forall k | 0 <= k < |moves| ensures Enabled(rest[k], moves[k]) && rest[k + 1] == Apply(rest[k], moves[k]) {
        assert rest[k] == run[i + 1 + k] && moves[k] == steps[i + 1 + k] && rest[k + 1] == run[i + 1 + k + 1];
      }
    }
    NextIdGrows(run[i + 1], rest, moves, j - (i + 1));
  }

  /** The most a flagged subscription's thread can still send. */
  function Outstanding(sub: Subscription): nat {
    if sub.thread.Pushing? then 1 else 0
  }

  /**
   * Once its stop flag is set, a subscription sends at most one more event in
   * the whole rest of the run, and only if its thread had already passed the
   * test; none at all if the thread had ended, as it has after a completed join.
   */
  lemma {:induction false} AtMostOneLateEvent(run: seq<Sys>, steps: seq<Step>, i: nat, j: nat, id: nat)
    requires RunFrom(IDLE, run, steps) && i <= j < |run|
    requires id in run[i].m.subs && run[i].m.subs[id].flag
    ensures id in run[j].m.subs && run[j].m.subs[id].flag
    ensures var before, after := run[i].m.subs[id], run[j].m.subs[id];
      before.events <= after.events
      && after.events + Outstanding(after) <= before.events + Outstanding(before)
    decreases j
  {
    if i < j {
      AtMostOneLateEvent(run, steps, i, j - 1, id);
      RunInv(run, steps, j - 1);
    }
  }

  /** After a join that completed, the stopped subscription is silent for good. */
  lemma SilentAfterJoin(run: seq<Sys>, steps: seq<Step>, i: nat, j: nat)
    requires RunFrom(IDLE, run, steps) && i < j < |run| && steps[i] == JoinCompletes
    ensures var id := run[i].lock.id;
      id in run[i].m.subs && id in run[j].m.subs && run[j].m.subs[id].events == run[i].m.subs[id].events
  {
    var id := run[i].lock.id;
    RunInv(run, steps, i);
    AtMostOneLateEvent(run, steps, i, j, id);
  }

  lemma StepAfterEnd(s: Sys, step: Step, id: nat)
    requires Inv(s) && Enabled(s, step) && id in s.m.subs && s.m.subs[id].thread.Finished?
    ensures step != Send(id) && step != TestClear(id) && step != TestStops(id) && step != Die(id)
    ensures var s' := Apply(s, step);
      id in s'.m.subs && s'.m.subs[id].thread.Finished? && s'.m.subs[id].events == s.m.subs[id].events
  {
  }

  /**
   * A thread that found its flag set, or died of a lost connection or device,
   * has sent its last event: nothing of it follows in the rest of the run.
   */
  lemma {:induction false} SilentAfterEnd(run: seq<Sys>, steps: seq<Step>, i: nat, j: nat, id: nat)
    requires RunFrom(IDLE, run, steps) && i < j < |run| && (steps[i] == TestStops(id) || steps[i] == Die(id))
    ensures id in run[i].m.subs && id in run[j].m.subs && run[j].m.subs[id].thread.Finished?
    ensures run[j].m.subs[id].events == run[i].m.subs[id].events
    ensures j < |steps| ==> steps[j] != Send(id)
    decreases j
  {
    RunInv(run, steps, j);
    assert run[j] == Apply(run[j - 1], steps[j - 1]);
    if i + 1 < j {
      SilentAfterEnd(run, steps, i, j - 1, id);
      RunInv(run, steps, j - 1);
      StepAfterEnd(run[j - 1], steps[j - 1], id);
    }
    if j < |steps| {
      StepAfterEnd(run[j], steps[j], id);
    }
  }

  ghost predicate Reachable(s: Sys) {
    exists run: seq<Sys>, steps: seq<Step> :: RunFrom(IDLE, run, steps) && run[|run| - 1] == s
  }

  lemma ReachableStep(s: Sys, step: Step)
    requires Reachable(s) && Enabled(s, step)
    ensures Reachable(Apply(s, step))
  {
    var run: seq<Sys>, steps: seq<Step> :| RunFrom(IDLE, run, steps) && run[|run| - 1] == s;
    var longer := run + [Apply(s, step)];
    assert RunFrom(IDLE, longer, steps + [step]);
    assert longer[|longer| - 1] == Apply(s, step);
  }

  /** A first subscription has passed its test of the flag and is about to push. */
  lemma FirstIsPushing() returns (s: Sys)
    ensures Reachable(s) && s == Sys(Manager(Some(0), 1, map[0 := Subscription(false, Pushing, 0)]), Free)
  {
    assert RunFrom(IDLE, [IDLE], []) && [IDLE][|[IDLE]| - 1] == IDLE;
    s := IDLE;
    ReachableStep(s, Begin(Subscribe(Ready)));
    s := Apply(s, Begin(Subscribe(Ready)));
    ReachableStep(s, Finish);
    s := Apply(s, Finish);
    ReachableStep(s, TestClear(0));
    s := Apply(s, TestClear(0));
  }

  /** The next subscription is started after a join that timed out, and is about to push as well. */
  lemma SecondIsPushing() returns (s: Sys)
    ensures Reachable(s) && s.lock.Free? && s.m.active == Some(1) && s.m.nextId == 2
    ensures s.m.subs == map[0 := Subscription(true, Pushing, 0), 1 := Subscription(false, Pushing, 0)]
  {
    s := FirstIsPushing();
    ReachableStep(s, Begin(Subscribe(Ready)));
    s := Apply(s, Begin(Subscribe(Ready)));
    ReachableStep(s, JoinTimesOut);
    s := Apply(s, JoinTimesOut);
    ReachableStep(s, Finish);
    s := Apply(s, Finish);
    ReachableStep(s, TestClear(1));
    s := Apply(s, TestClear(1));
  }

  /** The one late event of a subscription can come after the next one has already sent its own. */
  lemma LateEventAfterNext()
    ensures exists s :: Reachable(s) && s.m.active == Some(1) && s.lock.Free? && Enabled(s, Send(0))
                        && 1 in s.m.subs && s.m.subs[1].events == 1
  {
    var s := SecondIsPushing();
    ReachableStep(s, Send(1));
    s := Apply(s, Send(1));
  }

  /** And each stopped subscription has one: two in a row can both still send while a third is active. */
  lemma SeveralLateEvents()
    ensures exists s :: Reachable(s) && s.m.active == Some(2) && s.lock.Free? && Enabled(s, Send(0)) && Enabled(s, Send(1))
  {
    var s := SecondIsPushing();
    ReachableStep(s, Begin(Subscribe(Ready)));
    s := Apply(s, Begin(Subscribe(Ready)));
    ReachableStep(s, JoinTimesOut);
    s := Apply(s, JoinTimesOut);
    ReachableStep(s, Finish);
    s := Apply(s, Finish);
  }
}
