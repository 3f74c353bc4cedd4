/**
 * The queues of the source have a capacity, and a thread that puts into a full queue waits. Whatever
 * the capacities, such a run is a run of the step machine, and it cannot get stuck earlier.
 */
module BoundedQueues {
  import opened System
  import opened FlowControl
  import opened Protocol
  import opened Schedule
  import opened Progress
  import opened Termination

  /** Decides, after a run that led to a state, whether a step has to wait for room. */
  type Policy = (seq<Step>, State, Step) -> bool

  /** A trader waits only while one of its own queues holds something. */
  ghost predicate TraderMayWait(q: State, t: int) {
    exists e :: q.flow.Wire(t, e) != []
  }

  /**
   * A step waits only if its thread puts into queues of which one holds something already: a trader's
   * only thread into the trader's queues, a stock's thread into that of its exchange.
   */
  ghost predicate WaitsForRoom(c: Config, waits: Policy) {
    forall run, q, step :: waits(run, q, step) ==>
      || (step.Send? && TraderMayWait(q, step.t))
      || ((step.Acknowledge? || step.Emit?) && q.mail.Queue(c.Home(step.s)) != [])
  }

  /** Room for `orders` orders from a trader to an exchange, and for `messages` messages of an exchange. */
  datatype Room = Room(orders: nat, messages: nat)

  function MessagesWait(c: Config, room: Room, q: State, step: Step): bool {
    (step.Acknowledge? || step.Emit?) && |q.mail.Queue(c.Home(step.s))| >= room.messages
  }

  /** Each put waits for room in its own queue. */
  function Capacity(c: Config, room: Room): Policy {
    (run: seq<Step>, q: State, step: Step) =>
      || (step.Send? && |q.flow.Wire(step.t, c.Home(step.s))| >= room.orders)
      || MessagesWait(c, room, q, step)
  }

  predicate SomeFull(c: Config, room: Room, q: State, t: int) {
    exists e :: 0 <= e < c.exchanges && |q.flow.Wire(t, e)| >= room.orders
  }

  /** A trader has one thread for all its queues: while it may be held at a full one, it sends nothing at all. */
  function OneThread(c: Config, room: Room): Policy {
    (run: seq<Step>, q: State, step: Step) =>
      (step.Send? && SomeFull(c, room, q, step.t)) || MessagesWait(c, room, q, step)
  }

  predicate CanStep(c: Config, waits: Policy, run: seq<Step>, q: State, step: Step) {
    Enabled(c, q, step) && !waits(run, q, step)
  }

  /** What the two policies let a thread do: all that is possible where there is room. */
  lemma {:induction false} RoomIsEnough(c: Config, room: Room, run: seq<Step>, q: State, step: Step)
    requires ValidSizes(c)
    ensures
      CanStep(c, Capacity(c, room), run, q, step) <==>
      && Enabled(c, q, step)
      && (step.Send? ==> |q.flow.Wire(step.t, step.s % c.exchanges)| < room.orders)
      && (step.Acknowledge? || step.Emit? ==> |q.mail.Queue(step.s % c.exchanges)| < room.messages)
    ensures
      CanStep(c, OneThread(c, room), run, q, step) <==>
      && Enabled(c, q, step)
      && (step.Send? ==> forall e :: 0 <= e < c.exchanges ==> |q.flow.Wire(step.t, e)| < room.orders)
      && (step.Acknowledge? || step.Emit? ==> |q.mail.Queue(step.s % c.exchanges)| < room.messages)
  {
    hide CheckOrder;
  }

  /** With room for at least one element, both are policies under which a thread waits only for room. */
  lemma {:induction false} RoomWaitsForRoom(c: Config, room: Room)
    requires room.orders > 0 && room.messages > 0
    ensures WaitsForRoom(c, Capacity(c, room)) && WaitsForRoom(c, OneThread(c, room))
  {
    forall run, q, step | OneThread(c, room)(run, q, step) && step.Send?
      ensures TraderMayWait(q, step.t)
    {
      var e :| 0 <= e < c.exchanges && |q.flow.Wire(step.t, e)| >= room.orders;
      assert q.flow.Wire(step.t, e) != [];
    }
    forall run, q, step | Capacity(c, room)(run, q, step) && step.Send? && !MessagesWait(c, room, q, step)
      ensures TraderMayWait(q, step.t)
    {
      assert q.flow.Wire(step.t, c.Home(step.s)) != [];
    }
  }

  /** The state after a schedule in which steps that have to wait do not happen. */
  function BoundedRun(c: Config, waits: Policy, schedule: seq<Step>): State
    requires ValidSizes(c)
  {
    if schedule == [] then INITIAL
    else
      var run, step := schedule[..|schedule| - 1], schedule[|schedule| - 1];
      var q := BoundedRun(c, waits, run);
      if CanStep(c, waits, run, q, step) then Apply(c, q, step) else q
  }

  lemma {:induction false} StepKeepsRoom(c: Config, room: Room, q: State, step: Step, t: int, e: int)
    requires ValidSizes(c) && Enabled(c, q, step)
    requires |q.flow.Wire(t, e)| <= room.orders && |q.mail.Queue(e)| <= room.messages
    requires step.Send? ==> |q.flow.Wire(step.t, step.s % c.exchanges)| < room.orders
    requires step.Acknowledge? || step.Emit? ==> |q.mail.Queue(step.s % c.exchanges)| < room.messages
    ensures |Apply(c, q, step).flow.Wire(t, e)| <= room.orders && |Apply(c, q, step).mail.Queue(e)| <= room.messages
  {
    hide CheckOrder, DoWork;
  }

  /** With a capacity, no queue ever holds more. */
  lemma {:induction false} RoomIsKept(c: Config, room: Room, schedule: seq<Step>, t: int, e: int)
    requires ValidSizes(c)
    ensures
      var q := BoundedRun(c, Capacity(c, room), schedule);
      |q.flow.Wire(t, e)| <= room.orders && |q.mail.Queue(e)| <= room.messages
  {
    hide Apply, Enabled, Capacity, CanStep;
    if schedule != [] {
      var run, step := schedule[..|schedule| - 1], schedule[|schedule| - 1];
      RoomIsKept(c, room, run, t, e);
      var q := BoundedRun(c, Capacity(c, room), run);
      RoomIsEnough(c, room, run, q, step);
      if CanStep(c, Capacity(c, room), run, q, step) {
        StepKeepsRoom(c, room, q, step, t, e);
      }
    }
  }

  ghost predicate BoundedStuck(c: Config, waits: Policy, run: seq<Step>)
    requires ValidSizes(c)
  {
    forall step :: !CanStep(c, waits, run, BoundedRun(c, waits, run), step)
  }

  /** A bounded run is the run of those of its steps that happened, so all that holds of every run holds of it. */
  lemma {:induction false} BoundedIsRun(c: Config, waits: Policy, schedule: seq<Step>) returns (happened: seq<Step>)
    requires ValidSizes(c)
    ensures BoundedRun(c, waits, schedule) == Run(c, happened)
  {
    hide Apply, Enabled;
    if schedule == [] {
      happened := [];
    } else {
      var before, step := schedule[..|schedule| - 1], schedule[|schedule| - 1];
      happened := BoundedIsRun(c, waits, before);
      if CanStep(c, waits, before, BoundedRun(c, waits, before), step) {
        assert (happened + [step])[..|happened|] == happened;
        happened := happened + [step];
      }
    }
  }

  /** When nothing can happen with bounded queues, nothing could happen with unbounded ones. */
  lemma {:induction false} BoundedStuckIsStuck(c: Config, waits: Policy, run: seq<Step>)
    requires ValidSizes(c) && WaitsForRoom(c, waits) && BoundedStuck(c, waits, run)
    ensures Stuck(c, BoundedRun(c, waits, run))
  {
    hide CheckOrder, BoundedRun;
    var q := BoundedRun(c, waits, run);
    forall t, e | c.IsTrader(t)
      ensures q.flow.Wire(t, e) == []
    {
      assert !CanStep(c, waits, run, q, Arrive(t, e));
    }
    forall e
      ensures q.mail.Queue(e) == []
    {
      assert !CanStep(c, waits, run, q, Forward(e));
    }
    forall step
      ensures !Enabled(c, q, step)
    {
      assert !CanStep(c, waits, run, q, step);
    }
  }

  /** So bounded runs that cannot go on end like unbounded ones of the same input. */
  lemma {:induction false} BoundedOutcome(c: Config, d: Config, waits: Policy, a: seq<Step>, b: seq<Step>, s: int)
    requires ValidConfig(c) && ValidConfig(d) && SameInput(c, d) && WaitsForRoom(c, waits) && c.IsStock(s)
    requires BoundedStuck(c, waits, a) && Stuck(d, Run(d, b))
    ensures
      var q, r := BoundedRun(c, waits, a), Run(d, b);
      CommittedOf(q, s) == CommittedOf(r, s) && q.core.EngineOf(s) == r.core.EngineOf(s)
  {
    hide BoundedStuck, Stuck, BoundedRun, Run, WaitsForRoom, SameInput;
    var happened := BoundedIsRun(c, waits, a);
    BoundedStuckIsStuck(c, waits, a);
    FinalOutcomeIsUnique(c, d, happened, b, s);
  }

  lemma {:induction false} BoundedStepLowers(c: Config, waits: Policy, run: seq<Step>, step: Step)
    requires ValidConfig(c) && CanStep(c, waits, run, BoundedRun(c, waits, run), step)
    ensures Lower(RankOf(c, BoundedRun(c, waits, run + [step])), RankOf(c, BoundedRun(c, waits, run)))
  {
    hide Inv, RankOf, Apply, Lower, Enabled, Run;
    var happened := BoundedIsRun(c, waits, run);
    RunKeeps(c, happened);
    assert (run + [step])[..|run|] == run;
    StepLowers(c, BoundedRun(c, waits, run), step);
  }

  lemma {:induction false} BoundedFinishFrom(c: Config, waits: Policy, run: seq<Step>, rank: Rank)
    returns (rest: seq<Step>)
    requires ValidConfig(c) && rank == RankOf(c, BoundedRun(c, waits, run))
    ensures BoundedStuck(c, waits, run + rest)
    decreases rank.unsent, rank.onWires, rank.inWindows, rank.threads, rank.outboxes, rank.toForward, rank.toHear
  {
    hide RankOf, CanStep, BoundedRun;
    if BoundedStuck(c, waits, run) {
      rest := [];
      assert run + [] == run;
    } else {
      var step :| CanStep(c, waits, run, BoundedRun(c, waits, run), step);
      BoundedStepLowers(c, waits, run, step);
      rest := BoundedFinishFrom(c, waits, run + [step], RankOf(c, BoundedRun(c, waits, run + [step])));
      assert run + ([step] + rest) == run + [step] + rest;
      rest := [step] + rest;
    }
  }

  /** No bounded run deadlocks: each can be continued until even unbounded queues would allow no step. */
  lemma {:induction false} NoDeadlock(c: Config, waits: Policy, run: seq<Step>)
    requires ValidConfig(c) && WaitsForRoom(c, waits)
    ensures exists rest :: Stuck(c, BoundedRun(c, waits, run + rest))
  {
    hide RankOf, BoundedRun, BoundedStuck, Stuck, WaitsForRoom;
    var rest := BoundedFinishFrom(c, waits, run, RankOf(c, BoundedRun(c, waits, run)));
    BoundedStuckIsStuck(c, waits, run + rest);
  }
}
