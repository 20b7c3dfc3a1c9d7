/** The one way out of the daemon: any number of connections and the idle
    watcher, one counter of requests in flight, one lock and two flags. */
module Shutdown {
  import opened Decimal

  // ---- the shared state and what each critical section does to it ----

  datatype Control = Control(active: nat, shuttingDown: bool, fired: bool, exits: nat)

  function Admit(c: Control): (Control, bool) {
    if c.shuttingDown then (c, false) else (c.(active := c.active + 1), true)
  }

  function Release(c: Control): Control
    requires c.active > 0
  {
    c.(active := c.active - 1)
  }

  function AdmitShutdown(c: Control, force: bool, expendable: bool): (Control, bool) {
    if force || (c.active == 0 && expendable) then (c.(shuttingDown := true), true) else (c, false)
  }

  /** `exit` takes no lock: a store, a swap, and the action if the swap won. */
  function Store(c: Control): Control { c.(shuttingDown := true) }

  function Swap(c: Control): (Control, bool) { (c.(fired := true), !c.fired) }

  function Act(c: Control): Control { c.(exits := c.exits + 1) }

  class DaemonControl {
    var active: nat
    var shuttingDown: bool
    var fired: bool
    var exits: nat

    function State(): Control
      reads this
    {
      Control(active, shuttingDown, fired, exits)
    }

    constructor ()
      ensures State() == Control(0, false, false, 0)
    {
      active, shuttingDown, fired, exits := 0, false, false, 0;
    }

    /** Refused once the daemon is shutting down, and counted otherwise. */
    method AdmitStateRequest() returns (admitted: bool)
      modifies this
      ensures admitted == !old(shuttingDown) && active == old(active) + (if admitted then 1 else 0)
      ensures shuttingDown == old(shuttingDown) && fired == old(fired) && exits == old(exits)
      ensures (State(), admitted) == Admit(old(State()))
    {
      if shuttingDown {
        return false;
      }
      active := active + 1;
      admitted := true;
    }

    method DropGuard()
      requires active > 0
      modifies this
      ensures active == old(active) - 1
      ensures shuttingDown == old(shuttingDown) && fired == old(fired) && exits == old(exits)
      ensures State() == Release(old(State()))
    {
      active := active - 1;
    }

    /** Only a human's word overrides what is in flight or held; a refusal
        changes nothing, and nothing takes the flag back. */
    method AdmitShutdownRequest(force: bool, expendable: bool) returns (accepted: bool)
      modifies this
      ensures accepted && !force ==> active == 0 && expendable
      ensures force || (active == 0 && expendable) ==> accepted
      ensures shuttingDown == (old(shuttingDown) || accepted)
      ensures active == old(active) && fired == old(fired) && exits == old(exits)
      ensures (State(), accepted) == AdmitShutdown(old(State()), force, expendable)
    {
      accepted := force || (active == 0 && expendable);
      if accepted {
        shuttingDown := true;
      }
    }

    /** The first call acts, every later one only finds that it has been. */
    method Exit()
      modifies this
      ensures shuttingDown && fired && active == old(active)
      ensures exits == old(exits) + (if old(fired) then 0 else 1)
      ensures var (swapped, won) := Swap(Store(old(State())));
        State() == if won then Act(swapped) else swapped
    {
      shuttingDown := true;
      var was := fired;
      fired := true;
      if was {
        return;
      }
      exits := exits + 1;
    }
  }

  // ---- the tasks, interleaved ----

  datatype Who = Conn(id: nat) | Watcher

  /** Where a task is. `AtGate`, `Gated`, `Returning`, `Returned`, `Deciding`,
      `Decided`, `Judging`, `Counted`, `Vouched` and `Judged` are inside the
      lock, before and after what is done there: the watcher reads the number of
      connections, then asks the session table, and only then raises the flag. */
  datatype Pc =
    | Opening
    | Reading
    | Wants
    | AtGate
    | Gated(admitted: bool)
    | Handling
    | Leaving(closing: bool)
    | Returning(closing: bool)
    | Returned(closing: bool)
    | Asks(force: bool)
    | Deciding(force: bool)
    | Decided(accepted: bool)
    | Napping
    | Suspects
    | Judging
    | Counted
    | Vouched
    | Judged(idle: bool)
    | Exiting
    | Stored
    | Swapped(won: bool)
    | Closing
    | Done

  /** What happened, with the requests in flight and the open connections as
      they were just before. `NobodyConnected` is the watcher's count, and
      `counted` in an idle exit is where in the log that is. */
  datatype Event =
    | Opened(who: Who)
    | Closed(who: Who)
    | Admitted(who: Who)
    | Accepted(force: bool, inFlight: nat)
    | NobodyConnected(open: set<Who>)
    | IdleExit(inFlight: nat, open: set<Who>, counted: nat)
    | Ran

  datatype State = State(
    control: Control, connected: nat, lock: Option<Who>, tasks: map<Who, Pc>, log: seq<Event>, counted: nat)

  const START := State(Control(0, false, false, 0), 0, None, map[Watcher := Napping], [], 0)

  /** `flag` in `Decide` is what the session table answers, in `Look` whether it
      holds only tombstones; `Cut` is a task dropped at an await. */
  datatype Step =
    | Open(who: Who)
    | LookAtFlag(who: Who)
    | Frame(who: Who)
    | Ask(who: Who, force: bool)
    | Finish(who: Who)
    | Cut(who: Who)
    | Lock(who: Who)
    | Decide(who: Who, flag: bool)
    | Unlock(who: Who)
    | Look(flag: bool, elapsed: bool)
    | StoreFlag(who: Who)
    | SwapFired(who: Who)
    | RunAction(who: Who)
    | Close(who: Who)

  predicate Locked(pc: Pc) {
    pc.AtGate? || pc.Gated? || pc.Returning? || pc.Returned? || pc.Deciding? || pc.Decided?
    || pc.Judging? || pc.Counted? || pc.Vouched? || pc.Judged?
  }

  /** A state request admitted and not yet counted out. */
  predicate InFlight(pc: Pc) { (pc.Gated? && pc.admitted) || pc.Handling? || pc.Leaving? || pc.Returning? }

  /** On the way out, past an acceptance. */
  predicate Bound(pc: Pc) {
    (pc.Decided? && pc.accepted) || (pc.Judged? && pc.idle) || pc.Exiting? || pc.Stored? || pc.Swapped?
  }

  predicate Won(pc: Pc) { pc.Swapped? && pc.won }

  function Flying(tasks: map<Who, Pc>): set<Who> { set w | w in tasks && InFlight(tasks[w]) }

  function Connections(tasks: map<Who, Pc>): set<Who> { set w | w in tasks && w.Conn? }

  function Winners(tasks: map<Who, Pc>): set<Who> { set w | w in tasks && Won(tasks[w]) }

  function Move(s: State, who: Who, pc: Pc): State { s.(tasks := s.tasks[who := pc]) }

  predicate At(s: State, who: Who) { who in s.tasks }

  /** What is done inside the lock. The counter moves nowhere else, so reading
      it and acting on it is one step; connections come and go meanwhile. */
  function Inside(s: State, who: Who, flag: bool): State
    requires who in s.tasks
  {
    match s.tasks[who]
    case AtGate =>
      var (c, ok) := Admit(s.control);
      Move(s, who, Gated(ok)).(control := c, log := if ok then s.log + [Admitted(who)] else s.log)
    case Returning(closing) =>
      if s.control.active > 0 then Move(s, who, Returned(closing)).(control := Release(s.control)) else s
    case Deciding(force) =>
      var (c, ok) := AdmitShutdown(s.control, force, flag);
      Move(s, who, Decided(ok)).(control := c, log := if ok then s.log + [Accepted(force, |Flying(s.tasks)|)] else s.log)
    case Judging =>
      if s.control.active == 0 && s.connected == 0 then
        Move(s, who, Counted).(log := s.log + [NobodyConnected(Connections(s.tasks))], counted := |s.log|)
      else Move(s, who, Judged(false))
    case Counted => Move(s, who, if flag then Vouched else Judged(false))
    case Vouched =>
      Move(s, who, Judged(true)).(control := Store(s.control),
        log := s.log + [IdleExit(|Flying(s.tasks)|, Connections(s.tasks), s.counted)])
    case _ => s
  }

  function Entered(pc: Pc): Option<Pc> {
    match pc
    case Wants => Some(AtGate)
    case Leaving(closing) => Some(Returning(closing))
    case Asks(force) => Some(Deciding(force))
    case Suspects => Some(Judging)
    case _ => None
  }

  function LeftLock(pc: Pc): Option<Pc> {
    match pc
    case Gated(admitted) => Some(if admitted then Handling else Reading)
    case Returned(closing) => Some(if closing then Closing else Reading)
    case Decided(accepted) => Some(if accepted then Exiting else Reading)
    case Judged(idle) => Some(if idle then Exiting else Napping)
    case _ => None
  }

  /** What a task does between two uses of what is shared. */
  function Moved(pc: Pc, step: Step, shuttingDown: bool): Option<Pc> {
    match (pc, step)
    case (Opening, LookAtFlag(_)) => Some(if shuttingDown then Closing else Reading)
    case (Reading, Frame(_)) => Some(Wants)
    case (Reading, Ask(_, force)) => Some(Asks(force))
    case (Handling, Finish(_)) => Some(Leaving(false))
    case (Handling, Cut(_)) => Some(Leaving(true))
    case (Reading, Cut(_)) => Some(Closing)
    case (Exiting, Cut(who)) => if who.Conn? then Some(Closing) else None
    case _ => None
  }

  /** A step; one that does not fit where its task is does nothing. */
  function Apply(s: State, step: Step): State {
    match step
    case Open(who) =>
      if who.Conn? && who !in s.tasks then Move(s, who, Opening).(connected := s.connected + 1, log := s.log + [Opened(who)]) else s
    case Lock(who) =>
      if who in s.tasks && s.lock.None? && Entered(s.tasks[who]).Some?
      then Move(s, who, Entered(s.tasks[who]).value).(lock := Some(who)) else s
    case Decide(who, flag) => if who in s.tasks then Inside(s, who, flag) else s
    case Unlock(who) =>
      if who in s.tasks && LeftLock(s.tasks[who]).Some? then Move(s, who, LeftLock(s.tasks[who]).value).(lock := None) else s
    case Look(flag, elapsed) =>
      if At(s, Watcher) && s.tasks[Watcher].Napping? && s.connected == 0 && flag && elapsed then Move(s, Watcher, Suspects) else s
    case StoreFlag(who) =>
      if who in s.tasks && s.tasks[who].Exiting? then Move(s, who, Stored).(control := Store(s.control)) else s
    case SwapFired(who) =>
      if who in s.tasks && s.tasks[who].Stored? then Move(s, who, Swapped(Swap(s.control).1)).(control := Swap(s.control).0) else s
    case RunAction(who) =>
      if who in s.tasks && s.tasks[who].Swapped? then
        var after := Move(s, who, if who.Conn? then Closing else Done);
        if s.tasks[who].won then after.(control := Act(s.control), log := s.log + [Ran]) else after
      else s
    case Close(who) =>
      if who.Conn? && who in s.tasks && s.tasks[who].Closing? && s.connected > 0
      then s.(tasks := s.tasks - {who}, connected := s.connected - 1, log := s.log + [Closed(who)]) else s
    case _ =>
      if step.who in s.tasks && Moved(s.tasks[step.who], step, s.control.shuttingDown).Some?
      then Move(s, step.who, Moved(s.tasks[step.who], step, s.control.shuttingDown).value) else s
  }

  function Run(s: State, steps: seq<Step>): State
    decreases |steps|
  {
    if steps == [] then s else Apply(Run(s, steps[..|steps| - 1]), steps[|steps| - 1])
  }

  // ---- the invariant ----

  predicate Stops(event: Event) { event.Accepted? || event.IdleExit? }

  /** An unforced or idle end came with nothing in flight; after an end nothing
      is admitted; and the action runs once, after an end. */
  predicate Orderly(log: seq<Event>) {
    && (forall i :: 0 <= i < |log| && log[i].Accepted? && !log[i].force ==> log[i].inFlight == 0)
    && (forall i :: 0 <= i < |log| && log[i].IdleExit? ==> log[i].inFlight == 0)
    && (forall i, j :: 0 <= i < j < |log| && Stops(log[i]) ==> !log[j].Admitted?)
    && (forall i, j :: 0 <= i < j < |log| && log[i].Ran? ==> !log[j].Ran?)
    && (forall j :: 0 <= j < |log| && log[j].Ran? ==> Stopped(log[..j]))
  }

  predicate Stopped(log: seq<Event>) { exists i :: 0 <= i < |log| && Stops(log[i]) }

  predicate HasRun(log: seq<Event>) { exists i :: 0 <= i < |log| && log[i].Ran? }

  predicate LockOk(s: State) {
    && (forall w :: w in s.tasks ==> (Locked(s.tasks[w]) <==> s.lock == Some(w)))
    && (s.lock.Some? ==> s.lock.value in s.tasks)
  }

  predicate FlagsOk(s: State) {
    && (s.control.shuttingDown <==> Stopped(s.log))
    && (forall w :: w in s.tasks && Bound(s.tasks[w]) ==> s.control.shuttingDown)
    && (s.control.fired ==> s.control.shuttingDown)
    && |Winners(s.tasks)| + s.control.exits == (if s.control.fired then 1 else 0)
    && (HasRun(s.log) <==> s.control.exits == 1)
  }

  predicate Inv(s: State) {
    && s.control.active == |Flying(s.tasks)|
    && s.connected == |Connections(s.tasks)|
    && LockOk(s) && FlagsOk(s) && Orderly(s.log)
  }

  // ---- how one task's move changes the counts ----

  function Count(b: bool): nat { if b then 1 else 0 }

  lemma FlyingMoves(tasks: map<Who, Pc>, who: Who, pc: Pc)
    requires who in tasks
    ensures |Flying(tasks[who := pc])| == |Flying(tasks)| + Count(InFlight(pc)) - Count(InFlight(tasks[who]))
    ensures Connections(tasks[who := pc]) == Connections(tasks)
  {
    var before, after := Flying(tasks), Flying(tasks[who := pc]);
    assert after == if InFlight(pc) then before + {who} else before - {who};
    assert who in before <==> InFlight(tasks[who]);
  }

  lemma WinnersMove(tasks: map<Who, Pc>, who: Who, pc: Pc)
    requires who in tasks
    ensures |Winners(tasks[who := pc])| == |Winners(tasks)| + Count(Won(pc)) - Count(Won(tasks[who]))
  {
    var before, after := Winners(tasks), Winners(tasks[who := pc]);
    assert after == if Won(pc) then before + {who} else before - {who};
    assert who in before <==> Won(tasks[who]);
  }

  /** A task takes the lock, gives it back, or leaves it as it is. */
  predicate LockMoves(lock: Option<Who>, after: Option<Who>, who: Who, pc: Pc) {
    && (Locked(pc) <==> after == Some(who))
    && (after == lock || (lock == Some(who) && after == None) || (lock == None && after == Some(who)))
  }

  predicate LogFits(c: Control, log: seq<Event>) {
    && Orderly(log)
    && (c.shuttingDown <==> Stopped(log))
    && (HasRun(log) <==> c.exits == 1)
    && (c.fired ==> c.shuttingDown)
  }

  predicate FlagsMove(before: Control, after: Control, was: Pc, pc: Pc) {
    && after.active == before.active + Count(InFlight(pc)) - Count(InFlight(was))
    && after.exits + Count(Won(pc)) + Count(before.fired)
       == before.exits + Count(Won(was)) + Count(after.fired)
    && (before.shuttingDown || Bound(pc) ==> after.shuttingDown)
  }

  /** What the invariant says of one task. */
  lemma Facts(s: State, who: Who)
    requires Inv(s) && who in s.tasks
    ensures LogFits(s.control, s.log)
    ensures s.control.active == |Flying(s.tasks)| && s.connected == |Connections(s.tasks)|
    ensures Locked(s.tasks[who]) <==> s.lock == Some(who)
    ensures Bound(s.tasks[who]) ==> s.control.shuttingDown
    ensures Won(s.tasks[who]) ==> s.control.exits == 0
  {
    if Won(s.tasks[who]) {
      assert who in Winners(s.tasks);
    }
    hide Flying, Connections, Orderly, Stopped, HasRun, InFlight;
  }

  /** Any move of one task that keeps the books. */
  lemma MoveKeeps(s: State, who: Who, pc: Pc, c: Control, lock: Option<Who>, log: seq<Event>, counted: nat)
    requires Inv(s) && who in s.tasks
    requires FlagsMove(s.control, c, s.tasks[who], pc) && LockMoves(s.lock, lock, who, pc) && LogFits(c, log)
    ensures Inv(State(c, s.connected, lock, s.tasks[who := pc], log, counted))
  {
    FlyingMoves(s.tasks, who, pc);
    WinnersMove(s.tasks, who, pc);
    hide Flying, Winners, Connections, Orderly, Stopped, HasRun, InFlight;
  }

  lemma OpenSets(tasks: map<Who, Pc>, who: Who)
    requires who.Conn? && who !in tasks
    ensures Flying(tasks[who := Opening]) == Flying(tasks) && Winners(tasks[who := Opening]) == Winners(tasks)
    ensures |Connections(tasks[who := Opening])| == |Connections(tasks)| + 1
  {
    assert Connections(tasks[who := Opening]) == Connections(tasks) + {who};
  }

  lemma OpenKeeps(s: State, who: Who)
    requires Inv(s) && who.Conn? && who !in s.tasks
    ensures Inv(Apply(s, Open(who)))
  {
    OpenSets(s.tasks, who);
    LogGrows(s.log, Opened(who));
    hide Flying, Winners, Connections, Orderly, Stopped, HasRun, InFlight;
  }

  lemma CloseKeeps(s: State, who: Who)
    requires Inv(s) && who.Conn? && who in s.tasks && s.tasks[who].Closing?
    ensures Inv(Apply(s, Close(who)))
  {
    var tasks := s.tasks - {who};
    assert who in Connections(s.tasks);
    assert Connections(tasks) == Connections(s.tasks) - {who};
    assert Flying(tasks) == Flying(s.tasks) && Winners(tasks) == Winners(s.tasks);
    LogGrows(s.log, Closed(who));
    hide Flying, Winners, Connections, Orderly, Stopped, HasRun, InFlight;
  }

  lemma LockFits(c: Control, log: seq<Event>, who: Who, was: Pc)
    requires Entered(was).Some? && LogFits(c, log)
    ensures var pc := Entered(was).value;
      FlagsMove(c, c, was, pc) && LockMoves(None, Some(who), who, pc)
  {
    hide LogFits;
  }

  lemma LockKeeps(s: State, who: Who)
    requires Inv(s) && who in s.tasks && s.lock.None? && Entered(s.tasks[who]).Some?
    ensures Inv(State(s.control, s.connected, Some(who), s.tasks[who := Entered(s.tasks[who]).value], s.log, s.counted))
  {
    hide *;
    Facts(s, who);
    LockFits(s.control, s.log, who, s.tasks[who]);
    MoveKeeps(s, who, Entered(s.tasks[who]).value, s.control, Some(who), s.log, s.counted);
  }

  lemma UnlockFits(c: Control, lock: Option<Who>, log: seq<Event>, who: Who, was: Pc)
    requires LeftLock(was).Some? && LogFits(c, log) && (Bound(was) ==> c.shuttingDown)
    requires Locked(was) <==> lock == Some(who)
    ensures var pc := LeftLock(was).value;
      FlagsMove(c, c, was, pc) && LockMoves(lock, None, who, pc)
  {
    hide LogFits;
  }

  lemma UnlockKeeps(s: State, who: Who)
    requires Inv(s) && who in s.tasks && LeftLock(s.tasks[who]).Some?
    ensures Inv(State(s.control, s.connected, None, s.tasks[who := LeftLock(s.tasks[who]).value], s.log, s.counted))
  {
    hide *;
    Facts(s, who);
    UnlockFits(s.control, s.lock, s.log, who, s.tasks[who]);
    MoveKeeps(s, who, LeftLock(s.tasks[who]).value, s.control, None, s.log, s.counted);
  }

  lemma LogGrows(log: seq<Event>, event: Event)
    requires Orderly(log)
    requires event.Accepted? && !event.force ==> event.inFlight == 0
    requires event.IdleExit? ==> event.inFlight == 0
    requires event.Admitted? ==> !Stopped(log)
    requires event.Ran? ==> Stopped(log) && !HasRun(log)
    ensures Orderly(log + [event])
    ensures Stopped(log + [event]) <==> Stopped(log) || Stops(event)
    ensures HasRun(log + [event]) <==> HasRun(log) || event.Ran?
  {
    var longer := log + [event];
    forall j | 0 <= j < |longer| && longer[j].Ran? ensures Stopped(longer[..j]) {
      assert longer[..j] == log[..j];
      if j == |log| {
        assert log[..j] == log;
      }
    }
    if i :| 0 <= i < |log| && Stops(log[i]) {
      assert longer[i] == log[i];
    }
    if i :| 0 <= i < |log| && log[i].Ran? {
      assert longer[i] == log[i];
    }
    assert longer[|log|] == event;
  }

  lemma AdmitKeeps(s: State, who: Who)
    requires Inv(s) && who in s.tasks && s.tasks[who].AtGate?
    ensures var (c, ok) := Admit(s.control);
      Inv(State(c, s.connected, s.lock, s.tasks[who := Gated(ok)], if ok then s.log + [Admitted(who)] else s.log, s.counted))
  {
    hide Inv, Flying, Winners, Connections, Orderly, Stopped, HasRun;
    Facts(s, who);
    var (c, ok) := Admit(s.control);
    if ok {
      LogGrows(s.log, Admitted(who));
    }
    MoveKeeps(s, who, Gated(ok), c, s.lock, if ok then s.log + [Admitted(who)] else s.log, s.counted);
  }

  lemma ReturnKeeps(s: State, who: Who)
    requires Inv(s) && who in s.tasks && s.tasks[who].Returning? && s.control.active > 0
    ensures Inv(State(Release(s.control), s.connected, s.lock, s.tasks[who := Returned(s.tasks[who].closing)], s.log, s.counted))
  {
    hide Inv, Flying, Winners, Connections, Orderly, Stopped, HasRun;
    Facts(s, who);
    MoveKeeps(s, who, Returned(s.tasks[who].closing), Release(s.control), s.lock, s.log, s.counted);
  }

  lemma ShutdownKeeps(s: State, who: Who, flag: bool)
    requires Inv(s) && who in s.tasks && s.tasks[who].Deciding?
    ensures var force := s.tasks[who].force;
      var (c, ok) := AdmitShutdown(s.control, force, flag);
      Inv(State(c, s.connected, s.lock, s.tasks[who := Decided(ok)],
                if ok then s.log + [Accepted(force, |Flying(s.tasks)|)] else s.log, s.counted))
  {
    hide Inv, Flying, Winners, Connections, Orderly, Stopped, HasRun;
    Facts(s, who);
    var force := s.tasks[who].force;
    var (c, ok) := AdmitShutdown(s.control, force, flag);
    var event := Accepted(force, |Flying(s.tasks)|);
    if ok {
      LogGrows(s.log, event);
    }
    MoveKeeps(s, who, Decided(ok), c, s.lock, if ok then s.log + [event] else s.log, s.counted);
  }

  /** A decision that changes nothing shared. */
  lemma StayKeeps(s: State, who: Who, pc: Pc)
    requires Inv(s) && who in s.tasks && InFlight(s.tasks[who]) == InFlight(pc)
    requires Locked(s.tasks[who]) && Locked(pc) && !Bound(pc)
    ensures Inv(Move(s, who, pc))
  {
    hide Inv, Flying, Winners, Connections, Orderly, Stopped, HasRun;
    Facts(s, who);
    MoveKeeps(s, who, pc, s.control, s.lock, s.log, s.counted);
  }

  lemma CountKeeps(s: State, who: Who)
    requires Inv(s) && who in s.tasks && s.tasks[who].Judging?
    ensures var event := NobodyConnected(Connections(s.tasks));
      Inv(State(s.control, s.connected, s.lock, s.tasks[who := Counted], s.log + [event], |s.log|))
  {
    hide Inv, Flying, Winners, Connections, Orderly, Stopped, HasRun;
    Facts(s, who);
    LogGrows(s.log, NobodyConnected(Connections(s.tasks)));
    MoveKeeps(s, who, Counted, s.control, s.lock, s.log + [NobodyConnected(Connections(s.tasks))], |s.log|);
  }

  lemma IdleKeeps(s: State, who: Who)
    requires Inv(s) && who in s.tasks && s.tasks[who].Vouched? && s.control.active == 0
    ensures var event := IdleExit(|Flying(s.tasks)|, Connections(s.tasks), s.counted);
      Inv(State(Store(s.control), s.connected, s.lock, s.tasks[who := Judged(true)], s.log + [event], s.counted))
  {
    hide Inv, Flying, Winners, Connections, Orderly, Stopped, HasRun;
    Facts(s, who);
    var event := IdleExit(|Flying(s.tasks)|, Connections(s.tasks), s.counted);
    LogGrows(s.log, event);
    MoveKeeps(s, who, Judged(true), Store(s.control), s.lock, s.log + [event], s.counted);
  }

  /** What is done inside the lock. */
  lemma DecideKeeps(s: State, who: Who, flag: bool)
    requires Inv(s) && who in s.tasks && (s.tasks[who].Vouched? ==> s.control.active == 0)
    ensures Inv(Inside(s, who, flag))
  {
    hide Inv;
    if s.tasks[who].Returning? {
      ReturningCounts(s, who);
    }
    match s.tasks[who] {
      case AtGate => AdmitKeeps(s, who);
      case Returning(_) => ReturnKeeps(s, who);
      case Deciding(_) => ShutdownKeeps(s, who, flag);
      case Judging =>
        CountKeeps(s, who);
        StayKeeps(s, who, Judged(false));
      case Counted => StayKeeps(s, who, if flag then Vouched else Judged(false));
      case Vouched => IdleKeeps(s, who);
      case _ =>
    }
  }

  /** A guard about to be dropped is still counted. */
  lemma ReturningCounts(s: State, who: Who)
    requires Inv(s) && who in s.tasks && s.tasks[who].Returning?
    ensures s.control.active > 0
  {
    assert who in Flying(s.tasks);
  }

  lemma SwapFits(c: Control, lock: Option<Who>, log: seq<Event>, who: Who, was: Pc)
    requires was.Stored? && Bound(was) ==> c.shuttingDown
    requires was.Stored? && LogFits(c, log) && (Locked(was) <==> lock == Some(who))
    ensures var (after, won) := Swap(c);
      FlagsMove(c, after, was, Swapped(won)) && LockMoves(lock, lock, who, Swapped(won)) && LogFits(after, log)
  {
    hide Orderly, Stopped, HasRun;
  }

  lemma SwapKeeps(s: State, who: Who)
    requires Inv(s) && who in s.tasks && s.tasks[who].Stored?
    ensures Inv(State(Swap(s.control).0, s.connected, s.lock, s.tasks[who := Swapped(Swap(s.control).1)], s.log, s.counted))
  {
    hide *;
    Facts(s, who);
    SwapFits(s.control, s.lock, s.log, who, s.tasks[who]);
    MoveKeeps(s, who, Swapped(Swap(s.control).1), Swap(s.control).0, s.lock, s.log, s.counted);
  }

  /** The winner of the swap runs the action, as the first and only one. */
  lemma WinnerFits(c: Control, lock: Option<Who>, log: seq<Event>, who: Who, was: Pc, pc: Pc)
    requires Won(was) && (pc.Closing? || pc.Done?) && c.shuttingDown && c.exits == 0
    requires LogFits(c, log) && (Locked(was) <==> lock == Some(who))
    ensures FlagsMove(c, Act(c), was, pc) && LockMoves(lock, lock, who, pc) && LogFits(Act(c), log + [Ran])
  {
    hide Orderly, Stopped, HasRun;
    LogGrows(log, Ran);
  }

  lemma RunKeeps(s: State, who: Who)
    requires Inv(s) && who in s.tasks && s.tasks[who].Swapped?
    ensures var won := s.tasks[who].won;
      Inv(State(if won then Act(s.control) else s.control, s.connected, s.lock,
                s.tasks[who := if who.Conn? then Closing else Done], if won then s.log + [Ran] else s.log, s.counted))
  {
    hide *;
    Facts(s, who);
    var pc := if who.Conn? then Closing else Done;
    SwappedIs(s, s.tasks[who]);
    if s.tasks[who].won {
      WinnerFits(s.control, s.lock, s.log, who, s.tasks[who], pc);
      MoveKeeps(s, who, pc, Act(s.control), s.lock, s.log + [Ran], s.counted);
    } else {
      PlainMoveKeeps(s, who, pc);
    }
  }

  lemma SwappedIs(s: State, was: Pc)
    requires was.Swapped?
    ensures Bound(was) && (Won(was) <==> was.won) && !Locked(was) && !InFlight(was)
    ensures !Bound(Closing) && !Bound(Done) && !Locked(Closing) && !Locked(Done) && !InFlight(Closing) && !InFlight(Done)
    ensures Move(s, Watcher, Done) == State(s.control, s.connected, s.lock, s.tasks[Watcher := Done], s.log, s.counted)
    ensures forall who :: Move(s, who, Closing) == State(s.control, s.connected, s.lock, s.tasks[who := Closing], s.log, s.counted)
    ensures !Won(Closing) && !Won(Done)
  {
  }

  lemma StoreFits(c: Control, lock: Option<Who>, log: seq<Event>, who: Who, was: Pc)
    requires was.Exiting? && Bound(was) ==> c.shuttingDown
    requires was.Exiting? && LogFits(c, log) && (Locked(was) <==> lock == Some(who))
    ensures FlagsMove(c, Store(c), was, Stored) && LockMoves(lock, lock, who, Stored) && LogFits(Store(c), log)
  {
    hide Orderly, Stopped, HasRun;
  }

  lemma StoreKeeps(s: State, who: Who)
    requires Inv(s) && who in s.tasks && s.tasks[who].Exiting?
    ensures Inv(State(Store(s.control), s.connected, s.lock, s.tasks[who := Stored], s.log, s.counted))
  {
    hide *;
    Facts(s, who);
    StoreFits(s.control, s.lock, s.log, who, s.tasks[who]);
    MoveKeeps(s, who, Stored, Store(s.control), s.lock, s.log, s.counted);
  }

  /** A move that touches nothing shared. */
  lemma PlainMoveKeeps(s: State, who: Who, pc: Pc)
    requires Inv(s) && who in s.tasks && InFlight(s.tasks[who]) == InFlight(pc)
    requires !Locked(s.tasks[who]) && !Locked(pc) && !Won(s.tasks[who]) && !Won(pc) && !Bound(pc)
    ensures Inv(Move(s, who, pc))
  {
    hide Inv, Flying, Winners, Connections, Orderly, Stopped, HasRun;
    Facts(s, who);
    MoveKeeps(s, who, pc, s.control, s.lock, s.log, s.counted);
  }

  lemma StepKeepsInv(s: State, step: Step)
    requires Inv(s) && CountOk(s)
    ensures Inv(Apply(s, step))
  {
    hide Inv;
    var after := Apply(s, step);
    if after != s {
      match step {
        case Open(who) => OpenKeeps(s, who);
        case Close(who) => CloseKeeps(s, who);
        case Lock(who) => LockKeeps(s, who);
        case Unlock(who) => UnlockKeeps(s, who);
        case Decide(who, flag) => DecideKeeps(s, who, flag);
        case StoreFlag(who) => StoreKeeps(s, who);
        case SwapFired(who) => SwapKeeps(s, who);
        case RunAction(who) => RunKeeps(s, who);
        case Look(_, _) => PlainMoveKeeps(s, Watcher, Suspects);
        case _ => PlainMoveKeeps(s, step.who, after.tasks[step.who]);
      }
    }
  }

  // ---- the count and what may happen after it ----

  /** Between the watcher's count and its decision. */
  predicate Counting(pc: Pc) { pc.Counted? || pc.Vouched? }

  predicate NoneAdmittedAfter(log: seq<Event>, i: nat) { forall k :: i < k < |log| ==> !log[k].Admitted? }

  /** The connections one event leaves open. */
  function Touched(open: set<Who>, event: Event): set<Who> {
    match event
    case Opened(who) => open + {who}
    case Closed(who) => open - {who}
    case _ => open
  }

  /** The connections opened after the first `from` events and not closed since. */
  function OpenSince(log: seq<Event>, from: nat): set<Who>
    decreases |log|
  {
    if |log| <= from then {} else Touched(OpenSince(log[..|log| - 1], from), log[|log| - 1])
  }

  predicate OpenedAt(log: seq<Event>, k: nat, who: Who) {
    k < |log| && log[k] == Opened(who) && forall m :: k < m < |log| ==> log[m] != Closed(who)
  }

  lemma {:induction false} OpenSinceMeans(log: seq<Event>, from: nat, who: Who)
    ensures who in OpenSince(log, from) <==> exists k :: from <= k && OpenedAt(log, k, who)
    decreases |log|
  {
    if |log| > from {
      var n := |log| - 1;
      OpenSinceMeans(log[..n], from, who);
      if k :| from <= k && OpenedAt(log[..n], k, who) {
        if log[n] != Closed(who) {
          assert OpenedAt(log, k, who);
        }
      }
      if k :| from <= k && OpenedAt(log, k, who) {
        if k < n {
          assert OpenedAt(log[..n], k, who);
        }
      }
      if log[n] == Opened(who) {
        assert OpenedAt(log, n, who);
      }
    }
  }

  /** At `i` nobody was connected; just `open` have come since and stayed, and
      nothing has been admitted. */
  predicate Since(log: seq<Event>, i: nat, open: set<Who>) {
    i < |log| && log[i] == NobodyConnected({}) && NoneAdmittedAfter(log, i) && OpenSince(log, i + 1) == open
  }

  predicate CountOk(s: State) {
    forall w :: w in s.tasks && Counting(s.tasks[w]) ==>
      s.control.active == 0 && Since(s.log, s.counted, Connections(s.tasks))
  }

  /** Every idle exit follows a count of nobody; connected at the exit are exactly
      those who came after it and have not gone, and nothing was or will be
      admitted after it. */
  predicate IdleOk(log: seq<Event>) {
    forall j :: 0 <= j < |log| && log[j].IdleExit? ==>
      && log[j].counted < j && log[log[j].counted] == NobodyConnected({})
      && log[j].open == OpenSince(log[..j], log[j].counted + 1)
      && NoneAdmittedAfter(log, log[j].counted)
  }

  lemma SinceGrows(log: seq<Event>, i: nat, open: set<Who>, event: Event)
    requires Since(log, i, open) && !event.Admitted?
    ensures Since(log + [event], i, Touched(open, event))
  {
    assert (log + [event])[..|log|] == log;
  }

  lemma IdleGrows(log: seq<Event>, event: Event)
    requires IdleOk(log)
    requires event.Admitted? ==> !Stopped(log)
    requires event.IdleExit? ==> Since(log, event.counted, event.open)
    ensures IdleOk(log + [event])
  {
    var longer := log + [event];
    forall j | 0 <= j < |longer| && longer[j].IdleExit?
      ensures longer[j].counted < j && longer[longer[j].counted] == NobodyConnected({})
      ensures longer[j].open == OpenSince(longer[..j], longer[j].counted + 1) && NoneAdmittedAfter(longer, longer[j].counted)
    {
      assert longer[..j] == log[..j];
      if j < |log| {
        assert log[j] == longer[j] && Stops(log[j]);
      } else {
        assert log[..j] == log;
      }
    }
  }

  /** While one task holds the lock, what another does. */
  ghost predicate Bystander(s: State, after: State) {
    && after.control.active == s.control.active && after.counted == s.counted && after.lock == s.lock
    && (forall w :: w in after.tasks && Counting(after.tasks[w]) ==> w in s.tasks && Counting(s.tasks[w]))
    && ((after.log == s.log && Connections(after.tasks) == Connections(s.tasks))
        || exists e :: LogsOne(s, after, e))
  }

  predicate LogsOne(s: State, after: State, e: Event) {
    && after.log == s.log + [e] && !e.Admitted? && !e.IdleExit?
    && Connections(after.tasks) == Touched(Connections(s.tasks), e)
  }

  lemma BystanderKeeps(s: State, after: State)
    requires CountOk(s) && IdleOk(s.log) && Bystander(s, after)
    ensures CountOk(after) && IdleOk(after.log)
  {
    if e :| LogsOne(s, after, e) {
      IdleGrows(s.log, e);
      if w :| w in after.tasks && Counting(after.tasks[w]) {
        SinceGrows(s.log, s.counted, Connections(s.tasks), e);
      }
    }
  }

  lemma PlainMoveStands(s: State, who: Who, pc: Pc, control: Control, lock: Option<Who>)
    requires who in s.tasks && !Counting(pc) && control.active == s.control.active && lock == s.lock
    ensures Bystander(s, State(control, s.connected, lock, s.tasks[who := pc], s.log, s.counted))
  {
    assert Connections(s.tasks[who := pc]) == Connections(s.tasks);
  }

  lemma OpenStands(s: State, who: Who)
    requires who.Conn? && who !in s.tasks
    ensures Bystander(s, Apply(s, Open(who)))
  {
    assert Connections(s.tasks[who := Opening]) == Touched(Connections(s.tasks), Opened(who));
    hide Connections, Touched;
    assert LogsOne(s, Apply(s, Open(who)), Opened(who));
  }

  lemma CloseStands(s: State, who: Who)
    requires who.Conn? && who in s.tasks && s.tasks[who].Closing? && s.connected > 0
    ensures Bystander(s, Apply(s, Close(who)))
  {
    assert Connections(s.tasks - {who}) == Touched(Connections(s.tasks), Closed(who));
    hide Connections, Touched;
    assert LogsOne(s, Apply(s, Close(who)), Closed(who));
  }

  lemma RunStands(s: State, who: Who)
    requires who in s.tasks && s.tasks[who].Swapped?
    ensures Bystander(s, Apply(s, RunAction(who)))
  {
    var pc := if who.Conn? then Closing else Done;
    PlainMoveStands(s, who, pc, s.control, s.lock);
    assert Connections(s.tasks[who := pc]) == Connections(s.tasks);
    hide Connections;
    if s.tasks[who].won {
      assert LogsOne(s, Apply(s, RunAction(who)), Ran);
    }
  }

  /** Taking and giving back the lock: nobody is counting before or after. */
  lemma LockingKeepsCount(s: State, step: Step)
    requires Inv(s) && CountOk(s) && IdleOk(s.log) && (step.Lock? || step.Unlock?)
    ensures CountOk(Apply(s, step)) && IdleOk(Apply(s, step).log)
  {
    hide Flying, Winners, Orderly, Since, Connections, IdleOk, FlagsOk;
    var after := Apply(s, step);
    if after != s {
      forall w | w in after.tasks ensures !Counting(after.tasks[w]) {
        if w != step.who {
          assert Locked(s.tasks[w]) <==> s.lock == Some(w);
        }
      }
    }
  }

  /** Inside the lock only its holder acts, so only it can be counting. */
  lemma OnlyHolderCounts(s: State, who: Who, w: Who)
    requires Inv(s) && who in s.tasks && Locked(s.tasks[who]) && w in s.tasks && w != who
    ensures !Counting(s.tasks[w])
  {
    hide Flying, Winners, Orderly, Connections, FlagsOk;
  }

  /** What a holder that stops, or does not start, to count leaves. */
  lemma NobodyCounts(s: State, who: Who, after: State, pc: Pc)
    requires Inv(s) && who in s.tasks && Locked(s.tasks[who]) && after.tasks == s.tasks[who := pc] && !Counting(pc)
    ensures CountOk(after)
  {
    hide Inv, Since, Connections;
    forall w | w in after.tasks ensures !Counting(after.tasks[w]) {
      if w != who {
        OnlyHolderCounts(s, who, w);
      }
    }
  }

  lemma CountStarts(s: State, who: Who)
    requires Inv(s) && IdleOk(s.log) && who in s.tasks && s.tasks[who].Judging? && s.control.active == 0 && s.connected == 0
    ensures CountOk(Inside(s, who, true)) && IdleOk(Inside(s, who, true).log)
  {
    Facts(s, who);
    assert Connections(s.tasks) == {};
    assert Connections(s.tasks[who := Counted]) == Connections(s.tasks);
    hide Inv, IdleOk, Connections, Flying;
    IdleGrows(s.log, NobodyConnected({}));
    assert Since(s.log + [NobodyConnected({})], |s.log|, {});
  }

  lemma VouchKeeps(s: State, who: Who)
    requires CountOk(s) && who in s.tasks && s.tasks[who].Counted?
    ensures CountOk(Move(s, who, Vouched))
  {
    assert Connections(s.tasks[who := Vouched]) == Connections(s.tasks);
    hide Since, Connections;
    assert Counting(s.tasks[who]);
  }

  lemma IdleExitKeeps(s: State, who: Who)
    requires Inv(s) && CountOk(s) && IdleOk(s.log) && who in s.tasks && s.tasks[who].Vouched?
    ensures CountOk(Inside(s, who, true)) && IdleOk(Inside(s, who, true).log)
  {
    assert Counting(s.tasks[who]);
    hide Inv, IdleOk, Connections, Flying, Since, OpenSince;
    IdleGrows(s.log, IdleExit(|Flying(s.tasks)|, Connections(s.tasks), s.counted));
    NobodyCounts(s, who, Inside(s, who, true), Judged(true));
  }

  lemma DecideKeepsCount(s: State, who: Who, flag: bool)
    requires Inv(s) && CountOk(s) && IdleOk(s.log) && who in s.tasks
    ensures CountOk(Inside(s, who, flag)) && IdleOk(Inside(s, who, flag).log)
  {
    hide Inv, IdleOk, CountOk, Connections, Flying;
    var after := Inside(s, who, flag);
    match s.tasks[who] {
      case AtGate =>
        Facts(s, who);
        NobodyCounts(s, who, after, Gated(Admit(s.control).1));
        if !s.control.shuttingDown {
          IdleGrows(s.log, Admitted(who));
        }
      case Returning(closing) =>
        if s.control.active > 0 {
          NobodyCounts(s, who, after, Returned(closing));
        }
      case Deciding(force) =>
        var ok := AdmitShutdown(s.control, force, flag).1;
        NobodyCounts(s, who, after, Decided(ok));
        if ok {
          IdleGrows(s.log, Accepted(force, |Flying(s.tasks)|));
        }
      case Judging =>
        if s.control.active == 0 && s.connected == 0 {
          CountStarts(s, who);
        } else {
          NobodyCounts(s, who, after, Judged(false));
        }
      case Counted =>
        if flag {
          VouchKeeps(s, who);
        } else {
          NobodyCounts(s, who, after, Judged(false));
        }
      case Vouched => IdleExitKeeps(s, who);
      case _ =>
    }
  }

  lemma StepKeepsCount(s: State, step: Step)
    requires Inv(s) && CountOk(s) && IdleOk(s.log)
    ensures CountOk(Apply(s, step)) && IdleOk(Apply(s, step).log)
  {
    hide Inv, IdleOk, CountOk, Bystander, Inside;
    var after := Apply(s, step);
    if after != s {
      match step {
        case Open(who) => OpenStands(s, who);
        case Close(who) => CloseStands(s, who);
        case Lock(_) => LockingKeepsCount(s, step);
        case Unlock(_) => LockingKeepsCount(s, step);
        case Decide(who, flag) => DecideKeepsCount(s, who, flag);
        case StoreFlag(who) => PlainMoveStands(s, who, Stored, Store(s.control), s.lock);
        case SwapFired(who) => PlainMoveStands(s, who, Swapped(Swap(s.control).1), Swap(s.control).0, s.lock);
        case RunAction(who) => RunStands(s, who);
        case Look(_, _) => PlainMoveStands(s, Watcher, Suspects, s.control, s.lock);
        case _ => PlainMoveStands(s, step.who, after.tasks[step.who], s.control, s.lock);
      }
      if !step.Lock? && !step.Unlock? && !step.Decide? {
        BystanderKeeps(s, after);
      }
    }
  }

  // ---- every run ----

  lemma {:induction false} RunKeepsInv(steps: seq<Step>)
    ensures Inv(Run(START, steps)) && CountOk(Run(START, steps)) && IdleOk(Run(START, steps).log)
    decreases |steps|
  {
    if steps == [] {
      assert Flying(START.tasks) == {} && Winners(START.tasks) == {} && Connections(START.tasks) == {};
    } else {
      hide Inv, CountOk, IdleOk, Apply;
      RunKeepsInv(steps[..|steps| - 1]);
      StepKeepsInv(Run(START, steps[..|steps| - 1]), steps[|steps| - 1]);
      StepKeepsCount(Run(START, steps[..|steps| - 1]), steps[|steps| - 1]);
    }
  }

  /** In every interleaving. */
  lemma {:induction false} EveryRunIsOrderly(steps: seq<Step>)
    ensures var s := Run(START, steps);
      && s.control.active == |Flying(s.tasks)|
      && s.connected == |Connections(s.tasks)|
      && Orderly(s.log) && IdleOk(s.log)
      && s.control.exits <= 1
      && (s.control.exits == 1 ==> s.control.shuttingDown && Stopped(s.log))
  {
    RunKeepsInv(steps);
    hide Orderly, IdleOk, Flying, Winners, Connections, Stopped, HasRun;
  }

  /** Nothing keeps a connection from opening between the watcher's count and its
      decision: here one does, finds the flag down, and is being served when the
      daemon decides to exit for want of anybody. */
  lemma SomeoneIsConnectedAtAnIdleExit() returns (steps: seq<Step>)
    ensures var s := Run(START, steps);
      && s.log == [NobodyConnected({}), Opened(Conn(0)), IdleExit(0, {Conn(0)}, 0)]
      && s.tasks == map[Watcher := Judged(true), Conn(0) := Reading] && s.control.shuttingDown
  {
    var c, d := Conn(0), Decide(Watcher, true);
    steps := [Look(true, true), Lock(Watcher), d, Open(c), LookAtFlag(c), d, d];
    RunOfSeven(START, Look(true, true), Lock(Watcher), d, Open(c), LookAtFlag(c), d, d);
    CountsNobody();
    ConnectsMeanwhile(c);
    ExitsAllTheSame(c);
  }

  lemma RunOne(s: State, steps: seq<Step>, step: Step)
    ensures Run(s, steps + [step]) == Apply(Run(s, steps), step)
  {
    assert (steps + [step])[..|steps|] == steps;
  }

  lemma RunOfSeven(s: State, a: Step, b: Step, c: Step, d: Step, e: Step, f: Step, g: Step)
    ensures Run(s, [a, b, c, d, e, f, g]) == Apply(Apply(Apply(Apply(Apply(Apply(Apply(s, a), b), c), d), e), f), g)
  {
    hide Apply;
    RunOne(s, [], a);
    RunOne(s, [a], b);
    RunOne(s, [a, b], c);
    RunOne(s, [a, b, c], d);
    RunOne(s, [a, b, c, d], e);
    RunOne(s, [a, b, c, d, e], f);
    RunOne(s, [a, b, c, d, e, f], g);
    assert [a] == [] + [a] && [a, b] == [a] + [b] && [a, b, c] == [a, b] + [c];
    assert [a, b, c, d] == [a, b, c] + [d] && [a, b, c, d, e] == [a, b, c, d] + [e];
    assert [a, b, c, d, e, f] == [a, b, c, d, e] + [f] && [a, b, c, d, e, f, g] == [a, b, c, d, e, f] + [g];
  }

  const IDLE := Control(0, false, false, 0)

  function Waiting(watcher: Pc, lock: Option<Who>, log: seq<Event>): State {
    State(IDLE, 0, lock, map[Watcher := watcher], log, 0)
  }

  function Joined(watcher: Pc, c: Who, pc: Pc, log: seq<Event>): State {
    State(IDLE, 1, Some(Watcher), map[Watcher := watcher, c := pc], log, 0)
  }

  lemma CountsNobody()
    ensures Apply(Apply(Apply(START, Look(true, true)), Lock(Watcher)), Decide(Watcher, true))
         == Waiting(Counted, Some(Watcher), [NobodyConnected({})])
  {
    hide Flying, Connections;
    assert Apply(START, Look(true, true)) == Waiting(Suspects, None, []);
    assert Apply(Waiting(Suspects, None, []), Lock(Watcher)) == Waiting(Judging, Some(Watcher), []);
    CountsAtOnce();
  }

  lemma CountsAtOnce()
    ensures Apply(Waiting(Judging, Some(Watcher), []), Decide(Watcher, true))
         == Waiting(Counted, Some(Watcher), [NobodyConnected({})])
  {
    assert Connections(map[Watcher := Judging]) == {};
    hide Flying, Connections;
  }

  lemma ConnectsMeanwhile(c: Who)
    requires c.Conn?
    ensures Apply(Apply(Waiting(Counted, Some(Watcher), [NobodyConnected({})]), Open(c)), LookAtFlag(c))
         == Joined(Counted, c, Reading, [NobodyConnected({}), Opened(c)])
  {
    hide Flying, Connections, Inside;
    assert Apply(Waiting(Counted, Some(Watcher), [NobodyConnected({})]), Open(c))
        == Joined(Counted, c, Opening, [NobodyConnected({}), Opened(c)]);
  }

  lemma ExitsAllTheSame(c: Who)
    requires c.Conn?
    ensures var d, log := Decide(Watcher, true), [NobodyConnected({}), Opened(c)];
      Apply(Apply(Joined(Counted, c, Reading, log), d), d)
        == Joined(Judged(true), c, Reading, log + [IdleExit(0, {c}, 0)]).(control := Store(IDLE))
  {
    hide Flying, Connections;
    var s := Joined(Vouched, c, Reading, [NobodyConnected({}), Opened(c)]);
    assert Apply(Joined(Counted, c, Reading, s.log), Decide(Watcher, true)) == s;
    OneReads(c);
  }

  lemma OneReads(c: Who)
    requires c.Conn?
    ensures var tasks := map[Watcher := Vouched, c := Reading]; Connections(tasks) == {c} && Flying(tasks) == {}
  {
  }

  /** No state is a dead end for the lock: whoever holds it can always go on to
      give it back, in at most four steps, so a request is never refused for good. */
  lemma {:induction false} LockIsGivenBack(steps: seq<Step>, flag: bool)
    ensures var s := Run(START, steps);
      s.lock.Some? ==>
        var d := Decide(s.lock.value, flag);
        Apply(Apply(Apply(Apply(s, d), d), d), Unlock(s.lock.value)).lock.None?
  {
    RunKeepsInv(steps);
    var s := Run(START, steps);
    if s.lock.Some? {
      GivesBack(s, s.lock.value, flag);
    }
  }

  lemma Holder(s: State)
    requires Inv(s) && s.lock.Some?
    ensures s.lock.value in s.tasks && Locked(s.tasks[s.lock.value])
  {
  }

  /** How far from done the holder of the lock is. */
  function ToDo(pc: Pc): nat {
    match pc
    case Judging => 3
    case Counted => 2
    case _ => 1
  }

  /** Whoever is inside the lock has something to do there, or is done. */
  lemma InsideEnds(s: State, who: Who, flag: bool)
    requires who in s.tasks && Locked(s.tasks[who]) && (s.tasks[who].Returning? ==> s.control.active > 0)
    ensures var after := Inside(s, who, flag);
      && who in after.tasks && Locked(after.tasks[who])
      && (LeftLock(after.tasks[who]).Some? || ToDo(after.tasks[who]) < ToDo(s.tasks[who]))
      && !after.tasks[who].Returning?
      && (LeftLock(s.tasks[who]).Some? ==> after == s)
  {
    hide Flying, Connections;
  }

  lemma GivesBack(s: State, who: Who, flag: bool)
    requires Inv(s) && s.lock == Some(who)
    ensures var d := Decide(who, flag); Apply(Apply(Apply(Apply(s, d), d), d), Unlock(who)).lock.None?
  {
    hide Inv, Flying, Connections, Inside, Locked, LeftLock;
    Holder(s);
    if s.tasks[who].Returning? {
      ReturningCounts(s, who);
    }
    InsideEnds(s, who, flag);
    var s1 := Inside(s, who, flag);
    InsideEnds(s1, who, flag);
    var s2 := Inside(s1, who, flag);
    InsideEnds(s2, who, flag);
  }

  // ---- what one request comes to ----

  /** `s` with `who` at `pc` and the lock in these hands. */
  function Placed(s: State, who: Who, pc: Pc, lock: Option<Who>): State { Move(s, who, pc).(lock := lock) }

  lemma PlacedTwice(s: State, who: Who, a: Pc, b: Pc, one: Option<Who>, two: Option<Who>)
    ensures Placed(Placed(s, who, a, one), who, b, two) == Placed(s, who, b, two)
  {
    MapTwice(s.tasks, who, a, b);
  }

  lemma MapTwice(tasks: map<Who, Pc>, who: Who, a: Pc, b: Pc)
    ensures tasks[who := a][who := b] == tasks[who := b]
  {
  }

  lemma AsPlaced(s: State, who: Who)
    requires who in s.tasks
    ensures Placed(s, who, s.tasks[who], s.lock) == s
  {
    assert s.tasks[who := s.tasks[who]] == s.tasks;
  }

  lemma TakesLock(s: State, who: Who, pc: Pc)
    requires Entered(pc).Some?
    ensures Apply(Placed(s, who, pc, None), Lock(who)) == Placed(s, who, Entered(pc).value, Some(who))
  {
    PlacedTwice(s, who, pc, Entered(pc).value, None, Some(who));
  }

  lemma GivesLock(s: State, who: Who, pc: Pc)
    requires LeftLock(pc).Some?
    ensures Apply(Placed(s, who, pc, Some(who)), Unlock(who)) == Placed(s, who, LeftLock(pc).value, None)
  {
    PlacedTwice(s, who, pc, LeftLock(pc).value, Some(who), None);
  }

  lemma GoesOn(s: State, who: Who, pc: Pc, step: Step)
    requires step.Frame? || step.Ask? || step.Finish? || step.Cut?
    requires step.who == who && Moved(pc, step, s.control.shuttingDown).Some?
    ensures Apply(Placed(s, who, pc, None), step) == Placed(s, who, Moved(pc, step, s.control.shuttingDown).value, None)
  {
    PlacedTwice(s, who, pc, Moved(pc, step, s.control.shuttingDown).value, None, None);
  }

  /** What the gate does to a state, and what leaving it does. */
  function Let(s: State, who: Who): State {
    s.(control := s.control.(active := s.control.active + 1), log := s.log + [Admitted(who)])
  }

  lemma GateDecides(s: State, who: Who, flag: bool)
    ensures Apply(Placed(s, who, AtGate, Some(who)), Decide(who, flag))
         == if s.control.shuttingDown then Placed(s, who, Gated(false), Some(who)) else Placed(Let(s, who), who, Gated(true), Some(who))
  {
    PlacedTwice(s, who, AtGate, Gated(true), Some(who), Some(who));
    PlacedTwice(s, who, AtGate, Gated(false), Some(who), Some(who));
    hide Flying, Connections;
  }

  lemma GuardDrops(s: State, who: Who, closing: bool, flag: bool)
    ensures Apply(Placed(Let(s, who), who, Returning(closing), Some(who)), Decide(who, flag))
         == Placed(Logged(s, who), who, Returned(closing), Some(who))
  {
    PlacedTwice(Let(s, who), who, Returning(closing), Returned(closing), Some(who), Some(who));
    hide Flying, Connections;
  }

  function Logged(s: State, who: Who): State { s.(log := s.log + [Admitted(who)]) }

  lemma GoesIn(s: State, who: Who, flag: bool)
    requires who in s.tasks && s.tasks[who] == Reading && s.lock.None?
    ensures Apply(Apply(Apply(Apply(s, Frame(who)), Lock(who)), Decide(who, flag)), Unlock(who))
         == if s.control.shuttingDown then s else Placed(Let(s, who), who, Handling, None)
  {
    AsPlaced(s, who);
    GoesOn(s, who, Reading, Frame(who));
    TakesLock(s, who, Wants);
    GateDecides(s, who, flag);
    GivesLock(s, who, Gated(false));
    GivesLock(Let(s, who), who, Gated(true));
    hide Apply, Let, Placed;
  }

  lemma GoesOut(s: State, who: Who, flag: bool, cut: bool)
    requires s.lock.None?
    ensures Apply(Apply(Apply(Apply(Placed(Let(s, who), who, Handling, None),
              if cut then Cut(who) else Finish(who)), Lock(who)), Decide(who, flag)), Unlock(who))
         == Placed(Logged(s, who), who, if cut then Closing else Reading, None)
  {
    GoesOn(Let(s, who), who, Handling, if cut then Cut(who) else Finish(who));
    TakesLock(Let(s, who), who, Leaving(cut));
    GuardDrops(s, who, cut, flag);
    GivesLock(Logged(s, who), who, Returned(cut));
    hide Apply, Let, Placed, Logged;
  }

  /** A connection that sends a state request while the lock is free: shutting
      down, the request changes nothing at all; otherwise it is let in and counted,
      and once handled or cut off it is counted out and leaves nothing behind but a
      line in the log, and the connection reading on, or closing if it was cut. */
  lemma OneRequest(s: State, who: Who, flag: bool, cut: bool)
    requires who in s.tasks && s.tasks[who] == Reading && s.lock.None?
    ensures var d := Decide(who, flag);
      var gated := Apply(Apply(Apply(Apply(s, Frame(who)), Lock(who)), d), Unlock(who));
      if s.control.shuttingDown then gated == s
      else
        && who in gated.tasks && gated.tasks[who] == Handling && gated.control == s.control.(active := s.control.active + 1)
        && Apply(Apply(Apply(Apply(gated, if cut then Cut(who) else Finish(who)), Lock(who)), d), Unlock(who))
           == s.(tasks := s.tasks[who := if cut then Closing else Reading], log := s.log + [Admitted(who)])
  {
    GoesIn(s, who, flag);
    GoesOut(s, who, flag, cut);
    hide Apply;
  }

  /** A connection that asks for the end while the lock is free is on its way out,
      with the flag up, exactly when it forces it or nothing is in flight and the
      table says that nothing is worth keeping; otherwise nothing at all changes. */
  lemma OneShutdownRequest(s: State, who: Who, force: bool, flag: bool)
    requires who in s.tasks && s.tasks[who] == Reading && s.lock.None?
    ensures var after := Apply(Apply(Apply(Apply(s, Ask(who, force)), Lock(who)), Decide(who, flag)), Unlock(who));
      if force || (s.control.active == 0 && flag) then
        after == s.(tasks := s.tasks[who := Exiting], control := s.control.(shuttingDown := true),
                    log := s.log + [Accepted(force, |Flying(s.tasks)|)])
      else after == s
  {
    AsksForTheEnd(s, who, force, flag);
    hide Apply, Flying;
  }

  lemma AsksForTheEnd(s: State, who: Who, force: bool, flag: bool)
    requires who in s.tasks && s.tasks[who] == Reading && s.lock.None?
    ensures Apply(Apply(Apply(Apply(s, Ask(who, force)), Lock(who)), Decide(who, flag)), Unlock(who))
         == if force || (s.control.active == 0 && flag) then Placed(Ended(s, who, force), who, Exiting, None) else s
  {
    AsPlaced(s, who);
    GoesOn(s, who, Reading, Ask(who, force));
    TakesLock(s, who, Asks(force));
    AskDecides(s, who, force, flag);
    GivesLock(s, who, Decided(false));
    GivesLock(Ended(s, who, force), who, Decided(true));
    assert Moved(Reading, Ask(who, force), s.control.shuttingDown) == Some(Asks(force));
    assert Entered(Asks(force)) == Some(Deciding(force));
    assert LeftLock(Decided(true)) == Some(Exiting) && LeftLock(Decided(false)) == Some(Reading);
    hide *;
  }

  function Ended(s: State, who: Who, force: bool): State {
    s.(control := s.control.(shuttingDown := true), log := s.log + [Accepted(force, |Flying(s.tasks)|)])
  }

  lemma AskDecides(s: State, who: Who, force: bool, flag: bool)
    requires who in s.tasks && s.tasks[who] == Reading
    ensures Apply(Placed(s, who, Deciding(force), Some(who)), Decide(who, flag))
         == if force || (s.control.active == 0 && flag) then Placed(Ended(s, who, force), who, Decided(true), Some(who))
            else Placed(s, who, Decided(false), Some(who))
  {
    PlacedTwice(s, who, Deciding(force), Decided(true), Some(who), Some(who));
    PlacedTwice(s, who, Deciding(force), Decided(false), Some(who), Some(who));
    FlyingMoves(s.tasks, who, Deciding(force));
    hide Flying, Connections;
  }

  // ---- an accepted end comes ----

  /** In every reachable state, once an end has been accepted and its task is still
      on the way out, the action has run, or at most four steps of one task that is
      on the way out run it. */
  lemma {:induction false} AcceptedEndsCome(steps: seq<Step>, who: Who) returns (last: Who, more: seq<Step>)
    requires var s := Run(START, steps); who in s.tasks && Bound(s.tasks[who])
    ensures |more| <= 4 && forall k :: 0 <= k < |more| ==> OnTheWayOut(last, more[k])
    ensures Forward(Run(START, steps), more).control.exits == 1
  {
    RunKeepsInv(steps);
    RunKeepsSwapped(steps);
    last, more := EndsIn(Run(START, steps), who);
  }

  function Forward(s: State, steps: seq<Step>): State
    decreases |steps|
  {
    if steps == [] then s else Forward(Apply(s, steps[0]), steps[1..])
  }

  /** Whoever has swapped has set the flag it swapped. */
  predicate SwappedOk(s: State) { forall w :: w in s.tasks && s.tasks[w].Swapped? ==> s.control.fired }

  lemma StepKeepsSwapped(s: State, step: Step)
    requires SwappedOk(s)
    ensures SwappedOk(Apply(s, step))
  {
    hide Flying, Connections;
  }

  lemma {:induction false} RunKeepsSwapped(steps: seq<Step>)
    ensures SwappedOk(Run(START, steps))
    decreases |steps|
  {
    if steps != [] {
      RunKeepsSwapped(steps[..|steps| - 1]);
      StepKeepsSwapped(Run(START, steps[..|steps| - 1]), steps[|steps| - 1]);
    }
  }

  lemma SomeWinner(s: State) returns (last: Who)
    requires Inv(s) && s.control.fired && s.control.exits != 1
    ensures last in s.tasks && s.tasks[last] == Swapped(true) && s.control.exits == 0
  {
    assert |Winners(s.tasks)| + s.control.exits == 1;
    assert Winners(s.tasks) != {};
    last :| last in Winners(s.tasks);
  }

  lemma ForwardOne(s: State, step: Step, rest: seq<Step>)
    ensures Forward(s, [step] + rest) == Forward(Apply(s, step), rest)
    ensures Forward(s, []) == s
  {
    assert ([step] + rest)[1..] == rest;
  }

  lemma WinnerActs(s: State, last: Who)
    requires last in s.tasks && s.tasks[last] == Swapped(true) && s.control.exits == 0
    ensures Forward(s, [RunAction(last)]).control.exits == 1
  {
    ForwardOne(s, RunAction(last), []);
    assert [RunAction(last)] + [] == [RunAction(last)];
    ForwardOne(Apply(s, RunAction(last)), RunAction(last), []);
    hide Forward, Flying, Connections;
  }

  lemma Swaps(s: State, who: Who)
    requires who in s.tasks && s.tasks[who].Stored? && !s.control.fired && s.control.exits == 0
    ensures var after := Apply(s, SwapFired(who));
      who in after.tasks && after.tasks[who] == Swapped(true) && after.control.exits == 0
  {
  }

  lemma Stores(s: State, who: Who)
    requires who in s.tasks && (s.tasks[who].Exiting? || s.tasks[who].Stored?)
    ensures var after := Apply(s, StoreFlag(who));
      who in after.tasks && after.tasks[who] == Stored && after.control.fired == s.control.fired && after.control.exits == s.control.exits
  {
  }

  lemma FirstWins(s: State, who: Who)
    requires who in s.tasks && (s.tasks[who].Exiting? || s.tasks[who].Stored?) && !s.control.fired && s.control.exits == 0
    ensures Forward(s, [StoreFlag(who)] + ([SwapFired(who)] + [RunAction(who)])).control.exits == 1
  {
    Stores(s, who);
    var s1 := Apply(s, StoreFlag(who));
    Swaps(s1, who);
    var s2 := Apply(s1, SwapFired(who));
    WinnerActs(s2, who);
    ForwardOne(s, StoreFlag(who), [SwapFired(who)] + [RunAction(who)]);
    ForwardOne(s1, SwapFired(who), [RunAction(who)]);
    hide Apply, Forward;
  }

  lemma LetsGo(s: State, who: Who)
    requires who in s.tasks && Bound(s.tasks[who]) && Locked(s.tasks[who])
    ensures var after := Apply(s, Unlock(who)); who in after.tasks && after.tasks[who].Exiting? && after.control == s.control
  {
  }

  lemma NobodyWonYet(s: State, who: Who)
    requires Inv(s) && SwappedOk(s) && !s.control.fired && who in s.tasks && Bound(s.tasks[who])
    ensures s.control.exits == 0
    ensures Locked(s.tasks[who]) || s.tasks[who].Exiting? || s.tasks[who].Stored?
  {
    hide Flying, Connections;
  }

  lemma EndsIn(s: State, who: Who) returns (last: Who, more: seq<Step>)
    requires Inv(s) && SwappedOk(s) && who in s.tasks && Bound(s.tasks[who])
    ensures |more| <= 4 && forall k :: 0 <= k < |more| ==> OnTheWayOut(last, more[k])
    ensures Forward(s, more).control.exits == 1
  {
    last := who;
    if s.control.exits == 1 {
      more := [];
    } else if s.control.fired {
      last := SomeWinner(s);
      WinnerActs(s, last);
      more := [RunAction(last)];
    } else {
      NobodyWonYet(s, who);
      more := [StoreFlag(who)] + ([SwapFired(who)] + [RunAction(who)]);
      if Locked(s.tasks[who]) {
        LetsGo(s, who);
        FirstWins(Apply(s, Unlock(who)), who);
        ForwardOne(s, Unlock(who), more);
        more := [Unlock(who)] + more;
      } else {
        FirstWins(s, who);
      }
    }
    hide Inv, Apply, Bound;
  }

  predicate OnTheWayOut(last: Who, step: Step) {
    step == Unlock(last) || step == StoreFlag(last) || step == SwapFired(last) || step == RunAction(last)
  }
}
