/** Which replica runs the scheduled work (api/odm/leader.py). Each replica runs
    its loop one await at a time; the database grants one advisory lock to one
    connection and takes it back when that connection goes. */
module Leadership {
  import opened Text

  type Conn = nat

  // How long a replica sleeps before asking again, how long a leader sleeps
  // between probes, how long a probe may take to fail, and how long the
  // answer to one may take to arrive.
  datatype Timing = Timing(retry: nat, check: nat, probe: nat, answer: nat)

  // Where a replica stands in its loop.
  datatype Pc =
    | Top
    | Asking
    | Refused
    | Idle(wake: int)
    | Elected
    | Leading(wake: int)
    | Probing(since: int)
    | Failing(wake: int)
    | Cancelling
    | Joining
    | Unlocking
    | Releasing
    | Stopped

  // A cancelled task may still be running until it has been awaited.
  datatype Tasks = NoTasks | Running | Cancelled

  // `started` is when the tasks it has were started.
  datatype Replica = Replica(pc: Pc, conn: Option<Conn>, tasks: Tasks, started: int, stopping: bool)

  datatype State = State(
    now: int,
    lock: Option<Conn>,
    lost: map<Conn, int>,      // connections gone, and since when
    unused: Conn,
    replicas: map<nat, Replica>)

  datatype Step =
    | Tick(seconds: nat)
    | Join(id: nat)                      // a replica starts
    | Acquire(id: nat)
    | AcquireFails(id: nat)
    | TryLock(id: nat)
    | AskFails(id: nat, granted: bool)   // the grant may have been made all the same
    | GiveUp(id: nat)
    | Wake(id: nat)
    | Start(id: nat)
    | Probe(id: nat)
    | ProbeOk(id: nat)
    | ProbeFails(id: nat)
    | RetryOver(id: nat)
    | Cancel(id: nat)
    | Await(id: nat)
    | Unlock(id: nat, fails: bool)
    | Release(id: nat)
    | Stop(id: nat, unlocked: bool)      // the replica is told to end; an unlock under way may still be done
    | Crash(id: nat)                     // the replica's process is killed
    | Lose(conn: Conn)                   // a connection goes while its replica lives

  const START := State(0, None, map[], 0, map[])

  function With(s: State, id: nat, r: Replica): State {
    s.(replicas := s.replicas[id := r])
  }

  predicate Alive(s: State, r: Replica) {
    r.conn.Some? && r.conn.value !in s.lost
  }

  // Whether the replica stands at an await, where it can be told to end. Told
  // while it awaits the tasks it cancelled, it takes that for their end; told
  // while it unlocks or gives its connection back, it leaves off at once.
  predicate Awaits(r: Replica) {
    && !r.pc.Cancelling? && !r.pc.Stopped?
    && (r.pc.Joining? ==> !r.tasks.NoTasks?)
    && (r.pc.Unlocking? || r.pc.Releasing? ==> r.conn.Some?)
  }

  // Time does not pass over a moment at which some replica is due to act.
  ghost predicate MayPass(t: Timing, s: State, seconds: nat) {
    forall id :: id in s.replicas ==>
      match s.replicas[id].pc
      case Leading(wake) => s.now + seconds <= wake
      case Probing(since) => s.now + seconds <= since + t.probe
      case Failing(wake) => s.now + seconds <= wake
      case Cancelling => seconds == 0
      case _ => true
  }

  ghost function Act(t: Timing, s: State, step: Step, id: nat, r: Replica): State {
    match step
    case Acquire(_) =>
      if r.pc.Top? then With(s, id, r.(pc := Asking, conn := Some(s.unused))).(unused := s.unused + 1) else s
    case AcquireFails(_) =>
      if r.pc.Top? then With(s, id, r.(pc := Failing(s.now + t.retry))) else s
    case TryLock(_) =>
      if !r.pc.Asking? || !Alive(s, r) then s
      else if s.lock.None? then With(s, id, r.(pc := Elected)).(lock := r.conn)
      else With(s, id, r.(pc := Refused))
    case AskFails(_, granted) =>
      if !r.pc.Asking? then s
      else With(s, id, r.(pc := Failing(s.now + t.retry)))
        .(lock := if granted && s.lock.None? && Alive(s, r) then r.conn else s.lock)
    case GiveUp(_) =>
      if r.pc.Refused? then With(s, id, r.(pc := Idle(s.now + t.retry), conn := None)) else s
    case Wake(_) =>
      if r.pc.Idle? && s.now >= r.pc.wake then With(s, id, r.(pc := Top)) else s
    case Start(_) =>
      if r.pc.Elected? then With(s, id, r.(pc := Leading(s.now + t.check), tasks := Running, started := s.now)) else s
    case Probe(_) =>
      if r.pc.Leading? && s.now >= r.pc.wake then With(s, id, r.(pc := Probing(s.now))) else s
    case ProbeOk(_) =>
      // The answer may have been given before the connection went and arrive after.
      if r.pc.Probing? && r.conn.Some? && s.now <= r.pc.since + t.answer
         && (r.conn.value in s.lost ==> r.pc.since <= s.lost[r.conn.value])
      then With(s, id, r.(pc := Leading(s.now + t.check))) else s
    case ProbeFails(_) =>
      if r.pc.Probing? then With(s, id, r.(pc := Failing(s.now + t.retry))) else s
    case RetryOver(_) =>
      // The exception handler sleeps first; only then are the tasks cancelled.
      if r.pc.Failing? && s.now >= r.pc.wake then With(s, id, r.(pc := Cancelling)) else s
    case Cancel(_) =>
      if r.pc.Cancelling?
      then With(s, id, r.(pc := Joining, tasks := if r.tasks.Running? then Cancelled else r.tasks)) else s
    case Await(_) =>
      if r.pc.Joining? then With(s, id, r.(pc := Unlocking, tasks := NoTasks)) else s
    case Unlock(_, fails) =>
      if !r.pc.Unlocking? then s
      else With(s, id, r.(pc := Releasing))
        .(lock := if !fails && r.conn.Some? && s.lock == r.conn then None else s.lock)
    case Release(_) =>
      if r.pc.Releasing? then With(s, id, r.(pc := if r.stopping then Stopped else Top, conn := None)) else s
    case Stop(_, unlocked) =>
      if !Awaits(r) || r.pc.Joining? then s
      else if r.pc.Unlocking? || r.pc.Releasing? then
        With(s, id, r.(pc := Stopped, stopping := true))
          .(lock := if unlocked && r.pc.Unlocking? && s.lock == r.conn then None else s.lock)
      else With(s, id, r.(pc := Cancelling, stopping := true))
    case Crash(_) =>
      With(s, id, Replica(Stopped, None, NoTasks, 0, true))
        .(lock := if r.conn.Some? && s.lock == r.conn then None else s.lock)
    case _ => s
  }

  // A step that is not possible where it is taken changes nothing.
  ghost function Do(t: Timing, s: State, step: Step): State {
    match step
    case Tick(seconds) => if MayPass(t, s, seconds) then s.(now := s.now + seconds) else s
    case Join(id) => if id in s.replicas then s else With(s, id, Replica(Top, None, NoTasks, 0, false))
    case Lose(conn) =>
      if conn in s.lost || conn >= s.unused then s
      else s.(lost := s.lost[conn := s.now], lock := if s.lock == Some(conn) then None else s.lock)
    case _ => if step.id in s.replicas then Act(t, s, step, step.id, s.replicas[step.id]) else s
  }

  ghost function Run(t: Timing, s: State, steps: seq<Step>): State {
    if |steps| == 0 then s else Do(t, Run(t, s, steps[..|steps| - 1]), steps[|steps| - 1])
  }

  // ---------------------------------------------------------- invariant ----

  // Running tasks go with the lock for as long as the connection is there,
  // and are over before the replica unlocks.
  ghost predicate Holds(s: State, r: Replica) {
    && (r.conn.Some? ==> r.conn.value < s.unused)
    && (r.pc.Elected? || !r.tasks.NoTasks? ==> r.conn.Some? && (Alive(s, r) ==> s.lock == r.conn))
    && (r.tasks.Running? ==> r.pc.Leading? || r.pc.Probing? || r.pc.Failing? || r.pc.Cancelling?)
    && (r.tasks.Cancelled? ==> r.pc.Joining?)
    && (r.tasks.Running? ==> r.started <= s.now)
  }

  // Since when a replica runs tasks on a connection that has gone: since it
  // went, or since they were started if it had gone even before that.
  function GoneSince(s: State, r: Replica): int
    requires r.conn.Some? && r.conn.value in s.lost
  {
    if s.lost[r.conn.value] < r.started then r.started else s.lost[r.conn.value]
  }

  // Where the replica stands in time between two of its moves.
  ghost predicate Punctual(t: Timing, s: State, r: Replica) {
    match r.pc
    case Leading(wake) => s.now <= wake <= s.now + t.check
    case Probing(since) => since <= s.now <= since + t.probe
    case Failing(wake) => s.now <= wake <= s.now + t.retry
    case _ => true
  }

  // How far the replica is from cancelling tasks whose connection has gone.
  ghost predicate Bounded(t: Timing, s: State, r: Replica) {
    r.tasks.Running? && r.conn.Some? && r.conn.value in s.lost ==>
      var at := GoneSince(s, r);
      match r.pc
      case Leading(wake) => wake <= at + t.answer + t.check
      case Probing(since) => since <= at + t.answer + t.check
      case Failing(wake) => wake <= at + t.answer + t.check + t.probe + t.retry
      case _ => s.now <= at + t.answer + t.check + t.probe + t.retry
  }

  ghost predicate InTime(t: Timing, s: State, r: Replica) {
    Punctual(t, s, r) && Bounded(t, s, r)
  }

  // No connection is two replicas', and no new one is taken for an old one.
  ghost predicate OwnConnections(s: State) {
    && (forall i :: i in s.replicas && s.replicas[i].conn.Some? ==> s.replicas[i].conn.value < s.unused)
    && (forall i, j :: i in s.replicas && j in s.replicas && i != j && s.replicas[i].conn.Some?
          ==> s.replicas[i].conn != s.replicas[j].conn)
  }

  ghost predicate LockIsLive(s: State) {
    && (forall c :: c in s.lost ==> c < s.unused && s.lost[c] <= s.now)
    && (s.lock.Some? ==> s.lock.value < s.unused && s.lock.value !in s.lost)
  }

  ghost predicate Inv(t: Timing, s: State) {
    && (forall i :: i in s.replicas ==> Holds(s, s.replicas[i]) && InTime(t, s, s.replicas[i]))
    && OwnConnections(s) && LockIsLive(s)
  }

  lemma ActLeavesOthers(t: Timing, s: State, step: Step, id: nat, r: Replica, other: nat)
    requires other in s.replicas && other != id
    ensures var u := Act(t, s, step, id, r); other in u.replicas && u.replicas[other] == s.replicas[other]
  {
  }

  lemma ActLeavesLock(t: Timing, s: State, step: Step, id: nat, r: Replica, conn: Conn)
    requires s.lock == Some(conn) && r.conn != Some(conn)
    ensures Act(t, s, step, id, r).lock == s.lock
  {
  }

  lemma ActLeavesWorld(t: Timing, s: State, step: Step, id: nat, r: Replica)
    ensures var u := Act(t, s, step, id, r); u.now == s.now && u.lost == s.lost && u.unused >= s.unused
  {
  }

  // What a replica's step leaves alone: time, the losses, the others, and a
  // lock that one of the others has.
  lemma ActFrame(t: Timing, s: State, step: Step, id: nat, other: nat)
    requires Inv(t, s) && id in s.replicas && other in s.replicas && other != id
    ensures var u := Act(t, s, step, id, s.replicas[id]);
      && u.now == s.now && u.lost == s.lost && u.unused >= s.unused
      && other in u.replicas && u.replicas[other] == s.replicas[other]
      && (s.lock.Some? && s.lock == s.replicas[other].conn ==> u.lock == s.lock)
  {
    ActLeavesWorld(t, s, step, id, s.replicas[id]);
    ActLeavesOthers(t, s, step, id, s.replicas[id], other);
    if s.lock.Some? && s.lock == s.replicas[other].conn {
      ActLeavesLock(t, s, step, id, s.replicas[id], s.lock.value);
    }
  }

  lemma Undisturbed(t: Timing, s: State, u: State, r: Replica)
    requires Holds(s, r) && InTime(t, s, r)
    requires u.now == s.now && u.lost == s.lost && u.unused >= s.unused
    requires s.lock.Some? && s.lock == r.conn ==> u.lock == s.lock
    ensures Holds(u, r) && InTime(t, u, r)
  {
  }

  // A replica whose turn it is not keeps its place through another's step.
  lemma Bystander(t: Timing, s: State, step: Step, id: nat, other: nat)
    requires Inv(t, s) && id in s.replicas && other in s.replicas && other != id
    ensures var u := Act(t, s, step, id, s.replicas[id]);
      && other in u.replicas && u.replicas[other] == s.replicas[other]
      && Holds(u, s.replicas[other]) && InTime(t, u, s.replicas[other])
  {
    ActFrame(t, s, step, id, other);
    Undisturbed(t, s, Act(t, s, step, id, s.replicas[id]), s.replicas[other]);
  }

  lemma ActorHolds(t: Timing, s: State, step: Step, id: nat)
    requires Inv(t, s) && id in s.replicas
    ensures var u := Act(t, s, step, id, s.replicas[id]); id in u.replicas && Holds(u, u.replicas[id])
  {
    assert Holds(s, s.replicas[id]);
  }

  lemma ActorPunctual(t: Timing, s: State, step: Step, id: nat)
    requires id in s.replicas && Punctual(t, s, s.replicas[id])
    ensures var u := Act(t, s, step, id, s.replicas[id]); id in u.replicas && Punctual(t, u, u.replicas[id])
  {
  }

  lemma ActorBounded(t: Timing, s: State, step: Step, id: nat)
    requires id in s.replicas && Holds(s, s.replicas[id]) && InTime(t, s, s.replicas[id])
    ensures var u := Act(t, s, step, id, s.replicas[id]); id in u.replicas && Bounded(t, u, u.replicas[id])
  {
  }

  lemma ActKeepsEach(t: Timing, s: State, step: Step, id: nat)
    requires Inv(t, s) && id in s.replicas
    ensures var u := Act(t, s, step, id, s.replicas[id]);
      forall i :: i in u.replicas ==> Holds(u, u.replicas[i]) && InTime(t, u, u.replicas[i])
  {
    var u := Act(t, s, step, id, s.replicas[id]);
    forall i | i in u.replicas ensures Holds(u, u.replicas[i]) && InTime(t, u, u.replicas[i]) {
      if i == id {
        ActorHolds(t, s, step, id);
        ActorPunctual(t, s, step, id);
        ActorBounded(t, s, step, id);
      } else {
        Bystander(t, s, step, id, i);
      }
    }
  }

  // A connection kept, given back or newly taken.
  lemma ConnectionsKept(s: State, u: State, id: nat, r: Replica)
    requires OwnConnections(s) && id in s.replicas && u.replicas == s.replicas[id := r]
    requires r.conn.None? || (r.conn == s.replicas[id].conn && u.unused == s.unused)
          || (r.conn == Some(s.unused) && u.unused == s.unused + 1)
    requires u.unused >= s.unused
    ensures OwnConnections(u)
  {
    forall i, j | i in u.replicas && j in u.replicas && i != j && u.replicas[i].conn.Some?
      ensures u.replicas[i].conn != u.replicas[j].conn
    {
      assert i != id ==> u.replicas[i] == s.replicas[i];
      assert j != id ==> u.replicas[j] == s.replicas[j];
    }
  }

  lemma ActKeepsConnections(t: Timing, s: State, step: Step, id: nat)
    requires OwnConnections(s) && id in s.replicas
    ensures OwnConnections(Act(t, s, step, id, s.replicas[id]))
  {
    var u := Act(t, s, step, id, s.replicas[id]);
    if u != s {
      ConnectionsKept(s, u, id, u.replicas[id]);
    }
  }

  lemma ActKeepsLock(t: Timing, s: State, step: Step, id: nat)
    requires Inv(t, s) && id in s.replicas
    ensures LockIsLive(Act(t, s, step, id, s.replicas[id]))
  {
    assert Holds(s, s.replicas[id]);
  }

  lemma ActKeeps(t: Timing, s: State, step: Step, id: nat)
    requires Inv(t, s) && id in s.replicas
    ensures Inv(t, Act(t, s, step, id, s.replicas[id]))
  {
    ActKeepsEach(t, s, step, id);
    ActKeepsConnections(t, s, step, id);
    ActKeepsLock(t, s, step, id);
  }

  lemma TickKeeps(t: Timing, s: State, seconds: nat)
    requires Inv(t, s) && MayPass(t, s, seconds)
    ensures Inv(t, Do(t, s, Tick(seconds)))
  {
    var u := Do(t, s, Tick(seconds));
    forall i | i in u.replicas ensures Holds(u, u.replicas[i]) && InTime(t, u, u.replicas[i]) {
      assert Holds(s, s.replicas[i]) && InTime(t, s, s.replicas[i]);
    }
  }

  lemma LoseKeeps(t: Timing, s: State, conn: Conn)
    requires Inv(t, s)
    ensures Inv(t, Do(t, s, Lose(conn)))
  {
    var u := Do(t, s, Lose(conn));
    forall i | i in u.replicas ensures Holds(u, u.replicas[i]) && InTime(t, u, u.replicas[i]) {
      assert Holds(s, s.replicas[i]) && InTime(t, s, s.replicas[i]);
    }
  }

  lemma ConnectionsOfMore(s: State, u: State, id: nat)
    requires OwnConnections(s) && id !in s.replicas && u.unused == s.unused
    requires u.replicas == s.replicas[id := Replica(Top, None, NoTasks, 0, false)]
    ensures OwnConnections(u)
  {
  }

  lemma JoinKeeps(t: Timing, s: State, id: nat)
    requires Inv(t, s)
    ensures Inv(t, Do(t, s, Join(id)))
  {
    var u := Do(t, s, Join(id));
    forall i | i in u.replicas ensures Holds(u, u.replicas[i]) && InTime(t, u, u.replicas[i]) {
      if i in s.replicas {
        Undisturbed(t, s, u, s.replicas[i]);
      }
    }
    if id !in s.replicas {
      ConnectionsOfMore(s, u, id);
    }
  }

  lemma {:induction false} AlwaysInv(t: Timing, steps: seq<Step>)
    ensures Inv(t, Run(t, START, steps))
  {
    if |steps| > 0 {
      AlwaysInv(t, steps[..|steps| - 1]);
      var s, step := Run(t, START, steps[..|steps| - 1]), steps[|steps| - 1];
      match step
      case Tick(seconds) => if MayPass(t, s, seconds) { TickKeeps(t, s, seconds); }
      case Lose(conn) => LoseKeeps(t, s, conn);
      case Join(id) => JoinKeeps(t, s, id);
      case _ => if step.id in s.replicas { ActKeeps(t, s, step, step.id); }
    }
  }

  // ----------------------------------------------------------- theorems ----

  ghost predicate Works(s: State, id: nat) {
    id in s.replicas && !s.replicas[id].tasks.NoTasks?
  }

  /** Of the replicas that have scheduled tasks and still have the connection
      they were elected on, there is at most one, and it holds the lock. */
  lemma ConnectedLeaderHoldsLock(t: Timing, steps: seq<Step>, id: nat, other: nat)
    requires var s := Run(t, START, steps); Works(s, id) && Alive(s, s.replicas[id])
    ensures var s := Run(t, START, steps);
      && s.lock == s.replicas[id].conn
      && (Works(s, other) && Alive(s, s.replicas[other]) ==> other == id)
  {
    AlwaysInv(t, steps);
    var s := Run(t, START, steps);
    assert Holds(s, s.replicas[id]);
    if Works(s, other) {
      assert Holds(s, s.replicas[other]);
    }
  }

  ghost predicate Lossless(steps: seq<Step>) {
    forall k :: 0 <= k < |steps| ==> !steps[k].Lose?
  }

  lemma {:induction false} NothingLost(t: Timing, steps: seq<Step>)
    requires Lossless(steps)
    ensures Run(t, START, steps).lost == map[]
  {
    if |steps| > 0 {
      NothingLost(t, steps[..|steps| - 1]);
    }
  }

  /** While no connection is lost, a replica with scheduled tasks holds the
      lock, so at most one replica ever runs them. */
  lemma OneLeader(t: Timing, steps: seq<Step>, id: nat, other: nat)
    requires Lossless(steps)
    requires Works(Run(t, START, steps), id)
    ensures var s := Run(t, START, steps);
      && s.replicas[id].conn.Some? && s.lock == s.replicas[id].conn
      && (Works(s, other) ==> other == id)
  {
    NothingLost(t, steps);
    AlwaysInv(t, steps);
    var s := Run(t, START, steps);
    assert Holds(s, s.replicas[id]);
    if Works(s, other) {
      assert Holds(s, s.replicas[other]);
    }
    ConnectedLeaderHoldsLock(t, steps, id, other);
  }

  ghost predicate OneAtMost(s: State) {
    forall i, j :: Works(s, i) && Works(s, j) ==> i == j
  }

  ghost predicate AlwaysOneAtMost(t: Timing, lossy: bool) {
    forall steps: seq<Step> :: lossy || Lossless(steps) ==> OneAtMost(Run(t, START, steps))
  }

  /** Two replicas never run scheduled tasks at once exactly when no connection
      is lost under a living replica. */
  lemma OneLeaderExactly(t: Timing, lossy: bool)
    ensures AlwaysOneAtMost(t, lossy) <==> !lossy
  {
    if lossy {
      var steps := TwoLeadersAfterLoss(t);
      assert !OneAtMost(Run(t, START, steps));
    } else {
      forall steps: seq<Step> | Lossless(steps) ensures OneAtMost(Run(t, START, steps)) {
        forall i, j | Works(Run(t, START, steps), i) && Works(Run(t, START, steps), j) ensures i == j {
          OneLeader(t, steps, i, j);
        }
      }
    }
  }

  predicate IsOwn(step: Step, id: nat) {
    !step.Tick? && !step.Join? && !step.Lose? && step.id == id
  }

  // Nobody else takes the lock from the one that has it.
  lemma LockIsOnesOwn(t: Timing, s: State, step: Step, id: nat)
    requires Inv(t, s) && id in s.replicas && s.replicas[id].conn.Some? && s.lock == s.replicas[id].conn
    requires !step.Lose?
    ensures Do(t, s, step).lock != s.lock ==> IsOwn(step, id)
  {
    if !step.Tick? && !step.Join? && step.id in s.replicas && step.id != id {
      ActFrame(t, s, step, step.id, id);
    }
  }

  lemma UnlocksAtTheEnd(t: Timing, s: State, step: Step, id: nat)
    requires id in s.replicas && Holds(s, s.replicas[id]) && s.lock.Some? && s.lock == s.replicas[id].conn
    requires IsOwn(step, id) && !step.Crash?
    ensures Do(t, s, step).lock != s.lock ==>
      && (step == Unlock(id, false) || (step == Stop(id, true) && s.replicas[id].pc.Unlocking?))
      && s.replicas[id].tasks.NoTasks?
  {
  }

  /** A replica gives the lock up of itself only when its tasks have ended and
      been awaited, on a stop as on a failure. */
  lemma TasksEndBeforeUnlock(t: Timing, steps: seq<Step>, step: Step, id: nat)
    requires !step.Lose? && !step.Crash?
    requires var s := Run(t, START, steps);
      id in s.replicas && s.replicas[id].conn.Some? && s.lock == s.replicas[id].conn
    requires Do(t, Run(t, START, steps), step).lock != Run(t, START, steps).lock
    ensures step == Unlock(id, false) || (step == Stop(id, true) && Run(t, START, steps).replicas[id].pc.Unlocking?)
    ensures Run(t, START, steps).replicas[id].tasks.NoTasks?
  {
    AlwaysInv(t, steps);
    LockIsOnesOwn(t, Run(t, START, steps), step, id);
    UnlocksAtTheEnd(t, Run(t, START, steps), step, id);
  }

  /** When a leader's connection goes, its tasks are cancelled within one check,
      one failing probe and one retry of that moment (or of their start, if the
      connection had gone between the grant and the start), and of the arrival
      of an answer that was under way. */
  lemma OldLeaderIsBounded(t: Timing, steps: seq<Step>, id: nat)
    requires var s := Run(t, START, steps);
      && id in s.replicas && s.replicas[id].tasks.Running?
      && s.replicas[id].conn.Some? && s.replicas[id].conn.value in s.lost
    ensures var s := Run(t, START, steps);
      s.now <= GoneSince(s, s.replicas[id]) + t.answer + t.check + t.probe + t.retry
  {
    AlwaysInv(t, steps);
    var s := Run(t, START, steps);
    assert Holds(s, s.replicas[id]) && InTime(t, s, s.replicas[id]);
  }

  const FIRST := [Join(0), Acquire(0), TryLock(0), Start(0)]
  const SECOND := [Join(1), Acquire(1), TryLock(1), Start(1)]

  lemma FirstLeads(t: Timing)
    ensures Run(t, START, FIRST)
      == State(0, Some(0), map[], 1, map[0 := Replica(Leading(t.check), Some(0), Running, 0, false)])
  {
    var s := Four(t, [], FIRST);
    assert [] + FIRST == FIRST;
  }

  // With a lost connection two replicas do run the tasks for a while: the
  // old leader has yet to notice, and the database has freed the lock.
  lemma TwoLeadersAfterLoss(t: Timing) returns (steps: seq<Step>)
    ensures Works(Run(t, START, steps), 0) && Works(Run(t, START, steps), 1)
  {
    FirstLeads(t);
    steps := FIRST + [Lose(0)];
    assert steps[..4] == FIRST;
    var s := Four(t, steps, SECOND);
    steps := steps + SECOND;
    assert s.replicas[1] == Replica(Leading(t.check), Some(1), Running, 0, false);
  }

  lemma Four(t: Timing, steps: seq<Step>, more: seq<Step>) returns (s: State)
    requires |more| == 4
    ensures s == Run(t, START, steps + more)
      == Do(t, Do(t, Do(t, Do(t, Run(t, START, steps), more[0]), more[1]), more[2]), more[3])
  {
    var a := steps + [more[0]];
    var b := a + [more[1]];
    var c := b + [more[2]];
    var d := c + [more[3]];
    assert a[..|a| - 1] == steps && b[..|b| - 1] == a && c[..|c| - 1] == b && d[..|d| - 1] == c;
    assert Run(t, START, b) == Do(t, Do(t, Run(t, START, steps), more[0]), more[1]);
    assert Run(t, START, d) == Do(t, Do(t, Run(t, START, b), more[2]), more[3]);
    assert steps + more == d;
    s := Run(t, START, d);
  }

  // -------------------------------------------------------- being stopped ----

  // The replica has been told to end, and is on its way out.
  ghost predicate Ending(s: State, id: nat) {
    id in s.replicas && s.replicas[id].stopping &&
      var pc := s.replicas[id].pc; pc.Cancelling? || pc.Joining? || pc.Unlocking? || pc.Releasing? || pc.Stopped?
  }

  lemma EndingAct(t: Timing, s: State, step: Step, id: nat)
    requires Ending(s, id)
    ensures Ending(Act(t, s, step, id, s.replicas[id]), id)
  {
  }

  lemma EndingStep(t: Timing, s: State, step: Step, id: nat)
    requires Ending(s, id)
    ensures Ending(Do(t, s, step), id)
  {
    match step
    case Tick(_) =>
    case Join(_) =>
    case Lose(_) =>
    case _ =>
      if step.id == id {
        EndingAct(t, s, step, id);
      } else if step.id in s.replicas {
        ActLeavesOthers(t, s, step, step.id, s.replicas[step.id], id);
      }
  }

  lemma {:induction false} EndingForEver(t: Timing, s: State, more: seq<Step>, id: nat)
    requires Ending(s, id)
    ensures Ending(Run(t, s, more), id)
  {
    if |more| > 0 {
      EndingForEver(t, s, more[..|more| - 1], id);
      EndingStep(t, Run(t, s, more[..|more| - 1]), more[|more| - 1], id);
    }
  }

  ghost predicate Leads(s: State, id: nat) {
    id in s.replicas && s.replicas[id].pc.Leading? && s.replicas[id].tasks.Running?
  }

  ghost predicate CanLead(t: Timing, s: State, id: nat) {
    exists more: seq<Step> :: Leads(Run(t, s, more), id)
  }

  lemma {:induction false} RunConcat(t: Timing, s: State, steps: seq<Step>, more: seq<Step>)
    ensures Run(t, s, steps + more) == Run(t, Run(t, s, steps), more)
  {
    if |more| == 0 {
      assert steps + more == steps;
    } else {
      RunConcat(t, s, steps, more[..|more| - 1]);
      assert (steps + more)[..|steps + more| - 1] == steps + more[..|more| - 1];
    }
  }

  lemma CanLeadLater(t: Timing, s: State, step: Step, id: nat)
    requires CanLead(t, Do(t, s, step), id)
    ensures CanLead(t, s, id)
  {
    var more: seq<Step> :| Leads(Run(t, Do(t, s, step), more), id);
    RunConcat(t, s, [step], more);
    assert [step][..0] == [];
    assert Leads(Run(t, s, [step] + more), id);
  }

  lemma CanLeadNow(t: Timing, s: State, id: nat)
    requires Leads(s, id)
    ensures CanLead(t, s, id)
  {
    assert Leads(Run(t, s, []), id);
  }

  // From the top of its loop a replica can always come to lead: the one that
  // holds the lock may lose its connection.
  lemma TopCanLead(t: Timing, s: State, id: nat)
    requires LockIsLive(s) && id in s.replicas && s.replicas[id].pc.Top?
    ensures CanLead(t, s, id)
  {
    var lose := Lose(if s.lock.Some? then s.lock.value else s.unused);
    var a := Do(t, s, lose);
    assert a.lock.None? && a.unused !in a.lost && a.replicas == s.replicas && a.unused == s.unused;
    var b := Do(t, a, Acquire(id));
    var c := Do(t, b, TryLock(id));
    var d := Do(t, c, Start(id));
    CanLeadNow(t, d, id);
    CanLeadLater(t, c, Start(id), id);
    CanLeadLater(t, b, TryLock(id), id);
    CanLeadLater(t, a, Acquire(id), id);
    CanLeadLater(t, s, lose, id);
  }

  lemma JoiningCanLead(t: Timing, s: State, id: nat)
    requires Inv(t, s) && id in s.replicas && s.replicas[id].pc.Joining? && !s.replicas[id].stopping
    ensures CanLead(t, s, id)
  {
    var a := Do(t, s, Await(id));
    var b := Do(t, a, Unlock(id, false));
    var c := Do(t, b, Release(id));
    assert LockIsLive(c) && c.replicas[id].pc.Top?;
    TopCanLead(t, c, id);
    CanLeadLater(t, b, Release(id), id);
    CanLeadLater(t, a, Unlock(id, false), id);
    CanLeadLater(t, s, Await(id), id);
  }

  lemma StopIsMissed(t: Timing, s: State, id: nat, unlocked: bool)
    requires id in s.replicas && s.replicas[id].pc.Joining?
    ensures Do(t, s, Stop(id, unlocked)) == s
  {
  }

  lemma StopEnds(t: Timing, s: State, id: nat, unlocked: bool)
    requires id in s.replicas && Awaits(s.replicas[id]) && (s.replicas[id].pc.Joining? ==> s.replicas[id].stopping)
    ensures !CanLead(t, Do(t, s, Stop(id, unlocked)), id)
  {
    var u := Do(t, s, Stop(id, unlocked));
    assert Ending(u, id);
    forall more: seq<Step> ensures !Leads(Run(t, u, more), id) {
      EndingForEver(t, u, more, id);
    }
  }

  /** Told to end at any await, a replica never leads again, except when it is
      told while it awaits the tasks that a failure made it cancel: then it goes
      on as if it had not been told. */
  lemma StopExactly(t: Timing, steps: seq<Step>, id: nat, unlocked: bool)
    requires var s := Run(t, START, steps); id in s.replicas && Awaits(s.replicas[id])
    ensures var s := Run(t, START, steps);
      CanLead(t, Do(t, s, Stop(id, unlocked)), id) <==> s.replicas[id].pc.Joining? && !s.replicas[id].stopping
  {
    AlwaysInv(t, steps);
    var s := Run(t, START, steps);
    if s.replicas[id].pc.Joining? && !s.replicas[id].stopping {
      StopIsMissed(t, s, id, unlocked);
      JoiningCanLead(t, s, id);
    } else {
      StopEnds(t, s, id, unlocked);
    }
  }

  // ----------------------------------------------------------- progress ----

  /** Undisturbed, a replica that asks for a free lock gets it and runs the
      tasks; one that finds it taken does not and asks again later. */
  lemma AskingIsAnswered(t: Timing, s: State, id: nat)
    requires id in s.replicas && s.replicas[id].pc.Top? && s.replicas[id].tasks.NoTasks? && s.unused !in s.lost
    ensures var u := Do(t, Do(t, s, Acquire(id)), TryLock(id));
      if s.lock.None? then
        var v := Do(t, u, Start(id));
        id in v.replicas && v.replicas[id].tasks.Running? && v.lock == v.replicas[id].conn == Some(s.unused)
      else
        var v := Do(t, u, GiveUp(id));
        && id in v.replicas && v.replicas[id] == s.replicas[id].(pc := Idle(s.now + t.retry), conn := None)
        && v.lock == s.lock
  {
  }

  /** Told to end, a leader undisturbed cancels its tasks, waits for them,
      gives the lock up and is done. */
  lemma OrderlyStop(t: Timing, s: State, id: nat)
    requires id in s.replicas && s.replicas[id].pc.Leading? && s.replicas[id].tasks.Running?
    requires s.replicas[id].conn.Some? && s.lock == s.replicas[id].conn
    ensures var a := Do(t, Do(t, s, Stop(id, false)), Cancel(id));
      var b := Do(t, a, Await(id));
      var c := Do(t, b, Unlock(id, false));
      && id in a.replicas && a.replicas[id].tasks.Cancelled? && a.lock == s.lock
      && id in b.replicas && b.replicas[id].tasks.NoTasks? && b.lock == s.lock
      && c.lock == None
      && Do(t, c, Release(id)).replicas[id] == Replica(Stopped, None, NoTasks, s.replicas[id].started, true)
  {
  }

  // ------------------------------------------------------ in plain terms ----

  // What a replica does after a failure when nothing comes in between.
  ghost function Recovered(t: Timing, s: State, id: nat): State {
    var a := Do(t, Do(t, Do(t, Do(t, s, Tick(t.retry)), RetryOver(id)), Cancel(id)), Await(id));
    Do(t, Do(t, a, Unlock(id, false)), Release(id))
  }

  lemma RecoveredExactly(t: Timing, s: State, id: nat)
    requires id in s.replicas && s.replicas[id].pc == Failing(s.now + t.retry) && MayPass(t, s, t.retry)
    ensures var r, u := s.replicas[id], Recovered(t, s, id);
      && u.now == s.now + t.retry && id in u.replicas
      && u.replicas[id] == r.(pc := if r.stopping then Stopped else Top, conn := None, tasks := NoTasks)
      && u.lock == if r.conn.Some? && s.lock == r.conn then None else s.lock
  {
    var r := s.replicas[id];
    var a := Do(t, Do(t, s, Tick(t.retry)), RetryOver(id));
    assert a.now == s.now + t.retry && a.lock == s.lock && a.replicas == s.replicas[id := r.(pc := Cancelling)];
    var b := Do(t, Do(t, a, Cancel(id)), Await(id));
    assert b.now == a.now && b.lock == s.lock && b.replicas[id] == r.(pc := Unlocking, tasks := NoTasks);
  }

  /** No failure ends the loop: whether the connection, the lock or the probe
      failed, a replica that was not told to end is back at the top of its loop
      after one retry, with no tasks, no connection and no lock. A lock that was
      granted before the question failed is held until then. */
  lemma FailureIsSurvived(t: Timing, s: State, id: nat, fail: Step)
    requires id in s.replicas && !s.replicas[id].stopping
    requires var pc := s.replicas[id].pc;
      || (fail == AcquireFails(id) && pc.Top?)
      || (fail.AskFails? && fail.id == id && pc.Asking?)
      || (fail == ProbeFails(id) && pc.Probing?)
    requires MayPass(t, Do(t, s, fail), t.retry)
    ensures var r := s.replicas[id];
      Do(t, s, fail).lock ==
        if fail.AskFails? && fail.granted && s.lock.None? && r.conn.Some? && r.conn.value !in s.lost
        then r.conn else s.lock
    ensures var r, u := s.replicas[id], Recovered(t, Do(t, s, fail), id);
      && u.now == s.now + t.retry && id in u.replicas
      && u.replicas[id] == r.(pc := Top, conn := None, tasks := NoTasks)
      && u.lock == if r.conn.Some? && s.lock == r.conn then None else s.lock
  {
    RecoveredExactly(t, Do(t, s, fail), id);
  }

  /** A replica that finds the lock taken gives its connection back, and asks
      again after one retry and no sooner. */
  lemma RefusedAsksAgain(t: Timing, s: State, id: nat, seconds: nat)
    requires id in s.replicas && s.replicas[id].pc.Refused?
    requires MayPass(t, Do(t, s, GiveUp(id)), seconds)
    ensures var a := Do(t, s, GiveUp(id));
      var u := Do(t, Do(t, a, Tick(seconds)), Wake(id));
      && id in a.replicas && a.replicas[id].conn.None?
      && id in u.replicas && u.lock == s.lock && (u.replicas[id].pc.Top? <==> seconds >= t.retry)
  {
    var a := Do(t, s, GiveUp(id));
    assert Do(t, a, Tick(seconds)).replicas == a.replicas;
  }

  /** A leader probes its connection one check after it started or was last
      answered, and no sooner, and goes on with its tasks when it is answered. */
  lemma LeaderProbes(t: Timing, s: State, id: nat, seconds: nat)
    requires id in s.replicas && Alive(s, s.replicas[id]) && MayPass(t, s, seconds)
    requires s.replicas[id].pc == Leading(s.now + t.check)
    ensures var a := Do(t, Do(t, s, Tick(seconds)), Probe(id));
      var u := Do(t, a, ProbeOk(id));
      && id in a.replicas && (a.replicas[id].pc.Probing? <==> seconds >= t.check)
      && id in u.replicas && u.lock == s.lock && u.replicas[id].tasks == s.replicas[id].tasks
      && (seconds >= t.check ==> u.replicas[id].pc == Leading(s.now + seconds + t.check))
  {
    var r := s.replicas[id];
    var a := Do(t, Do(t, s, Tick(seconds)), Probe(id));
    assert a.now == s.now + seconds && a.lost == s.lost && a.lock == s.lock;
  }

  /** The database takes the lock back when the connection that has it goes,
      whether its replica is killed or lives. */
  lemma GoneFreesTheLock(t: Timing, s: State, id: nat, conn: Conn)
    requires s.lock == Some(conn) && conn < s.unused && conn !in s.lost
    ensures Do(t, s, Lose(conn)).lock == None
    ensures id in s.replicas && s.replicas[id].conn == Some(conn) ==> Do(t, s, Crash(id)).lock == None
  {
  }

  /** Told to end while it sleeps, asks, leads or probes, a replica goes on to
      cancel its tasks; told while it awaits cancelled tasks, it does not notice;
      told while it unlocks or gives its connection back, it leaves off there,
      keeping the connection, and the lock unless the unlock was done; and
      nowhere else does it await anything. */
  lemma ToldExactly(t: Timing, s: State, id: nat, unlocked: bool)
    requires id in s.replicas
    ensures var r, u := s.replicas[id], Do(t, s, Stop(id, unlocked));
      match r.pc
      case Cancelling => u == s
      case Stopped => u == s
      case Joining => u == s
      case Unlocking =>
        u == if r.conn.None? then s
             else s.(replicas := s.replicas[id := r.(pc := Stopped, stopping := true)],
                     lock := if unlocked && s.lock == r.conn then None else s.lock)
      case Releasing =>
        u == if r.conn.None? then s
             else s.(replicas := s.replicas[id := r.(pc := Stopped, stopping := true)])
      case _ => u == s.(replicas := s.replicas[id := r.(pc := Cancelling, stopping := true)])
    ensures Awaits(s.replicas[id]) <==>
      match s.replicas[id].pc
      case Cancelling => false
      case Stopped => false
      case Joining => !s.replicas[id].tasks.NoTasks?
      case Unlocking => s.replicas[id].conn.Some?
      case Releasing => s.replicas[id].conn.Some?
      case _ => true
  {
  }

  /** For a replica alone time passes up to the moment it is due to act, and no
      further: to its next probe, to the end of a probe or of a retry. */
  lemma DueExactly(t: Timing, s: State, id: nat, seconds: nat)
    requires s.replicas.Keys == {id}
    ensures Do(t, s, Tick(seconds)) == (if MayPass(t, s, seconds) then s.(now := s.now + seconds) else s)
    ensures MayPass(t, s, seconds) <==>
      match s.replicas[id].pc
      case Leading(wake) => s.now + seconds <= wake
      case Probing(since) => s.now + seconds <= since + t.probe
      case Failing(wake) => s.now + seconds <= wake
      case Cancelling => seconds == 0
      case _ => true
  {
  }

  /** A replica killed has no tasks and no connection; one that starts is at the
      top of its loop; and each is known by its own number. */
  lemma ComesAndGoes(t: Timing, s: State, id: nat)
    ensures id !in s.replicas ==>
      Do(t, s, Join(id)) == s.(replicas := s.replicas[id := Replica(Top, None, NoTasks, 0, false)])
    ensures id in s.replicas ==>
      var u := Do(t, s, Crash(id));
      id in u.replicas && u.replicas[id].pc.Stopped? && u.replicas[id].conn.None? && u.replicas[id].tasks.NoTasks?
  {
  }
}
