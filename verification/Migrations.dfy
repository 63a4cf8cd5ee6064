/** Schema migrations applied by replicas that start together, crash and start
    again (api/odm/db.py, migrate). A replica is one call of migrate; a crash
    of its process and the loss of its connection are the same to the database. */
module Migrations {
  import opened Text

  datatype File = File(name: string, digest: nat)

  // Where one call of migrate stands. `known` is what the table held when it
  // was read.
  datatype Call =
    | Waiting
    | Locked
    | Applying(next: nat, known: seq<File>)
    | InTransaction(next: nat, known: seq<File>)
    | Unlocking(done: bool)
    | Returned
    | Raised
    | Changed                // raised: a file differs from what was applied
    | Dead

  // The table's rows in the order they were inserted, and the bodies whose
  // effect is in the schema in the order they took it.
  datatype State = State(
    lock: Option<nat>, applied: seq<File>, effects: seq<File>, calls: map<nat, Call>)

  datatype Step =
    | Begin(call: nat)
    | Grant(call: nat)
    | Fetch(call: nat)
    | Consider(call: nat)
    | Commit(call: nat)
    | BodyFails(call: nat)
    | Unlock(call: nat)
    | Crash(call: nat)

  // A database an earlier release left with the first `k` files applied.
  function Start(files: seq<File>, k: nat): State
    requires k <= |files|
  {
    State(None, files[..k], files[..k], map[])
  }

  function Known(known: seq<File>, name: string): Option<File> {
    if |known| == 0 then None
    else if known[0].name == name then Some(known[0])
    else Known(known[1..], name)
  }

  function With(s: State, id: nat, c: Call): State {
    s.(calls := s.calls[id := c])
  }

  // A step that is not possible where it is taken changes nothing.
  function Do(files: seq<File>, s: State, step: Step): State {
    var id := step.call;
    if id !in s.calls then (if step.Begin? then With(s, id, Waiting) else s)
    else
      var c := s.calls[id];
      match step
      case Begin(_) => s
      case Grant(_) => if c.Waiting? && s.lock.None? then With(s, id, Locked).(lock := Some(id)) else s
      case Fetch(_) => if c.Locked? then With(s, id, Applying(0, s.applied)) else s
      case Consider(_) =>
        if !c.Applying? then s
        else if c.next >= |files| then With(s, id, Unlocking(true))
        else
          var row := Known(c.known, files[c.next].name);
          if row.None? then With(s, id, InTransaction(c.next, c.known))
          else if row.value.digest != files[c.next].digest then With(s, id, Changed).(lock := None)
          else With(s, id, Applying(c.next + 1, c.known))
      case Commit(_) =>
        if !c.InTransaction? || c.next >= |files| then s
        else With(s, id, Applying(c.next + 1, c.known))
          .(applied := s.applied + [files[c.next]], effects := s.effects + [files[c.next]])
      case BodyFails(_) => if c.InTransaction? then With(s, id, Unlocking(false)) else s
      case Unlock(_) =>
        if c.Unlocking? then With(s, id, if c.done then Returned else Raised).(lock := None) else s
      case Crash(_) =>
        if c.Returned? || c.Raised? || c.Changed? then s
        else With(s, id, Dead).(lock := if s.lock == Some(id) then None else s.lock)
  }

  function Run(files: seq<File>, s: State, steps: seq<Step>): State {
    if |steps| == 0 then s
    else Do(files, Run(files, s, steps[..|steps| - 1]), steps[|steps| - 1])
  }

  // The migrations directory: the files in sorted order, no name twice.
  ghost predicate Distinct(files: seq<File>) {
    forall i, j :: 0 <= i < j < |files| ==> files[i].name != files[j].name
  }

  ghost predicate InLock(c: Call) {
    c.Locked? || c.Applying? || c.InTransaction? || c.Unlocking?
  }

  ghost predicate CallOk(files: seq<File>, s: State, id: nat, c: Call) {
    && (InLock(c) <==> s.lock == Some(id))
    && !c.Changed?
    && (c.Applying? ==>
          && c.known <= files && c.next <= |files|
          && |s.applied| == if |c.known| > c.next then |c.known| else c.next)
    && (c.InTransaction? ==> c.known <= files && |c.known| <= c.next < |files| && |s.applied| == c.next)
    && (c.Returned? || (c.Unlocking? && c.done) ==> s.applied == files)
  }

  ghost predicate Inv(files: seq<File>, s: State) {
    && s.applied <= files && s.effects == s.applied
    && (s.lock.Some? ==> s.lock.value in s.calls)
    && forall i :: i in s.calls ==> CallOk(files, s, i, s.calls[i])
  }

  lemma {:induction false} KnownPrefix(files: seq<File>, known: seq<File>, next: nat)
    requires Distinct(files) && known <= files && next < |files|
    ensures Known(known, files[next].name) == if next < |known| then Some(files[next]) else None
  {
    if |known| > 0 && next > 0 {
      KnownPrefix(files[1..], known[1..], next - 1);
    }
  }

  lemma ActorKeeps(files: seq<File>, s: State, step: Step)
    requires Distinct(files) && Inv(files, s)
    ensures var u := Do(files, s, step);
      step.call in u.calls ==> CallOk(files, u, step.call, u.calls[step.call])
  {
    var id := step.call;
    if id in s.calls {
      var c := s.calls[id];
      assert CallOk(files, s, id, c);
      if c.Applying? && c.next < |files| {
        KnownPrefix(files, c.known, c.next);
      }
    }
  }

  // A call that holds no lock is right whatever the one that does has applied.
  lemma BystanderKeeps(files: seq<File>, s: State, step: Step, other: nat)
    requires Inv(files, s) && other in s.calls && other != step.call
    ensures var u := Do(files, s, step);
      other in u.calls && CallOk(files, u, other, u.calls[other])
  {
    assert CallOk(files, s, other, s.calls[other]);
    if step.call in s.calls {
      assert CallOk(files, s, step.call, s.calls[step.call]);
    }
  }

  lemma TableKeeps(files: seq<File>, s: State, step: Step)
    requires Inv(files, s)
    ensures var u := Do(files, s, step);
      u.applied <= files && u.effects == u.applied && s.applied <= u.applied
    ensures var u := Do(files, s, step); u.lock.Some? ==> u.lock.value in u.calls
  {
    if step.call in s.calls {
      assert CallOk(files, s, step.call, s.calls[step.call]);
    }
  }

  lemma StepKeeps(files: seq<File>, s: State, step: Step)
    requires Distinct(files) && Inv(files, s)
    ensures Inv(files, Do(files, s, step))
    ensures s.applied <= Do(files, s, step).applied
  {
    var u := Do(files, s, step);
    TableKeeps(files, s, step);
    forall i | i in u.calls ensures CallOk(files, u, i, u.calls[i]) {
      if i == step.call {
        ActorKeeps(files, s, step);
      } else {
        BystanderKeeps(files, s, step, i);
      }
    }
  }

  lemma {:induction false} AlwaysInv(files: seq<File>, k: nat, steps: seq<Step>)
    requires Distinct(files) && k <= |files|
    ensures Inv(files, Run(files, Start(files, k), steps))
  {
    if |steps| > 0 {
      AlwaysInv(files, k, steps[..|steps| - 1]);
      StepKeeps(files, Run(files, Start(files, k), steps[..|steps| - 1]), steps[|steps| - 1]);
    }
  }

  /** However calls start, fail and crash, what is applied is a beginning of the
      sorted list, and each of its bodies took effect once, in that order. */
  lemma AppliedIsPrefix(files: seq<File>, k: nat, steps: seq<Step>)
    requires Distinct(files) && k <= |files|
    ensures var s := Run(files, Start(files, k), steps);
      && s.applied == s.effects <= files
      && forall i, j :: 0 <= i < j < |s.effects| ==> s.effects[i].name != s.effects[j].name
  {
    AlwaysInv(files, k, steps);
  }

  /** Every call of migrate that returns leaves all of the list applied, and no
      call ever takes a file for one that changed after being applied. */
  lemma ReturnedMeansAllApplied(files: seq<File>, k: nat, steps: seq<Step>, call: nat)
    requires Distinct(files) && k <= |files| && call in Run(files, Start(files, k), steps).calls
    ensures var s := Run(files, Start(files, k), steps);
      && (s.calls[call].Returned? ==> s.applied == files == s.effects)
      && !s.calls[call].Changed?
  {
    AlwaysInv(files, k, steps);
    var s := Run(files, Start(files, k), steps);
    assert CallOk(files, s, call, s.calls[call]);
  }

  /** What has been applied stays applied through anything that follows. */
  lemma {:induction false} AppliedStays(files: seq<File>, k: nat, steps: seq<Step>, more: seq<Step>)
    requires Distinct(files) && k <= |files|
    ensures Run(files, Start(files, k), steps).applied <= Run(files, Start(files, k), steps + more).applied
  {
    if |more| == 0 {
      assert steps + more == steps;
    } else {
      var before := steps + more[..|more| - 1];
      AppliedStays(files, k, steps, more[..|more| - 1]);
      assert (steps + more)[..|steps + more| - 1] == before;
      AlwaysInv(files, k, before);
      StepKeeps(files, Run(files, Start(files, k), before), more[|more| - 1]);
    }
  }

  // ------------------------------------------------------------- progress ----

  /** A call that nothing disturbs applies all that is missing and returns. */
  lemma UndisturbedCallReturns(files: seq<File>, k: nat) returns (steps: seq<Step>)
    requires Distinct(files) && k <= |files|
    ensures var s := Run(files, Start(files, k), steps);
      s.applied == files == s.effects && s.lock == None && 0 in s.calls && s.calls[0].Returned?
  {
    steps := [Begin(0), Grant(0), Fetch(0)];
    Opening(files, Start(files, k));
    var n := 0;
    while n < |files|
      invariant n <= |files|
      invariant Run(files, Start(files, k), steps) == Reached(files, k, n)
    {
      steps := OneMore(files, k, n, steps);
      n := n + 1;
    }
    steps := Closing(files, k, steps);
  }

  // A single call that has gone through the first n files.
  ghost function Reached(files: seq<File>, k: nat, n: nat): State
    requires k <= |files| && n <= |files|
  {
    var applied := files[..if n < k then k else n];
    State(Some(0), applied, applied, map[0 := Applying(n, files[..k])])
  }

  lemma RunSnoc(files: seq<File>, s: State, steps: seq<Step>, step: Step)
    ensures Run(files, s, steps + [step]) == Do(files, Run(files, s, steps), step)
  {
    assert (steps + [step])[..|steps|] == steps;
  }

  lemma Opening(files: seq<File>, s: State)
    requires s.lock.None? && s.calls == map[]
    ensures Run(files, s, [Begin(0), Grant(0), Fetch(0)])
         == s.(lock := Some(0), calls := map[0 := Applying(0, s.applied)])
  {
    RunSnoc(files, s, [], Begin(0));
    RunSnoc(files, s, [Begin(0)], Grant(0));
    RunSnoc(files, s, [Begin(0), Grant(0)], Fetch(0));
    assert [] + [Begin(0)] == [Begin(0)];
    assert [Begin(0)] + [Grant(0)] == [Begin(0), Grant(0)];
    assert [Begin(0), Grant(0)] + [Fetch(0)] == [Begin(0), Grant(0), Fetch(0)];
  }

  lemma OneApplied(files: seq<File>, k: nat, n: nat)
    requires k <= n < |files|
    ensures Do(files, Reached(files, k, n).(calls := map[0 := InTransaction(n, files[..k])]), Commit(0))
         == Reached(files, k, n + 1)
  {
    assert files[..n] + [files[n]] == files[..n + 1];
  }

  lemma OneMore(files: seq<File>, k: nat, n: nat, steps: seq<Step>) returns (more: seq<Step>)
    requires Distinct(files) && k <= |files| && n < |files|
    requires Run(files, Start(files, k), steps) == Reached(files, k, n)
    ensures Run(files, Start(files, k), more) == Reached(files, k, n + 1)
  {
    KnownPrefix(files, files[..k], n);
    RunSnoc(files, Start(files, k), steps, Consider(0));
    more := steps + [Consider(0)];
    if n >= k {
      OneApplied(files, k, n);
      RunSnoc(files, Start(files, k), more, Commit(0));
      more := more + [Commit(0)];
    }
  }

  lemma Closing(files: seq<File>, k: nat, steps: seq<Step>) returns (more: seq<Step>)
    requires k <= |files| && Run(files, Start(files, k), steps) == Reached(files, k, |files|)
    ensures var s := Run(files, Start(files, k), more);
      s.applied == files == s.effects && s.lock == None && 0 in s.calls && s.calls[0].Returned?
  {
    RunSnoc(files, Start(files, k), steps, Consider(0));
    RunSnoc(files, Start(files, k), steps + [Consider(0)], Unlock(0));
    more := steps + [Consider(0)] + [Unlock(0)];
    assert files[..|files|] == files;
  }

  // ------------------------------------------------------ in plain terms ----

  // A database on which files of these names were applied, in this order.
  ghost predicate SameNames(files: seq<File>, applied: seq<File>) {
    |applied| <= |files| && forall i :: 0 <= i < |applied| ==> applied[i].name == files[i].name
  }

  lemma {:induction false} KnownByName(files: seq<File>, applied: seq<File>, i: nat)
    requires Distinct(files) && SameNames(files, applied) && i < |files|
    ensures Known(applied, files[i].name) == if i < |applied| then Some(applied[i]) else None
  {
    if |applied| > 0 && i > 0 {
      KnownByName(files[1..], applied[1..], i - 1);
    }
  }

  // A single call that has found the first i files applied and unchanged.
  function Considering(applied: seq<File>, i: nat): State {
    State(Some(0), applied, applied, map[0 := Applying(i, applied)])
  }

  lemma ConsiderNext(files: seq<File>, applied: seq<File>, i: nat)
    requires Distinct(files) && SameNames(files, applied) && i < |applied|
    ensures Do(files, Considering(applied, i), Consider(0)) ==
      if applied[i].digest == files[i].digest then Considering(applied, i + 1)
      else State(None, applied, applied, map[0 := Changed])
  {
    KnownByName(files, applied, i);
  }

  lemma {:induction false} ConsideredSoFar(files: seq<File>, applied: seq<File>, i: nat) returns (steps: seq<Step>)
    requires Distinct(files) && SameNames(files, applied) && i <= |applied|
    requires forall k :: 0 <= k < i ==> applied[k].digest == files[k].digest
    ensures Run(files, State(None, applied, applied, map[]), steps) == Considering(applied, i)
  {
    var start := State(None, applied, applied, map[]);
    if i == 0 {
      steps := [Begin(0), Grant(0), Fetch(0)];
      Opening(files, start);
    } else {
      var before := ConsideredSoFar(files, applied, i - 1);
      steps := before + [Consider(0)];
      RunSnoc(files, start, before, Consider(0));
      ConsiderNext(files, applied, i - 1);
    }
  }

  /** A file that was changed after it was applied is noticed by the next call:
      it raises at the first such file, gives the lock back and applies nothing. */
  lemma ChangedIsNoticed(files: seq<File>, applied: seq<File>, i: nat) returns (steps: seq<Step>)
    requires Distinct(files) && SameNames(files, applied) && i < |applied|
    requires applied[i].digest != files[i].digest
    requires forall k :: 0 <= k < i ==> applied[k].digest == files[k].digest
    ensures Run(files, State(None, applied, applied, map[]), steps)
         == State(None, applied, applied, map[0 := Changed])
  {
    var before := ConsideredSoFar(files, applied, i);
    steps := before + [Consider(0)];
    RunSnoc(files, State(None, applied, applied, map[]), before, Consider(0));
    ConsiderNext(files, applied, i);
  }

  /** A body that fails takes nothing with it: the call unlocks and raises, and
      the next one finds the table as it was. A call that finds the lock taken
      waits, and a crash frees it. */
  lemma FailedBodyLeavesNothing(files: seq<File>, s: State, call: nat, other: nat)
    requires call in s.calls && s.calls[call].InTransaction? && s.lock == Some(call)
    requires other in s.calls && s.calls[other].Waiting?
    ensures var u := Do(files, Do(files, s, BodyFails(call)), Unlock(call));
      && u.applied == s.applied && u.effects == s.effects && u.lock == None
      && call in u.calls && u.calls[call] == Raised
    ensures Do(files, s, Grant(other)) == s
    ensures var u := Do(files, s, Crash(call)); u.lock == None && u.applied == s.applied && u.effects == s.effects
  {
  }

  /** Only a call that begins is one; what it does to other calls is nothing. */
  lemma OnlyItsOwn(files: seq<File>, s: State, step: Step, other: nat)
    ensures step.call !in s.calls && !step.Begin? ==> Do(files, s, step) == s
    ensures other in s.calls && other != step.call ==>
      other in Do(files, s, step).calls && Do(files, s, step).calls[other] == s.calls[other]
  {
  }
}
