/** The machines of a domain and the names they are assigned, over time:
    machines join, ask (api/odm/naming.py), take the name they were told
    (agent_rename in api/odm/routes_agent.py), are moved by an administrator
    (api/odm/routes_directory.py), are renamed by hand and are deleted. */
module Fleet {
  import opened Text
  import opened Naming

  // A machine as the directory holds it; `host` is the first label of its host name.
  datatype Machine = Machine(dn: string, cn: string, host: string)

  datatype Told = Told(id: nat, answer: Answer)

  // `used` is every machine there ever was, `told` every answer given.
  datatype State = State(machines: map<nat, Machine>, used: set<nat>, rows: seq<Row>, told: seq<Told>)

  // How far taking a name gets: the directory object is renamed, then its
  // host name, and last the rows follow. Any of the calls may fail.
  datatype Extent = NameOnly | HostToo | InFull

  datatype Step =
    | Join(id: nat, dn: string, cn: string, host: string)
    | Asks(id: nat, found: seq<string>, at: Option<nat>)
    | Takes(id: nat, newDn: string, at: Option<nat>, extent: Extent)
    | Moves(id: nat, newDn: string, newCn: string)
    | Rehosts(id: nat, host: string)
    | Leaves(id: nat)

  const START := State(map[], {}, [], [])

  // No other machine has this distinguished name, in whatever case.
  predicate Vacant(machines: map<nat, Machine>, id: nat, dn: string) {
    forall i :: i in machines && i != id ==> Lower(machines[i].dn) != Lower(dn)
  }

  // The directory search returns every machine there is.
  predicate Lists(machines: map<nat, Machine>, found: seq<string>) {
    forall i :: i in machines ==> machines[i].cn in found
  }

  predicate MayAsk(f: State, step: Step)
    requires step.Asks?
  {
    step.id in f.machines && Lists(f.machines, step.found) && Finds(f.rows, f.machines[step.id].dn, step.at)
  }

  function AskOf(f: State, step: Step): Ask
    requires step.Asks? && MayAsk(f, step)
  {
    Ask(f.machines[step.id].dn, f.machines[step.id].host, step.found, step.at)
  }

  // A machine may take the name on a row of its own, where the directory has room for it.
  predicate MayTake(f: State, step: Step)
    requires step.Takes?
  {
    && step.id in f.machines && Vacant(f.machines, step.id, step.newDn)
    && step.at.Some? && Finds(f.rows, f.machines[step.id].dn, step.at)
  }

  function Taken(f: State, step: Step): Machine
    requires step.Takes? && MayTake(f, step)
  {
    var name := Lower(f.rows[step.at.value].name);
    Machine(step.newDn, name, if step.extent.NameOnly? then f.machines[step.id].host else name)
  }

  function RowsNext(s: Scheme, f: State, step: Step): seq<Row> {
    match step
    case Asks(_, _, _) => if MayAsk(f, step) then RowsAfter(s, f.rows, AskOf(f, step)) else f.rows
    case Takes(id, newDn, _, extent) =>
      if MayTake(f, step) && extent.InFull? then Followed(f.rows, f.machines[id].dn, newDn) else f.rows
    case _ => f.rows
  }

  function MachinesNext(f: State, step: Step): map<nat, Machine> {
    match step
    case Join(id, dn, cn, host) =>
      if id in f.used || !Vacant(f.machines, id, dn) then f.machines else f.machines[id := Machine(dn, cn, host)]
    case Takes(id, _, _, _) => if MayTake(f, step) then f.machines[id := Taken(f, step)] else f.machines
    case Moves(id, newDn, newCn) =>
      if id !in f.machines || !Vacant(f.machines, id, newDn) then f.machines
      else f.machines[id := Machine(newDn, newCn, f.machines[id].host)]
    case Rehosts(id, host) => if id in f.machines then f.machines[id := f.machines[id].(host := host)] else f.machines
    case Leaves(id) => f.machines - {id}
    case Asks(_, _, _) => f.machines
  }

  function ToldNext(s: Scheme, f: State, step: Step): seq<Told> {
    if step.Asks? && MayAsk(f, step) then f.told + [Told(step.id, AnswerTo(s, f.rows, AskOf(f, step)))] else f.told
  }

  // A step that is not possible where it is taken changes nothing.
  function Do(s: Scheme, f: State, step: Step): State {
    State(MachinesNext(f, step), if step.Join? then f.used + {step.id} else f.used,
          RowsNext(s, f, step), ToldNext(s, f, step))
  }

  function Run(s: Scheme, f: State, steps: seq<Step>): State {
    if |steps| == 0 then f else Do(s, Run(s, f, steps[..|steps| - 1]), steps[|steps| - 1])
  }

  // --------------------------------------------------------------- invariant ----

  ghost predicate Apart(machines: map<nat, Machine>) {
    forall i, j :: i in machines && j in machines && i != j ==> Lower(machines[i].dn) != Lower(machines[j].dn)
  }

  ghost predicate Inv(s: Scheme, f: State) {
    Numbered(s, f.rows) && KeysDiffer(f.rows) && Apart(f.machines) && f.machines.Keys <= f.used
  }

  lemma AskKeepsRows(s: Scheme, f: State, step: Step)
    requires Lawful(s) && Numbered(s, f.rows) && KeysDiffer(f.rows) && step.Asks? && MayAsk(f, step)
    ensures var rows := RowsAfter(s, f.rows, AskOf(f, step));
      Numbered(s, rows) && KeysDiffer(rows) && Grown(f.rows, rows)
  {
    AskKeeps(s, f.rows, AskOf(f, step));
    PrefixGrows(f.rows, RowsAfter(s, f.rows, AskOf(f, step)));
  }

  lemma PrefixGrows(rows: seq<Row>, after: seq<Row>)
    requires rows <= after
    ensures Grown(rows, after)
  {
  }

  lemma RowsKept(s: Scheme, f: State, step: Step)
    requires Lawful(s) && Numbered(s, f.rows) && KeysDiffer(f.rows)
    ensures Numbered(s, RowsNext(s, f, step)) && KeysDiffer(RowsNext(s, f, step))
    ensures Grown(f.rows, RowsNext(s, f, step))
  {
    PrefixGrows(f.rows, f.rows);
    if step.Asks? && MayAsk(f, step) {
      AskKeepsRows(s, f, step);
    } else if step.Takes? && MayTake(f, step) && step.extent.InFull? {
      FollowedKeeps(s, f.rows, f.machines[step.id].dn, step.newDn);
    } else {
      assert RowsNext(s, f, step) == f.rows;
    }
  }

  lemma MachinesKept(f: State, step: Step)
    requires Apart(f.machines) && f.machines.Keys <= f.used
    ensures Apart(MachinesNext(f, step))
    ensures MachinesNext(f, step).Keys <= if step.Join? then f.used + {step.id} else f.used
  {
  }

  lemma DoKeeps(s: Scheme, f: State, step: Step)
    requires Lawful(s) && Inv(s, f)
    ensures Inv(s, Do(s, f, step)) && Grown(f.rows, Do(s, f, step).rows) && f.told <= Do(s, f, step).told
  {
    RowsKept(s, f, step);
    MachinesKept(f, step);
  }

  lemma {:induction false} RunKeeps(s: Scheme, f: State, steps: seq<Step>)
    requires Lawful(s) && Inv(s, f)
    ensures Inv(s, Run(s, f, steps)) && Grown(f.rows, Run(s, f, steps).rows) && f.told <= Run(s, f, steps).told
  {
    if |steps| > 0 {
      RunKeeps(s, f, steps[..|steps| - 1]);
      DoKeeps(s, Run(s, f, steps[..|steps| - 1]), steps[|steps| - 1]);
    }
  }

  // ------------------------------------------------------------ fresh names ----

  // What handing out a name has to keep to.
  ghost predicate Fresh(s: Scheme, f: State, name: string) {
    && s.number(name).Some?
    && (forall i :: 0 <= i < |f.rows| ==> Below(s, f.rows[i].name, s.number(name).value))
    && (forall i :: 0 <= i < |f.rows| ==> Lower(f.rows[i].name) != Lower(name))
    && (forall i :: i in f.machines ==> Lower(Short(f.machines[i].cn)) != Lower(name))
  }

  lemma FreshForMachines(f: State, found: seq<string>, name: string)
    requires Lists(f.machines, found)
    requires forall c :: 0 <= c < |found| ==> Lower(Short(found[c])) != Lower(name)
    ensures forall i :: i in f.machines ==> Lower(Short(f.machines[i].cn)) != Lower(name)
  {
    forall i | i in f.machines ensures Lower(Short(f.machines[i].cn)) != Lower(name) {
      var c :| 0 <= c < |found| && found[c] == f.machines[i].cn;
    }
  }

  lemma AskedIsFresh(s: Scheme, f: State, found: seq<string>, e: Ask)
    requires Lawful(s) && Inv(s, f) && Lists(f.machines, found) && e.found == found
    requires Finds(f.rows, e.dn, e.at) && Issues(s, f.rows, e)
    ensures AnswerTo(s, f.rows, e).Named? && Fresh(s, f, AnswerTo(s, f.rows, e).name)
  {
    NewNamesAreNew(s, f.rows, e);
    FreshForMachines(f, found, AnswerTo(s, f.rows, e).name);
  }

  /** Over every run of joining, asking, taking names, moving, renaming by hand
      and deleting: a number newly handed out is above every one handed out
      before, and its name differs, in more than letter case, from every
      machine's cn in the directory and from every earlier assignment, of a
      machine still there or not. It is never refused, and is handed out
      exactly to a machine whose name does not fit and under whose
      distinguished name there is no assignment. */
  lemma NewNamesAreFresh(s: Scheme, steps: seq<Step>, step: Step)
    requires Lawful(s) && step.Asks? && MayAsk(Run(s, START, steps), step)
    ensures var f := Run(s, START, steps); var e := AskOf(f, step); var r := AnswerTo(s, f.rows, e);
      && r != NameTaken && (r == AlreadyFits <==> Fits(s, e.current))
      && (Issues(s, f.rows, e) <==> !Fits(s, e.current) && e.at.None?)
      && (Issues(s, f.rows, e) ==> r.Named? && Fresh(s, f, r.name))
  {
    RunKeeps(s, START, steps);
    var f := Run(s, START, steps);
    var e := AskOf(f, step);
    WhoIsHandedANumber(s, f.rows, e);
    if Issues(s, f.rows, e) {
      AskedIsFresh(s, f, step.found, e);
    }
  }

  // -------------------------------------------------- asking again, same name ----

  predicate RowAt(f: State, k: nat, dn: string) {
    k < |f.rows| && Lower(f.rows[k].dn) == Lower(dn)
  }

  // Row k, and no other, is under the machine's distinguished name.
  ghost predicate Sole(f: State, id: nat, k: nat) {
    && id in f.machines && RowAt(f, k, f.machines[id].dn)
    && forall j: nat :: RowAt(f, j, f.machines[id].dn) ==> j == k
  }

  // What the machine is answered, whatever its lookup and the search return.
  ghost predicate AlwaysTold(s: Scheme, f: State, id: nat, name: string) {
    forall step: Step | step.Asks? && step.id == id && MayAsk(f, step) ::
      AnswerTo(s, f.rows, AskOf(f, step)) == Named(name)
  }

  lemma {:induction false} SomeListing(machines: map<nat, Machine>) returns (found: seq<string>)
    ensures Lists(machines, found)
    decreases |machines|
  {
    if machines == map[] {
      found := [];
    } else {
      var i :| i in machines;
      var rest := SomeListing(machines - {i});
      found := rest + [machines[i].cn];
      forall j | j in machines ensures machines[j].cn in found {
        if j != i {
          assert j in machines - {i};
        }
      }
    }
  }

  lemma OtherRowIsOtherName(s: Scheme, f: State, id: nat, k: nat, j: nat)
    requires Lawful(s) && Inv(s, f) && id in f.machines && !Fits(s, f.machines[id].host)
    requires k < |f.rows| && j != k && RowAt(f, j, f.machines[id].dn)
    ensures !AlwaysTold(s, f, id, f.rows[k].name)
  {
    var found := SomeListing(f.machines);
    var step := Asks(id, found, Some(j));
    assert MayAsk(f, step);
    RowsDiffer(s, f.rows, j, k);
    assert AnswerTo(s, f.rows, AskOf(f, step)) == Named(f.rows[j].name);
  }

  lemma NoRowIsOtherName(s: Scheme, f: State, id: nat, k: nat)
    requires Lawful(s) && Inv(s, f) && id in f.machines && !Fits(s, f.machines[id].host)
    requires k < |f.rows| && Finds(f.rows, f.machines[id].dn, None)
    ensures !AlwaysTold(s, f, id, f.rows[k].name)
  {
    var found := SomeListing(f.machines);
    var step := Asks(id, found, None);
    assert MayAsk(f, step);
    NewNamesAreNew(s, f.rows, AskOf(f, step));
  }

  lemma SoleIsTold(s: Scheme, f: State, id: nat, k: nat)
    requires Inv(s, f) && Sole(f, id, k) && !Fits(s, f.machines[id].host)
    ensures AlwaysTold(s, f, id, f.rows[k].name)
  {
    forall step: Step | step.Asks? && step.id == id && MayAsk(f, step)
      ensures AnswerTo(s, f.rows, AskOf(f, step)) == Named(f.rows[k].name)
    {
      assert step.at.Some? ==> RowAt(f, step.at.value, f.machines[id].dn);
      assert RowAt(f, k, f.machines[id].dn);
    }
  }

  lemma NotSole(f: State, id: nat, k: nat) returns (j: Option<nat>)
    requires id in f.machines && !Sole(f, id, k)
    ensures match j
            case None => Finds(f.rows, f.machines[id].dn, None)
            case Some(j) => j != k && RowAt(f, j, f.machines[id].dn)
  {
    if i: nat :| i != k && RowAt(f, i, f.machines[id].dn) {
      return Some(i);
    }
    forall i | 0 <= i < |f.rows| ensures Lower(f.rows[i].dn) != Lower(f.machines[id].dn) {
      assert !RowAt(f, i, f.machines[id].dn);
    }
    return None;
  }

  lemma SameNameHere(s: Scheme, f: State, id: nat, k: nat)
    requires Lawful(s) && Inv(s, f) && id in f.machines && !Fits(s, f.machines[id].host) && k < |f.rows|
    ensures AlwaysTold(s, f, id, f.rows[k].name) <==> Sole(f, id, k)
  {
    if Sole(f, id, k) {
      SoleIsTold(s, f, id, k);
    } else {
      var j := NotSole(f, id, k);
      match j
      case None => NoRowIsOtherName(s, f, id, k);
      case Some(i) => OtherRowIsOtherName(s, f, id, k, i);
    }
  }

  /** A machine that asks again is told the name on row k, whatever its lookup
      returns, exactly when that row and no other is under the distinguished
      name it has then. */
  lemma SameNameExactly(s: Scheme, steps: seq<Step>, id: nat, k: nat)
    requires Lawful(s)
    requires var f := Run(s, START, steps); id in f.machines && !Fits(s, f.machines[id].host) && k < |f.rows|
    ensures var f := Run(s, START, steps); AlwaysTold(s, f, id, f.rows[k].name) <==> Sole(f, id, k)
  {
    RunKeeps(s, START, steps);
    SameNameHere(s, Run(s, START, steps), id, k);
  }

  // ----------------------------------------------- how a machine keeps its row ----

  // Whether a step leaves a machine with its row: it is not deleted, and its
  // distinguished name does not change but for the case, or changes by taking
  // a name in full where no assignment is under the new one yet.
  ghost predicate Stays(f: State, step: Step, id: nat) {
    match step
    case Leaves(i) => i != id
    case Moves(i, newDn, _) =>
      i == id && id in f.machines && Vacant(f.machines, id, newDn) ==> Lower(newDn) == Lower(f.machines[id].dn)
    case Takes(i, newDn, _, extent) =>
      i == id && MayTake(f, step) ==>
        Lower(newDn) == Lower(f.machines[id].dn) || (extent.InFull? && Finds(f.rows, newDn, None))
    case _ => true
  }

  // Sole depends on the machine's name and the names on the rows only.
  lemma SoleCarries(f: State, u: State, id: nat, k: nat)
    requires Sole(f, id, k) && id in u.machines && k < |u.rows|
    requires forall j: nat :: RowAt(u, j, u.machines[id].dn) <==> RowAt(f, j, f.machines[id].dn)
    ensures Sole(u, id, k)
  {
  }

  lemma SoleWithMore(f: State, u: State, id: nat, k: nat)
    requires Sole(f, id, k) && u.machines == f.machines && f.rows <= u.rows
    requires forall j :: |f.rows| <= j < |u.rows| ==> Lower(u.rows[j].dn) != Lower(f.machines[id].dn)
    ensures Sole(u, id, k)
  {
    forall j: nat ensures RowAt(u, j, u.machines[id].dn) <==> RowAt(f, j, f.machines[id].dn) {
    }
    SoleCarries(f, u, id, k);
  }

  // A machine with a row of its own is handed no other.
  lemma OwnAskIssuesNothing(s: Scheme, f: State, step: Step, k: nat)
    requires Inv(s, f) && step.Asks? && MayAsk(f, step) && Sole(f, step.id, k)
    ensures !Issues(s, f.rows, AskOf(f, step))
  {
    assert RowAt(f, k, f.machines[step.id].dn);
  }

  lemma AskKeepsSole(s: Scheme, f: State, step: Step, id: nat, k: nat)
    requires Lawful(s) && Inv(s, f) && Sole(f, id, k) && step.Asks? && MayAsk(f, step)
    ensures Sole(Do(s, f, step), id, k)
  {
    var e := AskOf(f, step);
    if step.id == id {
      OwnAskIssuesNothing(s, f, step, k);
    } else if Issues(s, f.rows, e) {
      IssuingAdds(s, f.rows, e);
    }
    SoleWithMore(f, Do(s, f, step), id, k);
  }

  lemma OthersTakeOtherRows(s: Scheme, f: State, step: Step, id: nat, k: nat)
    requires Inv(s, f) && Sole(f, id, k) && step.Takes? && MayTake(f, step) && step.id != id
    ensures Sole(Do(s, f, step), id, k)
  {
    var u := Do(s, f, step);
    assert u.machines[id] == f.machines[id];
    forall j: nat ensures RowAt(u, j, u.machines[id].dn) <==> RowAt(f, j, f.machines[id].dn) {
    }
    SoleCarries(f, u, id, k);
  }

  // The machine's own row follows it unless another row is in the way.
  lemma OwnRowFollows(f: State, id: nat, k: nat, newDn: string)
    requires Sole(f, id, k) && Finds(f.rows, newDn, None) && KeysDiffer(f.rows)
    ensures Followed(f.rows, f.machines[id].dn, newDn) == f.rows[k := f.rows[k].(dn := newDn)]
  {
    var rows := Renamed(f.rows, f.machines[id].dn, newDn);
    forall j | 0 <= j < |f.rows| ensures rows[j] == if j == k then f.rows[k].(dn := newDn) else f.rows[j] {
      assert RowAt(f, j, f.machines[id].dn) ==> j == k;
    }
    assert KeysDiffer(rows);
  }

  lemma OwnTakeStays(s: Scheme, f: State, step: Step, k: nat)
    requires Inv(s, f) && step.Takes? && MayTake(f, step) && Sole(f, step.id, k) && Stays(f, step, step.id)
    ensures Sole(Do(s, f, step), step.id, k)
  {
    var u, dn := Do(s, f, step), f.machines[step.id].dn;
    assert u.machines[step.id].dn == step.newDn && RowAt(f, k, dn);
    if Lower(step.newDn) == Lower(dn) {
      forall j: nat ensures RowAt(u, j, step.newDn) <==> RowAt(f, j, dn) {
      }
    } else {
      OwnRowFollows(f, step.id, k, step.newDn);
      forall j: nat ensures RowAt(u, j, step.newDn) <==> j == k {
      }
    }
  }

  lemma OwnTakeStrays(s: Scheme, f: State, step: Step, k: nat)
    requires Inv(s, f) && step.Takes? && MayTake(f, step) && Sole(f, step.id, k) && !Stays(f, step, step.id)
    ensures !Sole(Do(s, f, step), step.id, k)
  {
    var u, dn := Do(s, f, step), f.machines[step.id].dn;
    assert u.machines[step.id].dn == step.newDn && RowAt(f, k, dn);
    if u.rows == f.rows {
      assert !RowAt(u, k, step.newDn);
    } else {
      var j :| 0 <= j < |f.rows| && Lower(f.rows[j].dn) == Lower(step.newDn);
      assert RowAt(u, j, step.newDn) && j != k;
    }
  }

  lemma MoveDecides(s: Scheme, f: State, step: Step, k: nat)
    requires step.Moves? && Sole(f, step.id, k)
    ensures Sole(Do(s, f, step), step.id, k) <==> Stays(f, step, step.id)
  {
    var u, dn := Do(s, f, step), f.machines[step.id].dn;
    assert RowAt(f, k, dn);
    if Stays(f, step, step.id) {
      forall j: nat ensures RowAt(u, j, u.machines[step.id].dn) <==> RowAt(f, j, dn) {
      }
    } else {
      assert !RowAt(u, k, u.machines[step.id].dn);
    }
  }

  // A step that touches neither the machine's name nor the rows.
  lemma ElsewhereKeepsSole(s: Scheme, f: State, step: Step, id: nat, k: nat)
    requires Inv(s, f) && Sole(f, id, k) && !step.Asks? && !step.Takes?
    requires step.id != id || step.Join? || step.Rehosts?
    ensures Sole(Do(s, f, step), id, k)
  {
    var u := Do(s, f, step);
    assert u.machines[id].dn == f.machines[id].dn;
    SoleCarries(f, u, id, k);
  }

  /** A machine with a row of its own keeps it through a step exactly when the
      step leaves it with its row. */
  lemma StepKeepsRow(s: Scheme, f: State, step: Step, id: nat, k: nat)
    requires Lawful(s) && Inv(s, f) && Sole(f, id, k)
    ensures Sole(Do(s, f, step), id, k) <==> Stays(f, step, id)
  {
    match step
    case Asks(_, _, _) => if MayAsk(f, step) { AskKeepsSole(s, f, step, id, k); }
    case Takes(i, _, _, _) =>
      if !MayTake(f, step) {
        SoleCarries(f, Do(s, f, step), id, k);
      } else if i != id {
        OthersTakeOtherRows(s, f, step, id, k);
      } else if Stays(f, step, id) {
        OwnTakeStays(s, f, step, k);
      } else {
        OwnTakeStrays(s, f, step, k);
      }
    case Moves(i, _, _) => if i == id { MoveDecides(s, f, step, k); } else { ElsewhereKeepsSole(s, f, step, id, k); }
    case Leaves(i) => if i != id { ElsewhereKeepsSole(s, f, step, id, k); }
    case _ => ElsewhereKeepsSole(s, f, step, id, k);
  }

  // Of a run from a state on: the machine never leaves its row.
  ghost predicate NeverStrays(s: Scheme, f: State, steps: seq<Step>, id: nat) {
    forall i :: 0 <= i < |steps| ==> Stays(Run(s, f, steps[..i]), steps[i], id)
  }

  ghost predicate AlwaysSole(s: Scheme, f: State, steps: seq<Step>, id: nat, k: nat) {
    forall i :: 0 <= i <= |steps| ==> Sole(Run(s, f, steps[..i]), id, k)
  }

  lemma RunNext(s: Scheme, f: State, steps: seq<Step>, i: nat)
    requires i < |steps|
    ensures Run(s, f, steps[..i + 1]) == Do(s, Run(s, f, steps[..i]), steps[i])
  {
    assert steps[..i + 1][..i] == steps[..i];
  }

  lemma {:induction false} SoleSoFar(s: Scheme, f: State, steps: seq<Step>, id: nat, k: nat, n: nat)
    requires Lawful(s) && Inv(s, f) && Sole(f, id, k) && NeverStrays(s, f, steps, id) && n <= |steps|
    ensures Sole(Run(s, f, steps[..n]), id, k)
  {
    if n > 0 {
      SoleSoFar(s, f, steps, id, k, n - 1);
      RunKeeps(s, f, steps[..n - 1]);
      RunNext(s, f, steps, n - 1);
      StepKeepsRow(s, Run(s, f, steps[..n - 1]), steps[n - 1], id, k);
    }
  }

  /** Through a whole run a machine keeps the row it was told from, so that it
      is told the same name whenever it asks, exactly when no step of the run
      makes it stray. */
  lemma RunKeepsRow(s: Scheme, f: State, steps: seq<Step>, id: nat, k: nat)
    requires Lawful(s) && Inv(s, f) && Sole(f, id, k)
    ensures AlwaysSole(s, f, steps, id, k) <==> NeverStrays(s, f, steps, id)
  {
    if NeverStrays(s, f, steps, id) {
      forall n | 0 <= n <= |steps| ensures Sole(Run(s, f, steps[..n]), id, k) {
        SoleSoFar(s, f, steps, id, k, n);
      }
    }
    if AlwaysSole(s, f, steps, id, k) {
      forall i | 0 <= i < |steps| ensures Stays(Run(s, f, steps[..i]), steps[i], id) {
        assert Sole(Run(s, f, steps[..i]), id, k) && Sole(Run(s, f, steps[..i + 1]), id, k);
        RunKeeps(s, f, steps[..i]);
        RunNext(s, f, steps, i);
        StepKeepsRow(s, Run(s, f, steps[..i]), steps[i], id, k);
      }
    }
  }

  // The machine itself is told its row's name or nothing, any other machine
  // another name.
  predicate OwnName(id: nat, name: string, t: Told) {
    if t.id == id then t.answer == AlreadyFits || t.answer == Named(name)
    else t.answer.Named? ==> Lower(t.answer.name) != Lower(name)
  }

  lemma AnswerIsOwn(s: Scheme, f: State, step: Step, id: nat, k: nat)
    requires Lawful(s) && Inv(s, f) && Sole(f, id, k) && step.Asks? && MayAsk(f, step)
    ensures OwnName(id, f.rows[k].name, Told(step.id, AnswerTo(s, f.rows, AskOf(f, step))))
  {
    var e := AskOf(f, step);
    WhoIsHandedANumber(s, f.rows, e);
    assert RowAt(f, k, f.machines[id].dn);
    if step.id == id {
      OwnAskIssuesNothing(s, f, step, k);
      assert step.at.Some? ==> RowAt(f, step.at.value, f.machines[id].dn);
    } else if Issues(s, f.rows, e) {
      NewNamesAreNew(s, f.rows, e);
    } else if !Fits(s, e.current) {
      RowsDiffer(s, f.rows, step.at.value, k);
    }
  }

  // All answers from the n-th on.
  predicate OwnNames(id: nat, name: string, told: seq<Told>, n: nat) {
    forall j :: n <= j < |told| ==> OwnName(id, name, told[j])
  }

  lemma OneMoreOwn(id: nat, name: string, told: seq<Told>, n: nat, t: Told)
    requires OwnNames(id, name, told, n) && OwnName(id, name, t)
    ensures OwnNames(id, name, told + [t], n)
  {
  }

  lemma NextIsOwn(s: Scheme, f: State, step: Step, id: nat, k: nat, n: nat)
    requires Lawful(s) && Inv(s, f) && Sole(f, id, k) && OwnNames(id, f.rows[k].name, f.told, n)
    ensures OwnNames(id, f.rows[k].name, Do(s, f, step).told, n)
  {
    if step.Asks? && MayAsk(f, step) {
      AnswerIsOwn(s, f, step, id, k);
      OneMoreOwn(id, f.rows[k].name, f.told, n, Told(step.id, AnswerTo(s, f.rows, AskOf(f, step))));
    }
  }

  lemma {:induction false} ToldTheirOwn(s: Scheme, f: State, steps: seq<Step>, id: nat, k: nat, n: nat)
    requires Lawful(s) && Inv(s, f) && Sole(f, id, k) && NeverStrays(s, f, steps, id) && n <= |steps|
    ensures OwnNames(id, f.rows[k].name, Run(s, f, steps[..n]).told, |f.told|)
  {
    if n > 0 {
      var u, step := Run(s, f, steps[..n - 1]), steps[n - 1];
      ToldTheirOwn(s, f, steps, id, k, n - 1);
      SoleSoFar(s, f, steps, id, k, n - 1);
      RunKeeps(s, f, steps[..n - 1]);
      RunNext(s, f, steps, n - 1);
      NextIsOwn(s, u, step, id, k, |f.told|);
    } else {
      assert steps[..0] == [];
    }
  }

  /** While a machine keeps its row, it is told that row's name whenever it
      asks and does not fit, and no other machine is ever told a name that
      differs from it in letter case only. */
  lemma NamesAreOwn(s: Scheme, f: State, steps: seq<Step>, id: nat, k: nat)
    requires Lawful(s) && Inv(s, f) && Sole(f, id, k) && NeverStrays(s, f, steps, id)
    ensures OwnNames(id, f.rows[k].name, Run(s, f, steps).told, |f.told|)
  {
    ToldTheirOwn(s, f, steps, id, k, |steps|);
    assert steps[..|steps|] == steps;
  }

  /** Being handed a number gives a machine a row of its own. */
  lemma HandedGivesRow(s: Scheme, f: State, step: Step)
    requires Lawful(s) && Inv(s, f) && step.Asks? && MayAsk(f, step) && Issues(s, f.rows, AskOf(f, step))
    ensures var u := Do(s, f, step); var k := |f.rows|;
      Sole(u, step.id, k) && u.told == f.told + [Told(step.id, Named(u.rows[k].name))]
  {
    var e, u := AskOf(f, step), Do(s, f, step);
    WhoIsHandedANumber(s, f.rows, e);
    IssuingAdds(s, f.rows, e);
    assert u.rows == f.rows + [NewRow(s, f.rows, e)];
    forall j: nat ensures RowAt(u, j, e.dn) <==> j == |f.rows| {
    }
  }

  /** A machine that takes its name goes by it in the directory, in small
      letters and under its new distinguished name; got as far as its host name,
      by that too, and so fits; and got all the way, its assignments are under
      the new name, unless that would put two of them under one. */
  lemma TakenExactly(s: Scheme, f: State, step: Step)
    requires Lawful(s) && Inv(s, f) && step.Takes? && MayTake(f, step)
    ensures var m, u, name := f.machines[step.id], Do(s, f, step), Lower(f.rows[step.at.value].name);
      && u.machines
           == f.machines[step.id := Machine(step.newDn, name, if step.extent == NameOnly then m.host else name)]
      && (step.extent != NameOnly ==> Fits(s, u.machines[step.id].host))
      && (step.extent != InFull ==> u.rows == f.rows)
      && (step.extent == InFull && u.rows != f.rows ==> |u.rows| == |f.rows| && forall i :: 0 <= i < |f.rows| ==>
            u.rows[i] == if Lower(f.rows[i].dn) == Lower(m.dn) then f.rows[i].(dn := step.newDn) else f.rows[i])
  {
    var name := f.rows[step.at.value].name;
    assert Lower(Lower(name)) == Lower(name);
  }

  lemma LeftNameIsTold(
    s: Scheme, f: State, u: State, id: nat, k: nat, other: nat, cn: string, host: string)
    requires Lawful(s) && Inv(s, u) && Sole(f, id, k) && u.rows == f.rows
    requires other !in u.used && !Fits(s, host) && Vacant(u.machines, other, f.machines[id].dn)
    ensures AlwaysTold(s, Do(s, u, Join(other, f.machines[id].dn, cn, host)), other, f.rows[k].name)
  {
    var step := Join(other, f.machines[id].dn, cn, host);
    var v := Do(s, u, step);
    DoKeeps(s, u, step);
    assert v.machines[other] == Machine(f.machines[id].dn, cn, host);
    forall j: nat ensures RowAt(v, j, f.machines[id].dn) <==> RowAt(f, j, f.machines[id].dn) {
    }
    SoleIsTold(s, v, other, k);
  }

  /** A machine that is moved, by an administrator, to a distinguished name that
      no assignment is under is told another name from then on, and a machine
      that joins under the name it left is told the one it had. */
  lemma MoveLosesTheName(s: Scheme, f: State, id: nat, k: nat, newDn: string, newCn: string)
    requires Lawful(s) && Inv(s, f) && Sole(f, id, k) && !Fits(s, f.machines[id].host)
    requires Vacant(f.machines, id, newDn) && Finds(f.rows, newDn, None)
    ensures var u := Do(s, f, Moves(id, newDn, newCn));
      && u.rows == f.rows && id in u.machines
      && forall step: Step :: step.Asks? && step.id == id && MayAsk(u, step) ==>
           var r := AnswerTo(s, u.rows, AskOf(u, step)); r.Named? && Lower(r.name) != Lower(f.rows[k].name)
    ensures var u := Do(s, f, Moves(id, newDn, newCn));
      forall other: nat, cn: string, host: string :: other !in u.used && !Fits(s, host) ==>
        AlwaysTold(s, Do(s, u, Join(other, f.machines[id].dn, cn, host)), other, f.rows[k].name)
  {
    var dn, u := f.machines[id].dn, Do(s, f, Moves(id, newDn, newCn));
    DoKeeps(s, f, Moves(id, newDn, newCn));
    assert RowAt(f, k, dn);
    forall step: Step | step.Asks? && step.id == id && MayAsk(u, step)
      ensures var r := AnswerTo(s, u.rows, AskOf(u, step)); r.Named? && Lower(r.name) != Lower(f.rows[k].name)
    {
      NewNamesAreNew(s, u.rows, AskOf(u, step));
    }
    forall other: nat, cn: string, host: string | other !in u.used && !Fits(s, host)
      ensures AlwaysTold(s, Do(s, u, Join(other, dn, cn, host)), other, f.rows[k].name)
    {
      LeftNameIsTold(s, f, u, id, k, other, cn, host);
    }
  }

  // One run that shows it: join, ask, be moved, ask again.
  function MovedRun(host: string): seq<Step> {
    [Join(0, "CN=a,OU=x", "a", host), Asks(0, ["a"], None), Moves(0, "CN=a,OU=y", "a"), Asks(0, ["a"], None)]
  }

  lemma FirstIsTold(s: Scheme, host: string) returns (b: State)
    requires Lawful(s) && !Fits(s, host)
    ensures b == Do(s, Do(s, START, MovedRun(host)[0]), MovedRun(host)[1])
    ensures Inv(s, b) && b.machines == map[0 := Machine("CN=a,OU=x", "a", host)] && Sole(b, 0, 0)
    ensures |b.rows| == 1 && b.rows[0].dn == "CN=a,OU=x" && b.told == [Told(0, Named(b.rows[0].name))]
  {
    var steps := MovedRun(host);
    var a := Do(s, START, steps[0]);
    DoKeeps(s, START, steps[0]);
    assert MayAsk(a, steps[1]);
    b := Do(s, a, steps[1]);
    HandedGivesRow(s, a, steps[1]);
    DoKeeps(s, a, steps[1]);
  }

  lemma MovedIsToldAnother(s: Scheme, host: string)
    requires Lawful(s) && !Fits(s, host)
    ensures var told := Run(s, START, MovedRun(host)).told;
      && |told| == 2 && told[0].id == told[1].id && told[0].answer.Named? && told[1].answer.Named?
      && Lower(told[0].answer.name) != Lower(told[1].answer.name)
  {
    var steps := MovedRun(host);
    var b := FirstIsTold(s, host);
    var c := Do(s, b, steps[2]);
    Elsewhere();
    MoveLosesTheName(s, b, 0, 0, "CN=a,OU=y", "a");
    assert MayAsk(c, steps[3]);
    FourSteps(s, START, steps);
  }

  lemma Elsewhere()
    ensures Lower("CN=a,OU=x") != Lower("CN=a,OU=y")
  {
    assert Lower("CN=a,OU=x")[8] == 'x' && Lower("CN=a,OU=y")[8] == 'y';
  }

  lemma FourSteps(s: Scheme, f: State, steps: seq<Step>)
    requires |steps| == 4
    ensures Run(s, f, steps) == Do(s, Do(s, Do(s, Do(s, f, steps[0]), steps[1]), steps[2]), steps[3])
  {
    assert steps[..0] == [] && steps[..4] == steps;
    RunNext(s, f, steps, 0);
    RunNext(s, f, steps, 1);
    RunNext(s, f, steps, 2);
    RunNext(s, f, steps, 3);
  }

  // ------------------------------------------------------ the office in runs ----

  // The control plane's part of a step, on the table it keeps.
  method Happen(s: Scheme, office: Office, f: State, step: Step) returns (u: State)
    requires office.rows == f.rows
    modifies office
    ensures u == Do(s, f, step) && office.rows == u.rows
  {
    var told := f.told;
    match step {
      case Asks(id, _, _) =>
        if MayAsk(f, step) {
          var answer := office.Assign(s, AskOf(f, step));
          told := told + [Told(id, answer)];
        }
      case Takes(id, newDn, _, extent) =>
        if MayTake(f, step) && extent.InFull? {
          office.Follow(f.machines[id].dn, newDn);
        }
      case _ =>
    }
    u := State(MachinesNext(f, step), if step.Join? then f.used + {step.id} else f.used, office.rows, told);
  }

  method Live(s: Scheme, steps: seq<Step>) returns (office: Office, f: State)
    ensures f == Run(s, START, steps) && office.rows == f.rows
  {
    office := new Office();
    f := START;
    assert steps[..0] == [];
    for n := 0 to |steps|
      invariant fresh(office) && f == Run(s, START, steps[..n]) && office.rows == f.rows
    {
      RunNext(s, START, steps, n);
      f := Happen(s, office, f, steps[n]);
    }
    assert steps[..|steps|] == steps;
  }
}
