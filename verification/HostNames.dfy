/** The names machines go by, against the numbers handed out: the next number
    is taken from the directory's own names (api/odm/naming.py:105-125), while
    a machine is left alone for its host name (api/odm/routes_agent.py:152-163). */
module HostNames {
  import opened Text
  import opened Naming
  import opened Fleet

  // Some machine's name in the directory, or some assignment, is of number n.
  ghost predicate Counted(s: Scheme, f: State, n: nat) {
    || (exists i :: i in f.machines && s.number(Short(f.machines[i].cn)) == Some(n))
    || (exists k :: 0 <= k < |f.rows| && s.number(f.rows[k].name) == Some(n))
  }

  // Such a number or a higher one is.
  ghost predicate Reached(s: Scheme, f: State, n: nat) {
    n == 0 || exists m: nat :: n <= m && Counted(s, f, m)
  }

  ghost predicate HostsReached(s: Scheme, f: State) {
    forall i :: i in f.machines && Fits(s, f.machines[i].host) ==> Reached(s, f, s.number(f.machines[i].host).value)
  }

  // A new number is above that of every host name that fits.
  ghost predicate AboveHosts(s: Scheme, f: State, name: string) {
    forall i :: i in f.machines ==> s.number(name).Some? && Below(s, f.machines[i].host, s.number(name).value)
  }

  predicate HandsOut(s: Scheme, f: State, step: Step) {
    step.Asks? && MayAsk(f, step) && Issues(s, f.rows, AskOf(f, step))
  }

  function ToldThen(s: Scheme, f: State, step: Step): Answer
    requires HandsOut(s, f, step)
  {
    AnswerTo(s, f.rows, AskOf(f, step))
  }

  ghost predicate ToldAbove(s: Scheme, f: State, step: Step)
    requires HandsOut(s, f, step)
  {
    ToldThen(s, f, step).Named? && AboveHosts(s, f, ToldThen(s, f, step).name)
  }

  function NameFor(s: Scheme, f: State, step: Step): string
    requires HandsOut(s, f, step)
  {
    s.make(NextOf(s, step.found, f.rows))
  }

  lemma NameForIsTold(s: Scheme, f: State, step: Step)
    requires Lawful(s) && Inv(s, f) && HandsOut(s, f, step)
    ensures ToldThen(s, f, step) == Named(NameFor(s, f, step))
  {
    IssuingAdds(s, f.rows, AskOf(f, step));
  }

  // What is counted is below the number handed out.
  lemma CountedIsBelow(s: Scheme, f: State, step: Step, m: nat)
    requires Inv(s, f) && HandsOut(s, f, step) && Counted(s, f, m)
    ensures m < NextOf(s, step.found, f.rows)
  {
    NextIsOnePast(s, step.found, f.rows);
    if i :| i in f.machines && s.number(Short(f.machines[i].cn)) == Some(m) {
      var c :| 0 <= c < |step.found| && step.found[c] == f.machines[i].cn;
      assert Below(s, Short(step.found[c]), NextOf(s, step.found, f.rows));
    } else {
      var k :| 0 <= k < |f.rows| && s.number(f.rows[k].name) == Some(m);
      assert Below(s, f.rows[k].name, NextOf(s, step.found, f.rows));
    }
  }

  lemma ReachedAreBelow(s: Scheme, f: State, step: Step)
    requires Lawful(s) && Inv(s, f) && HandsOut(s, f, step) && HostsReached(s, f)
    ensures AboveHosts(s, f, NameFor(s, f, step))
  {
    var n := NextOf(s, step.found, f.rows);
    NextIsOnePast(s, step.found, f.rows);
    forall i | i in f.machines ensures Below(s, f.machines[i].host, n) {
      if Fits(s, f.machines[i].host) && s.number(f.machines[i].host).value > 0 {
        var m: nat :| s.number(f.machines[i].host).value <= m && Counted(s, f, m);
        CountedIsBelow(s, f, step, m);
      }
    }
    assert s.number(s.make(n)) == Some(n);
  }

  // The search that returns the fleet and nothing else.
  predicate ListsOnly(machines: map<nat, Machine>, found: seq<string>) {
    forall c :: 0 <= c < |found| ==> exists i :: i in machines && machines[i].cn == found[c]
  }

  lemma {:induction false} ExactListing(machines: map<nat, Machine>) returns (found: seq<string>)
    ensures Lists(machines, found) && ListsOnly(machines, found)
    decreases |machines|
  {
    if machines == map[] {
      found := [];
    } else {
      var i :| i in machines;
      var others := machines - {i};
      var rest := ExactListing(others);
      found := rest + [machines[i].cn];
      forall j | j in machines ensures machines[j].cn in found {
        if j != i {
          assert j in others;
        }
      }
      forall c | 0 <= c < |found| ensures exists j :: j in machines && machines[j].cn == found[c] {
        if c < |rest| {
          var j :| j in others && others[j].cn == rest[c];
          assert j in machines;
        }
      }
    }
  }

  // After an exact listing the number before the next one is counted.
  lemma NextIsCounted(s: Scheme, f: State, found: seq<string>)
    requires Inv(s, f) && ListsOnly(f.machines, found)
    ensures var n := NextOf(s, found, f.rows); n > 0 && (n > 1 ==> Counted(s, f, n - 1))
  {
    var n := NextOf(s, found, f.rows);
    NextIsOnePast(s, found, f.rows);
    if n > 1 {
      if Some(n - 1) in InDirectory(s, found) {
        var c :| 0 <= c < |found| && InDirectory(s, found)[c] == Some(n - 1);
        assert Map(Short, found)[c] == Short(found[c]);
        var i :| i in f.machines && f.machines[i].cn == found[c];
      } else {
        var j :| 0 <= j < |GivenOut(s, f.rows)| && GivenOut(s, f.rows)[j] == Some(n - 1);
        UnderMember(s, f.rows, NamesUnder(s, f.rows)[j]);
      }
    }
  }

  /** A number newly handed out is above those of all host names that fit,
      whatever the search returns, exactly when each of those is reached by a
      name in the directory or by an assignment. */
  lemma AboveHostsExactly(s: Scheme, steps: seq<Step>, id: nat)
    requires Lawful(s)
    requires var f := Run(s, START, steps);
      id in f.machines && !Fits(s, f.machines[id].host) && Finds(f.rows, f.machines[id].dn, None)
    ensures var f := Run(s, START, steps);
      (forall step: Step | HandsOut(s, f, step) && step.id == id :: ToldAbove(s, f, step))
      <==> HostsReached(s, f)
  {
    RunKeeps(s, START, steps);
    var f := Run(s, START, steps);
    if HostsReached(s, f) {
      forall step: Step | HandsOut(s, f, step) && step.id == id ensures ToldAbove(s, f, step) {
        ReachedAreBelow(s, f, step);
        NameForIsTold(s, f, step);
      }
    } else {
      NotAbove(s, f, id);
    }
  }

  lemma UnreachedIsNotBelow(s: Scheme, f: State, found: seq<string>, m: nat)
    requires Inv(s, f) && ListsOnly(f.machines, found) && !Reached(s, f, m)
    ensures NextOf(s, found, f.rows) <= m
  {
    NextIsCounted(s, f, found);
  }

  lemma NotAboveOne(s: Scheme, f: State, step: Step, i: nat)
    requires Lawful(s) && Inv(s, f) && HandsOut(s, f, step) && i in f.machines && Fits(s, f.machines[i].host)
    requires NextOf(s, step.found, f.rows) <= s.number(f.machines[i].host).value
    ensures !ToldAbove(s, f, step)
  {
    NameForIsTold(s, f, step);
    assert s.number(NameFor(s, f, step)) == Some(NextOf(s, step.found, f.rows));
    assert !Below(s, f.machines[i].host, NextOf(s, step.found, f.rows));
  }

  lemma NotAbove(s: Scheme, f: State, id: nat)
    requires Lawful(s) && Inv(s, f) && !HostsReached(s, f)
    requires id in f.machines && !Fits(s, f.machines[id].host) && Finds(f.rows, f.machines[id].dn, None)
    ensures exists step: Step :: HandsOut(s, f, step) && step.id == id && !ToldAbove(s, f, step)
  {
    var i :| i in f.machines && Fits(s, f.machines[i].host) && !Reached(s, f, s.number(f.machines[i].host).value);
    var found := ExactListing(f.machines);
    UnreachedIsNotBelow(s, f, found, s.number(f.machines[i].host).value);
    NotAboveOne(s, f, Asks(id, found, None), i);
  }

  // --------------------------------------------------------- how it is kept ----

  // The ways to a host name that nothing counts: a machine joins under another
  // name than its host's, a move renames it in the directory only, its host
  // name is set by hand to one that fits, or it takes a name though its own fits.
  datatype Ways = Ways(joins: bool, moves: bool, rehosts: bool, takes: bool)

  predicate Within(s: Scheme, f: State, step: Step, w: Ways) {
    match step
    case Join(_, _, cn, host) => w.joins || !Fits(s, host) || Lower(Short(cn)) == Lower(host)
    case Moves(id, _, newCn) => w.moves || id !in f.machines || newCn == f.machines[id].cn
    case Rehosts(_, host) => w.rehosts || !Fits(s, host)
    case Takes(id, _, _, _) => w.takes || id !in f.machines || !Fits(s, f.machines[id].host)
    case _ => true
  }

  predicate AllWithin(s: Scheme, steps: seq<Step>, w: Ways) {
    forall i :: 0 <= i < |steps| ==> Within(s, Run(s, START, steps[..i]), steps[i], w)
  }

  const NONE := Ways(false, false, false, false)

  // The machine's host name does not fit, or its own name in the directory or
  // an assignment has the number.
  ghost predicate Own(s: Scheme, f: State, m: Machine) {
    Fits(s, m.host) ==>
      || s.number(Short(m.cn)) == s.number(m.host)
      || exists k :: 0 <= k < |f.rows| && s.number(f.rows[k].name) == s.number(m.host)
  }

  ghost predicate AllOwn(s: Scheme, f: State) {
    forall i :: i in f.machines ==> Own(s, f, f.machines[i])
  }

  lemma OwnIsReached(s: Scheme, f: State)
    requires AllOwn(s, f)
    ensures HostsReached(s, f)
  {
    forall i | i in f.machines && Fits(s, f.machines[i].host)
      ensures Reached(s, f, s.number(f.machines[i].host).value)
    {
      assert Own(s, f, f.machines[i]);
      assert Counted(s, f, s.number(f.machines[i].host).value);
    }
  }

  lemma OwnStays(s: Scheme, f: State, u: State, m: Machine)
    requires Own(s, f, m) && Grown(f.rows, u.rows)
    ensures Own(s, u, m)
  {
    if k :| 0 <= k < |f.rows| && s.number(f.rows[k].name) == s.number(m.host) {
      assert u.rows[k].name == f.rows[k].name;
    }
  }

  lemma TakenIsOwn(s: Scheme, f: State, u: State, step: Step)
    requires Lawful(s) && step.Takes? && MayTake(f, step) && !Fits(s, f.machines[step.id].host)
    requires Grown(f.rows, u.rows)
    ensures Own(s, u, Taken(f, step))
  {
    var k := step.at.value;
    assert Lower(Lower(f.rows[k].name)) == Lower(f.rows[k].name);
    assert u.rows[k].name == f.rows[k].name;
  }

  predicate Alike(m: Machine, n: Machine) {
    m.cn == n.cn && m.host == n.host
  }

  predicate TakesOwn(f: State, step: Step, i: nat) {
    step.Takes? && step.id == i && MayTake(f, step)
  }

  // What becomes of one machine's names in a step.
  lemma NamesNext(s: Scheme, f: State, step: Step, i: nat)
    requires Lawful(s) && Within(s, f, step, NONE) && i in MachinesNext(f, step)
    ensures var m := MachinesNext(f, step)[i];
      || !Fits(s, m.host) || s.number(Short(m.cn)) == s.number(m.host)
      || (i in f.machines && Alike(m, f.machines[i]))
      || (TakesOwn(f, step, i) && m == Taken(f, step))
  {
  }

  lemma OwnNext(s: Scheme, f: State, step: Step, i: nat)
    requires Lawful(s) && Inv(s, f) && AllOwn(s, f) && Within(s, f, step, NONE)
    requires i in MachinesNext(f, step)
    ensures Own(s, Do(s, f, step), MachinesNext(f, step)[i])
  {
    var u, m := Do(s, f, step), MachinesNext(f, step)[i];
    RowsKept(s, f, step);
    NamesNext(s, f, step, i);
    if i in f.machines && Alike(m, f.machines[i]) {
      OwnStays(s, f, u, f.machines[i]);
    } else if TakesOwn(f, step, i) && m == Taken(f, step) && !Fits(s, f.machines[i].host) {
      TakenIsOwn(s, f, u, step);
    }
  }

  lemma {:induction false} AlwaysOwn(s: Scheme, steps: seq<Step>)
    requires Lawful(s) && AllWithin(s, steps, NONE)
    ensures AllOwn(s, Run(s, START, steps))
  {
    if |steps| > 0 {
      var n := |steps| - 1;
      var before := steps[..n];
      forall i | 0 <= i < n ensures Within(s, Run(s, START, before[..i]), before[i], NONE) {
        assert before[..i] == steps[..i];
      }
      AlwaysOwn(s, before);
      RunKeeps(s, START, before);
      var f := Run(s, START, before);
      forall i | i in MachinesNext(f, steps[n]) ensures Own(s, Do(s, f, steps[n]), MachinesNext(f, steps[n])[i]) {
        OwnNext(s, f, steps[n], i);
      }
    }
  }

  // ----------------------------------------------------------- host names ----

  // The name handed out is no machine's host name, in whatever case.
  predicate SparesHosts(s: Scheme, f: State, step: Step) {
    HandsOut(s, f, step) && ToldThen(s, f, step).Named? ==>
      forall i :: i in f.machines ==> Lower(f.machines[i].host) != Lower(ToldThen(s, f, step).name)
  }

  ghost predicate AlwaysSparesHosts(s: Scheme, w: Ways) {
    forall steps: seq<Step>, step: Step ::
      AllWithin(s, steps, w) ==> SparesHosts(s, Run(s, START, steps), step)
  }

  lemma WithinNoneSpares(s: Scheme, steps: seq<Step>, step: Step)
    requires Lawful(s) && AllWithin(s, steps, NONE)
    ensures SparesHosts(s, Run(s, START, steps), step)
  {
    var f := Run(s, START, steps);
    if HandsOut(s, f, step) {
      RunKeeps(s, START, steps);
      AlwaysOwn(s, steps);
      OwnIsReached(s, f);
      ReachedAreBelow(s, f, step);
      NameForIsTold(s, f, step);
      forall i | i in f.machines ensures Lower(f.machines[i].host) != Lower(NameFor(s, f, step)) {
        assert s.number(NameFor(s, f, step)).Some?;
      }
    }
  }

  // ------------------------------------------------- one run for each way ----

  lemma Played(s: Scheme, w: Ways, steps: seq<Step>, f: State, step: Step) returns (played: seq<Step>, u: State)
    requires AllWithin(s, steps, w) && f == Run(s, START, steps) && Within(s, f, step, w)
    ensures AllWithin(s, played, w) && u == Do(s, f, step) && u == Run(s, START, played)
  {
    played, u := steps + [step], Do(s, f, step);
    var n := |steps|;
    assert played[..n] == steps;
    forall i | 0 <= i < |played| ensures Within(s, Run(s, START, played[..i]), played[i], w) {
      if i < n {
        assert played[..i] == steps[..i] && played[i] == steps[i];
      }
    }
  }

  lemma NamesApart()
    ensures Lower("CN=a") != Lower("CN=b") && Lower("CN=a") != Lower("CN=c") && Lower("CN=a") != Lower("CN=n")
    ensures Lower("CN=b") != Lower("CN=c") && Lower("CN=b") != Lower("CN=n")
  {
    assert Lower("CN=a")[3] == 'a' && Lower("CN=b")[3] == 'b' && Lower("CN=c")[3] == 'c' && Lower("CN=n")[3] == 'n';
  }

  // The first number is 1 while nothing that was found has one.
  lemma FirstIsOne(s: Scheme, plain: string)
    requires !Fits(s, Short(plain))
    ensures NextOf(s, [plain], []) == 1
  {
    NextIsOnePast(s, [plain], []);
    assert InDirectory(s, [plain]) == [None] by {
      assert Map(Short, [plain]) == [Short(plain)];
    }
  }

  // A machine whose host name is the first name, known to the directory by
  // another, and a newcomer.
  function Unseen(s: Scheme, dn: string, plain: string): State {
    State(map[0 := Machine(dn, plain, s.make(1)), 1 := Machine("CN=b", plain, plain)], {0, 1}, [], [])
  }

  function One(dn: string, cn: string, host: string): State {
    State(map[0 := Machine(dn, cn, host)], {0}, [], [])
  }

  lemma SecondJoins(s: Scheme, dn: string, plain: string)
    requires Lower(dn) != Lower("CN=b")
    ensures Do(s, One(dn, plain, s.make(1)), Join(1, "CN=b", plain, plain)) == Unseen(s, dn, plain)
  {
  }

  lemma UnseenCollides(s: Scheme, dn: string, plain: string)
    requires Lawful(s) && !Fits(s, plain) && '.' !in plain && Lower(dn) != Lower("CN=b")
    ensures !SparesHosts(s, Unseen(s, dn, plain), Asks(1, [plain], None))
  {
    var f, step := Unseen(s, dn, plain), Asks(1, [plain], None);
    UpToAll(plain, '.');
    FirstIsOne(s, plain);
    assert [plain][0] == plain;
    assert HandsOut(s, f, step);
    NameForIsTold(s, f, step);
    assert f.machines[0].host == NameFor(s, f, step);
  }

  lemma OddJoinCollides(s: Scheme, plain: string, w: Ways)
    requires Lawful(s) && !Fits(s, plain) && '.' !in plain && w.joins
    ensures !AlwaysSparesHosts(s, w)
  {
    var steps, f := [], START;
    steps, f := Played(s, w, steps, f, Join(0, "CN=a", plain, s.make(1)));
    assert f == One("CN=a", plain, s.make(1));
    NamesApart();
    SecondJoins(s, "CN=a", plain);
    steps, f := Played(s, w, steps, f, Join(1, "CN=b", plain, plain));
    UnseenCollides(s, "CN=a", plain);
  }

  lemma MoveCollides(s: Scheme, plain: string, w: Ways)
    requires Lawful(s) && !Fits(s, plain) && '.' !in plain && w.moves
    ensures !AlwaysSparesHosts(s, w)
  {
    var steps, f, name := [], START, s.make(1);
    UpToAll(name, '.');
    NamesApart();
    steps, f := Played(s, w, steps, f, Join(0, "CN=a", name, name));
    steps, f := Played(s, w, steps, f, Moves(0, "CN=c", plain));
    assert f == One("CN=c", plain, name);
    SecondJoins(s, "CN=c", plain);
    steps, f := Played(s, w, steps, f, Join(1, "CN=b", plain, plain));
    UnseenCollides(s, "CN=c", plain);
  }

  lemma RehostCollides(s: Scheme, plain: string, w: Ways)
    requires Lawful(s) && !Fits(s, plain) && '.' !in plain && w.rehosts
    ensures !AlwaysSparesHosts(s, w)
  {
    var steps, f := [], START;
    NamesApart();
    steps, f := Played(s, w, steps, f, Join(0, "CN=a", plain, plain));
    steps, f := Played(s, w, steps, f, Rehosts(0, s.make(1)));
    assert f == One("CN=a", plain, s.make(1));
    SecondJoins(s, "CN=a", plain);
    steps, f := Played(s, w, steps, f, Join(1, "CN=b", plain, plain));
    UnseenCollides(s, "CN=a", plain);
  }

  // A machine that took the name on a row it found under its distinguished
  // name, in the directory only, while its host name was already the next.
  function Retaken(s: Scheme, plain: string): State {
    State(
      map[1 := Machine("CN=n", Lower(s.make(1)), s.make(2)), 2 := Machine("CN=b", plain, plain)], {0, 1, 2},
      [Row("CN=a", s.make(1), s.template)], [Told(0, Named(s.make(1)))])
  }

  lemma SecondIsTwo(s: Scheme, plain: string, dn: string)
    requires Lawful(s) && !Fits(s, plain) && '.' !in plain
    ensures NextOf(s, [Lower(s.make(1)), plain], [Row(dn, s.make(1), s.template)]) == 2
  {
    var name := Lower(s.make(1));
    var found, rows := [name, plain], [Row(dn, s.make(1), s.template)];
    assert '.' !in name;
    UpToAll(name, '.');
    UpToAll(plain, '.');
    assert Lower(name) == Lower(s.make(1));
    assert InDirectory(s, found) == [Some(1), None] by {
      assert Map(Short, found) == [name, plain];
    }
    assert GivenOut(s, rows) == [Some(1)] by {
      assert rows[..0] == [];
      assert NamesUnder(s, rows) == [s.make(1)];
    }
    NextIsOnePast(s, found, rows);
    assert Below(s, rows[0].name, NextOf(s, found, rows));
  }

  lemma RetakenCollides(s: Scheme, plain: string)
    requires Lawful(s) && !Fits(s, plain) && '.' !in plain
    ensures !SparesHosts(s, Retaken(s, plain), Asks(2, [Lower(s.make(1)), plain], None))
  {
    var f, found := Retaken(s, plain), [Lower(s.make(1)), plain];
    var step := Asks(2, found, None);
    NamesApart();
    SecondIsTwo(s, plain, "CN=a");
    assert found[0] == Lower(s.make(1)) && found[1] == plain;
    assert HandsOut(s, f, step);
    NameForIsTold(s, f, step);
    assert f.machines[1].host == NameFor(s, f, step);
  }

  // The first machine, and what it is told.
  function First(plain: string): State {
    State(map[0 := Machine("CN=a", plain, plain)], {0}, [], [])
  }

  lemma FirstIsHandedOut(s: Scheme, plain: string)
    requires Lawful(s) && !Fits(s, plain) && '.' !in plain
    ensures Do(s, First(plain), Asks(0, [plain], None))
      == First(plain).(rows := [Row("CN=a", s.make(1), s.template)], told := [Told(0, Named(s.make(1)))])
  {
    var f, ask := First(plain), Asks(0, [plain], None);
    UpToAll(plain, '.');
    FirstIsOne(s, plain);
    assert [plain][0] == plain;
    assert HandsOut(s, f, ask);
    IssuingAdds(s, f.rows, AskOf(f, ask));
  }

  // That machine is deleted.
  function Left(s: Scheme): State {
    State(map[], {0}, [Row("CN=a", s.make(1), s.template)], [Told(0, Named(s.make(1)))])
  }

  lemma LeftIsReached(s: Scheme, w: Ways, plain: string) returns (steps: seq<Step>)
    requires Lawful(s) && !Fits(s, plain) && '.' !in plain
    ensures AllWithin(s, steps, w) && Run(s, START, steps) == Left(s)
  {
    var f;
    steps, f := Played(s, w, [], START, Join(0, "CN=a", plain, plain));
    assert f == First(plain);
    FirstIsHandedOut(s, plain);
    steps, f := Played(s, w, steps, f, Asks(0, [plain], None));
    steps, f := Played(s, w, steps, f, Leaves(0));
    assert f == Left(s);
  }

  // Another joins in its place, with a host name that fits.
  function Replaced(s: Scheme): State {
    Left(s).(machines := map[1 := Machine("CN=a", s.make(2), s.make(2))], used := {0, 1})
  }

  lemma OtherJoins(s: Scheme)
    ensures Do(s, Left(s), Join(1, "CN=a", s.make(2), s.make(2))) == Replaced(s)
  {
  }

  lemma OtherTakes(s: Scheme, plain: string)
    ensures var f := Do(s, Replaced(s), Takes(1, "CN=n", Some(0), NameOnly));
      Do(s, f, Join(2, "CN=b", plain, plain)) == Retaken(s, plain)
  {
    assert MayTake(Replaced(s), Takes(1, "CN=n", Some(0), NameOnly));
    NamesApart();
  }

  lemma TakeIsReached(s: Scheme, plain: string, w: Ways) returns (steps: seq<Step>)
    requires Lawful(s) && !Fits(s, plain) && '.' !in plain && w.takes
    ensures AllWithin(s, steps, w) && Run(s, START, steps) == Retaken(s, plain)
  {
    var f;
    steps := LeftIsReached(s, w, plain);
    UpToAll(s.make(2), '.');
    OtherJoins(s);
    steps, f := Played(s, w, steps, Left(s), Join(1, "CN=a", s.make(2), s.make(2)));
    OtherTakes(s, plain);
    steps, f := Played(s, w, steps, f, Takes(1, "CN=n", Some(0), NameOnly));
    steps, f := Played(s, w, steps, f, Join(2, "CN=b", plain, plain));
  }

  lemma TakeCollides(s: Scheme, plain: string, w: Ways)
    requires Lawful(s) && !Fits(s, plain) && '.' !in plain && w.takes
    ensures !AlwaysSparesHosts(s, w)
  {
    var steps := TakeIsReached(s, plain, w);
    RetakenCollides(s, plain);
  }

  /** In every run the name handed out is no machine's host name, exactly when
      machines join under their host names, moves keep the name in the
      directory, hands set no host name that fits, and only machines that do not
      fit take names. Any one of these left out, a run has two machines left
      with, or told, the same host name. */
  lemma HostsSparedExactly(s: Scheme, plain: string, w: Ways)
    requires Lawful(s) && !Fits(s, plain) && '.' !in plain
    ensures AlwaysSparesHosts(s, w) <==> w == NONE
  {
    if w.joins {
      OddJoinCollides(s, plain, w);
    } else if w.moves {
      MoveCollides(s, plain, w);
    } else if w.rehosts {
      RehostCollides(s, plain, w);
    } else if w.takes {
      TakeCollides(s, plain, w);
    } else {
      forall steps: seq<Step>, step: Step | AllWithin(s, steps, w) ensures SparesHosts(s, Run(s, START, steps), step) {
        WithinNoneSpares(s, steps, step);
      }
    }
  }

  /** So it is with every template. */
  lemma TemplatesSpareHosts(t: Template, w: Ways)
    requires IsTemplate(t)
    ensures AlwaysSparesHosts(SchemeOf(t), w) <==> w == NONE
  {
    TemplatesAreLawful(t);
    assert NumberIn(t, "").None?;
    HostsSparedExactly(SchemeOf(t), "", w);
  }
}
