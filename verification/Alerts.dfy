/** The table of alerts, reconciled with what each pass judged firing
    (api/odm/monitor.py). */
module Alerts {
  import opened Text
  import opened Monitoring

  datatype Alert = Alert(rule: nat, key: Key, firing: bool, value: real, suppressed: bool, notified: bool)

  datatype Notice = Notice(id: nat, opening: bool)

  // The alert table and what was told about it. `resolved` is every alert
  // that was ever marked resolved, kept or swept since.
  datatype Table = Table(rows: map<nat, Alert>, next: nat, sent: seq<Notice>, resolved: set<nat>)

  predicate Firing(t: Table, id: nat) {
    id in t.rows && t.rows[id].firing
  }

  predicate FiringFor(t: Table, id: nat, rule: nat, key: Key) {
    Firing(t, id) && t.rows[id].rule == rule && t.rows[id].key == key
  }

  ghost predicate FiresAt(t: Table, rule: nat, key: Key) {
    exists id: nat :: FiringFor(t, id, rule, key)
  }

  // ------------------------------------------------------------ invariant ----

  ghost predicate NumbersUsed(t: Table) {
    && (forall id :: id in t.rows ==> id < t.next)
    && (forall id :: id in t.resolved ==> id < t.next)
    && (forall n :: n in t.sent ==> n.id < t.next)
  }

  // No two firing alerts for one rule and series.
  ghost predicate OnePerSeries(t: Table) {
    forall i: nat, j: nat, rule: nat, key: Key :: FiringFor(t, i, rule, key) && FiringFor(t, j, rule, key) ==> i == j
  }

  // What was resolved does not fire, and what is kept without firing was resolved.
  ghost predicate ResolvedStays(t: Table) {
    && (forall id :: id in t.resolved ==> !Firing(t, id))
    && (forall id :: id in t.rows && !t.rows[id].firing ==> id in t.resolved)
  }

  // Nothing is told twice, nor a resolution before it happened.
  ghost predicate ToldOnce(t: Table) {
    && (forall i, j :: 0 <= i < j < |t.sent| ==> t.sent[i] != t.sent[j])
    && (forall n :: n in t.sent && !n.opening ==> n.id in t.resolved)
  }

  ghost predicate Sound(t: Table) {
    NumbersUsed(t) && OnePerSeries(t) && ResolvedStays(t) && ToldOnce(t)
  }

  // ------------------------------------------------------- single statements ----

  function Touched(t: Table, id: nat, value: real): Table
    requires id in t.rows
  {
    t.(rows := t.rows[id := t.rows[id].(value := value)])
  }

  function Opened(t: Table, rule: nat, key: Key, value: real, suppressed: bool): Table {
    t.(rows := t.rows[t.next := Alert(rule, key, true, value, suppressed, false)], next := t.next + 1)
  }

  function Told(t: Table, n: Notice): Table {
    t.(sent := t.sent + [n])
  }

  function MarkedTold(t: Table, id: nat): Table
    requires id in t.rows
  {
    t.(rows := t.rows[id := t.rows[id].(notified := true)])
  }

  function Closed(t: Table, id: nat): Table
    requires id in t.rows
  {
    t.(rows := t.rows[id := t.rows[id].(firing := false)], resolved := t.resolved + {id})
  }

  // An operator removes a rule, and its alerts with it.
  function WithoutRule(t: Table, rule: nat): Table {
    t.(rows := map id | id in t.rows && t.rows[id].rule != rule :: t.rows[id])
  }

  // The hourly sweep removes resolved alerts, old ones.
  function Swept(t: Table, old_: set<nat>): Table {
    t.(rows := map id | id in t.rows && !(id in old_ && !t.rows[id].firing) :: t.rows[id])
  }

  lemma TouchedSound(t: Table, id: nat, value: real)
    requires Sound(t) && id in t.rows
    ensures Sound(Touched(t, id, value))
    ensures forall i: nat, r: nat, k: Key :: FiringFor(Touched(t, id, value), i, r, k) <==> FiringFor(t, i, r, k)
  {
    var u := Touched(t, id, value);
    assert forall i: nat, r: nat, k: Key :: FiringFor(u, i, r, k) <==> FiringFor(t, i, r, k);
  }

  lemma MarkedToldSound(t: Table, id: nat)
    requires Sound(t) && id in t.rows
    ensures Sound(MarkedTold(t, id))
    ensures forall i: nat, r: nat, k: Key :: FiringFor(MarkedTold(t, id), i, r, k) <==> FiringFor(t, i, r, k)
  {
    var u := MarkedTold(t, id);
    assert forall i: nat, r: nat, k: Key :: FiringFor(u, i, r, k) <==> FiringFor(t, i, r, k);
  }

  lemma OpenedSound(t: Table, rule: nat, key: Key, value: real, suppressed: bool)
    requires Sound(t) && !FiresAt(t, rule, key)
    ensures var u := Opened(t, rule, key, value, suppressed);
      && Sound(u) && Notice(t.next, true) !in u.sent
      && forall i: nat, r: nat, k: Key ::
           FiringFor(u, i, r, k) <==> FiringFor(t, i, r, k) || (i == t.next && r == rule && k == key)
  {
    var u := Opened(t, rule, key, value, suppressed);
    assert t.next !in t.rows;
    assert forall i: nat, r: nat, k: Key ::
        FiringFor(u, i, r, k) <==> FiringFor(t, i, r, k) || (i == t.next && r == rule && k == key);
    assert OnePerSeries(u);
    assert ResolvedStays(u);
  }

  lemma ToldSound(t: Table, n: Notice)
    requires Sound(t) && n !in t.sent && n.id < t.next && (!n.opening ==> n.id in t.resolved)
    ensures Sound(Told(t, n))
  {
    assert OnePerSeries(Told(t, n)) by {
      assert forall i: nat, r: nat, k: Key :: FiringFor(Told(t, n), i, r, k) <==> FiringFor(t, i, r, k);
    }
  }

  lemma ClosedSound(t: Table, id: nat)
    requires Sound(t) && Firing(t, id)
    ensures var u := Closed(t, id);
      && Sound(u) && Notice(id, false) !in u.sent
      && forall i: nat, r: nat, k: Key :: FiringFor(u, i, r, k) <==> FiringFor(t, i, r, k) && i != id
  {
    var u := Closed(t, id);
    assert forall i: nat, r: nat, k: Key :: FiringFor(u, i, r, k) <==> FiringFor(t, i, r, k) && i != id;
  }

  lemma RemovedSound(t: Table, u: Table)
    requires Sound(t) && u.next == t.next && u.sent == t.sent && u.resolved == t.resolved
    requires forall id :: id in u.rows ==> id in t.rows && u.rows[id] == t.rows[id]
    ensures Sound(u)
  {
    assert forall i: nat, r: nat, k: Key :: FiringFor(u, i, r, k) ==> FiringFor(t, i, r, k);
  }

  // --------------------------------------------------------------- one pass ----

  // What one rule's part of a pass may do to the table: history only grows,
  // rows keep what they are about, other rules' rows and rows no longer
  // firing stay as they are.
  ghost predicate Advanced(t: Table, u: Table, rule: nat) {
    && t.next <= u.next && t.sent <= u.sent && t.resolved <= u.resolved
    && (forall id :: id in t.rows ==>
          && id in u.rows && u.rows[id].rule == t.rows[id].rule && u.rows[id].key == t.rows[id].key
          && u.rows[id].suppressed == t.rows[id].suppressed)
    && (forall id :: id in t.rows && (t.rows[id].rule != rule || !t.rows[id].firing) ==> u.rows[id] == t.rows[id])
    && (forall id :: id in u.rows && id !in t.rows ==> u.rows[id].rule == rule)
  }

  lemma AdvancedFurther(t: Table, u: Table, v: Table, rule: nat)
    requires Sound(t) && Advanced(t, u, rule) && Advanced(u, v, rule)
    ensures Advanced(t, v, rule)
  {
  }

  // How many more statements a pass gets to do before it is cut; None when it
  // is not cut.
  type Budget = Option<nat>

  predicate Lasts(b: Budget, n: nat) {
    b.None? || b.value >= n
  }

  function Less(b: Budget, n: nat): Budget
    requires Lasts(b, n)
  {
    if b.None? then b else Some(b.value - n)
  }

  // The openings from one table to another were told, but not those of a
  // host under maintenance, which are marked instead.
  ghost predicate OpeningsTold(t: Table, u: Table, quiet: string -> bool) {
    forall id :: t.next <= id < u.next ==>
      && id in u.rows && u.rows[id].suppressed == quiet(u.rows[id].key.host)
      && (Notice(id, true) in u.sent <==> !u.rows[id].suppressed)
  }

  ghost predicate ClosingsTold(t: Table, u: Table, quiet: string -> bool) {
    forall id :: id in u.resolved && id !in t.resolved ==>
      id in u.rows && (Notice(id, false) in u.sent <==> !quiet(u.rows[id].key.host))
  }

  // Opens one alert and tells of it: three statements, any of which may be
  // the last one done.
  method OpenOne(t: Table, rule: nat, key: Key, value: real, quiet: bool, budget: Budget)
    returns (u: Table, left: Budget, done: bool)
    requires Sound(t) && !FiresAt(t, rule, key)
    ensures Sound(u) && Advanced(t, u, rule) && u.resolved == t.resolved
    ensures forall i: nat, r: nat, k: Key | i != t.next :: FiringFor(u, i, r, k) <==> FiringFor(t, i, r, k)
    ensures forall i :: i in t.rows ==> i in u.rows && u.rows[i] == t.rows[i]
    ensures u.next == t.next || (u.next == t.next + 1 && FiringFor(u, t.next, rule, key))
    ensures u.next > t.next ==> u.rows[t.next].(notified := false) == Alert(rule, key, true, value, quiet, false)
    ensures done ==> u.next == t.next + 1 && u.rows[t.next].notified == !quiet
    ensures done ==> (Notice(t.next, true) in u.sent <==> !quiet)
    ensures forall n :: n in u.sent && n !in t.sent ==> n == Notice(t.next, true)
    ensures budget.None? ==> done && left.None?
  {
    if !Lasts(budget, 1) {
      return t, budget, false;
    }
    u := Opened(t, rule, key, value, quiet);
    OpenedSound(t, rule, key, value, quiet);
    if quiet {
      return u, Less(budget, 1), true;
    }
    if !Lasts(budget, 2) {
      return u, Less(budget, 1), false;
    }
    ToldSound(u, Notice(t.next, true));
    u := Told(u, Notice(t.next, true));
    if !Lasts(budget, 3) {
      return u, Less(budget, 2), false;
    }
    MarkedToldSound(u, t.next);
    u := MarkedTold(u, t.next);
    return u, Less(budget, 3), true;
  }

  method CloseOne(t: Table, id: nat, quiet: bool, budget: Budget) returns (u: Table, left: Budget, done: bool)
    requires Sound(t) && Firing(t, id)
    ensures Sound(u) && Advanced(t, u, t.rows[id].rule) && u.next == t.next
    ensures forall i: nat, r: nat, k: Key | i != id :: FiringFor(u, i, r, k) <==> FiringFor(t, i, r, k)
    ensures forall i :: i in t.rows && i != id ==> i in u.rows && u.rows[i] == t.rows[i]
    ensures u == t || (u.resolved == t.resolved + {id} && u.rows[id] == t.rows[id].(firing := false))
    ensures done ==> u != t && (Notice(id, false) in u.sent <==> !quiet)
    ensures forall n :: n in u.sent && n !in t.sent ==> n == Notice(id, false)
    ensures budget.None? ==> done && left.None?
  {
    if !Lasts(budget, 1) {
      return t, budget, false;
    }
    u := Closed(t, id);
    ClosedSound(t, id);
    assert u.resolved != t.resolved;
    if quiet {
      return u, Less(budget, 1), true;
    }
    if !Lasts(budget, 2) {
      return u, Less(budget, 1), false;
    }
    ToldSound(u, Notice(id, false));
    u := Told(u, Notice(id, false));
    return u, Less(budget, 2), true;
  }

  // The firing alerts of one rule, by series.
  ghost predicate IsOpen(t: Table, rule: nat, open: map<Key, nat>) {
    && (forall k :: k in open ==> FiringFor(t, open[k], rule, k))
    && (forall id: nat, k :: FiringFor(t, id, rule, k) ==> k in open && open[k] == id)
  }

  function OpenKeys(t: Table, rule: nat): (r: map<Key, nat>)
    requires forall i: nat, j: nat, k: Key :: FiringFor(t, i, rule, k) && FiringFor(t, j, rule, k) ==> i == j
    ensures IsOpen(t, rule, r)
  {
    map id | id in t.rows && FiringFor(t, id, rule, t.rows[id].key) :: t.rows[id].key := id
  }

  // While opening, wherever it is cut: nothing stops firing, and only what
  // was judged firing starts to.
  ghost predicate Opening(t: Table, u: Table, rule: nat, keys: set<Key>) {
    && u.resolved == t.resolved && Advanced(t, u, rule)
    && (forall i: nat, k :: FiringFor(t, i, rule, k) ==> FiringFor(u, i, rule, k))
    && (forall i: nat, k :: FiringFor(u, i, rule, k) && !FiringFor(t, i, rule, k) ==> k in keys)
  }

  ghost predicate AllFire(u: Table, rule: nat, keys: set<Key>) {
    forall k :: k in keys ==> FiresAt(u, rule, k)
  }

  // The alerts seen to so far show the value now judged.
  ghost predicate Current(u: Table, rule: nat, keys: set<Key>, firing: map<Key, real>) {
    forall i: nat, k :: FiringFor(u, i, rule, k) && k in keys && k in firing ==> u.rows[i].value == firing[k]
  }

  lemma TouchedCurrent(u: Table, rule: nat, did: set<Key>, k: Key, id: nat, firing: map<Key, real>)
    requires Sound(u) && FiringFor(u, id, rule, k) && k in firing && Current(u, rule, did, firing)
    ensures Current(Touched(u, id, firing[k]), rule, did + {k}, firing)
  {
    var v := Touched(u, id, firing[k]);
    forall i: nat, l | FiringFor(v, i, rule, l) && l in did + {k} && l in firing ensures v.rows[i].value == firing[l] {
      assert FiringFor(u, i, rule, l);
    }
  }

  lemma OpenedCurrent(u: Table, v: Table, rule: nat, did: set<Key>, k: Key, firing: map<Key, real>)
    requires Sound(u) && Sound(v) && k in firing && Current(u, rule, did, firing)
    requires forall i: nat, r: nat, l: Key | i != u.next :: FiringFor(v, i, r, l) <==> FiringFor(u, i, r, l)
    requires forall i :: i in u.rows ==> i in v.rows && v.rows[i] == u.rows[i]
    requires FiringFor(v, u.next, rule, k) && v.rows[u.next].value == firing[k]
    ensures Current(v, rule, did + {k}, firing)
  {
    forall i: nat, l | FiringFor(v, i, rule, l) && l in did + {k} && l in firing ensures v.rows[i].value == firing[l] {
      if i != u.next {
        assert FiringFor(u, i, rule, l);
        assert l == k ==> FiringFor(v, i, rule, k);
      }
    }
  }

  lemma TouchAdvances(t: Table, u: Table, rule: nat, did: set<Key>, k: Key, id: nat, value: real)
    requires Sound(u) && FiringFor(u, id, rule, k)
    requires Opening(t, u, rule, did) && AllFire(u, rule, did)
    ensures var v := Touched(u, id, value);
      && Sound(v) && Opening(t, v, rule, did + {k}) && AllFire(v, rule, did + {k})
  {
    var v := Touched(u, id, value);
    TouchedSound(u, id, value);
    forall l | l in did + {k} ensures FiresAt(v, rule, l) {
      var i: nat :| FiringFor(u, i, rule, l);
      assert FiringFor(v, i, rule, l);
    }
  }

  // The statements that open one alert, done in full or in part.
  lemma OpenAdvances(t: Table, u: Table, v: Table, rule: nat, did: set<Key>, k: Key)
    requires Sound(t) && Sound(u) && Opening(t, u, rule, did) && Advanced(u, v, rule) && v.resolved == u.resolved
    requires forall i: nat, r: nat, l: Key | i != u.next :: FiringFor(v, i, r, l) <==> FiringFor(u, i, r, l)
    requires v.next == u.next || FiringFor(v, u.next, rule, k)
    requires Sound(v)
    ensures Opening(t, v, rule, did + {k})
    ensures AllFire(u, rule, did) && v.next > u.next ==> AllFire(v, rule, did + {k})
  {
    forall i: nat, l | FiringFor(u, i, rule, l) ensures FiringFor(v, i, rule, l) {
      assert i < u.next;
    }
    if AllFire(u, rule, did) && v.next > u.next {
      forall l | l in did + {k} ensures FiresAt(v, rule, l) {
        if l != k {
          var i: nat :| FiringFor(u, i, rule, l);
          assert FiringFor(v, i, rule, l);
        }
      }
    }
  }

  lemma OpeningTold(t: Table, u: Table, v: Table, rule: nat, k: Key, quiet: string -> bool)
    requires Sound(u) && OpeningsTold(t, u, quiet) && Advanced(u, v, rule) && v.next == u.next + 1
    requires FiringFor(v, u.next, rule, k) && v.rows[u.next].suppressed == quiet(k.host)
    requires Notice(u.next, true) in v.sent <==> !quiet(k.host)
    requires forall n :: n in v.sent && n !in u.sent ==> n == Notice(u.next, true)
    ensures OpeningsTold(t, v, quiet)
  {
    forall id | t.next <= id < v.next
      ensures id in v.rows && v.rows[id].suppressed == quiet(v.rows[id].key.host)
      ensures Notice(id, true) in v.sent <==> !v.rows[id].suppressed
    {
      if id < u.next {
        assert id in u.rows && v.rows[id].key == u.rows[id].key && v.rows[id].suppressed == u.rows[id].suppressed;
      }
    }
  }

  // One turn of the first loop: touch what fires already, open what newly does.
  method OpenKey(ghost t: Table, u: Table, rule: nat, ghost did: set<Key>, open: map<Key, nat>, k: Key,
                 firing: map<Key, real>, quiet: string -> bool, budget: Budget)
    returns (v: Table, left: Budget, done: bool)
    requires Sound(t) && Sound(u) && IsOpen(t, rule, open) && k !in did && k in firing
    requires Opening(t, u, rule, did) && AllFire(u, rule, did)
    requires Current(u, rule, did, firing) && OpeningsTold(t, u, quiet)
    ensures Sound(v) && Opening(t, v, rule, did + {k})
    ensures done ==> AllFire(v, rule, did + {k}) && Current(v, rule, did + {k}, firing) && OpeningsTold(t, v, quiet)
    ensures budget.None? ==> done && left.None?
  {
    if k in open {
      assert FiringFor(t, open[k], rule, k);
      if !Lasts(budget, 1) {
        return u, budget, false;
      }
      TouchAdvances(t, u, rule, did, k, open[k], firing[k]);
      TouchedCurrent(u, rule, did, k, open[k], firing);
      return Touched(u, open[k], firing[k]), Less(budget, 1), true;
    }
    v, left, done := OpenOne(u, rule, k, firing[k], quiet(k.host), budget);
    OpenAdvances(t, u, v, rule, did, k);
    if done {
      OpeningTold(t, u, v, rule, k, quiet);
      OpenedCurrent(u, v, rule, did, k, firing);
    }
  }

  // The first loop of a pass.
  method OpenNew(
    t: Table, rule: nat, open: map<Key, nat>, firing: map<Key, real>, quiet: string -> bool, budget: Budget)
    returns (u: Table, left: Budget, done: bool)
    requires Sound(t) && IsOpen(t, rule, open)
    ensures Sound(u) && Opening(t, u, rule, firing.Keys)
    ensures done ==> AllFire(u, rule, firing.Keys) && Current(u, rule, firing.Keys, firing) && OpeningsTold(t, u, quiet)
    ensures budget.None? ==> done && left.None?
  {
    u, left := t, budget;
    ghost var did: set<Key> := {};
    var todo := firing.Keys;
    while todo != {}
      invariant did + todo == firing.Keys && did !! todo && Sound(u) && (budget.None? ==> left.None?)
      invariant Opening(t, u, rule, did) && AllFire(u, rule, did) && Current(u, rule, did, firing)
      invariant OpeningsTold(t, u, quiet)
      decreases todo
    {
      var k :| k in todo;
      u, left, done := OpenKey(t, u, rule, did, open, k, firing, quiet, left);
      if !done {
        assert did + {k} <= firing.Keys;
        return;
      }
      did, todo := did + {k}, todo - {k};
    }
    assert did == firing.Keys;
    done := true;
  }

  // ------------------------------------------------------- the second loop ----

  // While closing, wherever it is cut: what was judged firing still fires.
  ghost predicate Closing(t: Table, u: Table, rule: nat, keys: set<Key>) {
    && u.next == t.next && Advanced(t, u, rule)
    && (forall n :: n in u.sent && n !in t.sent ==> !n.opening)
    && (forall i: nat, k :: FiringFor(u, i, rule, k) ==> FiringFor(t, i, rule, k) && u.rows[i] == t.rows[i])
    && (forall i: nat, k :: FiringFor(t, i, rule, k) && !FiringFor(u, i, rule, k) ==> k in keys)
  }

  ghost predicate NoneFire(u: Table, rule: nat, keys: set<Key>) {
    forall k :: k in keys ==> !FiresAt(u, rule, k)
  }

  lemma CloseAdvances(t: Table, u: Table, v: Table, rule: nat, did: set<Key>, k: Key, id: nat)
    requires Sound(u) && Closing(t, u, rule, did) && Advanced(u, v, rule) && v.next == u.next
    requires FiringFor(u, id, rule, k)
    requires forall n :: n in v.sent && n !in u.sent ==> !n.opening
    requires forall i: nat, r: nat, l: Key | i != id :: FiringFor(v, i, r, l) <==> FiringFor(u, i, r, l)
    requires forall i :: i in u.rows && i != id ==> i in v.rows && v.rows[i] == u.rows[i]
    requires Firing(v, id) ==> v.rows[id] == u.rows[id]
    ensures Closing(t, v, rule, did + {k})
    ensures NoneFire(u, rule, did) && !Firing(v, id) ==> NoneFire(v, rule, did + {k})
  {
    forall i: nat, l | FiringFor(v, i, rule, l) ensures FiringFor(u, i, rule, l) {
      if i == id {
        assert v.rows[id].key == u.rows[id].key;
      }
    }
    if NoneFire(u, rule, did) && !Firing(v, id) {
      forall l, i: nat | l in did + {k} ensures !FiringFor(v, i, rule, l) {
        if FiringFor(v, i, rule, l) {
          assert FiringFor(u, i, rule, l) && i != id;
          assert l in did ==> FiresAt(u, rule, l);
        }
      }
    }
  }

  lemma ClosingTold(t: Table, u: Table, v: Table, rule: nat, k: Key, id: nat, quiet: string -> bool)
    requires Sound(u) && ClosingsTold(t, u, quiet) && Advanced(u, v, rule)
    requires FiringFor(u, id, rule, k) && v.resolved == u.resolved + {id}
    requires Notice(id, false) in v.sent <==> !quiet(k.host)
    requires forall n :: n in v.sent && n !in u.sent ==> n == Notice(id, false)
    ensures ClosingsTold(t, v, quiet)
  {
    forall j | j in v.resolved && j !in t.resolved
      ensures j in v.rows && (Notice(j, false) in v.sent <==> !quiet(v.rows[j].key.host))
    {
      if j != id {
        assert j in u.rows && v.rows[j].key == u.rows[j].key;
      }
    }
  }

  // One turn of the second loop: resolve what no longer fires.
  method CloseKey(ghost t: Table, u: Table, rule: nat, ghost did: set<Key>, k: Key, id: nat, quiet: string -> bool,
                  budget: Budget)
    returns (v: Table, left: Budget, done: bool)
    requires Sound(u) && Closing(t, u, rule, did) && NoneFire(u, rule, did) && ClosingsTold(t, u, quiet)
    requires FiringFor(u, id, rule, k)
    ensures Sound(v) && Closing(t, v, rule, did + {k})
    ensures forall i: nat, l | l != k && FiringFor(u, i, rule, l) :: FiringFor(v, i, rule, l)
    ensures done ==> NoneFire(v, rule, did + {k}) && ClosingsTold(t, v, quiet)
    ensures budget.None? ==> done && left.None?
  {
    v, left, done := CloseOne(u, id, quiet(k.host), budget);
    CloseAdvances(t, u, v, rule, did, k, id);
    if done {
      ClosingTold(t, u, v, rule, k, id, quiet);
    }
  }

  // The second loop of a pass.
  method CloseOld(
    t: Table, rule: nat, open: map<Key, nat>, firing: map<Key, real>, quiet: string -> bool, budget: Budget)
    returns (u: Table, left: Budget, done: bool)
    requires Sound(t) && forall k :: k in open ==> FiringFor(t, open[k], rule, k)
    ensures Sound(u) && Closing(t, u, rule, open.Keys - firing.Keys)
    ensures done ==> NoneFire(u, rule, open.Keys - firing.Keys) && ClosingsTold(t, u, quiet)
    ensures budget.None? ==> done && left.None?
  {
    u, left := t, budget;
    ghost var did: set<Key> := {};
    var todo := open.Keys - firing.Keys;
    while todo != {}
      invariant did + todo == open.Keys - firing.Keys && did !! todo && Sound(u) && (budget.None? ==> left.None?)
      invariant Closing(t, u, rule, did) && NoneFire(u, rule, did) && ClosingsTold(t, u, quiet)
      invariant forall k :: k in todo ==> FiringFor(u, open[k], rule, k)
      decreases todo
    {
      var k :| k in todo;
      u, left, done := CloseKey(t, u, rule, did, k, open[k], quiet, left);
      if !done {
        assert did + {k} <= open.Keys - firing.Keys;
        return;
      }
      did, todo := did + {k}, todo - {k};
    }
    assert did == open.Keys - firing.Keys;
    done := true;
  }

  // What a pass that was not cut leaves for one rule.
  ghost predicate Agrees(t: Table, rule: nat, firing: map<Key, real>) {
    forall k :: FiresAt(t, rule, k) <==> k in firing
  }

  lemma BothLoops(t: Table, u: Table, v: Table, rule: nat, open: map<Key, nat>, firing: map<Key, real>)
    requires Sound(t) && Sound(u) && IsOpen(t, rule, open)
    requires Opening(t, u, rule, firing.Keys) && AllFire(u, rule, firing.Keys)
    requires Closing(u, v, rule, open.Keys - firing.Keys) && NoneFire(v, rule, open.Keys - firing.Keys)
    ensures Agrees(v, rule, firing)
    ensures Current(u, rule, firing.Keys, firing) ==> Current(v, rule, firing.Keys, firing)
  {
    forall k ensures FiresAt(v, rule, k) <==> k in firing {
      if k in firing {
        var i: nat :| FiringFor(u, i, rule, k);
        assert FiringFor(v, i, rule, k);
      }
    }
  }

  // Openings told before the second loop are told after it.
  lemma OpeningsStayTold(t: Table, u: Table, v: Table, rule: nat, quiet: string -> bool)
    requires Sound(u) && t.next <= u.next && OpeningsTold(t, u, quiet) && Advanced(u, v, rule) && v.next == u.next
    requires forall n :: n in v.sent && n !in u.sent ==> !n.opening
    ensures OpeningsTold(t, v, quiet)
  {
  }

  // One rule's part of a pass. However it is cut, the table stays sound and
  // other rules' alerts as they were; done in full, the rule fires exactly
  // where it was judged to, and each change was told, once, unless the host
  // is under maintenance.
  method Reconcile(t: Table, rule: nat, firing: map<Key, real>, quiet: string -> bool, budget: Budget)
    returns (u: Table, left: Budget, done: bool)
    requires Sound(t)
    ensures Sound(u) && Advanced(t, u, rule)
    ensures done ==> Agrees(u, rule, firing) && ClosingsTold(t, u, quiet)
    ensures done ==> OpeningsTold(t, u, quiet) && Current(u, rule, firing.Keys, firing)
    ensures budget.None? ==> done && left.None?
  {
    var open := OpenKeys(t, rule);
    u, left, done := OpenNew(t, rule, open, firing, quiet, budget);
    if !done {
      return;
    }
    ghost var half := u;
    forall k | k in open ensures FiringFor(u, open[k], rule, k) {
      assert FiringFor(t, open[k], rule, k);
    }
    u, left, done := CloseOld(u, rule, open, firing, quiet, left);
    AdvancedFurther(t, half, u, rule);
    if done {
      BothLoops(t, half, u, rule, open, firing);
      OpeningsStayTold(t, half, u, rule, quiet);
    }
  }

  // ------------------------------------------------------------ whole runs ----

  datatype Judged = Judged(rule: nat, firing: map<Key, real>)

  lemma OtherRulesKeep(t: Table, u: Table, rule: nat, other: nat, firing: map<Key, real>)
    requires Sound(t) && Advanced(t, u, rule) && other != rule
    requires Agrees(t, other, firing)
    ensures Agrees(u, other, firing)
  {
    forall i: nat, k ensures FiringFor(t, i, other, k) <==> FiringFor(u, i, other, k) {
    }
    forall k ensures FiresAt(u, other, k) <==> FiresAt(t, other, k) {
      if i: nat :| FiringFor(t, i, other, k) {
        assert FiringFor(u, i, other, k);
      }
      if i: nat :| FiringFor(u, i, other, k) {
        assert FiringFor(t, i, other, k);
      }
    }
  }

  // Rules that a pass does not judge keep their alerts as they are, and get none.
  ghost predicate OthersKept(t: Table, u: Table, judged: seq<Judged>, n: nat)
    requires n <= |judged|
  {
    && (forall id :: id in t.rows && (forall i :: 0 <= i < n ==> judged[i].rule != t.rows[id].rule) ==>
          id in u.rows && u.rows[id] == t.rows[id])
    && (forall id :: id in u.rows && id !in t.rows ==> exists i :: 0 <= i < n && judged[i].rule == u.rows[id].rule)
    && (forall id :: id in t.rows ==> id in u.rows && u.rows[id].rule == t.rows[id].rule)
  }

  lemma OthersKeptNext(t: Table, u: Table, v: Table, judged: seq<Judged>, n: nat)
    requires n < |judged| && OthersKept(t, u, judged, n) && Advanced(u, v, judged[n].rule)
    ensures OthersKept(t, v, judged, n + 1)
  {
    forall id | id in t.rows && (forall i :: 0 <= i < n + 1 ==> judged[i].rule != t.rows[id].rule)
      ensures id in v.rows && v.rows[id] == t.rows[id]
    {
      assert judged[n].rule != t.rows[id].rule;
      assert u.rows[id] == t.rows[id];
    }
    forall id | id in v.rows && id !in t.rows
      ensures exists i :: 0 <= i < n + 1 && judged[i].rule == v.rows[id].rule
    {
      if id in u.rows {
        var i :| 0 <= i < n && judged[i].rule == u.rows[id].rule;
      } else {
        assert judged[n].rule == v.rows[id].rule;
      }
    }
  }

  lemma OthersKeptLonger(t: Table, u: Table, judged: seq<Judged>, n: nat)
    requires n <= |judged| && OthersKept(t, u, judged, n)
    ensures OthersKept(t, u, judged, |judged|)
  {
    forall id | id in u.rows && id !in t.rows
      ensures exists i :: 0 <= i < |judged| && judged[i].rule == u.rows[id].rule
    {
      var i :| 0 <= i < n && judged[i].rule == u.rows[id].rule;
    }
  }

  // A pass over the enabled rules, each with what it was judged firing for.
  method Evaluate(t: Table, judged: seq<Judged>, quiet: string -> bool, budget: Budget) returns (u: Table, done: bool)
    requires Sound(t)
    requires forall i, j :: 0 <= i < j < |judged| ==> judged[i].rule != judged[j].rule
    ensures Sound(u) && t.resolved <= u.resolved && t.sent <= u.sent && t.next <= u.next
    ensures done ==> forall i :: 0 <= i < |judged| ==> Agrees(u, judged[i].rule, judged[i].firing)
    ensures OthersKept(t, u, judged, |judged|)
    ensures budget.None? ==> done
  {
    u := t;
    var left := budget;
    for n := 0 to |judged|
      invariant Sound(u) && t.resolved <= u.resolved && t.sent <= u.sent && t.next <= u.next
      invariant budget.None? ==> left.None?
      invariant forall i :: 0 <= i < n ==> Agrees(u, judged[i].rule, judged[i].firing)
      invariant OthersKept(t, u, judged, n)
    {
      ghost var before := u;
      u, left, done := Reconcile(u, judged[n].rule, judged[n].firing, quiet, left);
      OthersKeptNext(t, before, u, judged, n);
      if !done {
        OthersKeptLonger(t, u, judged, n + 1);
        return;
      }
      forall i | 0 <= i < n ensures Agrees(u, judged[i].rule, judged[i].firing) {
        OtherRulesKeep(before, u, judged[n].rule, judged[i].rule, judged[i].firing);
      }
    }
    done := true;
  }

  // What happens to the table over time. A pass may be cut after any number
  // of statements; rules may be disabled by leaving them out of a pass.
  datatype Event =
    | Pass(judged: seq<Judged>, quiet: string -> bool, budget: Budget)
    | RuleRemoved(rule: nat)
    | Sweep(old_: set<nat>)

  ghost predicate OncePerRule(judged: seq<Judged>) {
    forall i, j :: 0 <= i < j < |judged| ==> judged[i].rule != judged[j].rule
  }

  const NEW := Table(map[], 0, [], {})

  // What the last event of a run leaves.
  ghost predicate Follows(e: Event, t: Table) {
    match e
    case Pass(judged, _, budget) =>
      budget.None? ==> forall i :: 0 <= i < |judged| ==> Agrees(t, judged[i].rule, judged[i].firing)
    case RuleRemoved(rule) => forall k :: !FiresAt(t, rule, k)
    case Sweep(old_) => forall id :: id in t.rows && id in old_ ==> t.rows[id].firing
  }

  // What an event leaves of what was there: a pass the alerts of rules it does
  // not judge, a removal those of the other rules, a sweep what fires or is
  // not old.
  ghost predicate Leaves(e: Event, t: Table, u: Table) {
    match e
    case Pass(judged, _, _) => OthersKept(t, u, judged, |judged|)
    case RuleRemoved(rule) => forall id ::
      && (id in u.rows <==> id in t.rows && t.rows[id].rule != rule)
      && (id in u.rows ==> u.rows[id] == t.rows[id])
    case Sweep(old_) => forall id ::
      && (id in u.rows <==> id in t.rows && (t.rows[id].firing || id !in old_))
      && (id in u.rows ==> u.rows[id] == t.rows[id])
  }

  method Happen(t: Table, e: Event) returns (u: Table)
    requires Sound(t) && (e.Pass? ==> OncePerRule(e.judged))
    ensures Sound(u) && Follows(e, u) && t.resolved <= u.resolved && t.sent <= u.sent
    ensures Leaves(e, t, u)
  {
    match e {
      case Pass(judged, quiet, budget) =>
        var done;
        u, done := Evaluate(t, judged, quiet, budget);
      case RuleRemoved(rule) =>
        u := WithoutRule(t, rule);
        RemovedSound(t, u);
      case Sweep(old_) =>
        u := Swept(t, old_);
        RemovedSound(t, u);
    }
  }

  /** Over any run of passes, rule removals and sweeps: no two alerts fire for
      one rule and series, what was resolved never fires again, an alert's
      opening and its resolution are each told at most once, and after a pass
      that is not cut every rule fires exactly where it was judged to. */
  method Live(events: seq<Event>) returns (t: Table)
    requires forall e :: e in events && e.Pass? ==> OncePerRule(e.judged)
    ensures forall i: nat, j: nat, rule: nat, key: Key ::
      FiringFor(t, i, rule, key) && FiringFor(t, j, rule, key) ==> i == j
    ensures forall id: nat :: id in t.resolved ==> !Firing(t, id)
    ensures forall i, j :: 0 <= i < j < |t.sent| ==> t.sent[i] != t.sent[j]
    ensures events != [] ==> Follows(events[|events| - 1], t)
  {
    t := NEW;
    for n := 0 to |events|
      invariant Sound(t) && (n > 0 ==> Follows(events[n - 1], t))
    {
      assert events[n] in events;
      t := Happen(t, events[n]);
    }
  }

  /** A pass that is cut after so many statements does no more than so many. */
  lemma BudgetExactly(b: nat, n: nat)
    ensures Lasts(Some(b), n) <==> n <= b
    ensures n <= b ==> Less(Some(b), n) == Some(b - n)
    ensures Lasts(None, n) && Less(None, n) == None
  {
  }
}
