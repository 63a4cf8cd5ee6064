/** Bound directory connections, kept and reused (api/odm/ldappool.py). */
module LdapPool {
  import opened Text

  const POOL_SIZE := 8
  const IDLE_SECONDS := 300.0
  const LIFETIME_SECONDS := 3600.0

  class Connection {
    const writable: bool
    // Whether the directory still has it bound; it can be lost at any moment.
    var bound: bool
    // When it was first used, once it was.
    var born: Option<real>

    constructor (writable: bool)
      ensures this.writable == writable && bound && born == None
    {
      this.writable := writable;
      bound := true;
      born := None;
    }

    // Closing may fail, and then says nothing: it is thrown away either way.
    method Unbind()
      modifies this`bound
    {
      bound := *;
    }
  }

  datatype Held = Held(conn: Connection, born: real, used: real)

  predicate InTime(h: Held, now: real) {
    now - h.born <= LIFETIME_SECONDS && now - h.used <= IDLE_SECONDS
  }

  // One kind of connection: the idle list is not too long and no connection
  // is in it twice or lent as well, each was opened as this kind, and is aged
  // from its first use once that is known.
  ghost predicate Side(held: seq<Held>, lent: set<Connection>, write: bool, conns: set<Connection>)
    reads conns`born
  {
    && |held| <= 8
    && (forall i :: 0 <= i < |held| ==> held[i].conn in conns && held[i].conn.writable == write)
    && (forall i :: 0 <= i < |held| ==> held[i].conn.born.Some? ==> held[i].conn.born.value == held[i].born)
    && (forall i, j :: 0 <= i < j < |held| ==> held[i].conn != held[j].conn)
    && (forall i :: 0 <= i < |held| ==> held[i].conn !in lent)
    && (forall c :: c in lent ==> c in conns && c.writable == write)
  }

  lemma SideWithout(held: seq<Held>, n: nat, lent: set<Connection>, write: bool, conns: set<Connection>)
    requires Side(held, lent, write, conns) && n <= |held|
    ensures Side(held[..n], lent, write, conns)
    ensures n < |held| ==> Side(held[..n], lent + {held[n].conn}, write, conns)
  {
  }

  lemma SideWith(held: seq<Held>, lent: set<Connection>, write: bool, conns: set<Connection>, h: Held)
    requires Side(held, lent, write, conns) && h.conn in lent
    ensures Side(held, lent - {h.conn}, write, conns)
    ensures |held| < POOL_SIZE && (h.conn.born.Some? ==> h.conn.born.value == h.born)
            ==> Side(held + [h], lent - {h.conn}, write, conns)
  {
  }

  // Both kinds.
  ghost predicate Sides(idle: map<bool, seq<Held>>, lent: map<bool, set<Connection>>, conns: set<Connection>)
    reads conns`born
  {
    && idle.Keys == {true, false} && lent.Keys == {true, false}
    && Side(idle[true], lent[true], true, conns) && Side(idle[false], lent[false], false, conns)
  }

  lemma SidesWithout(
    idle: map<bool, seq<Held>>, lent: map<bool, set<Connection>>, conns: set<Connection>, write: bool, n: nat)
    requires Sides(idle, lent, conns) && n <= |idle[write]|
    ensures Sides(idle[write := idle[write][..n]], lent, conns)
    ensures n < |idle[write]| ==> var c := idle[write][n].conn;
      && c in conns && c.writable == write && c !in lent[true] && c !in lent[false]
      && Sides(idle[write := idle[write][..n]], lent[write := lent[write] + {c}], conns)
  {
    SideWithout(idle[write], n, lent[write], write, conns);
  }

  lemma SidesWith(
    idle: map<bool, seq<Held>>, lent: map<bool, set<Connection>>, conns: set<Connection>, write: bool, h: Held)
    requires Sides(idle, lent, conns) && h.conn in lent[write] && (h.conn.born.Some? ==> h.conn.born.value == h.born)
    ensures Sides(idle, lent[write := lent[write] - {h.conn}], conns)
    ensures |idle[write]| < POOL_SIZE ==>
      Sides(idle[write := idle[write] + [h]], lent[write := lent[write] - {h.conn}], conns)
  {
    SideWith(idle[write], lent[write], write, conns, h);
  }

  // Takes from the end of an idle list until one is in time and bound, and
  // drops the others. The list is what is left.
  method PopUsable(held: seq<Held>, now: real) returns (r: Option<Connection>, rest: seq<Held>)
    requires forall i, j :: 0 <= i < j < |held| ==> held[i].conn != held[j].conn
    modifies set i | 0 <= i < |held| :: held[i].conn`bound
    ensures rest <= held
    ensures r.None? ==> rest == []
    ensures r.Some? ==> |rest| < |held| && r.value == held[|rest|].conn && r.value.bound
    ensures r.Some? ==>
      var h := held[|rest|]; old(h.conn.bound) && now - h.used <= 300.0 && now - h.born <= 3600.0
    ensures forall k :: (if r.Some? then |rest| + 1 else 0) <= k < |held| ==>
      !old(held[k].conn.bound) || now - held[k].used > 300.0 || now - held[k].born > 3600.0
    ensures forall k :: 0 <= k < |rest| ==> held[k].conn.bound == old(held[k].conn.bound)
  {
    rest := held;
    while |rest| > 0
      invariant rest <= held
      invariant forall k :: 0 <= k < |rest| ==> held[k].conn.bound == old(held[k].conn.bound)
      invariant forall k :: |rest| <= k < |held| ==>
        !old(held[k].conn.bound) || now - held[k].used > 300.0 || now - held[k].born > 3600.0
    {
      var candidate := rest[|rest| - 1];
      rest := rest[..|rest| - 1];
      if InTime(candidate, now) && candidate.conn.bound {
        return Some(candidate.conn), rest;
      }
      candidate.conn.Unbind();
    }
    r := None;
  }

  // How a piece of work ends: it returns, raises an error, or is cancelled.
  datatype Ending = Finished | Raised | Cancelled

  class Pool {
    var idle: map<bool, seq<Held>>
    // Who is using what, by the kind it was asked for.
    ghost var lent: map<bool, set<Connection>>
    ghost var conns: set<Connection>

    ghost predicate Valid()
      reads this, conns`born
    {
      Sides(idle, lent, conns)
    }

    constructor ()
      ensures Valid() && idle == map[true := [], false := []] && lent == map[true := {}, false := {}]
      ensures conns == {}
    {
      idle := map[true := [], false := []];
      lent := map[true := {}, false := {}];
      conns := {};
    }

    // Every idle connection knows when it was first used.
    ghost predicate AllBorn()
      reads this, conns`born
    {
      forall w, i :: w in idle && 0 <= i < |idle[w]| && idle[w][i].conn in conns ==> idle[w][i].conn.born.Some?
    }

    // The idle connection used last that is in time and bound, dropping those
    // after it. `now` was read before the lock was had.
    method TakeIdle(write: bool, now: real) returns (r: Option<Connection>)
      requires Valid()
      modifies this`idle, this`lent, conns`bound
      ensures Valid()
      ensures idle.Keys == {true, false} && idle[write] <= old(idle[write]) && idle[!write] == old(idle[!write])
      ensures r.None? ==> idle[write] == [] && lent == old(lent)
      ensures r.None? ==> forall k :: 0 <= k < |old(idle[write])| ==>
        var h := old(idle[write])[k]; !old(h.conn.bound) || now - h.used > 300.0 || now - h.born > 3600.0
      ensures r.Some? ==> lent == old(lent)[write := old(lent[write]) + {r.value}]
      ensures r.Some? ==> r.value.bound && r.value in conns && r.value.writable == write
      ensures r.Some? ==> r.value !in old(lent[true]) && r.value !in old(lent[false])
      ensures r.Some? ==> var n := |idle[write]|;
        && n < |old(idle[write])| && r.value == old(idle[write])[n].conn && old(r.value.bound)
        && now - old(idle[write])[n].used <= 300.0 && now - old(idle[write])[n].born <= 3600.0
        && forall k :: n < k < |old(idle[write])| ==>
             var h := old(idle[write])[k]; !old(h.conn.bound) || now - h.used > 300.0 || now - h.born > 3600.0
    {
      ghost var was, n := idle, 0;
      r, n := PopIdle(write, now);
      SidesWithout(was, lent, conns, write, n);
      if r.Some? {
        lent := lent[write := lent[write] + {r.value}];
      }
    }

    // The same before it is lent: the list is cut off at the connection found.
    method PopIdle(write: bool, now: real) returns (r: Option<Connection>, ghost n: nat)
      requires Valid()
      modifies this`idle, conns`bound
      ensures idle.Keys == {true, false} && n <= |old(idle[write])|
      ensures idle == old(idle)[write := old(idle[write])[..n]]
      ensures r.None? ==> n == 0
      ensures r.Some? ==> n < |old(idle[write])| && r.value == old(idle[write])[n].conn && r.value.bound
      ensures r.Some? ==>
        var h := old(idle[write])[n]; old(h.conn.bound) && now - h.used <= 300.0 && now - h.born <= 3600.0
      ensures forall k :: (if r.Some? then n + 1 else 0) <= k < |old(idle[write])| ==>
        var h := old(idle[write])[k]; !old(h.conn.bound) || now - h.used > 300.0 || now - h.born > 3600.0
    {
      var rest;
      r, rest := PopUsable(idle[write], now);
      n := |rest|;
      assert rest == old(idle[write])[..n];
      idle := idle[write := rest];
    }

    // A new connection of one kind, lent at once.
    method Open(write: bool) returns (c: Connection)
      requires Valid()
      modifies this`lent, this`conns
      ensures Valid() && fresh(c) && conns == old(conns) + {c}
      ensures c.bound && c.writable == write && c.born == None
      ensures lent == old(lent)[write := old(lent[write]) + {c}]
    {
      c := new Connection(write);
      conns := conns + {c};
      lent := lent[write := lent[write] + {c}];
    }

    // Keeps a healthy connection while there is room, else closes it.
    method GiveBack(conn: Connection, write: bool, healthy: bool, now: real)
      requires Valid() && conn in lent[write]
      modifies this`idle, this`lent, conn`bound
      ensures Valid() && lent == old(lent)[write := old(lent[write]) - {conn}]
      ensures idle.Keys == {true, false} && idle[!write] == old(idle[!write])
      ensures var was := old(idle[write]);
        idle[write] ==
        if healthy && old(conn.bound) && |was| < 8
        then was + [Held(conn, if conn.born.Some? then conn.born.value else now, now)]
        else was
    {
      var held := Held(conn, if conn.born.Some? then conn.born.value else now, now);
      SidesWith(idle, lent, conns, write, held);
      lent := lent[write := lent[write] - {conn}];
      if healthy && conn.bound && |idle[write]| < POOL_SIZE {
        idle := idle[write := idle[write] + [held]];
      } else {
        conn.Unbind();
      }
    }

    // Closes what is idle. What is lent stays with whoever has it.
    method Close()
      requires Valid()
      modifies this`idle, conns`bound
      ensures Valid() && idle == map[true := [], false := []] && lent == old(lent)
    {
      var all := idle[true] + idle[false];
      for i := 0 to |all|
        invariant idle == old(idle) && lent == old(lent)
      {
        assert all[i].conn in conns;
        all[i].conn.Unbind();
      }
      idle := map[true := [], false := []];
    }

    // ------------------------------------------------- one piece of work ----

    // A connection opened for a piece of work, and noted as used from then on.
    method OpenAndUse(write: bool, later: real) returns (c: Connection)
      requires Valid() && AllBorn()
      modifies this`lent, this`conns
      ensures Valid() && AllBorn() && fresh(c) && conns == old(conns) + {c}
      ensures c.bound && c.writable == write && c.born == Some(later)
      ensures lent == old(lent)[write := old(lent[write]) + {c}]
    {
      c := Open(write);
      c.born := Some(later);
    }

    // Takes a connection for a piece of work and, the first time, notes when
    // that was.
    method Enter(write: bool, now: real, later: real, opens: bool) returns (r: Option<Connection>)
      requires Valid() && AllBorn()
      modifies this, conns`bound
      ensures Valid() && AllBorn() && old(conns) <= conns && fresh(conns - old(conns))
      ensures r.Some? ==> r.value.bound && r.value.writable == write && r.value.born.Some?
      ensures r.Some? ==> r.value !in old(lent[true]) && r.value !in old(lent[false])
      ensures lent == if r.Some? then old(lent)[write := old(lent[write]) + {r.value}] else old(lent)
      ensures idle.Keys == {true, false} && idle[write] <= old(idle[write]) && idle[!write] == old(idle[!write])
      ensures r.Some? && r.value in old(conns) ==> var was, n := old(idle[write]), |idle[write]|;
        && n < |was| && r.value == was[n].conn && old(r.value.bound)
        && now - was[n].used <= 300.0 && now - was[n].born <= 3600.0
        && r.value.born == old(r.value.born) && now - r.value.born.value <= 3600.0
        && forall k :: n < k < |was| ==>
             !old(was[k].conn.bound) || now - was[k].used > 300.0 || now - was[k].born > 3600.0
      ensures !(r.Some? && r.value in old(conns)) ==>
        && idle[write] == []
        && (forall k :: 0 <= k < |old(idle[write])| ==>
              var h := old(idle[write])[k]; !old(h.conn.bound) || now - h.used > 300.0 || now - h.born > 3600.0)
        && r.Some? == opens && (r.Some? ==> fresh(r.value) && r.value.born == Some(later))
    {
      r := TakeIdle(write, now);
      if r.None? && opens {
        var c := OpenAndUse(write, later);
        r := Some(c);
      }
    }

    // Work that raised an error gives back a connection not to be trusted
    // again. Cancelled work gives its own back as healthy.
    method Leave(conn: Connection, write: bool, ending: Ending, now: real)
      requires Valid() && AllBorn() && conn in lent[write] && conn.born.Some?
      modifies this`idle, this`lent, conn`bound
      ensures Valid() && AllBorn() && lent == old(lent)[write := old(lent[write]) - {conn}]
      ensures idle.Keys == {true, false} && idle[!write] == old(idle[!write])
      ensures idle[write] ==
        if ending != Raised && old(conn.bound) && |old(idle[write])| < 8
        then old(idle[write]) + [Held(conn, conn.born.value, now)]
        else old(idle[write])
    {
      var healthy := true;
      if ending.Raised? {
        healthy := false;
      }
      GiveBack(conn, write, healthy, now);
    }
  }

  // ------------------------------------------------------------ whole runs ----

  datatype Lease = Lease(conn: Connection, write: bool)

  // What may happen, in any order: a piece of work starts, one ends, a
  // connection in use is lost, the pool is closed.
  datatype Event =
    | Start(write: bool, now: real, later: real, opens: bool)
    | End(which: nat, ending: Ending, now: real)
    | Lost(which: nat)
    | CloseAll

  // The leases are what is lent, each connection once.
  ghost predicate LentTo(lent: map<bool, set<Connection>>, leases: seq<Lease>) {
    && lent.Keys == {true, false}
    && (forall i :: 0 <= i < |leases| ==> leases[i].conn in lent[leases[i].write])
    && (forall i, j :: 0 <= i < j < |leases| ==> leases[i].conn != leases[j].conn)
  }

  ghost predicate Leased(pool: Pool, leases: seq<Lease>)
    reads pool, pool.conns`born
  {
    && pool.Valid() && LentTo(pool.lent, leases)
    && forall i :: 0 <= i < |leases| ==> leases[i].conn in pool.conns && leases[i].conn.born.Some?
  }

  // Who holds what after one more event, given what a start was given.
  function Next(leases: seq<Lease>, e: Event, given: Option<Connection>): seq<Lease> {
    match e
    case Start(write, _, _, _) => if given.Some? then leases + [Lease(given.value, write)] else leases
    case End(which, _, _) => if which < |leases| then leases[..which] + leases[which + 1..] else leases
    case _ => leases
  }

  // Who holds what, going by what each event so far was given.
  function LeasesAfter(events: seq<Event>, given: seq<Option<Connection>>): seq<Lease>
    requires |given| <= |events|
  {
    if |given| == 0 then []
    else Next(LeasesAfter(events, given[..|given| - 1]), events[|given| - 1], given[|given| - 1])
  }

  lemma LeasesNext(events: seq<Event>, given: seq<Option<Connection>>, c: Option<Connection>)
    requires |given| < |events|
    ensures LeasesAfter(events, given + [c]) == Next(LeasesAfter(events, given), events[|given|], c)
  {
    assert (given + [c])[..|given|] == given;
  }

  method StartOne(pool: Pool, leases: seq<Lease>, e: Event) returns (c: Option<Connection>)
    requires e.Start? && Leased(pool, leases) && pool.AllBorn()
    modifies pool, pool.conns`bound
    ensures fresh(pool.conns - old(pool.conns)) && old(pool.conns) <= pool.conns
    ensures e.opens ==> c.Some?
    ensures Leased(pool, if c.Some? then leases + [Lease(c.value, e.write)] else leases) && pool.AllBorn()
    ensures c.Some? ==> c.value.bound && c.value.writable == e.write
  {
    c := pool.Enter(e.write, e.now, e.later, e.opens);
  }

  lemma LeaseEnds(lent: map<bool, set<Connection>>, leases: seq<Lease>, which: nat)
    requires which < |leases| && LentTo(lent, leases)
    ensures var l, rest := leases[which], leases[..which] + leases[which + 1..];
      && LentTo(lent[l.write := lent[l.write] - {l.conn}], rest)
      && forall i :: 0 <= i < |rest| ==> rest[i] in leases
  {
    var rest := leases[..which] + leases[which + 1..];
    forall i | 0 <= i < |rest| ensures rest[i] in leases && rest[i].conn != leases[which].conn {
      assert rest[i] == leases[if i < which then i else i + 1];
    }
  }

  method EndOne(pool: Pool, leases: seq<Lease>, e: Event)
    requires e.End? && e.which < |leases| && Leased(pool, leases) && pool.AllBorn()
    modifies pool`idle, pool`lent, pool.conns`bound
    ensures pool.conns == old(pool.conns) && pool.AllBorn()
    ensures Leased(pool, leases[..e.which] + leases[e.which + 1..])
  {
    var lease := leases[e.which];
    assert lease.conn in pool.lent[lease.write];
    LeaseEnds(pool.lent, leases, e.which);
    ghost var rest := leases[..e.which] + leases[e.which + 1..];
    forall i | 0 <= i < |rest| ensures rest[i].conn in pool.conns && rest[i].conn.born.Some? {
      assert rest[i] in leases;
    }
    pool.Leave(lease.conn, lease.write, e.ending, e.now);
    assert LentTo(pool.lent, rest);
  }

  method LoseOne(pool: Pool, leases: seq<Lease>, which: nat)
    requires which < |leases| && Leased(pool, leases) && pool.AllBorn()
    modifies pool.conns`bound
    ensures Leased(pool, leases) && pool.AllBorn()
  {
    assert leases[which].conn in pool.lent[leases[which].write];
    leases[which].conn.bound := false;
  }

  method Happen(pool: Pool, leases: seq<Lease>, e: Event) returns (given: Option<Connection>)
    requires Leased(pool, leases) && pool.AllBorn()
    modifies pool, pool.conns`bound
    ensures fresh(pool.conns - old(pool.conns))
    ensures e.Start? && e.opens ==> given.Some?
    ensures pool.AllBorn()
    ensures Leased(pool, Next(leases, e, given))
  {
    given := None;
    match e {
      case Start(_, _, _, _) => given := StartOne(pool, leases, e);
      case End(which, _, _) =>
        if which < |leases| {
          EndOne(pool, leases, e);
        }
      case Lost(which) =>
        if which < |leases| {
          LoseOne(pool, leases, which);
        }
      case CloseAll => pool.Close();
    }
  }

  ghost predicate Exclusive(pool: Pool, leases: seq<Lease>)
    reads pool
  {
    && (forall i, j :: 0 <= i < j < |leases| ==> leases[i].conn != leases[j].conn)
    && (forall i, w, h :: 0 <= i < |leases| && w in pool.idle && h in pool.idle[w] ==> h.conn != leases[i].conn)
  }

  lemma LeasedIsExclusive(pool: Pool, leases: seq<Lease>)
    requires Leased(pool, leases)
    ensures Exclusive(pool, leases)
  {
    forall i, w, h | 0 <= i < |leases| && w in pool.idle && h in pool.idle[w] ensures h.conn != leases[i].conn {
      assert leases[i].conn in pool.lent[leases[i].write];
    }
  }

  ghost predicate Served(events: seq<Event>, given: seq<Option<Connection>>) {
    && |given| <= |events|
    && forall i :: 0 <= i < |given| && events[i].Start? && events[i].opens ==> given[i].Some?
  }

  lemma ServedNext(events: seq<Event>, given: seq<Option<Connection>>, c: Option<Connection>)
    requires |given| < |events| && Served(events, given)
    requires events[|given|].Start? && events[|given|].opens ==> c.Some?
    ensures Served(events, given + [c])
  {
  }

  // The pool and who holds what after each event.
  method Carry(pool: Pool, events: seq<Event>, given: seq<Option<Connection>>, leases: seq<Lease>)
    returns (all: seq<Option<Connection>>)
    requires Served(events, given) && leases == LeasesAfter(events, given)
    requires Leased(pool, leases) && pool.AllBorn()
    modifies pool, pool.conns`bound
    ensures |all| == |events| && Served(events, all)
    ensures Leased(pool, LeasesAfter(events, all)) && pool.AllBorn()
    decreases |events| - |given|
  {
    if |given| == |events| {
      return given;
    }
    var e := events[|given|];
    var c := Happen(pool, leases, e);
    LeasesNext(events, given, c);
    ServedNext(events, given, c);
    all := Carry(pool, events, given + [c], Next(leases, e, c));
  }

  /** However work starts and ends and connections are lost, a start gets a
      connection while the directory opens any, no connection is held by two
      pieces of work, and what is idle is held by nobody. */
  method Serve(events: seq<Event>) returns (pool: Pool, given: seq<Option<Connection>>)
    ensures fresh(pool) && |given| == |events|
    ensures forall i :: 0 <= i < |events| && events[i].Start? && events[i].opens ==> given[i].Some?
    ensures pool.AllBorn() && Leased(pool, LeasesAfter(events, given))
    ensures Exclusive(pool, LeasesAfter(events, given))
  {
    pool := new Pool();
    given := Carry(pool, events, [], []);
    LeasedIsExclusive(pool, LeasesAfter(events, given));
  }

  /** What is held: a start adds the connection it was given, of the kind it
      asked for; an end takes away the one it ends; nothing else changes it. */
  lemma HeldExactly(events: seq<Event>, given: seq<Option<Connection>>, c: Option<Connection>)
    requires |given| < |events|
    ensures LeasesAfter(events, []) == []
    ensures var e, before, after := events[|given|], LeasesAfter(events, given), LeasesAfter(events, given + [c]);
      && (e.Start? ==> after == if c.Some? then before + [Lease(c.value, e.write)] else before)
      && (e.End? ==> after == if e.which < |before| then before[..e.which] + before[e.which + 1..] else before)
      && (e.Lost? || e.CloseAll? ==> after == before)
  {
    LeasesNext(events, given, c);
  }
}
