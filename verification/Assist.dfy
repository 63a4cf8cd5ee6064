/** Shared screens: joining an agent's connection to one viewer's
    (api/odm/assist.py, with agent_assist in api/odm/routes_agent.py). */
module Assist {
  import opened Text

  datatype Frame = Word(text: string) | Bytes(data: seq<nat>) | End

  // How many end markers a queue was given.
  function Ends(frames: seq<Frame>): nat {
    if |frames| == 0 then 0 else Ends(frames[..|frames| - 1]) + if frames[|frames| - 1] == End then 1 else 0
  }

  lemma EndsSnoc(frames: seq<Frame>, f: Frame)
    ensures Ends(frames + [f]) == Ends(frames) + if f == End then 1 else 0
  {
    assert (frames + [f])[..|frames|] == frames;
  }

  // One connection from the agent: waiting, then carrying one viewer. The
  // queues are everything ever put in them.
  class Link {
    var toAgent: seq<Frame>
    var toConsole: seq<Frame>
    var taken: bool
    var closed: bool

    // A closed link's queues have exactly one end marker each, an open one's none.
    ghost predicate Valid()
      reads this
    {
      Ends(toAgent) == Ends(toConsole) == if closed then 1 else 0
    }

    predicate Free()
      reads this
    {
      !taken && !closed
    }

    constructor ()
      ensures Valid() && Free() && toAgent == [] && toConsole == []
    {
      toAgent, toConsole, taken, closed := [], [], false, false;
    }

    // Closed now: with one end marker put in each queue, unless it was closed before.
    twostate predicate Ended()
      reads this
    {
      && closed && taken == old(taken)
      && toAgent == old(toAgent) + (if old(closed) then [] else [End])
      && toConsole == old(toConsole) + (if old(closed) then [] else [End])
    }

    method Close()
      requires Valid()
      modifies this`closed, this`toAgent, this`toConsole
      ensures Valid() && Ended()
    {
      if closed {
        return;
      }
      closed := true;
      EndsSnoc(toAgent, End);
      EndsSnoc(toConsole, End);
      toAgent := toAgent + [End];
      toConsole := toConsole + [End];
    }

    // Either side passes something on; the stream itself is never an end marker.
    method Carry(toTheAgent: bool, f: Frame)
      requires Valid() && f != End
      modifies this`toAgent, this`toConsole
      ensures Valid()
      ensures toAgent == old(toAgent) + (if toTheAgent then [f] else [])
      ensures toConsole == old(toConsole) + (if toTheAgent then [] else [f])
    {
      EndsSnoc(toAgent, f);
      EndsSnoc(toConsole, f);
      if toTheAgent {
        toAgent := toAgent + [f];
      } else {
        toConsole := toConsole + [f];
      }
    }
  }

  // Whole seconds left, as int() leaves them; nothing left counts as none.
  function SecondsLeft(minutes: nat, created: real, now: real): (r: nat)
    ensures r == 0 <==> minutes as real * 60.0 - (now - created) < 1.0
    ensures r > 0 ==> r as real <= minutes as real * 60.0 - (now - created) < r as real + 1.0
  {
    var left := minutes as real * 60.0 - (now - created);
    if left < 1.0 then 0 else left.Floor
  }

  class Offer {
    const minutes: nat
    const created: real
    var link: Link?
    var linkArrived: bool
    var ended: bool

    // No wakeup is lost: when a free link is there, viewers are told.
    ghost predicate Awake()
      reads this, link
    {
      link != null ==> link.Valid() && (link.Free() ==> linkArrived)
    }

    // Over once it was ended, or once less than a whole second of its minutes is left.
    predicate Expired(now: real): (over: bool)
      reads this`ended
      ensures over <==> ended || minutes as real * 60.0 - (now - created) < 1.0
    {
      SecondsLeft(minutes, created, now) == 0 || ended
    }

    constructor (minutes: nat, now: real)
      ensures Awake() && link == null && !linkArrived && !ended && this.minutes == minutes && created == now
    {
      this.minutes, created := minutes, now;
      link, linkArrived, ended := null, false, false;
    }

    method OfferLink(l: Link)
      requires l.Valid()
      modifies this`link, this`linkArrived
      ensures Awake() && link == l && linkArrived
    {
      link := l;
      linkArrived := true;
    }

    // The waiting connection, for one viewer only.
    method TakeLink() returns (r: Link?)
      requires Awake()
      modifies this`linkArrived, link
      ensures Awake() && !linkArrived
      ensures old(link) != null ==> unchanged(old(link)`closed, old(link)`toAgent, old(link)`toConsole)
      ensures (r != null) == old(link != null && link.Free())
      ensures r != null ==> r == link && old(!link.taken && !link.closed) && r.taken
      ensures r == null && link != null ==> link.taken == old(link.taken)
    {
      if link == null || link.taken || link.closed {
        linkArrived := false;
        return null;
      }
      link.taken := true;
      linkArrived := false;
      return link;
    }

    method End()
      requires Awake()
      modifies this`ended, link
      ensures Awake() && ended
      ensures link != null ==> link.Ended()
    {
      ended := true;
      if link != null {
        link.Close();
      }
    }

    // The agent's connection is over, for whatever reason.
    method Leave(l: Link)
      requires Awake() && l.Valid()
      modifies this`link, l`closed, l`toAgent, l`toConsole
      ensures Awake() && l.Valid() && l.Ended() && link == (if old(link) == l then null else old(link))
    {
      l.Close();
      if link == l {
        link := null;
      }
    }
  }

  /** An offer that is over at one moment is over at every later one. */
  lemma OverStaysOver(minutes: nat, created: real, now: real, later: real)
    requires now <= later && SecondsLeft(minutes, created, now) == 0
    ensures SecondsLeft(minutes, created, later) == 0
  {
  }

  // ------------------------------------------------------------ one offer ----

  datatype Event =
    | AgentConnects
    | ViewerAsks
    | Carried(which: nat, toTheAgent: bool, frame: Frame)
    | AgentLeaves(which: nat)
    | ViewerLeaves(which: nat)
    | OfferEnds

  // The same as values: every link there ever was by number, the current one,
  // and the links given to viewers in order.
  datatype LinkState = LinkState(toAgent: seq<Frame>, toConsole: seq<Frame>, taken: bool, closed: bool)

  datatype Bridge = Bridge(links: seq<LinkState>, current: Option<nat>, arrived: bool, ended: bool, given: seq<nat>)

  function Shut(l: LinkState): LinkState {
    if l.closed then l else LinkState(l.toAgent + [End], l.toConsole + [End], l.taken, true)
  }

  function Passed(l: LinkState, toTheAgent: bool, f: Frame): LinkState {
    if toTheAgent then l.(toAgent := l.toAgent + [f]) else l.(toConsole := l.toConsole + [f])
  }

  function ShutAt(links: seq<LinkState>, i: nat): seq<LinkState> {
    if i < |links| then links[i := Shut(links[i])] else links
  }

  predicate HasFree(b: Bridge) {
    b.current.Some? && b.current.value < |b.links|
    && !b.links[b.current.value].taken && !b.links[b.current.value].closed
  }

  // What each event comes to. One about a link that is not there is nothing.
  function Next(b: Bridge, e: Event): Bridge {
    match e
    case AgentConnects =>
      b.(links := b.links + [LinkState([], [], false, false)], current := Some(|b.links|), arrived := true)
    case ViewerAsks =>
      if !HasFree(b) then b.(arrived := false)
      else
        var i := b.current.value;
        b.(links := b.links[i := b.links[i].(taken := true)], arrived := false, given := b.given + [i])
    case Carried(i, toTheAgent, f) =>
      if i >= |b.links| || f == End then b
      else b.(links := b.links[i := Passed(b.links[i], toTheAgent, f)])
    case AgentLeaves(i) =>
      b.(links := ShutAt(b.links, i), current := if b.current == Some(i) then None else b.current)
    case ViewerLeaves(i) => b.(links := ShutAt(b.links, i))
    case OfferEnds =>
      b.(links := if b.current.Some? then ShutAt(b.links, b.current.value) else b.links, ended := true)
  }

  const NOBODY := Bridge([], None, false, false, [])

  function Play(events: seq<Event>): Bridge {
    if |events| == 0 then NOBODY else Next(Play(events[..|events| - 1]), events[|events| - 1])
  }

  ghost predicate EndsOnce(l: LinkState) {
    Ends(l.toAgent) == Ends(l.toConsole) == if l.closed then 1 else 0
  }

  ghost predicate Bridged(b: Bridge) {
    && (b.current.Some? ==> b.current.value < |b.links|)
    && (HasFree(b) ==> b.arrived)
    && (forall i :: 0 <= i < |b.links| ==> EndsOnce(b.links[i]))
    && (forall k :: 0 <= k < |b.given| ==> b.given[k] < |b.links| && b.links[b.given[k]].taken)
    && (forall j, k :: 0 <= j < k < |b.given| ==> b.given[j] != b.given[k])
  }

  lemma ShutEndsOnce(l: LinkState)
    requires EndsOnce(l)
    ensures EndsOnce(Shut(l)) && Shut(l).closed && Shut(l).taken == l.taken
  {
    EndsSnoc(l.toAgent, End);
    EndsSnoc(l.toConsole, End);
  }

  lemma CarryEndsOnce(l: LinkState, f: Frame)
    requires EndsOnce(l) && f != End
    ensures EndsOnce(Passed(l, true, f)) && EndsOnce(Passed(l, false, f))
  {
    EndsSnoc(l.toAgent, f);
    EndsSnoc(l.toConsole, f);
  }

  lemma ReplacedBridged(b: Bridge, i: nat, l: LinkState)
    requires Bridged(b) && i < |b.links| && EndsOnce(l)
    requires l.taken == b.links[i].taken && (b.links[i].closed ==> l.closed)
    ensures Bridged(b.(links := b.links[i := l]))
  {
  }

  lemma ShutBridged(b: Bridge, i: nat)
    requires Bridged(b)
    ensures Bridged(b.(links := ShutAt(b.links, i)))
  {
    if i < |b.links| {
      ShutEndsOnce(b.links[i]);
      ReplacedBridged(b, i, Shut(b.links[i]));
    }
  }

  lemma CarriedBridged(b: Bridge, i: nat, toTheAgent: bool, f: Frame)
    requires Bridged(b)
    ensures Bridged(Next(b, Carried(i, toTheAgent, f)))
  {
    if i < |b.links| && f != End {
      var l := b.links[i];
      CarryEndsOnce(l, f);
      ReplacedBridged(b, i, Passed(l, toTheAgent, f));
    }
  }

  lemma AskedBridged(b: Bridge)
    requires Bridged(b)
    ensures Bridged(Next(b, ViewerAsks))
  {
  }

  lemma ConnectedBridged(b: Bridge)
    requires Bridged(b)
    ensures Bridged(Next(b, AgentConnects))
  {
    assert EndsOnce(LinkState([], [], false, false));
  }

  lemma NextBridged(b: Bridge, e: Event)
    requires Bridged(b)
    ensures Bridged(Next(b, e))
  {
    match e
    case AgentConnects => ConnectedBridged(b);
    case ViewerAsks => AskedBridged(b);
    case Carried(i, toTheAgent, f) => CarriedBridged(b, i, toTheAgent, f);
    case AgentLeaves(i) => ShutBridged(b, i);
    case ViewerLeaves(i) => ShutBridged(b, i);
    case OfferEnds => if b.current.Some? { ShutBridged(b, b.current.value); }
  }

  /** Over every interleaving of agents connecting and leaving, viewers asking
      and leaving, frames passing and the offer ending: a free current link has
      been announced, each link is given to one viewer at most, and each queue
      has exactly one end marker if its link is closed and else none. */
  lemma {:induction false} AlwaysBridged(events: seq<Event>)
    ensures Bridged(Play(events))
  {
    if |events| > 0 {
      AlwaysBridged(events[..|events| - 1]);
      NextBridged(Play(events[..|events| - 1]), events[|events| - 1]);
    }
  }

  /** A viewer that asks while a free link is there gets it, whatever came
      before, and an agent that connects is there for the next that asks. */
  lemma AskingGetsTheLink(events: seq<Event>)
    ensures var b := Play(events);
      HasFree(b) ==> Play(events + [ViewerAsks]).given == b.given + [b.current.value]
    ensures var b := Play(events);
      Play(events + [AgentConnects] + [ViewerAsks]).given == b.given + [|b.links|]
  {
    PlayMore(events, ViewerAsks);
    PlayMore(events, AgentConnects);
    PlayMore(events + [AgentConnects], ViewerAsks);
  }

  lemma PlayMore(events: seq<Event>, e: Event)
    ensures Play(events + [e]) == Next(Play(events), e)
  {
    assert (events + [e])[..|events|] == events;
  }

  // ------------------------------------------- the objects do the same ----

  ghost predicate LinkIs(l: Link, s: LinkState)
    reads l
  {
    l.Valid() && l.toAgent == s.toAgent && l.toConsole == s.toConsole && l.taken == s.taken && l.closed == s.closed
  }

  ghost predicate Stands(offer: Offer, links: seq<Link>, b: Bridge)
    reads offer, links
  {
    && |links| == |b.links|
    && (forall i :: 0 <= i < |links| ==> LinkIs(links[i], b.links[i]))
    && (forall i, j :: 0 <= i < j < |links| ==> links[i] != links[j])
    && (b.current.Some? ==> b.current.value < |links|)
    && offer.link == (if b.current.Some? then links[b.current.value] else null)
    && offer.linkArrived == b.arrived && offer.ended == b.ended
    && (HasFree(b) ==> b.arrived)
  }

  // One link changes, and the others are as they were.
  lemma OneLinkIs(links: seq<Link>, states: seq<LinkState>, which: nat, l: LinkState)
    requires |links| == |states| && which < |links| && LinkIs(links[which], l)
    requires forall i :: 0 <= i < |links| && i != which ==> LinkIs(links[i], states[i])
    ensures forall i :: 0 <= i < |links| ==> LinkIs(links[i], states[which := l][i])
  {
  }

  method CloseLink(l: Link, ghost s: LinkState)
    requires LinkIs(l, s)
    modifies l
    ensures LinkIs(l, Shut(s))
  {
    l.Close();
  }

  method CarryOn(l: Link, ghost s: LinkState, toTheAgent: bool, f: Frame)
    requires LinkIs(l, s) && f != End
    modifies l
    ensures LinkIs(l, Passed(s, toTheAgent, f))
  {
    l.Carry(toTheAgent, f);
  }

  method Connect(offer: Offer, links: seq<Link>, ghost b: Bridge) returns (after: seq<Link>)
    requires Stands(offer, links, b)
    modifies offer
    ensures Stands(offer, after, Next(b, AgentConnects))
    ensures exists l :: fresh(l) && after == links + [l]
  {
    var l := new Link();
    offer.OfferLink(l);
    after := links + [l];
  }

  method Ask(offer: Offer, links: seq<Link>, ghost b: Bridge) returns (got: Link?)
    requires Stands(offer, links, b)
    modifies offer, links
    ensures Stands(offer, links, Next(b, ViewerAsks))
    ensures got == if HasFree(b) then links[b.current.value] else null
  {
    got := offer.TakeLink();
  }

  method PartWith(offer: Offer, l: Link, ghost s: LinkState)
    requires LinkIs(l, s) && offer.Awake()
    modifies offer, l
    ensures LinkIs(l, Shut(s)) && offer.link == (if old(offer.link) == l then null else old(offer.link))
    ensures offer.linkArrived == old(offer.linkArrived) && offer.ended == old(offer.ended)
  {
    offer.Leave(l);
  }

  method AgentParts(offer: Offer, links: seq<Link>, ghost b: Bridge, which: nat)
    requires Stands(offer, links, b) && which < |links|
    modifies offer, links
    ensures Stands(offer, links, Next(b, AgentLeaves(which)))
  {
    PartWith(offer, links[which], b.links[which]);
    OneLinkIs(links, b.links, which, Shut(b.links[which]));
  }

  method ViewerParts(offer: Offer, links: seq<Link>, ghost b: Bridge, which: nat)
    requires Stands(offer, links, b) && which < |links|
    modifies links
    ensures Stands(offer, links, Next(b, ViewerLeaves(which)))
  {
    CloseLink(links[which], b.links[which]);
    OneLinkIs(links, b.links, which, Shut(b.links[which]));
  }

  method Pass(offer: Offer, links: seq<Link>, ghost b: Bridge, which: nat, toTheAgent: bool, f: Frame)
    requires Stands(offer, links, b) && which < |links| && f != End
    modifies links
    ensures Stands(offer, links, Next(b, Carried(which, toTheAgent, f)))
  {
    CarryOn(links[which], b.links[which], toTheAgent, f);
    OneLinkIs(links, b.links, which, Passed(b.links[which], toTheAgent, f));
  }

  method EndWith(offer: Offer, ghost s: LinkState)
    requires offer.link != null && LinkIs(offer.link, s) && offer.Awake()
    modifies offer, offer.link
    ensures offer.link != null && offer.link == old(offer.link) && LinkIs(offer.link, Shut(s))
    ensures offer.linkArrived == old(offer.linkArrived) && offer.ended
  {
    offer.End();
  }

  method Finish(offer: Offer, links: seq<Link>, ghost b: Bridge)
    requires Stands(offer, links, b)
    modifies offer, links
    ensures Stands(offer, links, Next(b, OfferEnds))
  {
    if offer.link != null {
      EndWith(offer, b.links[b.current.value]);
      OneLinkIs(links, b.links, b.current.value, Shut(b.links[b.current.value]));
    } else {
      offer.End();
    }
  }

  method Happen(offer: Offer, links: seq<Link>, ghost b: Bridge, e: Event) returns (after: seq<Link>, got: Link?)
    requires Stands(offer, links, b)
    modifies offer, links
    ensures Stands(offer, after, Next(b, e))
    ensures forall i :: 0 <= i < |after| ==> after[i] in links || fresh(after[i])
  {
    after, got := links, null;
    match e {
      case AgentConnects => after := Connect(offer, links, b);
      case ViewerAsks => got := Ask(offer, links, b);
      case Carried(which, toTheAgent, f) =>
        if which < |links| && f != End {
          Pass(offer, links, b, which, toTheAgent, f);
        }
      case AgentLeaves(which) =>
        if which < |links| {
          AgentParts(offer, links, b, which);
        }
      case ViewerLeaves(which) =>
        if which < |links| {
          ViewerParts(offer, links, b, which);
        }
      case OfferEnds => Finish(offer, links, b);
    }
  }

  method Carry(offer: Offer, links: seq<Link>, events: seq<Event>, n: nat) returns (all: seq<Link>)
    requires n <= |events| && Stands(offer, links, Play(events[..n]))
    modifies offer, links
    ensures Stands(offer, all, Play(events))
    decreases |events| - n
  {
    if n == |events| {
      assert events[..n] == events;
      return links;
    }
    var after, got := Happen(offer, links, Play(events[..n]), events[n]);
    assert events[..n + 1] == events[..n] + [events[n]];
    PlayMore(events[..n], events[n]);
    all := Carry(offer, after, events, n + 1);
  }

  // The objects go through any run as the values do.
  method Share(minutes: nat, now: real, events: seq<Event>) returns (offer: Offer, links: seq<Link>)
    ensures Stands(offer, links, Play(events)) && Bridged(Play(events))
  {
    offer := new Offer(minutes, now);
    assert events[..0] == [];
    links := Carry(offer, [], events, 0);
    AlwaysBridged(events);
  }

  // ---------------------------------------------------------- the registry ----

  class Registry {
    var offers: map<string, Offer>

    ghost function Links(): set<Link>
      reads this, offers.Values
    {
      set id | id in offers && offers[id].link != null :: offers[id].link
    }

    ghost predicate Valid()
      reads this, offers.Values, Links()
    {
      forall id :: id in offers ==> offers[id].Awake()
    }

    constructor ()
      ensures Valid() && offers == map[]
    {
      offers := map[];
    }

    // The offer of an id while it lasts; one that is over is ended and let go.
    method Get(id: string, now: real) returns (r: Offer?)
      requires Valid()
      modifies this`offers, offers.Values, Links()
      ensures Valid()
      ensures r != null ==>
        && id in old(offers) && r == old(offers[id]) && offers == old(offers) && unchanged(r) && !r.Expired(now)
      ensures r == null ==> id !in offers && offers == old(offers) - {id}
      ensures id in old(offers) && old(offers[id].Expired(now)) ==> r == null && old(offers[id]).ended
      ensures id in old(offers) && !old(offers[id].Expired(now)) ==> r != null
    {
      if id !in offers {
        assert offers == offers - {id};
        return null;
      }
      r := offers[id];
      if r.Expired(now) {
        r.End();
        offers := offers - {id};
        r := null;
      }
    }

    method Forget(id: string)
      requires Valid()
      modifies this`offers, offers.Values, Links()
      ensures Valid() && offers == old(offers) - {id}
      ensures id in old(offers) ==> old(offers[id]).ended
    {
      if id in offers {
        offers[id].End();
      }
      offers := offers - {id};
    }

    // Lets go of one offer if it is over.
    method DropIfOver(id: string, now: real)
      requires Valid() && id in offers
      modifies this`offers, offers[id], offers[id].link
      ensures Valid()
      ensures offers == if old(offers[id].Expired(now)) then old(offers) - {id} else old(offers)
      ensures old(offers[id].Expired(now)) ==> old(offers[id]).ended
      ensures !old(offers[id].Expired(now)) ==> unchanged(old(offers[id]))
      ensures old(offers[id]).link == old(offers[id].link)
    {
      if offers[id].Expired(now) {
        offers[id].End();
        offers := offers - {id};
      }
    }

    // Of all the offers, those over are ended and gone but for what is still to do.
    ghost predicate Swept(all: map<string, Offer>, over: set<string>, todo: set<string>, now: real)
      reads this, all.Values, offers.Values, Links()
    {
      && Valid() && todo <= offers.Keys && over <= all.Keys && offers == all - (over - todo)
      && (forall id :: id in todo ==> (all[id].Expired(now) <==> id in over))
      && (forall id :: id in over && id !in todo ==> all[id].ended)
    }

    method SweepOne(
      ghost all: map<string, Offer>, ghost over: set<string>, ghost todo: set<string>, id: string, now: real)
      requires id in todo && Swept(all, over, todo, now)
      modifies this`offers, offers[id], offers[id].link
      ensures Swept(all, over, todo - {id}, now)
      ensures forall k :: k in all ==> all[k].link == old(all[k].link)
    {
      DropIfOver(id, now);
    }

    // Lets go of everything that is over.
    method Sweep(now: real)
      requires Valid()
      modifies this`offers, offers.Values, Links()
      ensures Valid() && offers.Keys <= old(offers.Keys)
      ensures forall id :: id in old(offers) ==>
        if old(offers[id].Expired(now)) then id !in offers && old(offers[id]).ended
        else id in offers && offers[id] == old(offers[id])
    {
      var all := offers;
      ghost var over := set id | id in all && all[id].Expired(now);
      var todo := all.Keys;
      while todo != {}
        invariant Swept(all, over, todo, now)
        invariant forall id :: id in all ==> all[id].link == old(all[id].link)
        decreases todo
      {
        var id :| id in todo;
        SweepOne(all, over, todo, id, now);
        todo := todo - {id};
      }
    }

    // A new offer, under an id no other has.
    method Create(id: string, minutes: nat, now: real) returns (r: Offer)
      requires Valid() && id !in offers
      modifies this`offers, offers.Values, Links()
      ensures Valid() && fresh(r) && !r.ended && r.minutes == minutes && r.created == now
      ensures id in offers && offers[id] == r
      ensures forall k :: k in offers && k != id ==>
        k in old(offers) && offers[k] == old(offers[k]) && !old(offers[k].Expired(now))
    {
      Sweep(now);
      r := new Offer(minutes, now);
      offers := offers[id := r];
    }
  }

  // ------------------------------------------------------ in plain terms ----

  /** Whichever side leaves, its link is closed and the others stay as they are;
      a link the agent left is current no more; and an offer that ends closes
      the current one. */
  lemma LeavingCloses(b: Bridge, i: nat)
    requires i < |b.links|
    ensures forall e :: e in [AgentLeaves(i), ViewerLeaves(i)] ==>
      var u := Next(b, e);
      && |u.links| == |b.links| && u.links[i].closed && u.links[i].taken == b.links[i].taken
      && (forall j :: 0 <= j < |b.links| && j != i ==> u.links[j] == b.links[j])
      && u.ended == b.ended && u.given == b.given && u.arrived == b.arrived
    ensures Next(b, AgentLeaves(i)).current == if b.current == Some(i) then None else b.current
    ensures Next(b, ViewerLeaves(i)).current == b.current
    ensures var u := Next(b, OfferEnds);
      u.ended && u.current == b.current && (b.current == Some(i) ==> |u.links| == |b.links| && u.links[i].closed)
  {
  }

  /** What either side sends is put at the end of the other's queue, in full and
      in order, and nowhere else. */
  lemma FramesArrive(b: Bridge, i: nat, f: Frame)
    requires i < |b.links| && f != End
    ensures var l, u := b.links[i], Next(b, Carried(i, true, f));
      u == b.(links := b.links[i := LinkState(l.toAgent + [f], l.toConsole, l.taken, l.closed)])
    ensures var l, u := b.links[i], Next(b, Carried(i, false, f));
      u == b.(links := b.links[i := LinkState(l.toAgent, l.toConsole + [f], l.taken, l.closed)])
  {
  }
}
