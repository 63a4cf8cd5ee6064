/** A sign-in approved on a phone: the challenge rows, the answer topics, any
    number of polls at once, and the machines that wait (api/odm/push.py,
    api/odm/routes_agent.py, agent/main.go). Every await in the code is a
    point where other steps may come in between. */
module PhoneApproval {
  import opened Text

  // ------------------------------------------------------------ answers ----

  datatype Word = Approved | Denied

  // One line of what the notification server keeps for a topic.
  datatype Event = Message(text: string) | Other | Unreadable

  function WordOf(e: Event): Option<Word> {
    if !e.Message? then None
    else
      var word := Lower(Strip(e.text));
      if word == "approved" then Some(Approved)
      else if word == "denied" then Some(Denied)
      else None
  }

  function FirstWord(events: seq<Event>): Option<Word> {
    if |events| == 0 then None
    else if WordOf(events[0]).Some? then WordOf(events[0])
    else FirstWord(events[1..])
  }

  method ReadAnswer(events: seq<Event>) returns (answer: Option<Word>)
    ensures answer == FirstWord(events)
  {
    for i := 0 to |events|
      invariant FirstWord(events[i..]) == FirstWord(events)
    {
      var line := events[i];
      if line.Unreadable? || line.Other? {
        continue;
      }
      var word := Lower(Strip(line.text));
      if word == "approved" {
        return Some(Approved);
      }
      if word == "denied" {
        return Some(Denied);
      }
    }
    return None;
  }

  // What a phone has once said is not unsaid by anything said later.
  lemma {:induction false} FirstWordStays(events: seq<Event>, more: seq<Event>)
    requires FirstWord(events).Some?
    ensures FirstWord(events + more) == FirstWord(events)
  {
    assert (events + more)[1..] == events[1..] + more;
    if WordOf(events[0]).None? {
      FirstWordStays(events[1..], more);
    }
  }

  // ----------------------------------------------------------- protocol ----

  type Id = nat
  type Token = nat

  datatype Row = Row(token: Token, principal: string, machine: string, expires: int, decision: Option<Word>)

  // What a challenge was when it was put: kept after its row is gone.
  datatype Asked = Asked(token: Token, machine: string, expires: int)

  datatype Result = NotFound | Missing | Expired | Pending | Decided(word: Word)

  // One poll of one machine, between its database and network calls.
  datatype Poll =
    | Owned(machine: string, id: Id)
    | Reading(machine: string, id: Id, token: Token, began: int)
    | Writing(machine: string, id: Id, token: Token, began: int, word: Word)
    | Done(machine: string, id: Id, result: Result)

  datatype Agent =
    | Asking(machine: string, id: Id)
    | Waiting(machine: string, id: Id)
    | Exited(machine: string, id: Id, code: int)

  // That a settle which fetched its row at `began` came to an answer.
  datatype Settle = Settle(id: Id, began: int, word: Word)

  // Whose rows a retired policy takes with it.
  datatype Coverage = Everyone | AllExcept(names: seq<string>) | OnlyThese(names: seq<string>)

  datatype State = State(
    now: int,
    rows: map<Id, Row>,
    asked: map<Id, Asked>,
    topics: map<Token, seq<Event>>,
    polls: map<nat, Poll>,
    agents: map<nat, Agent>,
    settles: set<Settle>)

  datatype Step =
    | Tick(seconds: nat)
    | Publish(token: Token, event: Event)
    | Begin(agent: nat, id: Id, token: Token, principal: string, machine: string, timeout: nat)
    | BeginFails(agent: nat)
    | BeginOk(agent: nat)
    | Clean
    | Retire(coverage: Coverage)
    | PollOwner(poll: nat, machine: string, id: Id)
    | PollFetch(poll: nat)
    | PollRead(poll: nat, unreachable: bool)
    | PollWrite(poll: nat)
    | AgentHears(agent: nat, poll: nat)
    | AgentGivesUp(agent: nat)

  const START := State(0, map[], map[], map[], map[], map[], {})

  function Topic(s: State, token: Token): seq<Event> {
    if token in s.topics then s.topics[token] else []
  }

  function Account(principal: string): string {
    Lower(UpTo(principal, '@'))
  }

  predicate Covers(c: Coverage, principal: string) {
    match c
    case Everyone => true
    case AllExcept(names) => Account(principal) !in Folded(names)
    case OnlyThese(names) => Account(principal) in Folded(names)
  }

  // The first read of settle_challenge.
  function Fetched(s: State, machine: string, id: Id): Poll {
    if id !in s.rows then Done(machine, id, Missing)
    else
      var row := s.rows[id];
      if row.decision.Some? then Done(machine, id, Decided(row.decision.value))
      else if row.expires < s.now then Done(machine, id, Expired)
      else Reading(machine, id, row.token, s.now)
  }

  // What the waiting client makes of one poll: exit 0 is "approved" and
  // nothing else is; an answer it does not know is waited out.
  function Heard(a: Agent, result: Result): Agent
    requires a.Waiting?
  {
    match result
    case Decided(Approved) => Exited(a.machine, a.id, 0)
    case Decided(Denied) => Exited(a.machine, a.id, 1)
    case Expired => Exited(a.machine, a.id, 1)
    case _ => a
  }

  // What ends one turn of the client's wait: the deadline, the reminder it
  // prints, or a poll, which may have failed.
  datatype Wake = Deadline | Nudge | Polled(result: Option<Result>)

  // What is waited out: the reminder, a poll that failed, and an answer that
  // decides nothing.
  ghost predicate WaitedOut(w: Wake) {
    w in [Nudge, Polled(None), Polled(Some(NotFound)), Polled(Some(Missing)), Polled(Some(Pending))]
  }

  ghost predicate EndsFirst(wakes: seq<Wake>, i: int) {
    0 <= i < |wakes| && !WaitedOut(wakes[i]) && forall j :: 0 <= j < i ==> WaitedOut(wakes[j])
  }

  // The client's wait; no code while it is still waiting when the turns run out.
  method RunPushFactor(wakes: seq<Wake>) returns (code: Option<int>)
    ensures code == None <==> forall i :: 0 <= i < |wakes| ==> WaitedOut(wakes[i])
    ensures code == Some(0) <==> exists i :: EndsFirst(wakes, i) && wakes[i] == Polled(Some(Decided(Approved)))
    ensures code == Some(1) <==>
      exists i :: EndsFirst(wakes, i) && wakes[i] in [Deadline, Polled(Some(Decided(Denied))), Polled(Some(Expired))]
  {
    for i := 0 to |wakes|
      invariant forall j :: 0 <= j < i ==> WaitedOut(wakes[j])
    {
      match wakes[i]
      case Deadline =>
        assert EndsFirst(wakes, i);
        return Some(1);
      case Nudge =>
      case Polled(None) =>
      case Polled(Some(decision)) =>
        var now := Heard(Waiting("", 0), decision);
        if now.Exited? {
          assert EndsFirst(wakes, i);
          return Some(now.code);
        }
    }
    return None;
  }

  function Published(s: State, token: Token, event: Event): State {
    s.(topics := s.topics[token := Topic(s, token) + [event]])
  }

  // Ids and tokens are fresh: the one by the database, the other by chance.
  function Begun(
    s: State, agent: nat, id: Id, token: Token, principal: string, machine: string, timeout: nat): State
  {
    if agent in s.agents || id in s.asked || exists i :: i in s.asked && s.asked[i].token == token then s
    else
      var expires := s.now + timeout;
      s.(rows := s.rows[id := Row(token, principal, machine, expires, None)],
         asked := s.asked[id := Asked(token, machine, expires)],
         agents := s.agents[agent := Asking(machine, id)])
  }

  function NotBegun(s: State, agent: nat): State {
    if agent !in s.agents || !s.agents[agent].Asking? then s
    else
      var a := s.agents[agent];
      s.(rows := s.rows - {a.id}, agents := s.agents[agent := Exited(a.machine, a.id, 2)])
  }

  function Awaiting(s: State, agent: nat): State {
    if agent !in s.agents || !s.agents[agent].Asking? then s
    else s.(agents := s.agents[agent := Waiting(s.agents[agent].machine, s.agents[agent].id)])
  }

  function Cleaned(s: State): State {
    s.(rows := map i | i in s.rows && s.rows[i].expires >= s.now - 86400 :: s.rows[i])
  }

  function Retired(s: State, coverage: Coverage): State {
    s.(rows := map i | i in s.rows && !Covers(coverage, s.rows[i].principal) :: s.rows[i])
  }

  function OwnerChecked(s: State, poll: nat, machine: string, id: Id): State {
    if poll in s.polls then s
    else if id in s.rows && s.rows[id].machine == machine
    then s.(polls := s.polls[poll := Owned(machine, id)])
    else s.(polls := s.polls[poll := Done(machine, id, NotFound)])
  }

  function RowFetched(s: State, poll: nat): State {
    if poll !in s.polls || !s.polls[poll].Owned? then s
    else s.(polls := s.polls[poll := Fetched(s, s.polls[poll].machine, s.polls[poll].id)])
  }

  function AnswerRead(s: State, poll: nat, unreachable: bool): State {
    if poll !in s.polls || !s.polls[poll].Reading? then s
    else
      var p := s.polls[poll];
      var answer := FirstWord(Topic(s, p.token));
      s.(polls := s.polls[poll :=
        if unreachable || answer.None? then Done(p.machine, p.id, Pending)
        else Writing(p.machine, p.id, p.token, p.began, answer.value)])
  }

  function AnswerWritten(s: State, poll: nat): State {
    if poll !in s.polls || !s.polls[poll].Writing? then s
    else
      var p := s.polls[poll];
      var rows := if p.id in s.rows && s.rows[p.id].decision.None?
        then s.rows[p.id := s.rows[p.id].(decision := Some(p.word))] else s.rows;
      s.(rows := rows, polls := s.polls[poll := Done(p.machine, p.id, Decided(p.word))],
         settles := s.settles + {Settle(p.id, p.began, p.word)})
  }

  function Answered(s: State, agent: nat, poll: nat): State {
    if agent !in s.agents || !s.agents[agent].Waiting? || poll !in s.polls || !s.polls[poll].Done?
      || s.polls[poll].machine != s.agents[agent].machine || s.polls[poll].id != s.agents[agent].id
    then s
    else s.(agents := s.agents[agent := Heard(s.agents[agent], s.polls[poll].result)])
  }

  function GivenUp(s: State, agent: nat): State {
    if agent !in s.agents || !s.agents[agent].Waiting? then s
    else s.(agents := s.agents[agent := Exited(s.agents[agent].machine, s.agents[agent].id, 1)])
  }

  // A step that is not possible where it is taken changes nothing.
  function Do(s: State, step: Step): State {
    match step
    case Tick(seconds) => s.(now := s.now + seconds)
    case Publish(token, event) => Published(s, token, event)
    case Begin(agent, id, token, principal, machine, timeout) =>
      Begun(s, agent, id, token, principal, machine, timeout)
    case BeginFails(agent) => NotBegun(s, agent)
    case BeginOk(agent) => Awaiting(s, agent)
    case Clean => Cleaned(s)
    case Retire(coverage) => Retired(s, coverage)
    case PollOwner(poll, machine, id) => OwnerChecked(s, poll, machine, id)
    case PollFetch(poll) => RowFetched(s, poll)
    case PollRead(poll, unreachable) => AnswerRead(s, poll, unreachable)
    case PollWrite(poll) => AnswerWritten(s, poll)
    case AgentHears(agent, poll) => Answered(s, agent, poll)
    case AgentGivesUp(agent) => GivenUp(s, agent)
  }

  function Run(s: State, steps: seq<Step>): State {
    if |steps| == 0 then s else Do(Run(s, steps[..|steps| - 1]), steps[|steps| - 1])
  }

  // ---------------------------------------------------------- invariant ----

  function Answer(s: State, id: Id): Option<Word> {
    if id in s.asked then FirstWord(Topic(s, s.asked[id].token)) else None
  }

  ghost predicate Settled(s: State, id: Id, word: Word) {
    exists began :: Settle(id, began, word) in s.settles
  }

  ghost predicate RowOk(s: State, id: Id, row: Row) {
    && id in s.asked
    && s.asked[id] == Asked(row.token, row.machine, row.expires)
    && (row.decision.Some? ==> Settled(s, id, row.decision.value))
  }

  // A settle answered with the first word on its challenge's own topic, and
  // had found the challenge unexpired when it began.
  ghost predicate SettleOk(s: State, t: Settle) {
    && t.id in s.asked
    && Answer(s, t.id) == Some(t.word)
    && t.began <= s.asked[t.id].expires
  }

  ghost predicate PollOk(s: State, p: Poll) {
    match p
    case Owned(machine, id) => id in s.asked && s.asked[id].machine == machine
    case Reading(machine, id, token, began) =>
      id in s.asked && s.asked[id].machine == machine && s.asked[id].token == token && began <= s.asked[id].expires
    case Writing(machine, id, token, began, word) =>
      && id in s.asked && s.asked[id].machine == machine && s.asked[id].token == token
      && began <= s.asked[id].expires && Answer(s, id) == Some(word)
    case Done(machine, id, result) =>
      result.Decided? ==> id in s.asked && s.asked[id].machine == machine && Settled(s, id, result.word)
  }

  ghost predicate AgentOk(s: State, a: Agent) {
    && a.id in s.asked && s.asked[a.id].machine == a.machine
    && (a.Exited? && a.code == 0 ==> Settled(s, a.id, Approved))
  }

  ghost predicate Inv(s: State) {
    && (forall i :: i in s.rows ==> RowOk(s, i, s.rows[i]))
    && (forall t :: t in s.settles ==> SettleOk(s, t))
    && (forall k :: k in s.polls ==> PollOk(s, s.polls[k]))
    && (forall k :: k in s.agents ==> AgentOk(s, s.agents[k]))
    && (forall i, j :: i in s.asked && j in s.asked && s.asked[i].token == s.asked[j].token ==> i == j)
  }

  // What only ever grows.
  ghost predicate Grown(s: State, u: State) {
    && s.now <= u.now
    && (forall i :: i in s.asked ==> i in u.asked && u.asked[i] == s.asked[i])
    && (forall k :: Topic(s, k) <= Topic(u, k))
    && s.settles <= u.settles
  }

  lemma DoGrows(s: State, step: Step)
    ensures Grown(s, Do(s, step))
  {
  }

  lemma AnswerStays(s: State, u: State, id: Id)
    requires Grown(s, u) && id in s.asked && Answer(s, id).Some?
    ensures Answer(u, id) == Answer(s, id)
  {
    var token := s.asked[id].token;
    assert Topic(s, token) <= Topic(u, token);
    var more := Topic(u, token)[|Topic(s, token)|..];
    assert Topic(u, token) == Topic(s, token) + more;
    FirstWordStays(Topic(s, token), more);
  }

  lemma SettledStays(s: State, u: State)
    requires Grown(s, u)
    ensures forall id, word :: Settled(s, id, word) ==> Settled(u, id, word)
  {
  }

  // What held of an element in a state holds of it in any later one.
  lemma KeepsOk(s: State, u: State)
    requires Inv(s) && Grown(s, u)
    ensures forall i :: i in s.rows ==> RowOk(u, i, s.rows[i])
    ensures forall k :: k in s.polls ==> PollOk(u, s.polls[k])
    ensures forall k :: k in s.agents ==> AgentOk(u, s.agents[k])
    ensures forall t :: t in s.settles ==> SettleOk(u, t)
  {
    SettledStays(s, u);
    forall k | k in s.polls ensures PollOk(u, s.polls[k]) {
      assert PollOk(s, s.polls[k]);
      if s.polls[k].Writing? {
        AnswerStays(s, u, s.polls[k].id);
      }
    }
    forall t | t in s.settles ensures SettleOk(u, t) {
      AnswerStays(s, u, t.id);
    }
  }

  // Rows, polls and machines may change in any way that is right by what was
  // asked, published and settled.
  lemma RightStays(s: State, u: State)
    requires Inv(s) && u.asked == s.asked && u.topics == s.topics && u.settles == s.settles
    requires forall i :: i in u.rows ==> RowOk(s, i, u.rows[i])
    requires forall k :: k in u.polls ==> PollOk(s, u.polls[k])
    requires forall k :: k in u.agents ==> AgentOk(s, u.agents[k])
    ensures Inv(u)
  {
    forall k | k in u.polls ensures PollOk(u, u.polls[k]) {
      assert PollOk(s, u.polls[k]);
    }
    forall i | i in u.rows ensures RowOk(u, i, u.rows[i]) {
      assert RowOk(s, i, u.rows[i]);
    }
    forall k | k in u.agents ensures AgentOk(u, u.agents[k]) {
      assert AgentOk(s, u.agents[k]);
    }
    forall t | t in u.settles ensures SettleOk(u, t) {
      assert SettleOk(s, t);
    }
  }

  lemma PollMovesOn(s: State, poll: nat, p: Poll)
    requires Inv(s) && PollOk(s, p)
    ensures Inv(s.(polls := s.polls[poll := p]))
  {
    RightStays(s, s.(polls := s.polls[poll := p]));
  }

  lemma FetchKeeps(s: State, poll: nat)
    requires Inv(s)
    ensures Inv(RowFetched(s, poll))
  {
    if poll in s.polls && s.polls[poll].Owned? {
      var p := s.polls[poll];
      assert PollOk(s, p);
      if p.id in s.rows {
        assert RowOk(s, p.id, s.rows[p.id]);
      }
      PollMovesOn(s, poll, Fetched(s, p.machine, p.id));
    }
  }

  lemma ReadKeeps(s: State, poll: nat, unreachable: bool)
    requires Inv(s)
    ensures Inv(AnswerRead(s, poll, unreachable))
  {
    if poll in s.polls && s.polls[poll].Reading? {
      assert PollOk(s, s.polls[poll]);
      PollMovesOn(s, poll, AnswerRead(s, poll, unreachable).polls[poll]);
    }
  }

  lemma WriteKeeps(s: State, poll: nat)
    requires Inv(s)
    ensures Inv(AnswerWritten(s, poll))
  {
    var u := AnswerWritten(s, poll);
    if poll in s.polls && s.polls[poll].Writing? {
      var p := s.polls[poll];
      assert PollOk(s, p);
      KeepsOk(s, u);
      assert Settle(p.id, p.began, p.word) in u.settles;
      assert Settled(u, p.id, p.word);
      AnswerStays(s, u, p.id);
    }
  }

  lemma TokensStayApart(s: State, step: Step)
    requires Inv(s) && step.Begin?
    ensures var u := Do(s, step);
      forall i, j :: i in u.asked && j in u.asked && u.asked[i].token == u.asked[j].token ==> i == j
  {
  }

  lemma NewRowIsRight(s: State, step: Step)
    requires Inv(s) && step.Begin?
    ensures var u := Do(s, step);
      u != s ==> RowOk(u, step.id, u.rows[step.id]) && AgentOk(u, u.agents[step.agent])
  {
  }

  lemma BeginKeeps(s: State, step: Step)
    requires Inv(s) && step.Begin?
    ensures Inv(Do(s, step))
  {
    DoGrows(s, step);
    KeepsOk(s, Do(s, step));
    TokensStayApart(s, step);
    NewRowIsRight(s, step);
  }

  lemma AgentMovesOn(s: State, agent: nat, a: Agent)
    requires Inv(s) && AgentOk(s, a)
    ensures Inv(s.(agents := s.agents[agent := a]))
  {
    RightStays(s, s.(agents := s.agents[agent := a]));
  }

  lemma NotBegunKeeps(s: State, agent: nat)
    requires Inv(s)
    ensures Inv(NotBegun(s, agent))
  {
    if agent in s.agents {
      assert AgentOk(s, s.agents[agent]);
      RightStays(s, NotBegun(s, agent));
    }
  }

  lemma AwaitingKeeps(s: State, agent: nat)
    requires Inv(s)
    ensures Inv(Awaiting(s, agent)) && Inv(GivenUp(s, agent))
  {
    if agent in s.agents {
      var a := s.agents[agent];
      assert AgentOk(s, a);
      AgentMovesOn(s, agent, Waiting(a.machine, a.id));
      AgentMovesOn(s, agent, Exited(a.machine, a.id, 1));
    }
  }

  lemma AnsweredKeeps(s: State, agent: nat, poll: nat)
    requires Inv(s)
    ensures Inv(Answered(s, agent, poll))
  {
    if agent in s.agents && s.agents[agent].Waiting? && poll in s.polls && s.polls[poll].Done? {
      assert AgentOk(s, s.agents[agent]) && PollOk(s, s.polls[poll]);
      RightStays(s, Answered(s, agent, poll));
    }
  }

  lemma OwnerKeeps(s: State, poll: nat, machine: string, id: Id)
    requires Inv(s)
    ensures Inv(OwnerChecked(s, poll, machine, id))
  {
    if id in s.rows && s.rows[id].machine == machine {
      assert RowOk(s, id, s.rows[id]);
      PollMovesOn(s, poll, Owned(machine, id));
    } else {
      PollMovesOn(s, poll, Done(machine, id, NotFound));
    }
  }

  lemma WorldKeeps(s: State, step: Step)
    requires Inv(s) && (step.Tick? || step.Publish? || step.Clean? || step.Retire?)
    ensures Inv(Do(s, step))
  {
    DoGrows(s, step);
    KeepsOk(s, Do(s, step));
  }

  lemma StepKeeps(s: State, step: Step)
    requires Inv(s)
    ensures Inv(Do(s, step))
  {
    match step {
      case Tick(_) => WorldKeeps(s, step);
      case Publish(_, _) => WorldKeeps(s, step);
      case Clean => WorldKeeps(s, step);
      case Retire(_) => WorldKeeps(s, step);
      case Begin(_, _, _, _, _, _) => BeginKeeps(s, step);
      case PollOwner(poll, machine, id) => OwnerKeeps(s, poll, machine, id);
      case PollFetch(poll) => FetchKeeps(s, poll);
      case PollRead(poll, unreachable) => ReadKeeps(s, poll, unreachable);
      case PollWrite(poll) => WriteKeeps(s, poll);
      case BeginFails(agent) => NotBegunKeeps(s, agent);
      case BeginOk(agent) => AwaitingKeeps(s, agent);
      case AgentHears(agent, poll) => AnsweredKeeps(s, agent, poll);
      case AgentGivesUp(agent) => AwaitingKeeps(s, agent);
    }
  }

  lemma {:induction false} AlwaysInv(steps: seq<Step>)
    ensures Inv(Run(START, steps))
  {
    if |steps| > 0 {
      AlwaysInv(steps[..|steps| - 1]);
      StepKeeps(Run(START, steps[..|steps| - 1]), steps[|steps| - 1]);
    }
  }

  lemma {:induction false} RunGrows(s: State, steps: seq<Step>)
    ensures Grown(s, Run(s, steps))
  {
    if |steps| > 0 {
      RunGrows(s, steps[..|steps| - 1]);
      DoGrows(Run(s, steps[..|steps| - 1]), steps[|steps| - 1]);
    }
  }

  // ----------------------------------------------------------- theorems ----

  /** In every interleaving: a stored decision, and every answer any poll gives
      out, is the first word on the challenge's own topic, a word that a settle
      begun before expiry read; and only the machine that asked is told. */
  lemma AnswersAreTheFirstWord(steps: seq<Step>)
    ensures var s := Run(START, steps);
      && (forall i :: i in s.rows && s.rows[i].decision.Some? ==>
            Answer(s, i) == s.rows[i].decision && ReadInTime(s, i, s.rows[i].decision.value))
      && (forall k :: k in s.polls && s.polls[k].Done? && s.polls[k].result.Decided? ==>
            && Answer(s, s.polls[k].id) == Some(s.polls[k].result.word)
            && ReadInTime(s, s.polls[k].id, s.polls[k].result.word)
            && s.asked[s.polls[k].id].machine == s.polls[k].machine)
  {
    AlwaysInv(steps);
    var s := Run(START, steps);
    forall i | i in s.rows && s.rows[i].decision.Some?
      ensures Answer(s, i) == s.rows[i].decision && ReadInTime(s, i, s.rows[i].decision.value)
    {
      assert RowOk(s, i, s.rows[i]);
    }
    forall k | k in s.polls && s.polls[k].Done? && s.polls[k].result.Decided?
      ensures Answer(s, s.polls[k].id) == Some(s.polls[k].result.word)
      ensures ReadInTime(s, s.polls[k].id, s.polls[k].result.word)
      ensures s.polls[k].id in s.asked && s.asked[s.polls[k].id].machine == s.polls[k].machine
    {
      assert PollOk(s, s.polls[k]);
    }
  }

  ghost predicate ReadInTime(s: State, id: Id, word: Word) {
    id in s.asked && exists began :: Settle(id, began, word) in s.settles && began <= s.asked[id].expires
  }

  /** A stored decision never changes while its row is there, whatever comes
      in between, and no answer given later contradicts one given earlier. */
  lemma DecisionsNeverChange(steps: seq<Step>, more: seq<Step>, id: Id)
    requires id in Run(START, steps).rows && Run(START, steps).rows[id].decision.Some?
    ensures var s, u := Run(START, steps), Run(Run(START, steps), more);
      && (id in u.rows ==> u.rows[id].decision == s.rows[id].decision)
      && forall k :: k in u.polls && u.polls[k].Done? && u.polls[k].id == id && u.polls[k].result.Decided? ==>
           u.polls[k].result.word == s.rows[id].decision.value
  {
    var s, u := Run(START, steps), Run(Run(START, steps), more);
    RunConcat(START, steps, more);
    AlwaysInv(steps);
    AlwaysInv(steps + more);
    AnswersAreTheFirstWord(steps);
    AnswersAreTheFirstWord(steps + more);
    RunGrows(s, more);
    AnswerStays(s, u, id);
    StaysDecided(s, more, id);
  }

  lemma {:induction false} RunConcat(s: State, steps: seq<Step>, more: seq<Step>)
    ensures Run(s, steps + more) == Run(Run(s, steps), more)
  {
    if |more| == 0 {
      assert steps + more == steps;
    } else {
      RunConcat(s, steps, more[..|more| - 1]);
      assert (steps + more)[..|steps + more| - 1] == steps + more[..|more| - 1];
    }
  }

  lemma StaysDecidedStep(s: State, step: Step, id: Id)
    requires id in s.asked && (id in s.rows ==> s.rows[id].decision.Some?)
    ensures id in Do(s, step).asked && (id in Do(s, step).rows ==> Do(s, step).rows[id].decision.Some?)
  {
  }

  lemma {:induction false} StaysDecided(s: State, more: seq<Step>, id: Id)
    requires id in s.asked && (id in s.rows ==> s.rows[id].decision.Some?)
    ensures id in Run(s, more).asked && (id in Run(s, more).rows ==> Run(s, more).rows[id].decision.Some?)
  {
    if |more| > 0 {
      StaysDecided(s, more[..|more| - 1], id);
      StaysDecidedStep(Run(s, more[..|more| - 1]), more[|more| - 1], id);
    }
  }

  /** A client exits 0 only if the first word on its own challenge's topic was
      "approved", a settle begun before expiry read it, and this machine is
      the one that asked. */
  lemma ExitZeroMeansApproved(steps: seq<Step>, agent: nat)
    requires agent in Run(START, steps).agents
    requires Run(START, steps).agents[agent].Exited? && Run(START, steps).agents[agent].code == 0
    ensures var s := Run(START, steps); var a := s.agents[agent];
      && Answer(s, a.id) == Some(Approved) && ReadInTime(s, a.id, Approved)
      && s.asked[a.id].machine == a.machine
      && forall i :: i in s.asked && s.asked[i].token == s.asked[a.id].token ==> i == a.id
  {
    AlwaysInv(steps);
    var s := Run(START, steps);
    assert AgentOk(s, s.agents[agent]);
  }

  // Past its expiry, never settled, and nobody still reading its answer.
  ghost predicate Lapsed(s: State, id: Id) {
    && id in s.asked && s.asked[id].expires < s.now
    && (forall t :: t in s.settles ==> t.id != id)
    && (forall k :: k in s.polls && (s.polls[k].Reading? || s.polls[k].Writing?) ==> s.polls[k].id != id)
  }

  lemma LapsedOwner(s: State, poll: nat, machine: string, id: Id, about: Id)
    requires Inv(s) && Lapsed(s, id)
    ensures Lapsed(OwnerChecked(s, poll, machine, about), id)
  {
  }

  lemma LapsedFetch(s: State, poll: nat, id: Id)
    requires Inv(s) && Lapsed(s, id)
    ensures Lapsed(RowFetched(s, poll), id)
  {
    if id in s.rows {
      assert RowOk(s, id, s.rows[id]);
    }
  }

  lemma LapsedRead(s: State, poll: nat, unreachable: bool, id: Id)
    requires Lapsed(s, id)
    ensures Lapsed(AnswerRead(s, poll, unreachable), id)
  {
  }

  lemma LapsedWrite(s: State, poll: nat, id: Id)
    requires Lapsed(s, id)
    ensures Lapsed(AnswerWritten(s, poll), id)
  {
  }

  lemma LapsedStep(s: State, step: Step, id: Id)
    requires Inv(s) && Lapsed(s, id)
    ensures Lapsed(Do(s, step), id)
  {
    match step
    case PollOwner(poll, machine, about) => LapsedOwner(s, poll, machine, id, about);
    case PollFetch(poll) => LapsedFetch(s, poll, id);
    case PollRead(poll, unreachable) => LapsedRead(s, poll, unreachable, id);
    case PollWrite(poll) => LapsedWrite(s, poll, id);
    case _ =>
  }

  lemma {:induction false} LapsedForEver(s: State, more: seq<Step>, id: Id)
    requires Inv(s) && Lapsed(s, id)
    ensures Inv(Run(s, more)) && Lapsed(Run(s, more), id)
  {
    if |more| > 0 {
      LapsedForEver(s, more[..|more| - 1], id);
      StepKeeps(Run(s, more[..|more| - 1]), more[|more| - 1]);
      LapsedStep(Run(s, more[..|more| - 1]), more[|more| - 1], id);
    }
  }

  /** Once a challenge has expired unsettled with no poll still reading, no tap
      on it has any effect ever again. */
  lemma OldTapsDoNothing(steps: seq<Step>, more: seq<Step>, id: Id, agent: nat)
    requires Lapsed(Run(START, steps), id)
    ensures var u := Run(Run(START, steps), more);
      && (id in u.rows ==> u.rows[id].decision.None?)
      && (agent in u.agents && u.agents[agent].id == id && u.agents[agent].Exited? ==> u.agents[agent].code != 0)
  {
    AlwaysInv(steps);
    LapsedForEver(Run(START, steps), more, id);
    var u := Run(Run(START, steps), more);
    if id in u.rows {
      assert RowOk(u, id, u.rows[id]);
    }
    if agent in u.agents {
      assert AgentOk(u, u.agents[agent]);
    }
  }

  lemma {:induction false} FirstWordNext(events: seq<Event>, e: Event)
    requires FirstWord(events).None?
    ensures FirstWord(events + [e]) == WordOf(e)
  {
    if |events| > 0 {
      FirstWordNext(events[1..], e);
      assert (events + [e])[1..] == events[1..] + [e];
    } else {
      assert events + [e] == [e];
    }
  }

  function Tap(word: Word): Event {
    Message(if word == Approved then "approved" else "denied")
  }

  lemma TapSaysWord(word: Word)
    ensures WordOf(Tap(word)) == Some(word)
  {
  }

  lemma TapIsPublished(s: State, token: Token, word: Word)
    requires FirstWord(Topic(s, token)).None?
    ensures var a := Do(s, Publish(token, Tap(word)));
      && a.polls == s.polls && a.agents == s.agents && FirstWord(Topic(a, token)) == Some(word)
  {
    FirstWordNext(Topic(s, token), Tap(word));
    TapSaysWord(word);
  }

  lemma ReadAndWritten(s: State, poll: nat, word: Word)
    requires poll in s.polls && s.polls[poll].Reading? && FirstWord(Topic(s, s.polls[poll].token)) == Some(word)
    ensures var p, u := s.polls[poll], Do(Do(s, PollRead(poll, false)), PollWrite(poll));
      && Settled(u, p.id, word) && poll in u.polls && u.polls[poll] == Done(p.machine, p.id, Decided(word))
      && u.agents == s.agents
  {
    var p := s.polls[poll];
    var b := Do(s, PollRead(poll, false));
    assert b.polls[poll] == Writing(p.machine, p.id, p.token, p.began, word);
    assert Settle(p.id, p.began, word) in Do(b, PollWrite(poll)).settles;
  }

  /** Where a challenge has no word yet, a tap settles it for any poll that is
      still reading it, however long ago it expired. */
  lemma LateTapCounts(s: State, poll: nat, word: Word)
    requires Inv(s) && poll in s.polls && s.polls[poll].Reading? && Answer(s, s.polls[poll].id).None?
    ensures var p := s.polls[poll];
      var u := Do(Do(Do(s, Publish(p.token, Tap(word))), PollRead(poll, false)), PollWrite(poll));
      && Settled(u, p.id, word) && poll in u.polls && u.polls[poll] == Done(p.machine, p.id, Decided(word))
      && u.agents == s.agents
  {
    var p := s.polls[poll];
    assert PollOk(s, p);
    TapIsPublished(s, p.token, word);
    ReadAndWritten(Do(s, Publish(p.token, Tap(word))), poll, word);
  }

  // A machine that waits for the approval such a poll brings exits 0.
  lemma ApprovalIsHeard(s: State, agent: nat, poll: nat)
    requires poll in s.polls && s.polls[poll].Done? && s.polls[poll].result == Decided(Approved)
    requires agent in s.agents && s.agents[agent] == Waiting(s.polls[poll].machine, s.polls[poll].id)
    ensures var u := Do(s, AgentHears(agent, poll));
      agent in u.agents && u.agents[agent] == Exited(s.polls[poll].machine, s.polls[poll].id, 0)
  {
  }

  lemma ThreeSteps(s: State, a: Step, b: Step, c: Step)
    ensures Run(s, [a, b, c]) == Do(Do(Do(s, a), b), c)
  {
    RunSnoc(s, [], a);
    RunSnoc(s, [a], b);
    RunSnoc(s, [a, b], c);
    assert [] + [a] == [a] && [a] + [b] == [a, b] && [a, b] + [c] == [a, b, c];
  }

  ghost predicate CanSettle(s: State, id: Id, word: Word) {
    exists more: seq<Step> :: Settled(Run(s, more), id, word)
  }

  ghost predicate IsRead(s: State, id: Id) {
    exists k :: k in s.polls && s.polls[k].Reading? && s.polls[k].id == id
  }

  lemma UnreadIsLapsed(s: State, id: Id)
    requires Inv(s) && id in s.asked && s.asked[id].expires < s.now && Answer(s, id).None? && !IsRead(s, id)
    ensures Lapsed(s, id)
  {
    forall t | t in s.settles ensures t.id != id {
      assert SettleOk(s, t);
    }
    forall k | k in s.polls && (s.polls[k].Reading? || s.polls[k].Writing?) ensures s.polls[k].id != id {
      assert PollOk(s, s.polls[k]);
    }
  }

  /** A tap on a challenge that has expired without a word has an effect
      exactly when some poll is still reading it. */
  lemma LateTapExactly(steps: seq<Step>, id: Id, word: Word)
    requires var s := Run(START, steps); id in s.asked && s.asked[id].expires < s.now && Answer(s, id).None?
    ensures CanSettle(Run(START, steps), id, word) <==> IsRead(Run(START, steps), id)
  {
    var s := Run(START, steps);
    AlwaysInv(steps);
    if IsRead(s, id) {
      var k :| k in s.polls && s.polls[k].Reading? && s.polls[k].id == id;
      LateTapCounts(s, k, word);
      var a, b, c := Publish(s.polls[k].token, Tap(word)), PollRead(k, false), PollWrite(k);
      ThreeSteps(s, a, b, c);
      assert Settled(Run(s, [a, b, c]), id, word);
    } else {
      UnreadIsLapsed(s, id);
      forall more: seq<Step> ensures !Settled(Run(s, more), id, word) {
        LapsedForEver(s, more, id);
      }
    }
  }

  /** Where a word was said, before the expiry or after, no later tap changes
      it: whatever is settled from then on is that word. */
  lemma LaterTapsChangeNothing(steps: seq<Step>, more: seq<Step>, id: Id, word: Word)
    requires Answer(Run(START, steps), id).Some?
    ensures var u := Run(Run(START, steps), more);
      && Answer(u, id) == Answer(Run(START, steps), id)
      && (Settled(u, id, word) ==> Answer(u, id) == Some(word))
  {
    var s := Run(START, steps);
    RunGrows(s, more);
    AnswerStays(s, Run(s, more), id);
    RunConcat(START, steps, more);
    AlwaysInv(steps + more);
    var u := Run(s, more);
    SettledIsAnswer(u, id, word);
  }

  lemma RunSnoc(s: State, steps: seq<Step>, step: Step)
    ensures Run(s, steps + [step]) == Do(Run(s, steps), step)
  {
    assert (steps + [step])[..|steps|] == steps;
  }

  // The machine that asked has not given up on the challenge.
  ghost predicate IsAwaited(s: State, id: Id) {
    exists a :: a in s.agents && s.agents[a].id == id && !s.agents[a].Exited?
  }

  ghost predicate ExitsZero(s: State, id: Id) {
    exists a :: a in s.agents && s.agents[a].id == id && s.agents[a].Exited? && s.agents[a].code == 0
  }

  ghost predicate CanExitZero(s: State, id: Id) {
    exists more: seq<Step> :: ExitsZero(Run(s, more), id)
  }

  // Everybody who waited for the challenge has left without an approval.
  ghost predicate Abandoned(s: State, id: Id) {
    id in s.asked && forall a :: a in s.agents && s.agents[a].id == id ==> s.agents[a].Exited? && s.agents[a].code != 0
  }

  lemma ExitedStays(s: State, step: Step, a: nat)
    requires a in Do(s, step).agents && a in s.agents
    ensures Do(s, step).agents[a].id == s.agents[a].id
    ensures s.agents[a].Exited? ==> Do(s, step).agents[a] == s.agents[a]
  {
  }

  lemma AbandonedStep(s: State, step: Step, id: Id)
    requires Abandoned(s, id)
    ensures Abandoned(Do(s, step), id)
  {
    var u := Do(s, step);
    DoGrows(s, step);
    forall a | a in u.agents && u.agents[a].id == id ensures u.agents[a].Exited? && u.agents[a].code != 0 {
      if a in s.agents {
        ExitedStays(s, step, a);
      }
    }
  }

  lemma {:induction false} AbandonedForEver(s: State, more: seq<Step>, id: Id)
    requires Abandoned(s, id)
    ensures Abandoned(Run(s, more), id)
  {
    if |more| > 0 {
      AbandonedForEver(s, more[..|more| - 1], id);
      AbandonedStep(Run(s, more[..|more| - 1]), more[|more| - 1], id);
    }
  }

  // Whoever has not left is waiting, or is once its challenge is on its way.
  lemma StartsToWait(s: State, agent: nat)
    requires agent in s.agents && !s.agents[agent].Exited?
    ensures var u := Do(s, BeginOk(agent));
      u == s.(agents := s.agents[agent := Waiting(s.agents[agent].machine, s.agents[agent].id)])
  {
    if s.agents[agent].Waiting? {
      assert s.agents == s.agents[agent := s.agents[agent]];
    }
  }

  lemma ExitIsReached(s: State, poll: nat, agent: nat)
    requires Inv(s) && poll in s.polls && s.polls[poll].Reading? && Answer(s, s.polls[poll].id).None?
    requires agent in s.agents && s.agents[agent] == Waiting(s.polls[poll].machine, s.polls[poll].id)
    ensures CanExitZero(s, s.polls[poll].id)
  {
    var p := s.polls[poll];
    var a, b, c := Publish(p.token, Tap(Approved)), PollRead(poll, false), PollWrite(poll);
    LateTapCounts(s, poll, Approved);
    ThreeSteps(s, a, b, c);
    var u := Run(s, [a, b, c]);
    ApprovalIsHeard(u, agent, poll);
    RunSnoc(s, [a, b, c], AgentHears(agent, poll));
    assert ExitsZero(Run(s, [a, b, c] + [AgentHears(agent, poll)]), p.id);
  }

  lemma CanStillExit(s: State, id: Id)
    requires Inv(s) && Answer(s, id).None? && IsRead(s, id) && IsAwaited(s, id)
    ensures CanExitZero(s, id)
  {
    var k :| k in s.polls && s.polls[k].Reading? && s.polls[k].id == id;
    var a :| a in s.agents && s.agents[a].id == id && !s.agents[a].Exited?;
    WaitsAndExits(s, k, a);
  }

  lemma WaitsAndExits(s: State, k: nat, a: nat)
    requires Inv(s) && k in s.polls && s.polls[k].Reading? && Answer(s, s.polls[k].id).None?
    requires a in s.agents && s.agents[a].id == s.polls[k].id && !s.agents[a].Exited?
    ensures CanExitZero(s, s.polls[k].id)
  {
    var u, id := Do(s, BeginOk(a)), s.polls[k].id;
    StartsToWait(s, a);
    StepKeeps(s, BeginOk(a));
    assert PollOk(s, s.polls[k]) && AgentOk(s, s.agents[a]);
    ExitIsReached(u, k, a);
    CanExitLater(s, BeginOk(a), id);
  }

  lemma CanExitLater(s: State, step: Step, id: Id)
    requires CanExitZero(Do(s, step), id)
    ensures CanExitZero(s, id)
  {
    var more: seq<Step> :| ExitsZero(Run(Do(s, step), more), id);
    RunSnoc(s, [], step);
    RunConcat(s, [step], more);
    assert [] + [step] == [step];
    assert ExitsZero(Run(s, [step] + more), id);
  }

  lemma NoExitUnread(steps: seq<Step>, id: Id)
    requires Lapsed(Run(START, steps), id)
    ensures !CanExitZero(Run(START, steps), id)
  {
    forall more: seq<Step> ensures !ExitsZero(Run(Run(START, steps), more), id) {
      forall agent: nat {
        OldTapsDoNothing(steps, more, id, agent);
      }
    }
  }

  lemma NoExitUnawaited(s: State, id: Id)
    requires Inv(s) && id in s.asked && Answer(s, id).None? && !IsAwaited(s, id)
    ensures !CanExitZero(s, id)
  {
    forall a | a in s.agents && s.agents[a].id == id ensures s.agents[a].Exited? && s.agents[a].code != 0 {
      assert AgentOk(s, s.agents[a]);
      SettledIsAnswer(s, id, Approved);
    }
    forall more: seq<Step> ensures !ExitsZero(Run(s, more), id) {
      AbandonedForEver(s, more, id);
    }
  }

  lemma SettledIsAnswer(s: State, id: Id, word: Word)
    requires Inv(s)
    ensures Settled(s, id, word) ==> Answer(s, id) == Some(word)
  {
    if Settled(s, id, word) {
      var began :| Settle(id, began, word) in s.settles;
      assert SettleOk(s, Settle(id, began, word));
    }
  }

  /** A tap on a challenge that has expired without a word can still let
      somebody in exactly when a poll is still reading it and the machine that
      asked has not given up. */
  lemma LateEntryExactly(steps: seq<Step>, id: Id)
    requires var s := Run(START, steps); id in s.asked && s.asked[id].expires < s.now && Answer(s, id).None?
    ensures var s := Run(START, steps); CanExitZero(s, id) <==> IsRead(s, id) && IsAwaited(s, id)
  {
    var s := Run(START, steps);
    AlwaysInv(steps);
    if !IsRead(s, id) {
      UnreadIsLapsed(s, id);
      NoExitUnread(steps, id);
    } else if !IsAwaited(s, id) {
      NoExitUnawaited(s, id);
    } else {
      CanStillExit(s, id);
    }
  }

  // A poll that fetched its challenge in time and is still reading when the
  // challenge has expired.
  const LATE := State(61,
    map[0 := Row(7, "ada", "ws01", 60, None)], map[0 := Asked(7, "ws01", 60)], map[],
    map[0 := Reading("ws01", 0, 7, 0)], map[0 := Waiting("ws01", 0)], {})

  // The machine waits for a challenge just put.
  const PUT := LATE.(now := 0, polls := map[])

  lemma PutIsReached() returns (steps: seq<Step>)
    ensures Run(START, steps) == PUT
  {
    var s := START;
    steps, s := Played([], s, Begin(0, 0, 7, "ada", "ws01", 60));
    steps, s := Played(steps, s, BeginOk(0));
  }

  lemma LateIsReached() returns (steps: seq<Step>)
    ensures Run(START, steps) == LATE
  {
    var s := PUT;
    steps := PutIsReached();
    steps, s := Played(steps, s, PollOwner(0, "ws01", 0));
    steps, s := Played(steps, s, PollFetch(0));
    steps, s := Played(steps, s, Tick(61));
  }

  lemma TapIsRead()
    ensures var s := Do(LATE, Publish(7, Message("approved")));
      s == LATE.(topics := map[7 := [Message("approved")]]) && Answer(s, 0) == Some(Approved)
  {
    assert WordOf(Message("approved")) == Some(Approved);
    assert [] + [Message("approved")] == [Message("approved")];
  }

  lemma TapIsHeard(s: State)
    requires s == LATE.(topics := map[7 := [Message("approved")]]) && Answer(s, 0) == Some(Approved)
    ensures var u := Do(Do(Do(s, PollRead(0, false)), PollWrite(0)), AgentHears(0, 0));
      0 in u.agents && u.agents[0] == Exited("ws01", 0, 0)
  {
    assert Do(s, PollRead(0, false)).polls == map[0 := Writing("ws01", 0, 7, 0, Approved)];
  }

  /** The condition above is needed: a tap after expiry counts while a poll
      that began in time is still reading. */
  lemma LateTapCanCount() returns (before: seq<Step>, after: seq<Step>)
    ensures var s := Run(START, before);
      0 in s.asked && s.asked[0].expires < s.now && Answer(s, 0) == None
    ensures var u := Run(START, before + after);
      0 in u.agents && u.agents[0] == Exited("ws01", 0, 0)
  {
    before := LateIsReached();
    after := [Publish(7, Message("approved")), PollRead(0, false), PollWrite(0), AgentHears(0, 0)];
    TapIsRead();
    TapIsHeard(Do(LATE, after[0]));
    FourMore(before, after);
  }

  lemma FourMore(steps: seq<Step>, more: seq<Step>)
    requires |more| == 4
    ensures Run(START, steps + more) == Do(Do(Do(Do(Run(START, steps), more[0]), more[1]), more[2]), more[3])
  {
    RunSnoc(START, steps, more[0]);
    RunSnoc(START, steps + [more[0]], more[1]);
    RunSnoc(START, steps + [more[0]] + [more[1]], more[2]);
    RunSnoc(START, steps + [more[0]] + [more[1]] + [more[2]], more[3]);
    assert steps + more == steps + [more[0]] + [more[1]] + [more[2]] + [more[3]];
  }

  lemma Played(steps: seq<Step>, s: State, step: Step) returns (played: seq<Step>, u: State)
    requires s == Run(START, steps)
    ensures played == steps + [step] && u == Do(s, step) == Run(START, played)
  {
    RunSnoc(START, steps, step);
    played, u := steps + [step], Do(s, step);
  }

  // ----------------------------------------------------------- progress ----

  // What a settle is answered that nothing else comes between.
  function Expected(s: State, id: Id, unreachable: bool): Result {
    if id !in s.rows then Missing
    else if s.rows[id].decision.Some? then Decided(s.rows[id].decision.value)
    else if s.rows[id].expires < s.now then Expired
    else if unreachable || FirstWord(Topic(s, s.rows[id].token)).None? then Pending
    else Decided(FirstWord(Topic(s, s.rows[id].token)).value)
  }

  ghost predicate AnsweredWith(s: State, u: State, poll: nat, machine: string, id: Id, result: Result) {
    && poll in u.polls && u.polls[poll] == Done(machine, id, result)
    && (if result.Decided? then id in s.rows && u.rows == s.rows[id := s.rows[id].(decision := Some(result.word))]
        else u.rows == s.rows)
  }

  lemma ReadThenWritten(s: State, poll: nat, unreachable: bool)
    requires poll in s.polls && s.polls[poll].Reading?
    requires var p := s.polls[poll]; p.id in s.rows && s.rows[p.id].decision.None?
    ensures var p := s.polls[poll]; var word := FirstWord(Topic(s, p.token));
      AnsweredWith(s, Do(Do(s, PollRead(poll, unreachable)), PollWrite(poll)), poll, p.machine, p.id,
                   if unreachable || word.None? then Pending else Decided(word.value))
  {
    var p := s.polls[poll];
    var u := Do(s, PollRead(poll, unreachable));
    assert u.rows == s.rows && poll in u.polls;
  }

  lemma DoneIsLeft(s: State, poll: nat, unreachable: bool)
    requires poll in s.polls && s.polls[poll].Done?
    ensures Do(Do(s, PollRead(poll, unreachable)), PollWrite(poll)) == s
  {
  }

  /** A settle that nothing disturbs is answered by what is stored, by the
      expiry or by the phone, in that order; what the phone said is stored, and
      no other row changes. */
  lemma SettleIsAnswered(s: State, poll: nat, unreachable: bool)
    requires poll in s.polls && s.polls[poll].Owned?
    ensures var p := s.polls[poll];
      var u := Do(Do(Do(s, PollFetch(poll)), PollRead(poll, unreachable)), PollWrite(poll));
      AnsweredWith(s, u, poll, p.machine, p.id, Expected(s, p.id, unreachable))
  {
    var p := s.polls[poll];
    var u := Do(s, PollFetch(poll));
    assert u.rows == s.rows && u.topics == s.topics && poll in u.polls && u.polls[poll] == Fetched(s, p.machine, p.id);
    if u.polls[poll].Reading? {
      ReadThenWritten(u, poll, unreachable);
    } else {
      DoneIsLeft(u, poll, unreachable);
      if p.id in s.rows {
        assert s.rows[p.id].decision.Some? ==>
          s.rows == s.rows[p.id := s.rows[p.id].(decision := s.rows[p.id].decision)];
      }
    }
  }

  // A poll by a machine that did not ask the question it polls about.
  ghost predicate Stranger(s: State, p: Poll) {
    p.id in s.asked ==> s.asked[p.id].machine != p.machine
  }

  ghost predicate StrangersLearnNothing(s: State) {
    forall k :: k in s.polls && Stranger(s, s.polls[k]) ==>
      s.polls[k] == Done(s.polls[k].machine, s.polls[k].id, NotFound)
  }

  lemma AnsweredStays(s: State, step: Step, k: nat)
    requires k in s.polls && s.polls[k].Done?
    ensures k in Do(s, step).polls && Do(s, step).polls[k] == s.polls[k]
  {
  }

  lemma AskedStays(s: State, step: Step, p: Poll)
    requires Stranger(Do(s, step), p)
    ensures Stranger(s, p)
  {
    DoGrows(s, step);
  }

  lemma PollsStay(s: State, step: Step, k: nat)
    requires k in s.polls
    ensures k in Do(s, step).polls
    ensures Do(s, step).polls[k].machine == s.polls[k].machine && Do(s, step).polls[k].id == s.polls[k].id
  {
    if !step.PollOwner? && !step.PollFetch? && !step.PollRead? && !step.PollWrite? {
      assert Do(s, step).polls == s.polls;
    }
  }

  lemma NewPoll(s: State, step: Step, k: nat)
    requires Inv(s) && k !in s.polls && k in Do(s, step).polls && Stranger(Do(s, step), Do(s, step).polls[k])
    ensures step.PollOwner? && Do(s, step).polls[k] == Done(step.machine, step.id, NotFound)
  {
    if step.PollOwner? && step.id in s.rows {
      assert RowOk(s, step.id, s.rows[step.id]);
    }
  }

  lemma StrangersStep(s: State, step: Step)
    requires Inv(s) && StrangersLearnNothing(s)
    ensures StrangersLearnNothing(Do(s, step))
  {
    var u := Do(s, step);
    forall k | k in u.polls && Stranger(u, u.polls[k])
      ensures u.polls[k] == Done(u.polls[k].machine, u.polls[k].id, NotFound)
    {
      if k in s.polls {
        PollsStay(s, step, k);
        AskedStays(s, step, u.polls[k]);
        assert Stranger(s, s.polls[k]);
        AnsweredStays(s, step, k);
      } else {
        NewPoll(s, step, k);
      }
    }
  }

  /** In every interleaving a poll by a machine that did not ask the question
      is told "no such sign-in" and nothing else, whatever is decided. */
  lemma {:induction false} OthersAreNotAnswered(steps: seq<Step>)
    ensures StrangersLearnNothing(Run(START, steps))
  {
    if |steps| > 0 {
      OthersAreNotAnswered(steps[..|steps| - 1]);
      AlwaysInv(steps[..|steps| - 1]);
      StrangersStep(Run(START, steps[..|steps| - 1]), steps[|steps| - 1]);
    }
  }

  // ------------------------------------------------------ in plain terms ----

  // A message that, but for white space and case, is the word.
  predicate Reads(e: Event, word: Word) {
    e.Message? && Lower(Strip(e.text)) == if word == Approved then "approved" else "denied"
  }

  lemma WordMeans(e: Event, word: Word)
    ensures WordOf(e) == Some(word) <==> Reads(e, word)
  {
  }

  lemma {:induction false} FirstWordAt(events: seq<Event>) returns (k: nat)
    ensures k <= |events| && forall j :: 0 <= j < k ==> WordOf(events[j]).None?
    ensures FirstWord(events) == if k < |events| then WordOf(events[k]) else None
    ensures k < |events| ==> WordOf(events[k]).Some?
  {
    k := 0;
    if |events| > 0 && WordOf(events[0]).None? {
      var n := FirstWordAt(events[1..]);
      k := n + 1;
      assert forall j :: 1 <= j < |events| ==> events[j] == events[1..][j - 1];
    }
  }

  /** What a topic says: its first message that reads "approved" or "denied",
      whatever comes before and after it. */
  lemma FirstWordMeans(events: seq<Event>) returns (k: nat)
    ensures k <= |events|
    ensures forall j :: 0 <= j < k ==> !Reads(events[j], Approved) && !Reads(events[j], Denied)
    ensures match FirstWord(events)
            case Some(word) => k < |events| && Reads(events[k], word)
            case None => k == |events|
  {
    k := FirstWordAt(events);
    forall j | 0 <= j < k ensures !Reads(events[j], Approved) && !Reads(events[j], Denied) {
      WordMeans(events[j], Approved);
      WordMeans(events[j], Denied);
    }
    if k < |events| {
      WordMeans(events[k], FirstWord(events).value);
    }
  }

  // The step of a run that put a challenge.
  predicate PutAt(steps: seq<Step>, k: nat, id: Id) {
    k < |steps| && steps[k].Begin? && steps[k].id == id && id !in Run(START, steps[..k]).asked
  }

  // The row of a challenge, as the step that put it says it has to be.
  predicate AsPut(row: Row, b: Step, at: int)
    requires b.Begin?
  {
    row.token == b.token && row.principal == b.principal && row.machine == b.machine && row.expires == at + b.timeout
  }

  lemma RowStays(s: State, step: Step, id: Id)
    requires id in s.asked && id in Do(s, step).rows
    ensures id in s.rows && Do(s, step).rows[id].(decision := None) == s.rows[id].(decision := None)
  {
  }

  lemma NewIsPut(s: State, step: Step, id: Id)
    requires id !in s.asked && id in Do(s, step).asked
    ensures step.Begin? && step.id == id
    ensures var u := Do(s, step);
      && u.asked[id] == Asked(step.token, step.machine, s.now + step.timeout)
      && (id in u.rows ==> AsPut(u.rows[id], step, s.now))
  {
  }

  lemma {:induction false} AskedIsPut(steps: seq<Step>, id: Id) returns (k: nat)
    requires id in Run(START, steps).asked
    ensures PutAt(steps, k, id)
    ensures var s, b, at := Run(START, steps), steps[k], Run(START, steps[..k]).now;
      && s.asked[id] == Asked(b.token, b.machine, at + b.timeout)
      && (id in s.rows ==> AsPut(s.rows[id], b, at))
  {
    var n := |steps| - 1;
    var s := Run(START, steps[..n]);
    if id in s.asked {
      k := AskedIsPut(steps[..n], id);
      assert steps[..n][..k] == steps[..k] && steps[..n][k] == steps[k];
      DoGrows(s, steps[n]);
      if id in Do(s, steps[n]).rows {
        RowStays(s, steps[n], id);
      }
    } else {
      k := n;
      NewIsPut(s, steps[n], id);
    }
  }

  /** In every run: a challenge put at one moment with a timeout is answered
      "expired" by a fetch at another, undecided and with its row still there,
      exactly when more than the timeout lies between; else it is read, on the
      topic it was put with. The row holds what it was put with. */
  lemma FetchExactly(steps: seq<Step>, poll: nat) returns (k: nat)
    requires poll in Run(START, steps).polls && Run(START, steps).polls[poll].Owned?
    ensures var s := Run(START, steps); PutAt(steps, k, s.polls[poll].id) && steps[k].machine == s.polls[poll].machine
    ensures var s, b, at := Run(START, steps), steps[k], Run(START, steps[..k]).now;
      var p, r := s.polls[poll], Do(s, PollFetch(poll)).polls[poll];
      && (p.id !in s.rows ==> r == Done(p.machine, p.id, Missing))
      && (p.id in s.rows ==>
            var row := s.rows[p.id];
            && row.token == b.token && row.principal == b.principal && row.machine == b.machine
            && r == match row.decision
                    case Some(word) => Done(p.machine, p.id, Decided(word))
                    case None =>
                      if s.now > at + b.timeout then Done(p.machine, p.id, Expired)
                      else Reading(p.machine, p.id, b.token, s.now))
  {
    AlwaysInv(steps);
    var s := Run(START, steps);
    assert PollOk(s, s.polls[poll]);
    k := AskedIsPut(steps, s.polls[poll].id);
  }

  /** A row is still there after the daily clean-up exactly when it expired no
      more than a day ago, and after a policy is retired exactly when the
      account it is for is not one the policy covers. */
  lemma RowsLeft(s: State, coverage: Coverage, i: Id)
    requires i in s.rows
    ensures i in Do(s, Clean).rows <==> s.now - s.rows[i].expires <= 24 * 60 * 60
    ensures var account := Lower(UpTo(s.rows[i].principal, '@'));
      i in Do(s, Retire(coverage)).rows <==>
        match coverage
        case Everyone => false
        case AllExcept(names) => exists n :: n in names && Lower(n) == account
        case OnlyThese(names) => forall n :: n in names ==> Lower(n) != account
  {
  }

  // A challenge just put, and the machine waiting for it.
  lemma PutAndAwaited(s: State, agent: nat, id: Id, token: Token, principal: string, machine: string, timeout: nat)
    requires agent !in s.agents && id !in s.asked && forall i :: i in s.asked ==> s.asked[i].token != token
    ensures var u := Do(Do(s, Begin(agent, id, token, principal, machine, timeout)), BeginOk(agent));
      && u.now == s.now && u.topics == s.topics && u.polls == s.polls
      && id in u.rows && u.rows[id] == Row(token, principal, machine, s.now + timeout, None)
      && agent in u.agents && u.agents[agent] == Waiting(machine, id)
  {
  }

  lemma SaidAndFetched(s: State, id: Id, wait: nat, text: string, poll: nat)
    requires id in s.rows && s.rows[id].decision.None? && Topic(s, s.rows[id].token) == [] && poll !in s.polls
    ensures var row := s.rows[id];
      var a := Do(Do(s, Tick(wait)), Publish(row.token, Message(text)));
      var u := Do(Do(a, PollOwner(poll, row.machine, id)), PollFetch(poll));
      && u.agents == s.agents && Topic(u, row.token) == [Message(text)] && poll in u.polls
      && u.polls[poll] == if s.now + wait > row.expires then Done(row.machine, id, Expired)
                          else Reading(row.machine, id, row.token, s.now + wait)
  {
    assert [] + [Message(text)] == [Message(text)];
  }

  lemma ReadAndHeard(s: State, poll: nat, agent: nat, text: string)
    requires poll in s.polls && s.polls[poll].Reading? && Topic(s, s.polls[poll].token) == [Message(text)]
    requires agent in s.agents && s.agents[agent] == Waiting(s.polls[poll].machine, s.polls[poll].id)
    ensures var p, u := s.polls[poll], Do(Do(Do(s, PollRead(poll, false)), PollWrite(poll)), AgentHears(agent, poll));
      && agent in u.agents
      && u.agents[agent] ==
           if Lower(Strip(text)) == "approved" then Exited(p.machine, p.id, 0)
           else if Lower(Strip(text)) == "denied" then Exited(p.machine, p.id, 1)
           else Waiting(p.machine, p.id)
  {
    var a := Do(s, PollRead(poll, false));
    assert FirstWord([Message(text)]) == WordOf(Message(text));
    assert a.agents == s.agents && poll in a.polls;
    var b := Do(a, PollWrite(poll));
    assert b.agents == s.agents && poll in b.polls && b.polls[poll].Done?;
  }

  lemma ExpiredIsHeard(s: State, poll: nat, agent: nat)
    requires poll in s.polls && s.polls[poll].Done? && s.polls[poll].result == Expired
    requires agent in s.agents && s.agents[agent] == Waiting(s.polls[poll].machine, s.polls[poll].id)
    ensures var p, u := s.polls[poll], Do(Do(Do(s, PollRead(poll, false)), PollWrite(poll)), AgentHears(agent, poll));
      agent in u.agents && u.agents[agent] == Exited(p.machine, p.id, 1)
  {
    assert Do(Do(s, PollRead(poll, false)), PollWrite(poll)) == s;
  }

  // One sign-in that nothing disturbs: asked about, left so long, answered,
  // polled.
  ghost function SignedIn(s: State, b: Step, wait: nat, text: string, poll: nat): State
    requires b.Begin?
  {
    var a := Do(Do(Do(Do(s, b), BeginOk(b.agent)), Tick(wait)), Publish(b.token, Message(text)));
    var c := Do(Do(a, PollOwner(poll, b.machine, b.id)), PollFetch(poll));
    Do(Do(Do(c, PollRead(poll, false)), PollWrite(poll)), AgentHears(b.agent, poll))
  }

  /** A sign-in that nothing disturbs ends in exit 0 exactly when the phone says
      "approved" within the timeout; a "denied" and a late answer end in exit 1,
      and anything else leaves the machine waiting. */
  lemma SignInExactly(s: State, b: Step, wait: nat, text: string, poll: nat)
    requires b.Begin? && b.agent !in s.agents && b.id !in s.asked && poll !in s.polls
    requires Topic(s, b.token) == [] && forall i :: i in s.asked ==> s.asked[i].token != b.token
    ensures var u := SignedIn(s, b, wait, text, poll);
      && b.agent in u.agents
      && u.agents[b.agent] ==
           if wait > b.timeout then Exited(b.machine, b.id, 1)
           else if Lower(Strip(text)) == "approved" then Exited(b.machine, b.id, 0)
           else if Lower(Strip(text)) == "denied" then Exited(b.machine, b.id, 1)
           else Waiting(b.machine, b.id)
  {
    PutAndAwaited(s, b.agent, b.id, b.token, b.principal, b.machine, b.timeout);
    var a := Do(Do(s, b), BeginOk(b.agent));
    SaidAndFetched(a, b.id, wait, text, poll);
    var t := Do(Do(a, Tick(wait)), Publish(b.token, Message(text)));
    var c := Do(Do(t, PollOwner(poll, b.machine, b.id)), PollFetch(poll));
    if wait > b.timeout {
      ExpiredIsHeard(c, poll, b.agent);
    } else {
      ReadAndHeard(c, poll, b.agent, text);
    }
  }

  /** A challenge whose notification cannot be sent is withdrawn, and the
      machine exits 2 without an answer; one that gives up waiting exits 1. */
  lemma WithdrawnExactly(s: State, agent: nat)
    requires agent in s.agents
    ensures var a, u := s.agents[agent], Do(s, BeginFails(agent));
      a.Asking? ==> a.id !in u.rows && agent in u.agents && u.agents[agent] == Exited(a.machine, a.id, 2)
    ensures var a, u := s.agents[agent], Do(s, AgentGivesUp(agent));
      a.Waiting? ==> u.rows == s.rows && agent in u.agents && u.agents[agent] == Exited(a.machine, a.id, 1)
  {
  }

  /** A poll is told that there is no such sign-in exactly when the row is gone
      or another machine asked, either at once or between its two looks. */
  lemma NoneExactly(s: State, poll: nat, machine: string, id: Id)
    requires poll !in s.polls
    ensures var u := Do(s, PollOwner(poll, machine, id));
      && poll in u.polls && u == s.(polls := u.polls) && u.polls == s.polls[poll := u.polls[poll]]
      && u.polls[poll] ==
           if id in s.rows && s.rows[id].machine == machine then Owned(machine, id) else Done(machine, id, NotFound)
    ensures var u := Do(s.(polls := s.polls[poll := Owned(machine, id)]), PollFetch(poll));
      poll in u.polls && (u.polls[poll] == Done(machine, id, Missing) <==> id !in s.rows)
  {
  }
}
