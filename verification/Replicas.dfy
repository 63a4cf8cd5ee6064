/** Which replica of the control plane a session belongs to, and how a request
    for it gets there (api/odm/replicas.py). */
module Replicas {
  import opened Text
  import opened Numerals

  const MOST_DIGITS := 9
  const SHELL := "/api/v1/servers/computer/shell/session/"
  const SCREEN := "/api/v1/servers/computer/assist/session/"
  const AGENT_SHELL := "/api/v1/agent/shell/"
  const AGENT_SCREEN := "/api/v1/agent/assist/"

  // ---------------------------------------------------------- session ids ----

  predicate IsTokenChar(c: char) {
    'a' <= c <= 'z' || 'A' <= c <= 'Z' || IsDigit(c) || c == '_' || c == '-'
  }

  predicate IsToken(s: string) {
    8 <= |s| <= 64 && forall i :: 0 <= i < |s| ==> IsTokenChar(s[i])
  }

  function OwnerInId(id: string): Option<nat> {
    var s := Chopped(id);
    var digits := UpTo(s, '.');
    if 0 < |digits| <= MOST_DIGITS && AllDigits(digits) && |digits| < |s| && IsToken(s[|digits| + 1..])
    then Some(Read(digits)) else None
  }

  predicate IsPrefix(prefix: string, websocket: bool) {
    prefix == SCREEN || (websocket && (prefix == SHELL || prefix == AGENT_SHELL || prefix == AGENT_SCREEN))
  }

  // The owner named in the first kind of path the text is, if it names one.
  function OwnerIn(path: string, websocket: bool): Option<nat> {
    if SCREEN <= path then OwnerInId(path[|SCREEN|..])
    else if !websocket then None
    else if SHELL <= path then OwnerInId(path[|SHELL|..])
    else if AGENT_SHELL <= path then OwnerInId(path[|AGENT_SHELL|..])
    else if AGENT_SCREEN <= path then OwnerInId(path[|AGENT_SCREEN|..])
    else None
  }

  function Minted(self: Option<nat>, token: string): string {
    match self
    case Some(id) => Print(id) + "." + token
    case None => token
  }

  // The number in front of a session id is read back while it has at most
  // nine digits; a longer one, and an id without a number, name nobody.
  lemma OwnerIsRead(self: Option<nat>, token: string)
    requires IsToken(token)
    ensures OwnerInId(Minted(self, token))
         == if self.Some? && self.value < Power(MOST_DIGITS) then self else None
  {
    var s := Minted(self, token);
    assert s[|s| - 1] == token[|token| - 1];
    assert Chopped(s) == s;
    match self
    case Some(id) =>
      PrintRead(id);
      PrintLength(id, MOST_DIGITS);
      UpToFirst(Print(id), "." + token, '.');
      assert s == Print(id) + ("." + token);
      assert s[|Print(id)| + 1..] == token;
    case None =>
      UpToAll(token, '.');
  }

  lemma PathIsRead(prefix: string, id: string, websocket: bool)
    requires IsPrefix(prefix, websocket)
    ensures OwnerIn(prefix + id, websocket) == OwnerInId(id)
  {
    var path := prefix + id;
    assert path[|prefix|..] == id;
    if prefix == SHELL {
      assert path[25] == 's' && SCREEN[25] == 'a';
    } else if prefix == AGENT_SHELL {
      assert path[8] == 'a' && SCREEN[8] == 's' && SHELL[8] == 's';
    } else if prefix == AGENT_SCREEN {
      assert path[8] == 'a' && SCREEN[8] == 's' && SHELL[8] == 's';
      assert path[14] == 'a' && AGENT_SHELL[14] == 's';
    }
  }

  lemma SessionIsRead(prefix: string, self: Option<nat>, token: string, websocket: bool, path: string)
    requires IsToken(token) && IsPrefix(prefix, websocket) && path == prefix + Minted(self, token)
    ensures OwnerIn(path, websocket) == if self.Some? && self.value < Power(MOST_DIGITS) then self else None
  {
    PathIsRead(prefix, Minted(self, token), websocket);
    OwnerIsRead(self, token);
  }

  // ------------------------------------------------------- the registrations ----

  // The table of addresses. A number is drawn for every attempt to insert.
  datatype Registrations = Registrations(ids: map<string, nat>, next: nat)

  ghost predicate Sound(db: Registrations) {
    && (forall u :: u in db.ids ==> db.ids[u] < db.next)
    && (forall u, v :: u in db.ids && v in db.ids && db.ids[u] == db.ids[v] ==> u == v)
  }

  // Later than another: numbers once given stay.
  ghost predicate Grown(was: Registrations, db: Registrations) {
    forall u :: u in was.ids ==> u in db.ids && db.ids[u] == was.ids[u]
  }

  function Upserted(db: Registrations, url: string): (r: (Registrations, nat))
    requires Sound(db)
    ensures Sound(r.0) && Grown(db, r.0) && url in r.0.ids && r.0.ids[url] == r.1
  {
    if url in db.ids then (db.(next := db.next + 1), db.ids[url])
    else (Registrations(db.ids[url := db.next], db.next + 1), db.next)
  }

  function UrlWith(db: Registrations, id: nat): (r: Option<string>)
    requires Sound(db)
    ensures r.Some? ==> r.value in db.ids && db.ids[r.value] == id
    ensures r.None? ==> forall u :: u in db.ids ==> db.ids[u] != id
  {
    if u :| u in db.ids && db.ids[u] == id then Some(u) else None
  }

  // ----------------------------------------------------------- one replica ----

  datatype Request = Request(path: string, websocket: bool, get: bool)
  datatype Route = Here | Across(url: string)

  class Replica {
    var selfId: Option<nat>
    var known: map<nat, string>

    // What it has looked up is what is registered.
    ghost predicate Valid(db: Registrations)
      reads this
    {
      && Sound(db)
      && (forall id :: id in known ==> known[id] in db.ids && db.ids[known[id]] == id)
    }

    ghost predicate IsAt(db: Registrations, url: string)
      reads this
    {
      Valid(db) && selfId.Some? && url in db.ids && db.ids[url] == selfId.value
    }

    constructor ()
      ensures selfId == None && known == map[]
    {
      selfId, known := None, map[];
    }

    // An empty address means this is the only replica.
    method Register(db: Registrations, url: string) returns (after: Registrations)
      requires Valid(db)
      modifies this
      ensures Valid(after) && Grown(db, after)
      ensures if url == "" then selfId == None && after == db else IsAt(after, url)
    {
      if url == "" {
        selfId := None;
        return db;
      }
      var r := Upserted(db, url);
      selfId := Some(r.1);
      known := known[r.1 := url];
      after := r.0;
    }

    // None when the request is this replica's own or nobody's.
    function OwnerOf(path: string, websocket: bool): (r: Option<nat>)
      reads this`selfId
      ensures r == OwnerIn(path, websocket) || r.None?
      ensures r.None? <==> selfId.None? || OwnerIn(path, websocket).None? || OwnerIn(path, websocket) == selfId
    {
      var owner := OwnerIn(path, websocket);
      if selfId.None? || owner == selfId then None else owner
    }

    method UrlOf(owner: nat, db: Registrations) returns (r: Option<string>)
      requires Valid(db)
      modifies this`known
      ensures Valid(db) && r == UrlWith(db, owner)
    {
      if owner in known {
        SameUrl(db, owner, known[owner]);
        return Some(known[owner]);
      }
      r := UrlWith(db, owner);
      if r.Some? {
        known := known[owner := r.value];
      }
    }

    method Dispatch(q: Request, db: Registrations) returns (r: Route)
      requires Valid(db)
      modifies this`known
      ensures Valid(db)
      ensures r == match OwnerOf(q.path, q.websocket)
                   case None => Here
                   case Some(owner) =>
                     if (q.websocket || q.get) && UrlWith(db, owner).Some?
                     then Across(UrlWith(db, owner).value) else Here
    {
      var owner := OwnerOf(q.path, q.websocket);
      if owner.None? || (!q.websocket && !q.get) {
        return Here;
      }
      var url := UrlOf(owner.value, db);
      if url.None? {
        return Here;
      }
      return Across(url.value);
    }
  }

  lemma SameUrl(db: Registrations, id: nat, url: string)
    requires Sound(db) && url in db.ids && db.ids[url] == id
    ensures UrlWith(db, id) == Some(url)
  {
  }

  /** A session made by one replica is kept by it, and any other replica sends
      what is asked for it straight to its address, exactly when its number
      has at most nine digits; else the other replica takes it for its own. */
  method OneHop(db: Registrations, owner: Replica, url: string, other: Replica, prefix: string, token: string,
                websocket: bool)
    returns (kept: Route, sent: Route)
    requires owner != other && owner.IsAt(db, url) && other.Valid(db)
    requires other.selfId.Some? && other.selfId != owner.selfId
    requires IsToken(token) && IsPrefix(prefix, websocket)
    modifies owner`known, other`known
    ensures kept == Here
    ensures sent == if owner.selfId.value < 1_000_000_000 then Across(url) else Here
  {
    var path := prefix + Minted(owner.selfId, token);
    TenToTheNinth();
    SessionIsRead(prefix, owner.selfId, token, websocket, path);
    SameUrl(db, owner.selfId.value, url);
    kept := owner.Dispatch(Request(path, websocket, true), db);
    sent := other.Dispatch(Request(path, websocket, true), db);
  }

  // ------------------------------------------------------ in plain terms ----

  lemma TenToTheNinth()
    ensures Power(MOST_DIGITS) == 1_000_000_000
  {
    assert Power(3) == 1000 by {
      assert Power(2) == 100 && Power(1) == 10;
    }
    assert Power(6) == 1_000_000 by {
      assert Power(5) == 100_000 && Power(4) == 10_000;
    }
    assert Power(8) == 100_000_000 && Power(7) == 10_000_000;
  }

  // What follows the owner's number: 8 to 64 letters, digits, dashes and underscores.
  predicate IsSecret(token: string) {
    && 8 <= |token| <= 64
    && forall c :: c in token ==> 'a' <= c <= 'z' || 'A' <= c <= 'Z' || '0' <= c <= '9' || c == '_' || c == '-'
  }

  lemma SecretMeans(token: string)
    ensures IsToken(token) <==> IsSecret(token)
  {
    if IsSecret(token) {
      assert forall i :: 0 <= i < |token| ==> token[i] in token;
    }
  }

  /** An id names an owner only as one to nine digits, a dot and a token, with
      at most a newline after them. */
  lemma OwnedExactly(id: string) returns (digits: string, token: string)
    requires OwnerInId(id).Some?
    ensures 1 <= |digits| <= 9 && AllDigits(digits) && IsSecret(token) && OwnerInId(id) == Some(Read(digits))
    ensures id == digits + "." + token || id == digits + "." + token + "\n"
  {
    var s := Chopped(id);
    digits := UpTo(s, '.');
    token := s[|digits| + 1..];
    UpToPrefix(s, '.');
    SecretMeans(token);
    assert s == digits + "." + token;
  }

  lemma SplitsAtDot(digits: string, token: string)
    requires '.' !in digits && |token| > 0 && token[|token| - 1] != '\n'
    ensures var s := digits + "." + token;
      Chopped(s) == s && UpTo(s, '.') == digits && |digits| < |s| && s[|digits| + 1..] == token
  {
    var s := digits + "." + token;
    assert s[|s| - 1] == token[|token| - 1];
    assert s == digits + ("." + token);
    UpToFirst(digits, "." + token, '.');
  }

  /** And every such id names it. */
  lemma SuchIdsAreOwned(digits: string, token: string)
    requires 1 <= |digits| <= 9 && AllDigits(digits) && IsSecret(token)
    ensures OwnerInId(digits + "." + token) == Some(Read(digits))
  {
    SecretMeans(token);
    assert token[|token| - 1] in token;
    SplitsAtDot(digits, token);
  }

  /** A path names an owner exactly when it is one of the session paths followed
      by an id that does; all but a shared screen's own only for a websocket. */
  lemma PathExactly(path: string, websocket: bool)
    ensures var screen, shell := "/api/v1/servers/computer/assist/session/", "/api/v1/servers/computer/shell/session/";
      var agentScreen, agentShell := "/api/v1/agent/assist/", "/api/v1/agent/shell/";
      OwnerIn(path, websocket) ==
        if screen <= path then OwnerInId(path[|screen|..])
        else if websocket && shell <= path then OwnerInId(path[|shell|..])
        else if websocket && agentShell <= path then OwnerInId(path[|agentShell|..])
        else if websocket && agentScreen <= path then OwnerInId(path[|agentScreen|..])
        else None
  {
  }
}
