/** Authorization codes and refresh tokens (api/odm/oidc.py): each is taken out
    of its table by the statement that reads it, and requests race freely
    between their statements. */
module OidcTokens {
  import opened Text

  type Code = nat
  type Token = nat

  const CODE_LIFETIME := 120
  const TOKEN_LIFETIME := 3600
  const REFRESH_LIFETIME := 30 * 24 * 3600
  const SCOPE := "openid profile email"

  datatype CodeRow = CodeRow(
    client: string, redirect: string, nonce: string, challenge: string, claims: string, expires: int)

  // `origin` is the code a token descends from; the table has no such column.
  datatype TokenRow = TokenRow(
    refresh: bool, client: string, claims: string, nonce: string, scope: string, expires: int, origin: Code)

  // What came with an exchange, and when it was checked.
  datatype Proof = Proof(redirect: string, verifier: string, at: int)

  datatype Request =
    | Taken(code: Code, row: CodeRow, redirect: string, verifier: string)
    | Minting(client: string, claims: string, nonce: string, scope: string, origin: Code, proof: Option<Proof>)
    | Answered(access: Token, refresh: Token)
    | Refused

  // One pair of tokens handed out; with a proof when a code was exchanged.
  datatype Mint = Mint(origin: Code, access: Token, refresh: Token, proof: Option<Proof>)

  datatype State = State(
    now: int,
    codes: map<Code, CodeRow>,
    tokens: map<Token, TokenRow>,
    requests: map<nat, Request>,
    issued: map<Code, CodeRow>,
    used: set<Token>,
    minted: seq<Mint>)

  datatype Step =
    | Tick(seconds: nat)
    | Issue(code: Code, client: string, redirect: string, nonce: string, challenge: string, claims: string)
    | SweepCodes
    | SweepTokens
    | Exchange(request: nat, client: string, code: Code, redirect: string, verifier: string)
    | Check(request: nat)
    | Refresh(request: nat, client: string, token: Token)
    | Insert(request: nat, access: Token, refresh: Token)
    | Drop(request: nat)

  const START := State(0, map[], map[], map[], map[], {}, [])

  // `hash` is the S256 transformation of a code verifier.
  predicate Passes(hash: string -> string, row: CodeRow, redirect: string, verifier: string, now: int) {
    && row.expires >= now
    && redirect == row.redirect
    && (row.challenge == "" || (verifier != "" && hash(verifier) == row.challenge))
  }

  function CodeIssued(
    s: State, code: Code, client: string, redirect: string, nonce: string, challenge: string, claims: string): State
  {
    if code in s.issued then s
    else
      var row := CodeRow(client, redirect, nonce, challenge, claims, s.now + CODE_LIFETIME);
      s.(codes := s.codes[code := row], issued := s.issued[code := row])
  }

  function CodesSwept(s: State): State {
    s.(codes := map c | c in s.codes && s.codes[c].expires >= s.now :: s.codes[c])
  }

  function TokensSwept(s: State): State {
    s.(tokens := map t | t in s.tokens && s.tokens[t].expires >= s.now :: s.tokens[t])
  }

  predicate MayTakeCode(s: State, client: string, code: Code) {
    code in s.codes && s.codes[code].client == client
  }

  predicate MayTakeToken(s: State, client: string, token: Token) {
    token in s.tokens && s.tokens[token].refresh && s.tokens[token].client == client && s.tokens[token].expires > s.now
  }

  function CodeTaken(
    s: State, request: nat, client: string, code: Code, redirect: string, verifier: string): State
  {
    if request in s.requests then s
    else if MayTakeCode(s, client, code)
    then s.(codes := s.codes - {code},
            requests := s.requests[request := Taken(code, s.codes[code], redirect, verifier)])
    else s.(requests := s.requests[request := Refused])
  }

  function Checked(hash: string -> string, s: State, request: nat): State {
    if request !in s.requests || !s.requests[request].Taken? then s
    else
      var r := s.requests[request];
      s.(requests := s.requests[request :=
        if Passes(hash, r.row, r.redirect, r.verifier, s.now)
        then
          var proof := Some(Proof(r.redirect, r.verifier, s.now));
          Minting(r.row.client, r.row.claims, r.row.nonce, SCOPE, r.code, proof)
        else Refused])
  }

  function TokenTaken(s: State, request: nat, client: string, token: Token): State {
    if request in s.requests then s
    else if MayTakeToken(s, client, token) then
      var row := s.tokens[token];
      s.(tokens := s.tokens - {token},
         requests := s.requests[request := Minting(client, row.claims, row.nonce, row.scope, row.origin, None)])
    else s.(requests := s.requests[request := Refused])
  }

  function PairInserted(s: State, request: nat, access: Token, refresh: Token): State {
    if request !in s.requests || !s.requests[request].Minting?
      || access == refresh || access in s.used || refresh in s.used then s
    else
      var r := s.requests[request];
      s.(tokens := s.tokens[
           access := TokenRow(false, r.client, r.claims, r.nonce, r.scope, s.now + TOKEN_LIFETIME, r.origin)][
           refresh := TokenRow(true, r.client, r.claims, r.nonce, r.scope, s.now + REFRESH_LIFETIME, r.origin)],
         used := s.used + {access, refresh},
         minted := s.minted + [Mint(r.origin, access, refresh, r.proof)],
         requests := s.requests[request := Answered(access, refresh)])
  }

  // A step that is not possible where it is taken changes nothing.
  function Do(hash: string -> string, s: State, step: Step): State {
    match step
    case Tick(seconds) => s.(now := s.now + seconds)
    case Issue(code, client, redirect, nonce, challenge, claims) =>
      CodeIssued(s, code, client, redirect, nonce, challenge, claims)
    case SweepCodes => CodesSwept(s)
    case SweepTokens => TokensSwept(s)
    case Exchange(request, client, code, redirect, verifier) =>
      CodeTaken(s, request, client, code, redirect, verifier)
    case Check(request) => Checked(hash, s, request)
    case Refresh(request, client, token) => TokenTaken(s, request, client, token)
    case Insert(request, access, refresh) => PairInserted(s, request, access, refresh)
    case Drop(request) => s.(requests := s.requests[request := Refused])
  }

  function Run(hash: string -> string, s: State, steps: seq<Step>): State {
    if |steps| == 0 then s
    else Do(hash, Run(hash, s, steps[..|steps| - 1]), steps[|steps| - 1])
  }

  // ---------------------------------------------------------- invariant ----

  // Where the right to a code's next pair of tokens is: in the code itself,
  // in a request that has taken it, or in a refresh token.
  datatype Carrier = ByCode | ByRequest(request: nat) | ByToken(token: Token)

  ghost predicate Carries(s: State, k: Carrier, code: Code) {
    match k
    case ByCode => code in s.codes
    case ByRequest(r) => r in s.requests && (
      (s.requests[r].Taken? && s.requests[r].code == code) || (s.requests[r].Minting? && s.requests[r].origin == code))
    case ByToken(t) => t in s.tokens && s.tokens[t].refresh && s.tokens[t].origin == code
  }

  ghost predicate OneCarrier(s: State) {
    forall c, j, k :: Carries(s, j, c) && Carries(s, k, c) ==> j == k
  }

  // Whether the code itself is still to be exchanged.
  ghost predicate Unspent(s: State, k: Carrier) {
    k.ByCode? || (k.ByRequest? && k.request in s.requests &&
      (s.requests[k.request].Taken? || (s.requests[k.request].Minting? && s.requests[k.request].proof.Some?)))
  }

  ghost predicate Exchanged(s: State, code: Code) {
    exists i :: 0 <= i < |s.minted| && s.minted[i].origin == code && s.minted[i].proof.Some?
  }

  ghost predicate SpentOnce(s: State) {
    && (forall c, k :: Carries(s, k, c) && Unspent(s, k) ==> !Exchanged(s, c))
    && (forall i, j :: 0 <= i < j < |s.minted| && s.minted[i].proof.Some? && s.minted[j].proof.Some? ==>
          s.minted[i].origin != s.minted[j].origin)
  }

  ghost predicate Proven(hash: string -> string, s: State, code: Code, proof: Option<Proof>) {
    && code in s.issued
    && (proof.Some? ==> Passes(hash, s.issued[code], proof.value.redirect, proof.value.verifier, proof.value.at))
  }

  ghost predicate RequestOk(hash: string -> string, s: State, r: Request) {
    && (r.Taken? ==> r.code in s.issued && r.row == s.issued[r.code])
    && (r.Minting? ==>
          && Proven(hash, s, r.origin, r.proof)
          && r.client == s.issued[r.origin].client && r.claims == s.issued[r.origin].claims
          && r.nonce == s.issued[r.origin].nonce
          && (r.proof.None? ==> Exchanged(s, r.origin)))
  }

  ghost predicate TokenOk(s: State, t: TokenRow) {
    && t.origin in s.issued
    && t.client == s.issued[t.origin].client && t.claims == s.issued[t.origin].claims
    && t.nonce == s.issued[t.origin].nonce
    && Exchanged(s, t.origin)
  }

  ghost predicate Records(hash: string -> string, s: State) {
    && (forall c :: c in s.codes ==> c in s.issued && s.codes[c] == s.issued[c])
    && (forall r :: r in s.requests ==> RequestOk(hash, s, s.requests[r]))
    && (forall t :: t in s.tokens ==> t in s.used && TokenOk(s, s.tokens[t]))
    && (forall i :: 0 <= i < |s.minted| ==> Proven(hash, s, s.minted[i].origin, s.minted[i].proof))
  }

  ghost predicate Inv(hash: string -> string, s: State) {
    Records(hash, s) && OneCarrier(s) && SpentOnce(s)
  }

  lemma MintedStays(hash: string -> string, s: State, step: Step)
    ensures s.minted <= Do(hash, s, step).minted
    ensures forall c :: Exchanged(s, c) ==> Exchanged(Do(hash, s, step), c)
  {
    var u := Do(hash, s, step);
    forall c | Exchanged(s, c) ensures Exchanged(u, c) {
      var i :| 0 <= i < |s.minted| && s.minted[i].origin == c && s.minted[i].proof.Some?;
      assert u.minted[i] == s.minted[i];
    }
  }

  ghost predicate Later(s: State, u: State) {
    && (forall c :: c in s.issued ==> c in u.issued && u.issued[c] == s.issued[c])
    && (forall c :: Exchanged(s, c) ==> Exchanged(u, c))
    && s.used <= u.used
  }

  lemma DoIsLater(hash: string -> string, s: State, step: Step)
    ensures Later(s, Do(hash, s, step))
  {
    MintedStays(hash, s, step);
  }

  lemma RequestStaysOk(hash: string -> string, s: State, u: State, r: Request)
    requires Later(s, u) && RequestOk(hash, s, r)
    ensures RequestOk(hash, u, r)
  {
  }

  lemma TokenStaysOk(s: State, u: State, t: TokenRow)
    requires Later(s, u) && TokenOk(s, t)
    ensures TokenOk(u, t)
  {
  }

  lemma TokenUnchanged(hash: string -> string, s: State, step: Step, t: Token)
    requires Records(hash, s) && t in s.tokens && t in Do(hash, s, step).tokens
    ensures Do(hash, s, step).tokens[t] == s.tokens[t] && t in Do(hash, s, step).used
  {
  }

  lemma TakenIsOk(hash: string -> string, s: State, step: Step)
    requires Records(hash, s) && step.Exchange? && step.request !in s.requests
    ensures RequestOk(hash, s, Do(hash, s, step).requests[step.request])
  {
  }

  lemma CheckedIsOk(hash: string -> string, s: State, request: nat)
    requires request in s.requests && RequestOk(hash, s, s.requests[request])
    ensures RequestOk(hash, s, Checked(hash, s, request).requests[request])
  {
  }

  lemma RefreshedIsOk(hash: string -> string, s: State, step: Step)
    requires Records(hash, s) && step.Refresh? && step.request !in s.requests
    ensures RequestOk(hash, s, Do(hash, s, step).requests[step.request])
  {
    if step.token in s.tokens {
      assert TokenOk(s, s.tokens[step.token]);
    }
  }

  lemma NewRequestOk(hash: string -> string, s: State, step: Step, r: nat)
    requires Records(hash, s) && r in Do(hash, s, step).requests
    ensures RequestOk(hash, s, Do(hash, s, step).requests[r])
  {
    if r in s.requests {
      assert RequestOk(hash, s, s.requests[r]);
    }
    match step
    case Exchange(request, _, _, _, _) => if request !in s.requests { TakenIsOk(hash, s, step); }
    case Check(request) => if request in s.requests { CheckedIsOk(hash, s, request); }
    case Refresh(request, _, _) => if request !in s.requests { RefreshedIsOk(hash, s, step); }
    case _ =>
  }

  lemma RequestKept(hash: string -> string, s: State, step: Step, r: nat)
    requires Records(hash, s) && r in Do(hash, s, step).requests
    ensures RequestOk(hash, Do(hash, s, step), Do(hash, s, step).requests[r])
  {
    DoIsLater(hash, s, step);
    NewRequestOk(hash, s, step, r);
    RequestStaysOk(hash, s, Do(hash, s, step), Do(hash, s, step).requests[r]);
  }

  lemma NewTokenKept(hash: string -> string, s: State, step: Step, t: Token)
    requires Records(hash, s) && t in Do(hash, s, step).tokens && t !in s.tokens
    ensures var u := Do(hash, s, step); t in u.used && TokenOk(u, u.tokens[t])
  {
    var u := Do(hash, s, step);
    var r := s.requests[step.request];
    assert RequestOk(hash, s, r);
    if r.proof.Some? {
      assert u.minted[|s.minted|] == Mint(r.origin, step.access, step.refresh, r.proof);
    } else {
      MintedStays(hash, s, step);
    }
  }

  lemma TokenKept(hash: string -> string, s: State, step: Step, t: Token)
    requires Records(hash, s) && t in Do(hash, s, step).tokens
    ensures var u := Do(hash, s, step); t in u.used && TokenOk(u, u.tokens[t])
  {
    var u := Do(hash, s, step);
    if t in s.tokens {
      DoIsLater(hash, s, step);
      TokenUnchanged(hash, s, step, t);
      TokenStaysOk(s, u, s.tokens[t]);
    } else {
      NewTokenKept(hash, s, step, t);
    }
  }

  lemma MintsKept(hash: string -> string, s: State, step: Step)
    requires Records(hash, s)
    ensures var u := Do(hash, s, step);
      forall i :: 0 <= i < |u.minted| ==> Proven(hash, u, u.minted[i].origin, u.minted[i].proof)
  {
    if step.Insert? && step.request in s.requests {
      assert RequestOk(hash, s, s.requests[step.request]);
    }
  }

  lemma CodesKept(hash: string -> string, s: State, step: Step)
    requires Records(hash, s)
    ensures var u := Do(hash, s, step); forall c :: c in u.codes ==> c in u.issued && u.codes[c] == u.issued[c]
  {
  }

  lemma AllTokensKept(hash: string -> string, s: State, step: Step)
    requires Records(hash, s)
    ensures var u := Do(hash, s, step); forall t :: t in u.tokens ==> t in u.used && TokenOk(u, u.tokens[t])
  {
    var u := Do(hash, s, step);
    forall t | t in u.tokens ensures t in u.used && TokenOk(u, u.tokens[t]) {
      TokenKept(hash, s, step, t);
    }
  }

  lemma AllRequestsKept(hash: string -> string, s: State, step: Step)
    requires Records(hash, s)
    ensures var u := Do(hash, s, step); forall r :: r in u.requests ==> RequestOk(hash, u, u.requests[r])
  {
    var u := Do(hash, s, step);
    forall r | r in u.requests ensures RequestOk(hash, u, u.requests[r]) {
      RequestKept(hash, s, step, r);
    }
  }

  lemma RecordsKept(hash: string -> string, s: State, step: Step)
    requires Records(hash, s)
    ensures Records(hash, Do(hash, s, step))
  {
    CodesKept(hash, s, step);
    AllRequestsKept(hash, s, step);
    AllTokensKept(hash, s, step);
    MintsKept(hash, s, step);
  }

  // Whoever carries a code after a step carried it before, or took it over
  // from the one that did.
  ghost function Before(step: Step, k: Carrier): Carrier {
    match step
    case Exchange(request, _, _, _, _) => if k == ByRequest(request) then ByCode else k
    case Refresh(request, _, token) => if k == ByRequest(request) then ByToken(token) else k
    case Insert(request, _, refresh) => if k == ByToken(refresh) then ByRequest(request) else k
    case _ => k
  }

  lemma TakenOver(hash: string -> string, s: State, step: Step, k: Carrier, code: Code)
    requires step.Exchange? || step.Refresh? || step.Insert?
    requires Carries(Do(hash, s, step), k, code)
    ensures Carries(s, k, code) || Carries(s, Before(step, k), code)
  {
  }

  lemma CarriedBefore(hash: string -> string, s: State, step: Step, k: Carrier, code: Code)
    requires Records(hash, s) && Carries(Do(hash, s, step), k, code)
    ensures code in s.issued ==> Carries(s, k, code) || Carries(s, Before(step, k), code)
    ensures code !in s.issued ==> k == ByCode
  {
    if step.Exchange? || step.Refresh? || step.Insert? {
      TakenOver(hash, s, step, k, code);
    }
  }

  // Who takes a code over leaves the one it was taken from without it.
  lemma LeftBehind(hash: string -> string, s: State, step: Step, k: Carrier, code: Code)
    requires Records(hash, s) && Carries(Do(hash, s, step), k, code) && !Carries(s, k, code)
    ensures !Carries(Do(hash, s, step), Before(step, k), code) || Before(step, k) == k
  {
  }

  lemma OneCarrierKept(hash: string -> string, s: State, step: Step)
    requires Inv(hash, s)
    ensures OneCarrier(Do(hash, s, step))
  {
    var u := Do(hash, s, step);
    forall c, j, k | Carries(u, j, c) && Carries(u, k, c) ensures j == k {
      CarriedBefore(hash, s, step, j, c);
      CarriedBefore(hash, s, step, k, c);
      if c in s.issued {
        SameCarrier(hash, s, step, j, k, c);
      }
    }
  }

  lemma SameCarrier(hash: string -> string, s: State, step: Step, j: Carrier, k: Carrier, c: Code)
    requires Inv(hash, s) && Carries(Do(hash, s, step), j, c) && Carries(Do(hash, s, step), k, c)
    requires Carries(s, j, c) || Carries(s, Before(step, j), c)
    requires Carries(s, k, c) || Carries(s, Before(step, k), c)
    ensures j == k
  {
    if !Carries(s, j, c) {
      LeftBehind(hash, s, step, j, c);
    }
    if !Carries(s, k, c) {
      LeftBehind(hash, s, step, k, c);
    }
    assert Before(step, j) == Before(step, k) ==> j == k || j == Before(step, j) || k == Before(step, k);
  }

  lemma InsertSpends(hash: string -> string, s: State, step: Step)
    requires Inv(hash, s) && step.Insert?
    ensures SpentOnce(Do(hash, s, step))
  {
    var u := Do(hash, s, step);
    if u != s {
      var r := s.requests[step.request];
      assert Carries(s, ByRequest(step.request), r.origin);
      assert r.proof.Some? ==> Unspent(s, ByRequest(step.request)) && !Exchanged(s, r.origin);
      forall c, k | Carries(u, k, c) && Unspent(u, k) ensures !Exchanged(u, c) {
        CarriedBefore(hash, s, step, k, c);
        assert Carries(s, k, c) && Unspent(s, k);
        assert c != r.origin;
      }
    }
  }

  lemma UnspentBefore(hash: string -> string, s: State, step: Step, k: Carrier, code: Code)
    requires Records(hash, s) && !step.Insert? && code in s.issued
    requires Carries(Do(hash, s, step), k, code) && Unspent(Do(hash, s, step), k)
    ensures (Carries(s, k, code) && Unspent(s, k)) || (Carries(s, Before(step, k), code) && Unspent(s, Before(step, k)))
  {
  }

  lemma SpentOnceKept(hash: string -> string, s: State, step: Step)
    requires Inv(hash, s)
    ensures SpentOnce(Do(hash, s, step))
  {
    var u := Do(hash, s, step);
    if step.Insert? {
      InsertSpends(hash, s, step);
    } else {
      assert u.minted == s.minted;
      forall c, k | Carries(u, k, c) && Unspent(u, k) ensures !Exchanged(u, c) {
        if c in s.issued {
          UnspentBefore(hash, s, step, k, c);
        } else {
          assert Exchanged(s, c) ==> c in s.issued;
        }
      }
    }
  }

  lemma {:induction false} AlwaysInv(hash: string -> string, steps: seq<Step>)
    ensures Inv(hash, Run(hash, START, steps))
  {
    if |steps| > 0 {
      var s, step := Run(hash, START, steps[..|steps| - 1]), steps[|steps| - 1];
      AlwaysInv(hash, steps[..|steps| - 1]);
      RecordsKept(hash, s, step);
      OneCarrierKept(hash, s, step);
      SpentOnceKept(hash, s, step);
    }
  }

  // ----------------------------------------------------------- theorems ----

  /** However requests race, a code is exchanged for at most one pair of tokens,
      and only for a proof that met every check in time. */
  lemma OnePairPerCode(hash: string -> string, steps: seq<Step>)
    ensures var s := Run(hash, START, steps);
      && (forall i, j :: 0 <= i < j < |s.minted| && s.minted[i].proof.Some? && s.minted[j].proof.Some? ==>
            s.minted[i].origin != s.minted[j].origin)
      && (forall i :: 0 <= i < |s.minted| ==> Proven(hash, s, s.minted[i].origin, s.minted[i].proof))
  {
    AlwaysInv(hash, steps);
  }

  /** At any moment a code has at most one refresh token, and while it has one
      neither the code nor any request in flight can make another. */
  lemma OneLiveRefreshToken(hash: string -> string, steps: seq<Step>, t: Token, k: Carrier)
    requires var s := Run(hash, START, steps); t in s.tokens && s.tokens[t].refresh
    requires var s := Run(hash, START, steps); Carries(s, k, s.tokens[t].origin)
    ensures k == ByToken(t)
  {
    AlwaysInv(hash, steps);
    var s := Run(hash, START, steps);
    assert Carries(s, ByToken(t), s.tokens[t].origin);
  }

  /** Every token is for the client, the claims and the nonce of the code it
      descends from, through any number of refreshes. */
  lemma DescendantsKeepTheCode(hash: string -> string, steps: seq<Step>, t: Token)
    requires t in Run(hash, START, steps).tokens
    ensures var s := Run(hash, START, steps); TokenOk(s, s.tokens[t])
  {
    AlwaysInv(hash, steps);
  }

  // Nothing is left of a code but what was minted from it.
  ghost predicate Burned(s: State, code: Code) {
    code in s.issued && forall k :: !Carries(s, k, code)
  }

  lemma BurnedStep(hash: string -> string, s: State, step: Step, code: Code)
    requires Inv(hash, s) && Burned(s, code)
    ensures Burned(Do(hash, s, step), code)
    ensures forall i :: |s.minted| <= i < |Do(hash, s, step).minted| ==> Do(hash, s, step).minted[i].origin != code
    ensures s.minted <= Do(hash, s, step).minted
  {
    forall k ensures !Carries(Do(hash, s, step), k, code) {
      if Carries(Do(hash, s, step), k, code) {
        CarriedBefore(hash, s, step, k, code);
      }
    }
    if step.Insert? && step.request in s.requests {
      assert !Carries(s, ByRequest(step.request), code);
    }
  }

  lemma {:induction false} BurnedForEver(hash: string -> string, steps: seq<Step>, more: seq<Step>, code: Code)
    requires Burned(Run(hash, START, steps), code)
    ensures var s, u := Run(hash, START, steps), Run(hash, START, steps + more);
      && Burned(u, code) && s.minted <= u.minted
      && forall i :: |s.minted| <= i < |u.minted| ==> u.minted[i].origin != code
  {
    if |more| == 0 {
      assert steps + more == steps;
    } else {
      var before := steps + more[..|more| - 1];
      BurnedForEver(hash, steps, more[..|more| - 1], code);
      AlwaysInv(hash, before);
      BurnedStep(hash, Run(hash, START, before), more[|more| - 1], code);
      assert (steps + more)[..|steps + more| - 1] == before;
    }
  }

  /** An exchange that fails a check, for the client the code is for, burns the
      code: no token descends from it and none ever will. */
  lemma FailedCheckBurnsTheCode(hash: string -> string, steps: seq<Step>, more: seq<Step>, request: nat)
    requires var s := Run(hash, START, steps);
      && request in s.requests && s.requests[request].Taken?
      && !Passes(hash, s.requests[request].row, s.requests[request].redirect, s.requests[request].verifier, s.now)
    ensures var code := Run(hash, START, steps).requests[request].code;
      var u := Run(hash, START, steps + [Check(request)] + more);
      && code !in u.codes
      && (forall i :: 0 <= i < |u.minted| && u.minted[i].proof.Some? ==> u.minted[i].origin != code)
      && forall t :: t in u.tokens ==> u.tokens[t].origin != code
  {
    var s := Run(hash, START, steps);
    var code := s.requests[request].code;
    var failed := steps + [Check(request)];
    assert failed[..|steps|] == steps;
    AlwaysInv(hash, steps);
    assert RequestOk(hash, s, s.requests[request]);
    assert Carries(s, ByRequest(request), code) && Unspent(s, ByRequest(request));
    var f := Run(hash, START, failed);
    assert f == Do(hash, s, Check(request)) && f.minted == s.minted;
    forall k ensures !Carries(f, k, code) {
      if Carries(f, k, code) {
        CarriedBefore(hash, s, Check(request), k, code);
      }
    }
    BurnedForEver(hash, failed, more, code);
    var u := Run(hash, START, failed + more);
    assert !Carries(u, ByCode, code);
    forall i | 0 <= i < |u.minted| && u.minted[i].proof.Some? ensures u.minted[i].origin != code {
      if i < |s.minted| {
        assert u.minted[i] == s.minted[i];
        assert !Exchanged(s, code);
      }
    }
    AlwaysInv(hash, failed + more);
    forall t | t in u.tokens ensures u.tokens[t].origin != code {
      assert TokenOk(u, u.tokens[t]);
    }
  }

  // ------------------------------------------------- clients are apart ----

  // A client, and the names its requests, codes and tokens have in a run.
  datatype Party = Party(client: string, requests: set<nat>, codes: set<Code>, tokens: set<Token>)

  // Only the client's own requests, codes and tokens bear those names. What
  // it and the others present is not restricted.
  predicate Named(p: Party, step: Step) {
    match step
    case Issue(code, client, _, _, _, _) => client == p.client <==> code in p.codes
    case Exchange(request, client, _, _, _) => client == p.client <==> request in p.requests
    case Refresh(request, client, _) => client == p.client <==> request in p.requests
    case Insert(request, access, refresh) =>
      (request in p.requests <==> access in p.tokens) && (request in p.requests <==> refresh in p.tokens)
    case _ => true
  }

  predicate IsBy(p: Party, step: Step) {
    match step
    case Issue(_, client, _, _, _, _) => client == p.client
    case Exchange(_, client, _, _, _) => client == p.client
    case Refresh(_, client, _) => client == p.client
    case Check(request) => request in p.requests
    case Insert(request, _, _) => request in p.requests
    case Drop(request) => request in p.requests
    case _ => false
  }

  function Without(p: Party, steps: seq<Step>): seq<Step> {
    if |steps| == 0 then []
    else
      var before, last := Without(p, steps[..|steps| - 1]), steps[|steps| - 1];
      if IsBy(p, last) then before else before + [last]
  }

  // What the client has is its own, and what the others have is not.
  ghost predicate CodesApart(p: Party, s: State) {
    forall c :: c in s.codes ==> (s.codes[c].client == p.client <==> c in p.codes)
  }

  ghost predicate TokensApart(p: Party, s: State) {
    forall t :: t in s.tokens ==> (s.tokens[t].client == p.client <==> t in p.tokens)
  }

  ghost predicate RequestsApart(p: Party, s: State) {
    && (forall r :: r in s.requests && s.requests[r].Taken? ==>
          (s.requests[r].row.client == p.client <==> r in p.requests))
    && (forall r :: r in s.requests && s.requests[r].Minting? ==>
          (s.requests[r].client == p.client <==> r in p.requests))
  }

  ghost predicate KeptApart(p: Party, s: State) {
    CodesApart(p, s) && TokensApart(p, s) && RequestsApart(p, s)
  }

  // The first state with all that is the client's left out is the second.
  predicate SameForOthers(p: Party, s: State, u: State) {
    && u.now == s.now && u.codes == s.codes - p.codes && u.tokens == s.tokens - p.tokens
    && u.requests == s.requests - p.requests && u.issued == s.issued - p.codes && u.used == s.used - p.tokens
  }

  lemma CodesStayApart(hash: string -> string, p: Party, s: State, step: Step)
    requires Named(p, step) && CodesApart(p, s)
    ensures CodesApart(p, Do(hash, s, step))
  {
  }

  lemma TokensStayApart(hash: string -> string, p: Party, s: State, step: Step)
    requires Named(p, step) && TokensApart(p, s) && RequestsApart(p, s)
    ensures TokensApart(p, Do(hash, s, step))
  {
  }

  lemma RequestsStayApart(hash: string -> string, p: Party, s: State, step: Step)
    requires Named(p, step) && RequestsApart(p, s)
    ensures RequestsApart(p, Do(hash, s, step))
  {
  }

  lemma ApartKept(hash: string -> string, p: Party, s: State, step: Step)
    requires Named(p, step) && KeptApart(p, s)
    ensures KeptApart(p, Do(hash, s, step))
  {
    CodesStayApart(hash, p, s, step);
    TokensStayApart(hash, p, s, step);
    RequestsStayApart(hash, p, s, step);
  }

  lemma PutThenLeave<K, V>(m: map<K, V>, k: K, v: V, left: set<K>)
    ensures m[k := v] - left == if k in left then m - left else (m - left)[k := v]
  {
  }

  lemma TakeThenLeave<K, V>(m: map<K, V>, k: K, left: set<K>)
    ensures (m - {k}) - left == if k in left then m - left else (m - left) - {k}
  {
  }

  // A request moves on: unseen by the others if it is the client's.
  function Moved(s: State, request: nat, r: Request): State {
    s.(requests := s.requests[request := r])
  }

  lemma MovedUnseen(p: Party, s: State, u: State, request: nat, r: Request)
    requires SameForOthers(p, s, u) && request in p.requests
    ensures SameForOthers(p, Moved(s, request, r), u)
  {
    PutThenLeave(s.requests, request, r, p.requests);
  }

  lemma MovedSeen(p: Party, s: State, u: State, request: nat, r: Request)
    requires SameForOthers(p, s, u) && request !in p.requests
    ensures SameForOthers(p, Moved(s, request, r), Moved(u, request, r))
  {
    PutThenLeave(s.requests, request, r, p.requests);
  }

  lemma CodeGone(p: Party, s: State, u: State, code: Code)
    requires SameForOthers(p, s, u)
    ensures SameForOthers(
      p, s.(codes := s.codes - {code}), if code in p.codes then u else u.(codes := u.codes - {code}))
  {
    TakeThenLeave(s.codes, code, p.codes);
  }

  lemma TokenGone(p: Party, s: State, u: State, token: Token)
    requires SameForOthers(p, s, u)
    ensures SameForOthers(
      p, s.(tokens := s.tokens - {token}), if token in p.tokens then u else u.(tokens := u.tokens - {token}))
  {
    TakeThenLeave(s.tokens, token, p.tokens);
  }

  lemma OwnExchangeHidden(
    p: Party, s: State, u: State, request: nat, client: string, code: Code, redirect: string, verifier: string)
    requires client == p.client && request in p.requests && CodesApart(p, s) && SameForOthers(p, s, u)
    ensures SameForOthers(p, CodeTaken(s, request, client, code, redirect, verifier), u)
  {
    if request !in s.requests {
      if MayTakeCode(s, client, code) {
        CodeGone(p, s, u, code);
        MovedUnseen(p, s.(codes := s.codes - {code}), u, request, Taken(code, s.codes[code], redirect, verifier));
      } else {
        MovedUnseen(p, s, u, request, Refused);
      }
    }
  }

  lemma OwnRefreshHidden(p: Party, s: State, u: State, request: nat, client: string, token: Token)
    requires client == p.client && request in p.requests && TokensApart(p, s) && SameForOthers(p, s, u)
    ensures SameForOthers(p, TokenTaken(s, request, client, token), u)
  {
    if request !in s.requests {
      if MayTakeToken(s, client, token) {
        TokenGone(p, s, u, token);
        MovedUnseen(p, s.(tokens := s.tokens - {token}), u, request,
          TokenTaken(s, request, client, token).requests[request]);
      } else {
        MovedUnseen(p, s, u, request, Refused);
      }
    }
  }

  lemma OwnInsertHidden(hash: string -> string, p: Party, s: State, u: State, step: Step)
    requires step.Insert? && Named(p, step) && IsBy(p, step) && SameForOthers(p, s, u)
    ensures SameForOthers(p, Do(hash, s, step), u)
  {
    var t := Do(hash, s, step);
    if t != s {
      PutThenLeave(s.tokens, step.access, t.tokens[step.access], p.tokens);
      PutThenLeave(s.tokens[step.access := t.tokens[step.access]], step.refresh, t.tokens[step.refresh], p.tokens);
      PutThenLeave(s.requests, step.request, t.requests[step.request], p.requests);
      assert t.used == s.used + {step.access, step.refresh};
    }
  }

  lemma OwnCheckHidden(hash: string -> string, p: Party, s: State, u: State, request: nat)
    requires request in p.requests && SameForOthers(p, s, u)
    ensures SameForOthers(p, Checked(hash, s, request), u)
  {
    if request in s.requests && s.requests[request].Taken? {
      MovedUnseen(p, s, u, request, Checked(hash, s, request).requests[request]);
    }
  }

  lemma OwnIssueHidden(hash: string -> string, p: Party, s: State, u: State, step: Step)
    requires step.Issue? && step.code in p.codes && SameForOthers(p, s, u)
    ensures SameForOthers(p, Do(hash, s, step), u)
  {
  }

  lemma OwnStepHidden(hash: string -> string, p: Party, s: State, u: State, step: Step)
    requires Named(p, step) && IsBy(p, step) && KeptApart(p, s) && SameForOthers(p, s, u)
    ensures SameForOthers(p, Do(hash, s, step), u)
  {
    match step
    case Issue(_, _, _, _, _, _) => OwnIssueHidden(hash, p, s, u, step);
    case Exchange(request, client, code, redirect, verifier) =>
      OwnExchangeHidden(p, s, u, request, client, code, redirect, verifier);
    case Check(request) => OwnCheckHidden(hash, p, s, u, request);
    case Refresh(request, client, token) => OwnRefreshHidden(p, s, u, request, client, token);
    case Insert(_, _, _) => OwnInsertHidden(hash, p, s, u, step);
    case Drop(request) => MovedUnseen(p, s, u, request, Refused);
  }

  lemma OtherExchangeSeen(
    p: Party, s: State, u: State, request: nat, client: string, code: Code, redirect: string, verifier: string)
    requires client != p.client && request !in p.requests && CodesApart(p, s) && SameForOthers(p, s, u)
    ensures SameForOthers(p, CodeTaken(s, request, client, code, redirect, verifier),
                          CodeTaken(u, request, client, code, redirect, verifier))
  {
    assert MayTakeCode(s, client, code) <==> MayTakeCode(u, client, code);
    assert request in s.requests <==> request in u.requests;
    if request !in s.requests {
      if MayTakeCode(s, client, code) {
        CodeGone(p, s, u, code);
        MovedSeen(p, s.(codes := s.codes - {code}), u.(codes := u.codes - {code}), request,
          Taken(code, s.codes[code], redirect, verifier));
      } else {
        MovedSeen(p, s, u, request, Refused);
      }
    }
  }

  lemma OtherRefreshSeen(p: Party, s: State, u: State, request: nat, client: string, token: Token)
    requires client != p.client && request !in p.requests && TokensApart(p, s) && SameForOthers(p, s, u)
    ensures SameForOthers(p, TokenTaken(s, request, client, token), TokenTaken(u, request, client, token))
  {
    assert MayTakeToken(s, client, token) <==> MayTakeToken(u, client, token);
    assert request in s.requests <==> request in u.requests;
    if request !in s.requests {
      if MayTakeToken(s, client, token) {
        TokenGone(p, s, u, token);
        MovedSeen(p, s.(tokens := s.tokens - {token}), u.(tokens := u.tokens - {token}), request,
          TokenTaken(s, request, client, token).requests[request]);
      } else {
        MovedSeen(p, s, u, request, Refused);
      }
    }
  }

  lemma OtherInsertSeen(hash: string -> string, p: Party, s: State, u: State, step: Step)
    requires step.Insert? && Named(p, step) && !IsBy(p, step) && SameForOthers(p, s, u)
    ensures SameForOthers(p, Do(hash, s, step), Do(hash, u, step))
  {
    var t := Do(hash, s, step);
    assert step.request in s.requests <==> step.request in u.requests;
    assert step.access in s.used <==> step.access in u.used;
    assert step.refresh in s.used <==> step.refresh in u.used;
    if t != s {
      PutThenLeave(s.tokens, step.access, t.tokens[step.access], p.tokens);
      PutThenLeave(s.tokens[step.access := t.tokens[step.access]], step.refresh, t.tokens[step.refresh], p.tokens);
      PutThenLeave(s.requests, step.request, t.requests[step.request], p.requests);
      assert t.used == s.used + {step.access, step.refresh};
    }
  }

  lemma OtherSweepSeen(hash: string -> string, p: Party, s: State, u: State, step: Step)
    requires (step.SweepCodes? || step.SweepTokens?) && SameForOthers(p, s, u)
    ensures SameForOthers(p, Do(hash, s, step), Do(hash, u, step))
  {
  }

  lemma OtherRequestSeen(hash: string -> string, p: Party, s: State, u: State, step: Step)
    requires (step.Check? || step.Drop?) && !IsBy(p, step) && SameForOthers(p, s, u)
    ensures SameForOthers(p, Do(hash, s, step), Do(hash, u, step))
  {
  }

  lemma OtherIssueSeen(hash: string -> string, p: Party, s: State, u: State, step: Step)
    requires step.Issue? && Named(p, step) && !IsBy(p, step) && SameForOthers(p, s, u)
    ensures SameForOthers(p, Do(hash, s, step), Do(hash, u, step))
  {
  }

  lemma OtherStepSeen(hash: string -> string, p: Party, s: State, u: State, step: Step)
    requires Named(p, step) && !IsBy(p, step) && KeptApart(p, s) && SameForOthers(p, s, u)
    ensures SameForOthers(p, Do(hash, s, step), Do(hash, u, step))
  {
    match step
    case Issue(_, _, _, _, _, _) => OtherIssueSeen(hash, p, s, u, step);
    case Exchange(request, client, code, redirect, verifier) =>
      OtherExchangeSeen(p, s, u, request, client, code, redirect, verifier);
    case Refresh(request, client, token) => OtherRefreshSeen(p, s, u, request, client, token);
    case Insert(_, _, _) => OtherInsertSeen(hash, p, s, u, step);
    case Check(_) => OtherRequestSeen(hash, p, s, u, step);
    case Drop(_) => OtherRequestSeen(hash, p, s, u, step);
    case SweepCodes => OtherSweepSeen(hash, p, s, u, step);
    case SweepTokens => OtherSweepSeen(hash, p, s, u, step);
    case Tick(_) =>
  }

  /** Nothing a client does, with its own codes and tokens or with anybody
      else's, changes what the other clients hold, are answered or can obtain:
      to them a run is the same as with all its steps left out. */
  lemma {:induction false} ClientsDoNotInterfere(hash: string -> string, p: Party, steps: seq<Step>)
    requires forall i :: 0 <= i < |steps| ==> Named(p, steps[i])
    ensures KeptApart(p, Run(hash, START, steps))
    ensures SameForOthers(p, Run(hash, START, steps), Run(hash, START, Without(p, steps)))
  {
    if |steps| > 0 {
      var init, step := steps[..|steps| - 1], steps[|steps| - 1];
      ClientsDoNotInterfere(hash, p, init);
      var s, u := Run(hash, START, init), Run(hash, START, Without(p, init));
      ApartKept(hash, p, s, step);
      if IsBy(p, step) {
        OwnStepHidden(hash, p, s, u, step);
      } else {
        OtherStepSeen(hash, p, s, u, step);
        assert Without(p, steps)[..|Without(p, steps)| - 1] == Without(p, init);
      }
    }
  }

  lemma GoneStep(hash: string -> string, s: State, step: Step, t: Token)
    requires t in s.used && t !in s.tokens
    ensures t in Do(hash, s, step).used && t !in Do(hash, s, step).tokens
  {
  }

  /** A refresh token that has been used is gone for good: no later request
      finds it. */
  lemma {:induction false} UsedTokenStaysGone(hash: string -> string, steps: seq<Step>, more: seq<Step>, t: Token)
    requires var s := Run(hash, START, steps); t in s.used && t !in s.tokens
    ensures var u := Run(hash, START, steps + more); t in u.used && t !in u.tokens
  {
    if |more| == 0 {
      assert steps + more == steps;
    } else {
      var before := steps + more[..|more| - 1];
      UsedTokenStaysGone(hash, steps, more[..|more| - 1], t);
      GoneStep(hash, Run(hash, START, before), more[|more| - 1], t);
      assert (steps + more)[..|steps + more| - 1] == before;
    }
  }

  // ------------------------------------------------------ in plain terms ----

  // The step of a run that issued a code.
  predicate IssuedAt(hash: string -> string, steps: seq<Step>, k: nat, code: Code) {
    k < |steps| && steps[k].Issue? && steps[k].code == code && code !in Run(hash, START, steps[..k]).issued
  }

  // What is kept of a code, as the step that issued it says it has to be.
  predicate AsIssued(row: CodeRow, i: Step, at: int)
    requires i.Issue?
  {
    && row.client == i.client && row.redirect == i.redirect && row.nonce == i.nonce
    && row.challenge == i.challenge && row.claims == i.claims && row.expires == at + 120
  }

  lemma {:induction false} IssuedIsAsked(hash: string -> string, steps: seq<Step>, code: Code) returns (k: nat)
    requires code in Run(hash, START, steps).issued
    ensures IssuedAt(hash, steps, k, code)
    ensures AsIssued(Run(hash, START, steps).issued[code], steps[k], Run(hash, START, steps[..k]).now)
  {
    var n := |steps| - 1;
    var s := Run(hash, START, steps[..n]);
    if code in s.issued {
      k := IssuedIsAsked(hash, steps[..n], code);
      assert steps[..n][..k] == steps[..k] && steps[..n][k] == steps[k];
      DoIsLater(hash, s, steps[n]);
    } else {
      k := n;
    }
  }

  /** In every run, each pair handed out for a code goes back to the step that
      issued it: the exchange was for its redirect address, was checked no more
      than 120 seconds later, and had a verifier that hashes to its challenge
      unless there was none. */
  lemma PairsAreAsked(hash: string -> string, steps: seq<Step>, m: nat) returns (k: nat)
    requires m < |Run(hash, START, steps).minted| && Run(hash, START, steps).minted[m].proof.Some?
    ensures IssuedAt(hash, steps, k, Run(hash, START, steps).minted[m].origin)
    ensures var proof, i := Run(hash, START, steps).minted[m].proof.value, steps[k];
      && proof.redirect == i.redirect && proof.at <= Run(hash, START, steps[..k]).now + 120
      && (i.challenge == "" || (proof.verifier != "" && hash(proof.verifier) == i.challenge))
  {
    AlwaysInv(hash, steps);
    k := IssuedIsAsked(hash, steps, Run(hash, START, steps).minted[m].origin);
  }

  /** In every run each token says what the step that issued its code says. */
  lemma TokensAreAsked(hash: string -> string, steps: seq<Step>, t: Token) returns (k: nat)
    requires t in Run(hash, START, steps).tokens
    ensures IssuedAt(hash, steps, k, Run(hash, START, steps).tokens[t].origin)
    ensures var row, i := Run(hash, START, steps).tokens[t], steps[k];
      row.client == i.client && row.claims == i.claims && row.nonce == i.nonce
  {
    AlwaysInv(hash, steps);
    var s := Run(hash, START, steps);
    assert TokenOk(s, s.tokens[t]);
    k := IssuedIsAsked(hash, steps, s.tokens[t].origin);
  }

  // A code issued, left so long, presented and checked.
  function Presented(hash: string -> string, s: State, i: Step, wait: nat, e: Step): State
    requires i.Issue? && e.Exchange?
  {
    Do(hash, Do(hash, Do(hash, Do(hash, s, i), Tick(wait)), e), Check(e.request))
  }

  // Whether what is presented is what the code was issued for.
  predicate Answers(hash: string -> string, i: Step, wait: nat, e: Step)
    requires i.Issue? && e.Exchange?
  {
    && e.client == i.client && e.redirect == i.redirect && wait <= 120
    && (i.challenge == "" || (e.verifier != "" && hash(e.verifier) == i.challenge))
  }

  lemma PresentedExactly(hash: string -> string, s: State, i: Step, wait: nat, e: Step)
    requires i.Issue? && e.Exchange? && e.code == i.code && i.code !in s.issued && e.request !in s.requests
    ensures var u := Presented(hash, s, i, wait, e);
      && u.now == s.now + wait && u.used == s.used && u.tokens == s.tokens && e.request in u.requests
      && (i.code in u.codes <==> e.client != i.client)
      && u.requests[e.request] ==
           if Answers(hash, i, wait, e)
           then Minting(i.client, i.claims, i.nonce, "openid profile email", i.code,
                        Some(Proof(e.redirect, e.verifier, s.now + wait)))
           else Refused
  {
    var a := Do(hash, Do(hash, s, i), Tick(wait));
    assert a.codes[i.code] == CodeRow(i.client, i.redirect, i.nonce, i.challenge, i.claims, s.now + 120);
    assert a.requests == s.requests && a.used == s.used && a.tokens == s.tokens;
    var b := Do(hash, a, e);
    assert e.request in b.requests && b.used == s.used && b.tokens == s.tokens;
  }

  lemma MintedExactly(hash: string -> string, s: State, request: nat, access: Token, refresh: Token)
    requires request in s.requests && s.requests[request].Minting?
    requires access != refresh && access !in s.used && refresh !in s.used
    ensures var r, u := s.requests[request], Do(hash, s, Insert(request, access, refresh));
      && request in u.requests && u.requests[request] == Answered(access, refresh)
      && u.tokens == s.tokens[
           access := TokenRow(false, r.client, r.claims, r.nonce, r.scope, s.now + 3600, r.origin)][
           refresh := TokenRow(true, r.client, r.claims, r.nonce, r.scope, s.now + 2592000, r.origin)]
  {
  }

  lemma RefusedGetsNothing(hash: string -> string, s: State, request: nat, access: Token, refresh: Token)
    requires request in s.requests && s.requests[request] == Refused
    ensures Do(hash, s, Insert(request, access, refresh)) == s
  {
  }

  /** A code issued to a client for a redirect address, with a challenge, claims
      and a nonce, and presented with nothing else in between, yields a pair of
      tokens exactly when the client and the address are those, no more than
      120 seconds have passed, and there is no challenge or a verifier that
      hashes to it. The tokens are that client's, with those claims and that
      nonce; the access token lasts an hour, the refresh token 30 days. */
  lemma ExchangeExactly(
    hash: string -> string, s: State, i: Step, wait: nat, e: Step, access: Token, refresh: Token)
    requires i.Issue? && e.Exchange? && e.code == i.code && i.code !in s.issued && e.request !in s.requests
    requires access != refresh && access !in s.used && refresh !in s.used
    ensures var u := Do(hash, Presented(hash, s, i, wait, e), Insert(e.request, access, refresh));
      && e.request in u.requests
      && if e.client == i.client && e.redirect == i.redirect && wait <= 120
            && (i.challenge == "" || (e.verifier != "" && hash(e.verifier) == i.challenge))
         then
           && u.requests[e.request] == Answered(access, refresh)
           && u.tokens == s.tokens[
                access := TokenRow(false, i.client, i.claims, i.nonce, "openid profile email",
                                   s.now + wait + 3600, i.code)][
                refresh := TokenRow(true, i.client, i.claims, i.nonce, "openid profile email",
                                    s.now + wait + 30 * 24 * 3600, i.code)]
         else u.requests[e.request] == Refused && u.tokens == s.tokens
  {
    PresentedExactly(hash, s, i, wait, e);
    var p := Presented(hash, s, i, wait, e);
    if Answers(hash, i, wait, e) {
      MintedExactly(hash, p, e.request, access, refresh);
    } else {
      RefusedGetsNothing(hash, p, e.request, access, refresh);
    }
  }

  /** A refresh token left so long and then used by a client gives a new pair
      that says the same exactly when it is that client's, is a refresh token
      and has not expired; it is gone then, and else nothing changes. */
  lemma RefreshExactly(
    hash: string -> string, s: State, wait: nat, r: Step, access: Token, refresh: Token)
    requires r.Refresh? && r.request !in s.requests && r.token in s.tokens && r.token in s.used
    requires access != refresh && access !in s.used && refresh !in s.used
    ensures var row := s.tokens[r.token];
      var u := Do(hash, Do(hash, Do(hash, s, Tick(wait)), r), Insert(r.request, access, refresh));
      && r.request in u.requests
      && if row.refresh && row.client == r.client && s.now + wait < row.expires
         then
           && u.requests[r.request] == Answered(access, refresh)
           && u.tokens == (s.tokens - {r.token})[
                access := TokenRow(false, row.client, row.claims, row.nonce, row.scope,
                                   s.now + wait + 3600, row.origin)][
                refresh := TokenRow(true, row.client, row.claims, row.nonce, row.scope,
                                    s.now + wait + 30 * 24 * 3600, row.origin)]
         else u.requests[r.request] == Refused && u.tokens == s.tokens
  {
    var a := Do(hash, Do(hash, s, Tick(wait)), r);
    assert r.request in a.requests && a.used == s.used && a.now == s.now + wait;
    if a.requests[r.request] == Refused {
      RefusedGetsNothing(hash, a, r.request, access, refresh);
    } else {
      MintedExactly(hash, a, r.request, access, refresh);
    }
  }

  /** What is swept is what has expired, and could not have been exchanged. */
  lemma SweptExactly(hash: string -> string, s: State)
    ensures forall c :: c in s.codes ==> (c in Do(hash, s, SweepCodes).codes <==> s.now <= s.codes[c].expires)
    ensures forall t :: t in s.tokens ==> (t in Do(hash, s, SweepTokens).tokens <==> s.now <= s.tokens[t].expires)
  {
  }
}
