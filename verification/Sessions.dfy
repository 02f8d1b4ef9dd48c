/** Refresh-token sessions as a state machine: each use-case is one transaction. */
module Sessions {
  import opened Wrappers

  datatype User = User(id: string, email: string, passwordHash: string, isActive: bool)

  /** One row; only the hash of the refresh token is stored. */
  datatype Session = Session(userId: string, tokenHash: string, expiresAt: int, revokedAt: Option<int>)

  /**
   * Users and session rows, a row being identified by its position: rows are never deleted.
   * `parents` records, for the proofs, which row a rotation replaced.
   */
  datatype State = State(users: map<string, User>, sessions: seq<Session>, parents: seq<Option<nat>>)

  /** Hashing and password verification are library calls; `ttl` is the configured lifetime. */
  datatype Config = Config(hash: string -> string, verify: (string, string) -> bool, ttl: int)

  /** The clock readings of one use-case, in the order in which they are taken. */
  datatype Times = Times(check: int, revoke: int, issue: int)

  datatype Action =
    | Register(email: string, userId: string, passwordHash: string, token: string, at: Times)
    | Login(email: string, password: string, token: string, at: Times)
    | Refresh(presented: string, token: string, at: Times)
    | Logout(presented: string, at: Times)
    | LogoutAll(userId: string, at: Times)
    /** An administrator enables or disables an account; no use-case of the service does. */
    | SetActive(userId: string, isActive: bool)

  datatype Outcome =
    /** A token pair for the new session row. */
    | Issued(row: nat)
    | EmailTaken | BadCredentials | AccountDisabled | InvalidToken | TokenExpired
    | Done
    | RevokedSessions(count: nat)

  // ----- Queries -----

  /** The session with this token hash. */
  function Find(sessions: seq<Session>, tokenHash: string): (row: Option<nat>)
    ensures row.Some? ==> row.value < |sessions| && sessions[row.value].tokenHash == tokenHash
  {
    if sessions == [] then None
    else
      var n := |sessions| - 1;
      var front := Find(sessions[..n], tokenHash);
      if front.Some? then front else if sessions[n].tokenHash == tokenHash then Some(n) else None
  }

  /** Some user has this e-mail address. */
  predicate EmailKnown(users: map<string, User>, email: string) {
    exists id :: id in users && users[id].email == email
  }

  /** How many unrevoked sessions a user has. */
  function Active(sessions: seq<Session>, userId: string): nat {
    if sessions == [] then 0
    else
      var last := sessions[|sessions| - 1];
      Active(sessions[..|sessions| - 1], userId) + (if last.userId == userId && last.revokedAt.None? then 1 else 0)
  }

  // ----- Updates -----

  function RevokeRow(sessions: seq<Session>, row: nat, at: int): seq<Session>
    requires row < |sessions|
  {
    sessions[row := sessions[row].(revokedAt := Some(at))]
  }

  /** Revokes every unrevoked session of one user. */
  function RevokeUser(sessions: seq<Session>, userId: string, at: int): seq<Session> {
    seq(|sessions|, i requires 0 <= i < |sessions| =>
      if sessions[i].userId == userId && sessions[i].revokedAt.None? then sessions[i].(revokedAt := Some(at))
      else sessions[i])
  }

  function Issue(s: State, userId: string, token: string, parent: Option<nat>, issuedAt: int, cfg: Config): State {
    s.(sessions := s.sessions + [Session(userId, cfg.hash(token), issuedAt + cfg.ttl, None)],
       parents := s.parents + [parent])
  }

  // ----- Use-cases -----

  function DoRegister(s: State, a: Action, cfg: Config): (State, Outcome)
    requires a.Register?
  {
    if EmailKnown(s.users, a.email) then (s, EmailTaken)
    else
      var users := s.users[a.userId := User(a.userId, a.email, a.passwordHash, true)];
      (Issue(s.(users := users), a.userId, a.token, None, a.at.issue, cfg), Issued(|s.sessions|))
  }

  /** `user` is the account found for the e-mail address, if any. */
  function DoLogin(s: State, user: Option<User>, password: string, token: string, at: Times, cfg: Config): (State, Outcome) {
    if user.None? || !cfg.verify(password, user.value.passwordHash) then (s, BadCredentials)
    else if !user.value.isActive then (s, AccountDisabled)
    else (Issue(s, user.value.id, token, None, at.issue, cfg), Issued(|s.sessions|))
  }

  function DoRefresh(s: State, presented: string, token: string, at: Times, cfg: Config): (State, Outcome) {
    var found := Find(s.sessions, cfg.hash(presented));
    if found.None? then (s, InvalidToken)
    else
      var row := found.value;
      var session := s.sessions[row];
      if session.userId !in s.users || !s.users[session.userId].isActive then (s, InvalidToken)
      else if session.revokedAt.Some? then
        (s.(sessions := RevokeUser(s.sessions, session.userId, at.revoke)), InvalidToken)
      else if session.expiresAt <= at.check then (s, TokenExpired)
      else
        var rotated := s.(sessions := RevokeRow(s.sessions, row, at.revoke));
        (Issue(rotated, session.userId, token, Some(row), at.issue, cfg), Issued(|s.sessions|))
  }

  function DoLogout(s: State, presented: string, at: Times, cfg: Config): (State, Outcome) {
    var found := Find(s.sessions, cfg.hash(presented));
    if found.Some? && s.sessions[found.value].revokedAt.None? then
      (s.(sessions := RevokeRow(s.sessions, found.value, at.revoke)), Done)
    else (s, Done)
  }

  function DoLogoutAll(s: State, userId: string, at: Times): (State, Outcome) {
    (s.(sessions := RevokeUser(s.sessions, userId, at.revoke)), RevokedSessions(Active(s.sessions, userId)))
  }

  function DoSetActive(s: State, userId: string, isActive: bool): (State, Outcome) {
    if userId in s.users then (s.(users := s.users[userId := s.users[userId].(isActive := isActive)]), Done)
    else (s, Done)
  }

  function UserByEmail(users: map<string, User>, email: string): (r: Option<User>)
    requires OneAccountPerEmail(users)
    ensures r.Some? <==> EmailKnown(users, email)
    ensures r.Some? ==> r.value.email == email && r.value.id in users && users[r.value.id] == r.value
  {
    if EmailKnown(users, email) then
      UniqueAccount(users, email);
      var id :| id in users && users[id].email == email;
      Some(users[id])
    else None
  }

  /** The table's constraint on e-mail addresses, and rows stored under their own id. */
  ghost predicate OneAccountPerEmail(users: map<string, User>) {
    && (forall id :: id in users ==> users[id].id == id)
    && forall a, b :: a in users && b in users && users[a].email == users[b].email ==> a == b
  }

  lemma UniqueAccount(users: map<string, User>, email: string)
    requires OneAccountPerEmail(users) && EmailKnown(users, email)
    ensures exists id :: id in users && users[id].email == email
    ensures forall a, b :: a in users && users[a].email == email && b in users && users[b].email == email ==> a == b
  {
  }

  function Step(s: State, a: Action, cfg: Config): (State, Outcome)
    requires OneAccountPerEmail(s.users)
  {
    match a
    case Register(_, _, _, _, _) => DoRegister(s, a, cfg)
    case Login(email, password, token, at) => DoLogin(s, UserByEmail(s.users, email), password, token, at, cfg)
    case Refresh(presented, token, at) => DoRefresh(s, presented, token, at, cfg)
    case Logout(presented, at) => DoLogout(s, presented, at, cfg)
    case LogoutAll(userId, at) => DoLogoutAll(s, userId, at)
    case SetActive(userId, isActive) => DoSetActive(s, userId, isActive)
  }

  // ----- Invariant -----

  ghost predicate DistinctHashes(sessions: seq<Session>) {
    forall i, j :: 0 <= i < j < |sessions| ==> sessions[i].tokenHash != sessions[j].tokenHash
  }

  /** Rows replace earlier rows of the same user. */
  ghost predicate GoodParents(s: State) {
    && |s.parents| == |s.sessions|
    && forall j :: 0 <= j < |s.parents| && s.parents[j].Some? ==>
         s.parents[j].value < j && s.sessions[s.parents[j].value].userId == s.sessions[j].userId
  }

  ghost predicate EarlierParents(parents: seq<Option<nat>>) {
    forall j :: 0 <= j < |parents| && parents[j].Some? ==> parents[j].value < j
  }

  /** The session, issued by a register or login, in which a rotation chain begins. */
  ghost function Root(parents: seq<Option<nat>>, row: nat): nat
    requires row < |parents| && EarlierParents(parents)
    decreases row
  {
    if parents[row].None? then row else Root(parents, parents[row].value)
  }

  /** Of each rotation chain, every session but the last is revoked. */
  ghost predicate OnlyLastActive(s: State)
    requires GoodParents(s)
  {
    forall i, j :: 0 <= i < j < |s.sessions| && Root(s.parents, i) == Root(s.parents, j) ==> s.sessions[i].revokedAt.Some?
  }

  ghost predicate Good(s: State) {
    && OneAccountPerEmail(s.users) && DistinctHashes(s.sessions) && GoodParents(s) && OnlyLastActive(s)
  }

  /** New tokens have new hashes, and new users new ids. */
  ghost predicate Fresh(s: State, a: Action, cfg: Config) {
    && (a.Register? || a.Login? || a.Refresh? ==>
         forall i :: 0 <= i < |s.sessions| ==> s.sessions[i].tokenHash != cfg.hash(a.token))
    && (a.Register? ==> a.userId !in s.users)
  }

  // ----- Facts about the queries and updates -----

  lemma {:induction false} FindNone(sessions: seq<Session>, tokenHash: string)
    ensures Find(sessions, tokenHash).None? <==> forall i :: 0 <= i < |sessions| ==> sessions[i].tokenHash != tokenHash
  {
    if sessions != [] {
      FindNone(sessions[..|sessions| - 1], tokenHash);
      assert forall i :: 0 <= i < |sessions| - 1 ==> sessions[..|sessions| - 1][i] == sessions[i];
    }
  }

  lemma FindUnique(sessions: seq<Session>, row: nat)
    requires DistinctHashes(sessions) && row < |sessions|
    ensures Find(sessions, sessions[row].tokenHash) == Some(row)
  {
    FindNone(sessions, sessions[row].tokenHash);
  }

  lemma {:induction false} RootStable(parents: seq<Option<nat>>, more: Option<nat>, row: nat)
    requires EarlierParents(parents) && row < |parents| && (more.Some? ==> more.value < |parents|)
    ensures EarlierParents(parents + [more]) && Root(parents + [more], row) == Root(parents, row)
    decreases row
  {
    if parents[row].Some? {
      RootStable(parents, more, parents[row].value);
    }
  }

  lemma {:induction false} RootEarlier(parents: seq<Option<nat>>, row: nat)
    requires EarlierParents(parents) && row < |parents|
    ensures Root(parents, row) <= row && parents[Root(parents, row)].None?
    decreases row
  {
    if parents[row].Some? {
      RootEarlier(parents, parents[row].value);
    }
  }

  // ----- What no step undoes -----

  /** Rows stay, keep user, hash, expiry and parent, and a revocation time once set never changes. */
  ghost predicate Extends(s: State, t: State) {
    && |s.sessions| <= |t.sessions| && s.parents <= t.parents
    && forall i :: 0 <= i < |s.sessions| ==>
         && t.sessions[i].userId == s.sessions[i].userId
         && t.sessions[i].tokenHash == s.sessions[i].tokenHash
         && t.sessions[i].expiresAt == s.sessions[i].expiresAt
         && (s.sessions[i].revokedAt.Some? ==> t.sessions[i].revokedAt == s.sessions[i].revokedAt)
  }

  lemma RefreshExtends(s: State, presented: string, token: string, at: Times, cfg: Config)
    ensures Extends(s, DoRefresh(s, presented, token, at, cfg).0)
  {
  }

  lemma StepExtends(s: State, a: Action, cfg: Config)
    requires OneAccountPerEmail(s.users)
    ensures Extends(s, Step(s, a, cfg).0)
  {
    if a.Refresh? {
      RefreshExtends(s, a.presented, a.token, a.at, cfg);
    }
  }

  lemma UsersStayGood(s: State, a: Action, cfg: Config)
    requires OneAccountPerEmail(s.users) && Fresh(s, a, cfg)
    ensures OneAccountPerEmail(Step(s, a, cfg).0.users)
  {
  }

  lemma IssueKeepsGood(s: State, userId: string, token: string, parent: Option<nat>, issuedAt: int, cfg: Config)
    requires Good(s)
    requires forall i :: 0 <= i < |s.sessions| ==> s.sessions[i].tokenHash != cfg.hash(token)
    requires parent.Some? ==>
      parent.value < |s.sessions| && s.sessions[parent.value].userId == userId
      && forall i :: 0 <= i < |s.sessions| && Root(s.parents, i) == Root(s.parents, parent.value) ==>
           s.sessions[i].revokedAt.Some?
    ensures Good(Issue(s, userId, token, parent, issuedAt, cfg))
  {
    var t := Issue(s, userId, token, parent, issuedAt, cfg);
    var n := |s.sessions|;
    forall i, j | 0 <= i < j < |t.sessions| && Root(t.parents, i) == Root(t.parents, j)
      ensures t.sessions[i].revokedAt.Some?
    {
      RootStable(s.parents, parent, i);
      if j < n {
        RootStable(s.parents, parent, j);
      } else if parent.Some? {
        RootStable(s.parents, parent, parent.value);
      } else {
        RootEarlier(s.parents, i);
      }
    }
  }

  /** Revoking keeps every chain as it is and activates nothing. */
  lemma RevokingKeepsGood(s: State, t: State)
    requires Good(s) && t.users == s.users && t.parents == s.parents && |t.sessions| == |s.sessions|
    requires Extends(s, t)
    ensures Good(t)
  {
  }

  /** The one unrevoked session of a chain is its last, so rotating it leaves the chain without one. */
  lemma RotatedChainIsRevoked(s: State, row: nat, at: int)
    requires Good(s) && row < |s.sessions| && s.sessions[row].revokedAt.None?
    ensures var t := s.(sessions := RevokeRow(s.sessions, row, at));
      && Good(t)
      && forall i :: 0 <= i < |t.sessions| && Root(t.parents, i) == Root(t.parents, row) ==> t.sessions[i].revokedAt.Some?
  {
    var t := s.(sessions := RevokeRow(s.sessions, row, at));
    RevokingKeepsGood(s, t);
  }

  lemma StepKeepsGood(s: State, a: Action, cfg: Config)
    requires Good(s) && Fresh(s, a, cfg)
    ensures Good(Step(s, a, cfg).0)
  {
    var (t, outcome) := Step(s, a, cfg);
    UsersStayGood(s, a, cfg);
    StepExtends(s, a, cfg);
    match a
    case Register(email, userId, passwordHash, token, at) =>
      if outcome.Issued? {
        IssueKeepsGood(s.(users := t.users), userId, token, None, at.issue, cfg);
      }
    case Login(email, password, token, at) =>
      if outcome.Issued? {
        IssueKeepsGood(s, UserByEmail(s.users, email).value.id, token, None, at.issue, cfg);
      }
    case Refresh(presented, token, at) =>
      if outcome.Issued? {
        var row := Find(s.sessions, cfg.hash(presented)).value;
        RotatedChainIsRevoked(s, row, at.revoke);
        IssueKeepsGood(s.(sessions := RevokeRow(s.sessions, row, at.revoke)), s.sessions[row].userId, token, Some(row),
                       at.issue, cfg);
      } else {
        RevokingKeepsGood(s, t);
      }
    case Logout(presented, at) =>
      RevokingKeepsGood(s, t);
    case LogoutAll(userId, at) =>
      RevokingKeepsGood(s, t);
    case SetActive(userId, isActive) =>
  }

  // ----- Runs -----

  const START := State(map[], [], [])

  /** A run from the empty database, with fresh tokens and ids at every step. */
  ghost predicate IsRun(actions: seq<Action>, states: seq<State>, cfg: Config) {
    && |states| == |actions| + 1 && states[0] == START
    && forall i :: 0 <= i < |actions| ==>
         && OneAccountPerEmail(states[i].users) && Fresh(states[i], actions[i], cfg)
         && states[i + 1] == Step(states[i], actions[i], cfg).0
  }

  lemma {:induction false} RunsStayGood(actions: seq<Action>, states: seq<State>, cfg: Config, k: nat)
    requires IsRun(actions, states, cfg) && k <= |actions|
    ensures Good(states[k])
  {
    if k > 0 {
      RunsStayGood(actions, states, cfg, k - 1);
      StepKeepsGood(states[k - 1], actions[k - 1], cfg);
    }
  }

  lemma ExtendsTransitive(s: State, t: State, u: State)
    requires Extends(s, t) && Extends(t, u)
    ensures Extends(s, u)
  {
  }

  ghost predicate Growing(states: seq<State>) {
    forall i :: 0 <= i < |states| - 1 ==> Extends(states[i], states[i + 1])
  }

  lemma {:induction false} GrowingExtends(states: seq<State>, i: nat, j: nat)
    requires Growing(states) && i <= j < |states|
    ensures Extends(states[i], states[j])
    decreases j - i
  {
    if i < j {
      GrowingExtends(states, i, j - 1);
      assert Extends(states[j - 1], states[j - 1 + 1]);
      ExtendsTransitive(states[i], states[j - 1], states[j]);
    }
  }

  /** Over any run: no row is lost or altered, and `revoked_at` is written at most once. */
  lemma RunsExtend(actions: seq<Action>, states: seq<State>, cfg: Config, i: nat, j: nat)
    requires IsRun(actions, states, cfg) && i <= j <= |actions|
    ensures Extends(states[i], states[j])
  {
    forall k | 0 <= k < |states| - 1 ensures Extends(states[k], states[k + 1]) {
      StepExtends(states[k], actions[k], cfg);
    }
    GrowingExtends(states, i, j);
  }

  // ----- Redemption -----

  /** Step `i` redeems a refresh token whose session is `row`. */
  ghost predicate Redeems(actions: seq<Action>, states: seq<State>, cfg: Config, i: nat, row: nat)
    requires |states| == |actions| + 1 && i < |actions| && OneAccountPerEmail(states[i].users)
  {
    && actions[i].Refresh? && Find(states[i].sessions, cfg.hash(actions[i].presented)) == Some(row)
    && Step(states[i], actions[i], cfg).1.Issued?
  }

  /**
   * What an accepted refresh does: the presented session alone is revoked, and its user gets one
   * new session, recorded as its replacement.
   */
  lemma RefreshRotates(s: State, presented: string, token: string, at: Times, cfg: Config)
    requires Good(s) && DoRefresh(s, presented, token, at, cfg).1.Issued?
    ensures var (t, outcome) := DoRefresh(s, presented, token, at, cfg);
      var n := |s.sessions|;
      var row := Find(s.sessions, cfg.hash(presented)).value;
      && outcome == Issued(n) && t.users == s.users && |t.sessions| == n + 1 == |t.parents|
      && t.sessions[row].revokedAt == Some(at.revoke)
      && (forall i :: 0 <= i < n && i != row ==> t.sessions[i] == s.sessions[i])
      && t.sessions[n] == Session(s.sessions[row].userId, cfg.hash(token), at.issue + cfg.ttl, None)
      && t.parents == s.parents + [Some(row)] && Root(t.parents, n) == Root(s.parents, row)
  {
    var found := Find(s.sessions, cfg.hash(presented));
    RootStable(s.parents, found, found.value);
  }

  /** A refused refresh changes nothing, unless it reuses a revoked token. */
  lemma RefusedRefreshChangesNothing(s: State, a: Action, cfg: Config)
    requires OneAccountPerEmail(s.users) && a.Refresh? && !Step(s, a, cfg).1.Issued?
    ensures (exists row: nat :: Reuses(s, a, cfg, row)) || Step(s, a, cfg).0 == s
  {
    var found := Find(s.sessions, cfg.hash(a.presented));
    assert found.None? || Reuses(s, a, cfg, found.value) || Step(s, a, cfg).0 == s;
  }

  lemma RedeemedIsRevoked(s: State, presented: string, token: string, at: Times, cfg: Config, row: nat)
    requires Good(s) && Find(s.sessions, cfg.hash(presented)) == Some(row)
    requires DoRefresh(s, presented, token, at, cfg).1.Issued?
    ensures row < |s.sessions| && s.sessions[row].revokedAt.None? && at.check < s.sessions[row].expiresAt
    ensures DoRefresh(s, presented, token, at, cfg).0.sessions[row].revokedAt.Some?
    ensures DoRefresh(s, presented, token, at, cfg).0.parents == s.parents + [Some(row)]
  {
    FindNone(s.sessions, cfg.hash(presented));
  }

  /** Over any run, a token is redeemed at most once. */
  lemma RedeemedAtMostOnce(actions: seq<Action>, states: seq<State>, cfg: Config, i: nat, j: nat, rowI: nat, rowJ: nat)
    requires IsRun(actions, states, cfg) && i < j < |actions|
    requires Redeems(actions, states, cfg, i, rowI) && Redeems(actions, states, cfg, j, rowJ)
    ensures rowI != rowJ
    ensures cfg.hash(actions[i].presented) != cfg.hash(actions[j].presented)
    ensures actions[i].presented != actions[j].presented
  {
    RunsStayGood(actions, states, cfg, i);
    RunsStayGood(actions, states, cfg, j);
    RedeemedIsRevoked(states[i], actions[i].presented, actions[i].token, actions[i].at, cfg, rowI);
    RedeemedIsRevoked(states[j], actions[j].presented, actions[j].token, actions[j].at, cfg, rowJ);
    RunsExtend(actions, states, cfg, i + 1, j);
    RunsExtend(actions, states, cfg, i, j);
    FindUnique(states[j].sessions, rowI);
    FindNone(states[i].sessions, cfg.hash(actions[i].presented));
  }

  /** Step `k` issued the token whose session is `row`. */
  ghost predicate Issues(actions: seq<Action>, states: seq<State>, cfg: Config, k: nat, row: nat)
    requires |states| == |actions| + 1 && k < |actions| && OneAccountPerEmail(states[k].users)
  {
    Step(states[k], actions[k], cfg).1 == Issued(row)
  }

  lemma IssuedRow(s: State, a: Action, cfg: Config, row: nat)
    requires Good(s) && Step(s, a, cfg).1 == Issued(row)
    ensures a.Register? || a.Login? || a.Refresh?
    ensures var t := Step(s, a, cfg).0;
      && row == |s.sessions| && |t.sessions| == row + 1 == |t.parents|
      && t.sessions[row].tokenHash == cfg.hash(a.token)
      && t.sessions[row].expiresAt == a.at.issue + cfg.ttl
      && t.sessions[row].revokedAt.None?
      && (t.parents[row].None? <==> a.Register? || a.Login?)
  {
    FindNone(s.sessions, cfg.hash(if a.Refresh? then a.presented else ""));
  }

  /** Over any run, a token is redeemed only before it expires, counted from when it was issued. */
  lemma RedeemedBeforeExpiry(actions: seq<Action>, states: seq<State>, cfg: Config, k: nat, i: nat, row: nat)
    requires IsRun(actions, states, cfg) && k < i < |actions|
    requires Issues(actions, states, cfg, k, row) && Redeems(actions, states, cfg, i, row)
    ensures actions[k].Register? || actions[k].Login? || actions[k].Refresh?
    ensures actions[i].at.check < actions[k].at.issue + cfg.ttl
  {
    RunsStayGood(actions, states, cfg, k);
    RunsStayGood(actions, states, cfg, i);
    IssuedRow(states[k], actions[k], cfg, row);
    RunsExtend(actions, states, cfg, k + 1, i);
    RedeemedIsRevoked(states[i], actions[i].presented, actions[i].token, actions[i].at, cfg, row);
  }

  /** In every reachable state, at most the last session of a rotation chain is unrevoked. */
  lemma ChainsHaveOneActiveSession(actions: seq<Action>, states: seq<State>, cfg: Config, k: nat, i: nat, j: nat)
    requires IsRun(actions, states, cfg) && k <= |actions|
    requires i < j < |states[k].sessions|
    ensures GoodParents(states[k])
    ensures Root(states[k].parents, i) == Root(states[k].parents, j) ==> states[k].sessions[i].revokedAt.Some?
  {
    RunsStayGood(actions, states, cfg, k);
  }

  // ----- Acceptance -----

  /** A refresh is accepted exactly for an unrevoked, unexpired session of an active user. */
  lemma RefreshAcceptedIff(s: State, presented: string, token: string, at: Times, cfg: Config)
    requires Good(s)
    ensures DoRefresh(s, presented, token, at, cfg).1.Issued? <==>
      exists row: nat :: row < |s.sessions| && Redeemable(s, row, cfg.hash(presented), at.check)
  {
    FindNone(s.sessions, cfg.hash(presented));
    forall row: nat | row < |s.sessions| && Redeemable(s, row, cfg.hash(presented), at.check)
      ensures DoRefresh(s, presented, token, at, cfg).1.Issued?
    {
      FindUnique(s.sessions, row);
    }
    var found := Find(s.sessions, cfg.hash(presented));
    if DoRefresh(s, presented, token, at, cfg).1.Issued? {
      assert Redeemable(s, found.value, cfg.hash(presented), at.check);
    }
  }

  ghost predicate Redeemable(s: State, row: nat, tokenHash: string, now: int)
    requires row < |s.sessions|
  {
    var session := s.sessions[row];
    && session.tokenHash == tokenHash && session.revokedAt.None? && now < session.expiresAt
    && session.userId in s.users && s.users[session.userId].isActive
  }

  /** Registration is accepted exactly for a new address and creates an active account with it. */
  lemma RegisterAcceptedIff(s: State, a: Action, cfg: Config)
    requires Good(s) && Fresh(s, a, cfg) && a.Register?
    ensures var (t, outcome) := Step(s, a, cfg);
      && (outcome.Issued? <==> forall id :: id in s.users ==> s.users[id].email != a.email)
      && (outcome.Issued? ==>
            && UserByEmail(t.users, a.email) == Some(User(a.userId, a.email, a.passwordHash, true))
            && t.sessions[|s.sessions|].userId == a.userId)
      && (!outcome.Issued? ==> t == s && outcome == EmailTaken)
  {
    var (t, outcome) := Step(s, a, cfg);
    if outcome.Issued? {
      UsersStayGood(s, a, cfg);
      assert a.userId in t.users && t.users[a.userId].email == a.email;
      assert EmailKnown(t.users, a.email);
    }
  }

  /** Login is accepted exactly for an active account whose password verifies, and is for that account. */
  lemma LoginAcceptedIff(s: State, a: Action, cfg: Config)
    requires Good(s) && a.Login?
    ensures var (t, outcome) := Step(s, a, cfg);
      && (outcome.Issued? <==> exists id :: id in s.users && MayLogIn(s.users[id], a.email, a.password, cfg))
      && (outcome.Issued? ==>
            var id := t.sessions[|s.sessions|].userId;
            id in s.users && MayLogIn(s.users[id], a.email, a.password, cfg))
      && (!outcome.Issued? ==> t == s)
  {
    var user := UserByEmail(s.users, a.email);
    forall id | id in s.users && MayLogIn(s.users[id], a.email, a.password, cfg) ensures user == Some(s.users[id]) {
      assert EmailKnown(s.users, a.email);
      UniqueAccount(s.users, a.email);
    }
  }

  /** Why a login is refused: no such account or a wrong password; else a disabled account. */
  lemma LoginRefusals(s: State, a: Action, cfg: Config)
    requires Good(s) && a.Login? && !Step(s, a, cfg).1.Issued?
    ensures Step(s, a, cfg).1 ==
            if exists id :: id in s.users && s.users[id].email == a.email && cfg.verify(a.password, s.users[id].passwordHash)
            then AccountDisabled else BadCredentials
  {
    var user := UserByEmail(s.users, a.email);
    forall id | id in s.users && s.users[id].email == a.email ensures user == Some(s.users[id]) {
      assert EmailKnown(s.users, a.email);
      UniqueAccount(s.users, a.email);
    }
  }

  /** Why a refresh is refused: expired, if that is all that is wrong with it; else invalid. */
  lemma RefreshRefusals(s: State, presented: string, token: string, at: Times, cfg: Config)
    requires Good(s) && !DoRefresh(s, presented, token, at, cfg).1.Issued?
    ensures DoRefresh(s, presented, token, at, cfg).1 ==
            if exists row: nat :: row < |s.sessions| && Redeemable(s, row, cfg.hash(presented), s.sessions[row].expiresAt - 1)
            then TokenExpired else InvalidToken
  {
    var found := Find(s.sessions, cfg.hash(presented));
    FindNone(s.sessions, cfg.hash(presented));
    forall row: nat | row < |s.sessions| && s.sessions[row].tokenHash == cfg.hash(presented) ensures found == Some(row) {
      FindUnique(s.sessions, row);
    }
    if found.Some? && DoRefresh(s, presented, token, at, cfg).1 == TokenExpired {
      assert Redeemable(s, found.value, cfg.hash(presented), s.sessions[found.value].expiresAt - 1);
    }
  }

  ghost predicate MayLogIn(user: User, email: string, password: string, cfg: Config) {
    user.email == email && cfg.verify(password, user.passwordHash) && user.isActive
  }

  // ----- Reuse -----

  /** A revoked token of an active user is presented. */
  ghost predicate Reuses(s: State, a: Action, cfg: Config, row: nat) {
    && a.Refresh? && Find(s.sessions, cfg.hash(a.presented)) == Some(row)
    && s.sessions[row].revokedAt.Some?
    && s.sessions[row].userId in s.users && s.users[s.sessions[row].userId].isActive
  }

  /** Reuse is refused, revokes every session the user has, and touches no other user's. */
  lemma ReuseRevokesTheFamily(s: State, a: Action, cfg: Config, row: nat)
    requires OneAccountPerEmail(s.users) && Reuses(s, a, cfg, row)
    ensures var (t, outcome) := Step(s, a, cfg);
      && outcome == InvalidToken && |t.sessions| == |s.sessions| && t.users == s.users && t.parents == s.parents
      && forall i :: 0 <= i < |s.sessions| ==>
           if s.sessions[i].userId == s.sessions[row].userId then t.sessions[i].revokedAt.Some?
           else t.sessions[i] == s.sessions[i]
  {
  }

  /** After a reuse, no token issued to that user before it is ever redeemed again. */
  lemma NothingRedeemedAfterReuse(
      actions: seq<Action>, states: seq<State>, cfg: Config, k: nat, row: nat, i: nat, other: nat)
    requires IsRun(actions, states, cfg) && k < i < |actions|
    requires Reuses(states[k], actions[k], cfg, row)
    requires other < |states[k].sessions| && states[k].sessions[other].userId == states[k].sessions[row].userId
    ensures !Redeems(actions, states, cfg, i, other)
  {
    ReuseRevokesTheFamily(states[k], actions[k], cfg, row);
    RunsExtend(actions, states, cfg, k + 1, i);
    RunsStayGood(actions, states, cfg, i);
    if Redeems(actions, states, cfg, i, other) {
      RedeemedIsRevoked(states[i], actions[i].presented, actions[i].token, actions[i].at, cfg, other);
    }
  }

  // ----- What ends a token -----

  /**
   * What revokes session `row`: presenting its token to refresh it or to log out, logging its user
   * out everywhere, or presenting any revoked token of its user while the account is active.
   */
  ghost predicate Ends(s: State, a: Action, cfg: Config, row: nat)
    requires row < |s.sessions|
  {
    var userId := s.sessions[row].userId;
    match a
    case Refresh(presented, _, at) =>
      || Redeemable(s, row, cfg.hash(presented), at.check)
      || exists other: nat :: Reuses(s, a, cfg, other) && s.sessions[other].userId == userId
    case Logout(presented, _) => s.sessions[row].tokenHash == cfg.hash(presented)
    case LogoutAll(user, _) => user == userId
    case _ => false
  }

  /** One step revokes a session exactly when it ends its token. */
  lemma RevokedIffEnded(s: State, a: Action, cfg: Config, row: nat)
    requires Good(s) && row < |s.sessions| && s.sessions[row].revokedAt.None?
    ensures row < |Step(s, a, cfg).0.sessions|
    ensures Step(s, a, cfg).0.sessions[row].revokedAt.Some? <==> Ends(s, a, cfg, row)
  {
    FindUnique(s.sessions, row);
    var t := Step(s, a, cfg).0;
    if a.Refresh? {
      var found := Find(s.sessions, cfg.hash(a.presented));
      if found.Some? && s.sessions[found.value].revokedAt.Some? {
        assert Reuses(s, a, cfg, found.value) || t == s;
      }
    }
  }

  /** No step from `k` on and before `i` ended the token of session `row`. */
  ghost predicate NeverEnded(actions: seq<Action>, states: seq<State>, cfg: Config, k: nat, i: nat, row: nat)
    requires |states| == |actions| + 1 && i <= |actions|
    requires forall m :: k <= m < i ==> row < |states[m].sessions|
  {
    forall m :: k <= m < i ==> !Ends(states[m], actions[m], cfg, row)
  }

  /** From `s` to `t` the action revokes session `row` exactly when it ends its token. */
  ghost predicate RevokesExactly(s: State, t: State, a: Action, cfg: Config, row: nat) {
    && row < |s.sessions| && row < |t.sessions|
    && (t.sessions[row].revokedAt.None? <==> s.sessions[row].revokedAt.None? && !Ends(s, a, cfg, row))
  }

  lemma NextStep(actions: seq<Action>, states: seq<State>, cfg: Config, i: nat, row: nat)
    requires IsRun(actions, states, cfg) && i < |actions| && row < |states[i].sessions|
    ensures RevokesExactly(states[i], states[i + 1], actions[i], cfg, row)
  {
    RunsStayGood(actions, states, cfg, i);
    RunsExtend(actions, states, cfg, i, i + 1);
    if states[i].sessions[row].revokedAt.None? {
      RevokedIffEnded(states[i], actions[i], cfg, row);
    }
  }

  lemma {:induction false} UnrevokedThrough(
      actions: seq<Action>, states: seq<State>, cfg: Config, k: nat, i: nat, row: nat)
    requires |states| == |actions| + 1 && k <= i <= |actions|
    requires forall m :: k <= m <= i ==> row < |states[m].sessions|
    requires forall m :: k <= m < i ==> RevokesExactly(states[m], states[m + 1], actions[m], cfg, row)
    requires states[k].sessions[row].revokedAt.None?
    ensures states[i].sessions[row].revokedAt.None? <==> NeverEnded(actions, states, cfg, k, i, row)
  {
    if k < i {
      UnrevokedThrough(actions, states, cfg, k, i - 1, row);
      assert RevokesExactly(states[i - 1], states[i - 1 + 1], actions[i - 1], cfg, row);
    }
  }

  /** Over any run an unrevoked session stays unrevoked exactly until a step ends its token. */
  lemma UnrevokedIffNeverEnded(
      actions: seq<Action>, states: seq<State>, cfg: Config, k: nat, i: nat, row: nat)
    requires IsRun(actions, states, cfg) && k <= i <= |actions|
    requires row < |states[k].sessions| && states[k].sessions[row].revokedAt.None?
    ensures forall m :: k <= m <= i ==> row < |states[m].sessions|
    ensures states[i].sessions[row].revokedAt.None? <==> NeverEnded(actions, states, cfg, k, i, row)
  {
    forall m | k <= m <= i ensures row < |states[m].sessions| {
      RunsExtend(actions, states, cfg, k, m);
    }
    forall m | k <= m < i ensures RevokesExactly(states[m], states[m + 1], actions[m], cfg, row) {
      NextStep(actions, states, cfg, m, row);
    }
    UnrevokedThrough(actions, states, cfg, k, i, row);
  }

  /**
   * When a token is accepted, over any run: exactly when its user's account is active, its lifetime
   * has not passed, and no step since its issue ended it.
   */
  lemma AcceptedIffNeverEnded(
      actions: seq<Action>, states: seq<State>, cfg: Config, k: nat, i: nat, row: nat)
    requires IsRun(actions, states, cfg) && k < i < |actions|
    requires Issues(actions, states, cfg, k, row)
    requires actions[i].Refresh? && actions[i].presented == actions[k].token
    ensures forall m :: k + 1 <= m <= i ==> row < |states[m].sessions|
    ensures Redeems(actions, states, cfg, i, row) <==>
      var userId := states[i].sessions[row].userId;
      && userId in states[i].users && states[i].users[userId].isActive
      && actions[i].at.check < actions[k].at.issue + cfg.ttl
      && NeverEnded(actions, states, cfg, k + 1, i, row)
  {
    RunsStayGood(actions, states, cfg, k);
    RunsStayGood(actions, states, cfg, i);
    IssuedRow(states[k], actions[k], cfg, row);
    UnrevokedIffNeverEnded(actions, states, cfg, k + 1, i, row);
    RunsExtend(actions, states, cfg, k + 1, i);
    FindUnique(states[i].sessions, row);
  }

  // ----- Counts -----

  function ActiveRows(sessions: seq<Session>, userId: string): set<nat> {
    set i: nat | i < |sessions| && sessions[i].userId == userId && sessions[i].revokedAt.None?
  }

  /** The count is the number of the user's unrevoked rows. */
  lemma {:induction false} ActiveIsCount(sessions: seq<Session>, userId: string)
    ensures Active(sessions, userId) == |ActiveRows(sessions, userId)|
  {
    if sessions != [] {
      var n := |sessions| - 1;
      var last := sessions[n];
      ActiveIsCount(sessions[..n], userId);
      assert ActiveRows(sessions, userId) ==
             ActiveRows(sessions[..n], userId) + (if last.userId == userId && last.revokedAt.None? then {n} else {});
    }
  }

  lemma ActiveAppend(sessions: seq<Session>, last: Session, userId: string)
    ensures Active(sessions + [last], userId) ==
            Active(sessions, userId) + (if last.userId == userId && last.revokedAt.None? then 1 else 0)
  {
    assert (sessions + [last])[..|sessions|] == sessions;
  }

  lemma {:induction false} ActiveRevokeRow(sessions: seq<Session>, row: nat, at: int, userId: string)
    requires row < |sessions| && sessions[row].revokedAt.None?
    ensures Active(sessions, userId) ==
            Active(RevokeRow(sessions, row, at), userId) + (if sessions[row].userId == userId then 1 else 0)
  {
    var n := |sessions| - 1;
    var revoked := RevokeRow(sessions, row, at);
    if row == n {
      assert revoked[..n] == sessions[..n];
    } else {
      ActiveRevokeRow(sessions[..n], row, at, userId);
      assert revoked[..n] == RevokeRow(sessions[..n], row, at);
    }
  }

  lemma {:induction false} ActiveRevokeUser(sessions: seq<Session>, revokedUser: string, at: int, userId: string)
    ensures Active(RevokeUser(sessions, revokedUser, at), userId) ==
            if userId == revokedUser then 0 else Active(sessions, userId)
  {
    if sessions != [] {
      var n := |sessions| - 1;
      ActiveRevokeUser(sessions[..n], revokedUser, at, userId);
      assert RevokeUser(sessions, revokedUser, at)[..n] == RevokeUser(sessions[..n], revokedUser, at);
    }
  }

  /** Register and login add one unrevoked session for the user they are for, and for no one else. */
  lemma IssuingAddsOne(s: State, a: Action, cfg: Config, userId: string)
    requires Good(s) && (a.Register? || a.Login?)
    ensures var (t, outcome) := Step(s, a, cfg);
      && (outcome.Issued? ==> |t.sessions| == |s.sessions| + 1)
      && Active(t.sessions, userId) ==
         Active(s.sessions, userId) + (if outcome.Issued? && t.sessions[|s.sessions|].userId == userId then 1 else 0)
  {
    var (t, outcome) := Step(s, a, cfg);
    if outcome.Issued? {
      ActiveAppend(s.sessions, t.sessions[|s.sessions|], userId);
    }
  }

  /** Logout removes the presented session if it was unrevoked, and no other. */
  lemma LogoutRemovesAtMostOne(s: State, presented: string, at: Times, cfg: Config, userId: string)
    requires Good(s)
    ensures var found := Find(s.sessions, cfg.hash(presented));
      Active(DoLogout(s, presented, at, cfg).0.sessions, userId) ==
      Active(s.sessions, userId)
      - (if found.Some? && s.sessions[found.value].userId == userId
            && s.sessions[found.value].revokedAt.None? then 1 else 0)
  {
    var found := Find(s.sessions, cfg.hash(presented));
    if found.Some? && s.sessions[found.value].revokedAt.None? {
      ActiveRevokeRow(s.sessions, found.value, at.revoke, userId);
    }
  }

  /** Logout-all leaves the user none, reports how many there were, and changes no one else's number. */
  lemma LogoutAllLeavesNone(s: State, userId: string, at: Times, other: string)
    ensures var (t, outcome) := DoLogoutAll(s, userId, at);
      && Active(t.sessions, userId) == 0 && outcome == RevokedSessions(Active(s.sessions, userId))
      && (other != userId ==> Active(t.sessions, other) == Active(s.sessions, other))
  {
    ActiveRevokeUser(s.sessions, userId, at.revoke, userId);
    ActiveRevokeUser(s.sessions, userId, at.revoke, other);
  }

  /** A refresh, accepted or not, keeps every user's number, except that reuse leaves the user none. */
  lemma RefreshKeepsTheCount(s: State, presented: string, token: string, at: Times, cfg: Config, userId: string)
    requires Good(s)
    ensures var found := Find(s.sessions, cfg.hash(presented));
      var after := Active(DoRefresh(s, presented, token, at, cfg).0.sessions, userId);
      after == if found.Some? && s.sessions[found.value].userId == userId
                  && userId in s.users && s.users[userId].isActive && s.sessions[found.value].revokedAt.Some?
               then 0 else Active(s.sessions, userId)
  {
    var found := Find(s.sessions, cfg.hash(presented));
    if found.Some? {
      var row := found.value;
      var session := s.sessions[row];
      ActiveRevokeUser(s.sessions, session.userId, at.revoke, userId);
      if session.revokedAt.None? {
        ActiveRevokeRow(s.sessions, row, at.revoke, userId);
        ActiveAppend(RevokeRow(s.sessions, row, at.revoke),
                     Session(session.userId, cfg.hash(token), at.issue + cfg.ttl, None), userId);
      }
    }
  }
}
