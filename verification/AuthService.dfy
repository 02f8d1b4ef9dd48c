/** The session repository and the authentication service, proved against the session state machine. */
module AuthService {
  import opened Wrappers
  import opened Sessions

  lemma {:induction false} FindInPrefix(rows: seq<Session>, k: nat, tokenHash: string)
    requires k <= |rows| && Find(rows[..k], tokenHash).Some?
    ensures Find(rows, tokenHash) == Find(rows[..k], tokenHash)
  {
    var n := |rows| - 1;
    if k <= n {
      assert rows[..n][..k] == rows[..k];
      FindInPrefix(rows[..n], k, tokenHash);
    } else {
      assert rows[..k] == rows;
    }
  }

  class SessionRepository {
    var rows: seq<Session>

    constructor ()
      ensures rows == []
    {
      rows := [];
    }

    method GetByRefreshTokenHash(tokenHash: string) returns (row: Option<nat>)
      ensures row == Find(rows, tokenHash)
      ensures row.Some? ==> row.value < |rows|
    {
      for i := 0 to |rows|
        invariant Find(rows[..i], tokenHash) == None
      {
        assert rows[..i + 1][..i] == rows[..i];
        if rows[i].tokenHash == tokenHash {
          FindInPrefix(rows, i + 1, tokenHash);
          return Some(i);
        }
      }
      assert rows[..|rows|] == rows;
      row := None;
    }

    method Add(session: Session)
      modifies this
      ensures rows == old(rows) + [session]
    {
      rows := rows + [session];
    }

    method Revoke(row: nat, at: int)
      requires row < |rows|
      modifies this
      ensures rows == RevokeRow(old(rows), row, at)
    {
      rows := rows[row := rows[row].(revokedAt := Some(at))];
    }

    /** Revokes every unrevoked session of the user and counts them. */
    method RevokeAllForUser(userId: string, at: int) returns (count: nat)
      modifies this
      ensures rows == RevokeUser(old(rows), userId, at)
      ensures count == Active(old(rows), userId)
    {
      count := 0;
      ghost var before := rows;
      for i := 0 to |rows|
        invariant |rows| == |before| && count == Active(before[..i], userId)
        invariant forall j :: 0 <= j < i ==> rows[j] == RevokeUser(before, userId, at)[j]
        invariant forall j :: i <= j < |rows| ==> rows[j] == before[j]
      {
        assert before[..i + 1][..i] == before[..i];
        if rows[i].userId == userId && rows[i].revokedAt.None? {
          rows := rows[i := rows[i].(revokedAt := Some(at))];
          count := count + 1;
        }
      }
      assert before[..|before|] == before;
      assert rows == RevokeUser(before, userId, at);
    }
  }

  class AuthService {
    const cfg: Config
    const repo: SessionRepository
    var users: map<string, User>
    ghost var parents: seq<Option<nat>>

    ghost function StateOf(): State
      reads this, repo
    {
      State(users, repo.rows, parents)
    }

    constructor (cfg: Config)
      ensures this.cfg == cfg && fresh(repo) && StateOf() == START
    {
      this.cfg := cfg;
      repo := new SessionRepository();
      users, parents := map[], [];
    }

    /** Stores a new session for the user; `token` is the freshly generated refresh token. */
    method IssueTokenPair(userId: string, token: string, issuedAt: int, ghost parent: Option<nat>)
      modifies this`parents, repo
      ensures StateOf() == Issue(old(StateOf()), userId, token, parent, issuedAt, cfg)
    {
      repo.Add(Session(userId, cfg.hash(token), issuedAt + cfg.ttl, None));
      parents := parents + [parent];
    }

    method GetByEmail(email: string) returns (user: Option<User>)
      requires OneAccountPerEmail(users)
      ensures user == UserByEmail(users, email)
    {
      var rest := users.Keys;
      while rest != {}
        invariant rest <= users.Keys
        invariant forall id :: id in users && users[id].email == email ==> id in rest
        decreases rest
      {
        var id :| id in rest;
        if users[id].email == email {
          assert EmailKnown(users, email);
          return Some(users[id]);
        }
        rest := rest - {id};
      }
      user := None;
    }

    method RegisterUser(email: string, userId: string, passwordHash: string, token: string, at: Times) returns (r: Outcome)
      requires OneAccountPerEmail(users)
      modifies this, repo
      ensures (StateOf(), r) == Step(old(StateOf()), Register(email, userId, passwordHash, token, at), cfg)
    {
      var existing := GetByEmail(email);
      if existing.Some? {
        return EmailTaken;
      }
      r := Issued(|repo.rows|);
      users := users[userId := User(userId, email, passwordHash, true)];
      IssueTokenPair(userId, token, at.issue, None);
    }

    method LoginUser(email: string, password: string, token: string, at: Times) returns (r: Outcome)
      requires OneAccountPerEmail(users)
      modifies this, repo
      ensures (StateOf(), r) == Step(old(StateOf()), Login(email, password, token, at), cfg)
    {
      var user := GetByEmail(email);
      if user.None? || !cfg.verify(password, user.value.passwordHash) {
        return BadCredentials;
      }
      if !user.value.isActive {
        return AccountDisabled;
      }
      r := Issued(|repo.rows|);
      IssueTokenPair(user.value.id, token, at.issue, None);
    }

    /** Rotates a token; a revoked one revokes every session of its user before it is refused. */
    method RefreshToken(presented: string, token: string, at: Times) returns (r: Outcome)
      requires OneAccountPerEmail(users)
      modifies this, repo
      ensures (StateOf(), r) == Step(old(StateOf()), Refresh(presented, token, at), cfg)
    {
      var tokenHash := cfg.hash(presented);
      var found := repo.GetByRefreshTokenHash(tokenHash);
      if found.None? {
        return InvalidToken;
      }
      var row := found.value;
      var session := repo.rows[row];
      if session.userId !in users || !users[session.userId].isActive {
        return InvalidToken;
      }
      if session.revokedAt.Some? {
        var count := repo.RevokeAllForUser(session.userId, at.revoke);
        return InvalidToken;
      }
      if session.expiresAt <= at.check {
        return TokenExpired;
      }
      r := Issued(|repo.rows|);
      repo.Revoke(row, at.revoke);
      IssueTokenPair(session.userId, token, at.issue, Some(row));
    }

    method LogoutSession(presented: string, at: Times) returns (r: Outcome)
      requires OneAccountPerEmail(users)
      modifies this, repo
      ensures (StateOf(), r) == Step(old(StateOf()), Logout(presented, at), cfg)
    {
      var tokenHash := cfg.hash(presented);
      var found := repo.GetByRefreshTokenHash(tokenHash);
      if found.Some? && repo.rows[found.value].revokedAt.None? {
        repo.Revoke(found.value, at.revoke);
      }
      r := Done;
    }

    method LogoutEverywhere(userId: string, at: Times) returns (r: Outcome)
      requires OneAccountPerEmail(users)
      modifies this, repo
      ensures (StateOf(), r) == Step(old(StateOf()), LogoutAll(userId, at), cfg)
    {
      var count := repo.RevokeAllForUser(userId, at.revoke);
      r := RevokedSessions(count);
    }
  }
}
