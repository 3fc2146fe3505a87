/**
 The authentication service updating its tables in place.  Each method runs one whole request and is proved to
 do what its statements do as steps of the session machine, in order and with nothing in between.
 `issuedAccess` and `issuedRefresh` stand for the signatures this service has made.
 */
module AuthService {
  import opened Common
  import Registrations
  import opened Sessions
  import SessionEffects

  /** The account a sign-in for this phone is about: phones are unique, so there is at most one. */
  ghost predicate IsAccountOf(s: State, uid: nat, phone: string) {
    CanSignIn(s, uid) && s.users[uid].phone == phone
  }

  class Service {
    var users: map<nat, User>
    var rows: map<nat, Row>
    var pending: map<string, Pending>
    var issuedAccess: set<Claims>
    var issuedRefresh: set<RefreshToken>
    var drawnIds: set<nat>
    var pendingIds: nat
    var now: int

    ghost function At(): State
      reads this
    {
      State(users, rows, pending, issuedAccess, issuedRefresh, drawnIds, pendingIds, map[], now)
    }

    constructor ()
      ensures At() == INIT
    {
      users, rows, pending := map[], map[], map[];
      issuedAccess, issuedRefresh, drawnIds := {}, {}, {};
      pendingIds, now := 0, 0;
    }

    // ----- The refresh-id table -----

    method SaveRefreshTokenJti(jti: nat, userId: nat, ttlSeconds: nat)
      modifies this`rows
      ensures rows == old(rows)[jti := Row(userId, now + ttlSeconds, false)]
    {
      rows := rows[jti := Row(userId, now + ttlSeconds, false)];
    }

    /** Returns the owner exactly when the id was unrevoked and unexpired, and takes its row. */
    method ConsumeRefreshTokenJti(jti: nat) returns (owner: Option<nat>)
      modifies this`rows
      ensures owner.Some? <==> old(LiveRow(At(), jti))
      ensures owner.Some? ==> owner.value == old(rows)[jti].user && rows == old(rows) - {jti}
      ensures owner.None? ==> rows == old(rows)
    {
      if jti in rows && !rows[jti].revoked && rows[jti].expiresAt > now {
        owner := Some(rows[jti].user);
        rows := rows - {jti};
      } else {
        owner := None;
      }
    }

    method RevokeRefreshTokenJti(jti: nat)
      modifies this`rows
      ensures rows == if jti in old(rows) then old(rows)[jti := old(rows)[jti].(revoked := true)] else old(rows)
    {
      if jti in rows {
        rows := rows[jti := rows[jti].(revoked := true)];
      }
    }

    method GenerateTokens(userId: nat, isAdmin: bool, tokenVersion: nat, jti: nat, ttl: nat)
      returns (token: RefreshToken)
      modifies this
      ensures At() == Issue(old(At()), Claims(userId, isAdmin, tokenVersion), jti, ttl)
      ensures token == RefreshToken(Claims(userId, isAdmin, tokenVersion), jti)
    {
      var claims := Claims(userId, isAdmin, tokenVersion);
      token := RefreshToken(claims, jti);
      issuedAccess := issuedAccess + {claims};
      issuedRefresh := issuedRefresh + {token};
      drawnIds := drawnIds + {jti};
      SaveRefreshTokenJti(jti, userId, ttl);
    }

    // ----- Requests -----

    /** Consume, read, issue: one refresh, which succeeds at most while its id is live and its version current. */
    method Refresh(token: RefreshToken, jti: nat, ttl: nat) returns (tokens: Option<RefreshToken>)
      requires jti !in drawnIds
      modifies this
      ensures At() == RefreshAlone(old(At()), 0, token, jti, ttl)
      ensures tokens.Some? <==>
                && old(token in issuedRefresh && LiveRow(At(), token.jti) && rows[token.jti].user == token.claims.sub)
                && old(CanSignIn(At(), token.claims.sub) && users[token.claims.sub].version == token.claims.version)
      ensures tokens.Some? ==> tokens.value == RefreshToken(old(CurrentClaims(At(), token.claims.sub)), jti)
      ensures tokens.Some? ==>
                && old(token.jti in rows && !rows[token.jti].revoked && now < rows[token.jti].expiresAt)
                && token.jti !in rows - {jti} && jti in rows && rows[jti] == Row(token.claims.sub, now + ttl, false)
                && old(users)[token.claims.sub].status == Active && !old(users)[token.claims.sub].deleted
    {
      ghost var s := At();
      if token !in issuedRefresh { return None; }
      var storedUserId := ConsumeRefreshTokenJti(token.jti);
      if storedUserId.None? || storedUserId.value != token.claims.sub { return None; }
      assert s.flights[0 := InConsumed(token)] - {0} == s.flights;
      var sub := token.claims.sub;
      if sub !in users || users[sub].deleted || users[sub].status != Active
        || users[sub].version != token.claims.version {
        assert At() == ReadForRefresh(Consume(s, 0, token), 0);
        return None;
      }
      ghost var read := ReadForRefresh(Consume(s, 0, token), 0);
      assert read.flights == map[0 := InRefresh(CurrentClaims(s, sub), token.jti)];
      assert Finish(read, 0) == At();
      var issued := GenerateTokens(sub, users[sub].isAdmin, users[sub].version, jti, ttl);
      tokens := Some(issued);
    }

    method Logout(token: RefreshToken)
      modifies this
      ensures At() == Next(old(At()), Sessions.Logout(token))
    {
      if token in issuedRefresh {
        RevokeRefreshTokenJti(token.jti);
      }
    }

    /** The two steps of a login, for the one account of the phone: it succeeds exactly when that account is active and
        the password matches. */
    method Login(phone: string, password: string, matches: (string, string) -> bool, jti: nat, ttl: nat)
      returns (tokens: Option<RefreshToken>)
      requires jti !in drawnIds
      modifies this
      ensures tokens.None? ==> At() == old(At())
      ensures tokens.Some? ==> exists uid ::
                && IsAccountOf(old(At()), uid, phone) && matches(password, old(users)[uid].hash)
                && At() == Issue(old(At()), old(CurrentClaims(At(), uid)), jti, ttl)
                && old(users)[uid].status == Active && !old(users)[uid].deleted
                && tokens.value == RefreshToken(Claims(uid, old(users)[uid].isAdmin, old(users)[uid].version), jti)
                && SessionEffects.Issued(old(At()), At(), tokens.value.claims, jti, ttl)
      ensures Registrations.UniquePhones(old(At())) ==>
                (tokens.Some? <==> exists uid ::
                   IsAccountOf(old(At()), uid, phone) && matches(password, old(users)[uid].hash))
    {
      if !(exists uid :: uid in users && users[uid].phone == phone && !users[uid].deleted) { return None; }
      var uid :| uid in users && users[uid].phone == phone && !users[uid].deleted;
      if users[uid].status != Active { return None; }
      if !matches(password, users[uid].hash) { return None; }
      assert IsAccountOf(At(), uid, phone);
      var issued := GenerateTokens(uid, users[uid].isAdmin, users[uid].version, jti, ttl);
      tokens := Some(issued);
    }

    /** The resetting transaction after the code was accepted: the new hash, and tokens for the claims just read.  It
        succeeds exactly when the phone has an active account. */
    method ResetPassword(phone: string, newHash: string, jti: nat, ttl: nat) returns (tokens: Option<RefreshToken>)
      requires jti !in drawnIds
      modifies this
      ensures tokens.None? ==> At() == old(At())
      ensures Registrations.UniquePhones(old(At())) ==>
                (tokens.Some? <==> exists uid :: IsAccountOf(old(At()), uid, phone))
      ensures tokens.Some? ==> exists uid ::
                && IsAccountOf(old(At()), uid, phone)
                && At() == Issue(old(At()).(users := old(users)[uid := old(users)[uid].(hash := newHash)]),
                                 old(CurrentClaims(At(), uid)), jti, ttl)
                && old(users)[uid].status == Active && !old(users)[uid].deleted && users[uid].hash == newHash
                && tokens.value == RefreshToken(Claims(uid, old(users)[uid].isAdmin, old(users)[uid].version), jti)
                && SessionEffects.Issued(old(At()), At(), tokens.value.claims, jti, ttl)
    {
      if !(exists uid :: uid in users && users[uid].phone == phone && !users[uid].deleted) { return None; }
      var uid :| uid in users && users[uid].phone == phone && !users[uid].deleted;
      if users[uid].status != Active { return None; }
      assert IsAccountOf(At(), uid, phone);
      users := users[uid := users[uid].(hash := newHash)];
      var issued := GenerateTokens(uid, users[uid].isAdmin, users[uid].version, jti, ttl);
      tokens := Some(issued);
    }

    /** Check the phone, store the pending row, and delete it again if the code cannot be sent. */
    method RequestRegistrationOtp(phone: string, name: string, hash: string, ttl: nat, sent: bool)
      returns (accepted: bool)
      modifies this
      ensures accepted <==> !old(PhoneTaken(At(), phone))
      ensures !accepted ==> pending == old(pending)
      ensures accepted && sent ==> phone in pending && pending[phone].name == name && pending[phone].hash == hash
                                   && pending[phone].expiresAt == now + ttl
      ensures accepted && !sent ==> phone !in pending
      ensures At() == FinishRegistration(StoreRegistration(CheckRegistration(old(At()), 0, phone, name, hash), 0, ttl),
                                         0, sent)
    {
      if exists u :: u in users && users[u].phone == phone { return false; }
      ghost var s := At();
      var id := if phone in pending then pending[phone].id else pendingIds;
      pending := pending[phone := Pending(id, name, hash, now + ttl)];
      pendingIds := pendingIds + 1;
      ghost var stored := StoreRegistration(CheckRegistration(s, 0, phone, name, hash), 0, ttl);
      assert stored.flights == map[0 := InStored(id)];
      assert Finish(stored, 0) == At();
      if !sent {
        pending := map p | p in pending && pending[p].id != id :: pending[p];
      }
      return true;
    }

    /** The verifying transaction after the code was accepted. */
    method VerifyRegistrationOtp(phone: string, uid: nat, jti: nat, ttl: nat) returns (tokens: Option<RefreshToken>)
      requires uid !in users && jti !in drawnIds
      modifies this
      ensures At() == CommitRegistration(Start(old(At()), 0, InVerified(phone)), 0, uid, jti, ttl)
      ensures tokens.Some? <==> old(phone in pending && pending[phone].expiresAt > now && !PhoneTaken(At(), phone))
      ensures tokens.Some? ==>
                && tokens.value == RefreshToken(Claims(uid, false, 0), jti)
                && uid in users && phone !in pending
                && users[uid].phone == phone && users[uid].name == old(pending)[phone].name
                && users[uid].hash == old(pending)[phone].hash && users[uid].status == Active
                && !users[uid].isAdmin && users[uid].version == 0 && !users[uid].deleted
                && SessionEffects.Issued(old(At()), At(), tokens.value.claims, jti, ttl)
      ensures tokens.None? ==> users == old(users) && pending == old(pending)
    {
      ghost var s := At();
      assert Finish(Start(s, 0, InVerified(phone)), 0) == s;
      if phone !in pending || pending[phone].expiresAt <= now { return None; }
      if exists u :: u in users && users[u].phone == phone { return None; }
      users := users[uid := User(phone, pending[phone].name, pending[phone].hash, Active, false, 0, false)];
      pending := pending - {phone};
      var issued := GenerateTokens(uid, false, 0, jti, ttl);
      tokens := Some(issued);
    }

    /** Succeeds exactly for a live account that is not an admin yet; the version moves with the role. */
    method PromoteAdmin(userId: nat) returns (promoted: bool)
      modifies this`users
      ensures promoted <==> old(LiveUser(At(), userId) && !users[userId].isAdmin)
      ensures At() == if promoted then SetRole(old(At()), 0, userId, true) else old(At())
    {
      if userId !in users || users[userId].deleted || users[userId].isAdmin { return false; }
      users := users[userId := users[userId].(isAdmin := true, version := users[userId].version + 1)];
      return true;
    }

    /** Succeeds exactly for a live admin other than the one who asks. */
    method DemoteAdmin(admin: nat, userId: nat) returns (demoted: bool)
      modifies this`users
      ensures demoted <==> admin != userId && old(LiveUser(At(), userId) && users[userId].isAdmin)
      ensures At() == if demoted then SetRole(old(At()), 0, userId, false) else old(At())
    {
      if admin == userId { return false; }
      if userId !in users || users[userId].deleted || !users[userId].isAdmin { return false; }
      users := users[userId := users[userId].(isAdmin := false, version := users[userId].version + 1)];
      return true;
    }

    method DeleteUser(uid: nat) returns (deleted: bool)
      modifies this`users
      ensures deleted <==> old(LiveUser(At(), uid))
      ensures At() == Next(old(At()), Sessions.DeleteUser(uid))
    {
      if uid !in users || users[uid].deleted { return false; }
      users := users[uid := users[uid].(deleted := true, version := users[uid].version + 1)];
      return true;
    }

    /** The guard of every authenticated request. */
    method Validate(payload: Claims) returns (user: Option<Claims>)
      ensures user.Some? <==>
                payload.sub in users && !users[payload.sub].deleted && users[payload.sub].version == payload.version
      ensures user.Some? <==> Accepts(At(), payload)
      ensures user.Some? ==> user.value == payload
    {
      if payload.sub !in users || users[payload.sub].deleted || users[payload.sub].version != payload.version {
        return None;
      }
      return Some(Claims(payload.sub, payload.isAdmin, users[payload.sub].version));
    }
  }
}
