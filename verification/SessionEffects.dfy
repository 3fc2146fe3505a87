/**
 What the steps of the session machine write, field by field, and what follows from one request for the next: signing
 in gives a refresh id that works until it expires, and a registration that was sent can be verified.
 */
module SessionEffects {
  import opened Common
  import opened Sessions
  import Registrations

  // ----- Accounts -----

  /** t is s but for one user. */
  ghost predicate OnlyUser(s: State, t: State, uid: nat) {
    && t.users.Keys == s.users.Keys
    && (forall other :: other in s.users && other != uid ==> t.users[other] == s.users[other])
    && t.rows == s.rows && t.pending == s.pending && t.access == s.access && t.refresh == s.refresh
  }

  function RoleSteps(r: nat, uid: nat, isAdmin: bool): seq<Action> {
    if isAdmin then [PromoteRead(r, uid), PromoteWrite(r)] else [DemoteRead(r, uid), DemoteWrite(r)]
  }

  lemma PromoteSteps(s: State, r: nat, uid: nat)
    requires r !in s.flights && uid in s.users && !s.users[uid].deleted && !s.users[uid].isAdmin
    ensures Run(s, [PromoteRead(r, uid), PromoteWrite(r)])
         == SetRole(s.(flights := s.flights[r := InPromote(uid)]), r, uid, true)
  {
    var started := s.(flights := s.flights[r := InPromote(uid)]);
    RunTwo(s, [PromoteRead(r, uid), PromoteWrite(r)]);
    assert Next(s, PromoteRead(r, uid)) == started;
  }

  lemma DemotionSteps(s: State, r: nat, uid: nat)
    requires r !in s.flights && uid in s.users && !s.users[uid].deleted && s.users[uid].isAdmin
    ensures Run(s, [DemoteRead(r, uid), DemoteWrite(r)])
         == SetRole(s.(flights := s.flights[r := InDemote(uid)]), r, uid, false)
  {
    RunTwo(s, [DemoteRead(r, uid), DemoteWrite(r)]);
    DemoteSteps(s, r, uid);
  }

  /** Promoting or demoting a live account of the other role writes that role and the next version, nothing else. */
  lemma RoleIsWritten(s: State, r: nat, uid: nat, isAdmin: bool)
    requires r !in s.flights && uid in s.users && !s.users[uid].deleted && s.users[uid].isAdmin != isAdmin
    ensures var t := Run(s, RoleSteps(r, uid, isAdmin));
            && OnlyUser(s, t, uid)
            && t.users[uid].isAdmin == isAdmin && t.users[uid].version == s.users[uid].version + 1
            && t.users[uid].phone == s.users[uid].phone && t.users[uid].hash == s.users[uid].hash
            && t.users[uid].status == s.users[uid].status && !t.users[uid].deleted
  {
    if isAdmin { PromoteSteps(s, r, uid); } else { DemotionSteps(s, r, uid); }
  }

  /** Deleting a live account marks it and raises its version, so no token signed before is accepted again. */
  lemma DeletionIsWritten(s: State, uid: nat, c: Claims)
    requires uid in s.users && !s.users[uid].deleted
    ensures var t := Next(s, DeleteUser(uid));
            && OnlyUser(s, t, uid) && t.users[uid].deleted && t.users[uid].version == s.users[uid].version + 1
            && t.users[uid].phone == s.users[uid].phone && (c.sub == uid ==> !Accepts(t, c))
  {
  }

  /** A new status or password is written to its one field of a live account. */
  lemma StatusIsWritten(s: State, uid: nat, status: Status)
    requires uid in s.users && !s.users[uid].deleted
    ensures var t := Next(s, SetStatus(uid, status));
            && OnlyUser(s, t, uid) && t.users[uid].status == status && t.users[uid].version == s.users[uid].version
            && t.users[uid].isAdmin == s.users[uid].isAdmin && !t.users[uid].deleted
            && t.users[uid].hash == s.users[uid].hash
  {
  }

  lemma PasswordIsWritten(s: State, uid: nat, hash: string)
    requires uid in s.users && !s.users[uid].deleted
    ensures var t := Next(s, ChangePassword(uid, hash));
            && OnlyUser(s, t, uid) && t.users[uid].hash == hash && t.users[uid].status == s.users[uid].status
            && t.users[uid].version == s.users[uid].version && t.users[uid].isAdmin == s.users[uid].isAdmin
            && !t.users[uid].deleted
  {
  }

  /** Seeding makes the account of the phone an active admin with this password, a new one if there is none. */
  lemma SeedIsWritten(s: State, uid: nat, phone: string, name: string, hash: string)
    requires Registrations.UniquePhones(s)
    requires if PhoneTaken(s, phone) then uid in s.users && s.users[uid].phone == phone else uid !in s.users
    ensures var t := Next(s, Seed(uid, phone, name, hash));
            && t.users.Keys == s.users.Keys + {uid}
            && t.users[uid].phone == phone && t.users[uid].hash == hash
            && t.users[uid].status == Active && t.users[uid].isAdmin
            && (uid in s.users ==> t.users[uid].version == s.users[uid].version
                                   && t.users[uid].deleted == s.users[uid].deleted)
            && (uid !in s.users ==> t.users[uid].name == name && t.users[uid].version == 0 && !t.users[uid].deleted)
            && (forall other :: other in s.users && other != uid ==> t.users[other] == s.users[other])
  {
  }

  // ----- Signing in -----

  /** A pair of tokens with these claims has been issued, and the refresh id lives for `ttl`. */
  ghost predicate Issued(s: State, t: State, claims: Claims, jti: nat, ttl: nat) {
    && claims in t.access && RefreshToken(claims, jti) in t.refresh
    && jti in t.rows && t.rows[jti].user == claims.sub && t.rows[jti].expiresAt == s.now + ttl && !t.rows[jti].revoked
    && (forall other :: other in s.rows && other != jti ==> other in t.rows && t.rows[other] == s.rows[other])
    && t.now == s.now && t.flights == s.flights
  }

  /** An active account signs in with its current claims, which are accepted at once. */
  lemma LoginIssues(s: State, r: nat, uid: nat, jti: nat, ttl: nat)
    requires r !in s.flights && jti !in s.jtis && uid in s.users
    requires !s.users[uid].deleted && s.users[uid].status == Active
    ensures var t := Run(s, [LoginRead(r, uid), LoginIssue(r, jti, ttl)]);
            var claims := Claims(uid, s.users[uid].isAdmin, s.users[uid].version);
            Issued(s, t, claims, jti, ttl) && t.users == s.users && Accepts(t, claims)
  {
    RunTwo(s, [LoginRead(r, uid), LoginIssue(r, jti, ttl)]);
    var f := InLogin(CurrentClaims(s, uid));
    FlightRemoved(s.flights, r, f);
    assert Next(s, LoginRead(r, uid)) == s.(flights := s.flights[r := f]);
  }

  /** A reset does the same and stores the new password. */
  lemma ResetIssues(s: State, r: nat, uid: nat, newHash: string, jti: nat, ttl: nat)
    requires r !in s.flights && jti !in s.jtis && uid in s.users
    requires !s.users[uid].deleted && s.users[uid].status == Active
    ensures var t := Run(s, [ResetRead(r, uid, newHash), ResetCommit(r, jti, ttl)]);
            var claims := Claims(uid, s.users[uid].isAdmin, s.users[uid].version);
            && Issued(s, t, claims, jti, ttl)
            && t.users == s.users[uid := s.users[uid].(hash := newHash)] && Accepts(t, claims)
  {
    RunTwo(s, [ResetRead(r, uid, newHash), ResetCommit(r, jti, ttl)]);
    var f := InReset(CurrentClaims(s, uid), newHash);
    FlightRemoved(s.flights, r, f);
    assert Next(s, ResetRead(r, uid, newHash)) == s.(flights := s.flights[r := f]);
  }

  /** No other account can start to sign in or to reset its password. */
  lemma InactiveCannotSignIn(s: State, r: nat, uid: nat, newHash: string)
    requires uid !in s.users || s.users[uid].deleted || s.users[uid].status == Paused || s.users[uid].status == Banned
    ensures Next(s, LoginRead(r, uid)) == s && Next(s, ResetRead(r, uid, newHash)) == s
  {
  }

  /** A refresh token works exactly until its row expires: run alone after some time, its refresh issues new tokens with
      the current claims, or none. */
  lemma RefreshWorksUntilExpiry(s: State, r: nat, token: RefreshToken, jti: nat, ttl: nat)
    requires r !in s.flights && jti !in s.jtis && token in s.refresh && token.jti in s.rows && IdsDrawn(s)
    requires s.rows[token.jti].user == token.claims.sub && !s.rows[token.jti].revoked
    requires var uid := token.claims.sub;
             && uid in s.users && !s.users[uid].deleted && s.users[uid].status == Active
             && s.users[uid].version == token.claims.version
    ensures var t := RefreshAlone(s, r, token, jti, ttl);
            var uid := token.claims.sub;
            if s.now < s.rows[token.jti].expiresAt then
              && Claims(uid, s.users[uid].isAdmin, s.users[uid].version) in t.access
              && RefreshToken(Claims(uid, s.users[uid].isAdmin, s.users[uid].version), jti) in t.refresh
              && token.jti !in t.rows && jti in t.rows && t.rows[jti] == Row(uid, s.now + ttl, false)
            else t == s
  {
    if s.now < s.rows[token.jti].expiresAt {
      var consumed := Consume(s, r, token);
      assert consumed.flights[r] == InConsumed(token);
      assert ReadForRefresh(consumed, r).flights[r] == InRefresh(CurrentClaims(s, token.claims.sub), token.jti);
    }
  }

  /** So the token of a login refreshes exactly while less than its `ttl` has passed. */
  lemma LoginThenRefresh(s: State, r: nat, uid: nat, jti: nat, ttl: nat, elapsed: nat, q: nat, newJti: nat, newTtl: nat)
    requires r !in s.flights && q !in s.flights && jti !in s.jtis && newJti !in s.jtis && newJti != jti && IdsDrawn(s)
    requires uid in s.users && !s.users[uid].deleted && s.users[uid].status == Active
    ensures var claims := Claims(uid, s.users[uid].isAdmin, s.users[uid].version);
            var later := Next(Run(s, [LoginRead(r, uid), LoginIssue(r, jti, ttl)]), Tick(elapsed));
            var t := RefreshAlone(later, q, RefreshToken(claims, jti), newJti, newTtl);
            newJti in t.rows <==> elapsed < ttl
  {
    var actions := [LoginRead(r, uid), LoginIssue(r, jti, ttl)];
    var t := Run(s, actions);
    var later := Next(t, Tick(elapsed));
    var claims := Claims(uid, s.users[uid].isAdmin, s.users[uid].version);
    LoginIssues(s, r, uid, jti, ttl);
    RunTwo(s, actions);
    LoginDraws(s, r, uid, jti, ttl);
    IdsStep(s, actions[0]);
    IdsStep(Next(s, actions[0]), actions[1]);
    IdsStep(t, Tick(elapsed));
    RefreshWorksUntilExpiry(later, q, RefreshToken(claims, jti), newJti, newTtl);
  }

  lemma LoginDraws(s: State, r: nat, uid: nat, jti: nat, ttl: nat)
    requires r !in s.flights && jti !in s.jtis && uid in s.users && CanSignIn(s, uid)
    ensures Next(Next(s, LoginRead(r, uid)), LoginIssue(r, jti, ttl)).jtis == s.jtis + {jti}
  {
    assert Next(s, LoginRead(r, uid)) == s.(flights := s.flights[r := InLogin(CurrentClaims(s, uid))]);
  }

  // ----- Registering -----

  /** Pending rows have ids of their own, all of them drawn. */
  ghost predicate PendingIdsOk(s: State) {
    && (forall p :: p in s.pending ==> s.pending[p].id < s.pendingIds)
    && (forall p, q :: p in s.pending && q in s.pending && p != q ==> s.pending[p].id != s.pending[q].id)
  }

  lemma OtherStepsKeepPendingRows(s: State, a: Action)
    requires !a.RegisterStore?
    ensures var t := Next(s, a);
            && t.pendingIds == s.pendingIds
            && forall p :: p in t.pending ==> p in s.pending && t.pending[p] == s.pending[p]
  {
  }

  lemma {:induction false} PendingIdsStay(s: State, actions: seq<Action>)
    requires PendingIdsOk(s)
    ensures PendingIdsOk(Run(s, actions))
    decreases |actions|
  {
    if actions != [] {
      if !actions[0].RegisterStore? {
        OtherStepsKeepPendingRows(s, actions[0]);
      }
      PendingIdsStay(Next(s, actions[0]), actions[1..]);
    }
  }

  /** A registration for a free phone that was sent leaves a pending row for it, with this name and password and the
      full time to live, whatever was there before; one that could not be sent leaves none.  Other phones keep their
      rows. */
  lemma RegistrationIsStored(s: State, r: nat, phone: string, name: string, hash: string, ttl: nat, sent: bool)
    requires r !in s.flights && !PhoneTaken(s, phone) && PendingIdsOk(s)
    ensures var t := Registrations.Whole(s, Registrations.Register(r, phone, name, hash, ttl, sent));
            && t.users == s.users && t.now == s.now && t.flights == s.flights && t.jtis == s.jtis
            && (sent ==> phone in t.pending && t.pending[phone].name == name && t.pending[phone].hash == hash
                         && t.pending[phone].expiresAt == s.now + ttl)
            && (!sent ==> phone !in t.pending)
            && (forall p :: p != phone ==> (p in t.pending <==> p in s.pending))
            && (forall p :: p != phone && p in s.pending ==> t.pending[p] == s.pending[p])
  {
    var checked := CheckRegistration(s, r, phone, name, hash);
    assert checked.flights == s.flights[r := InRegistration(phone, name, hash)];
    var stored := StoreRegistration(checked, r, ttl);
    var id := stored.pending[phone].id;
    assert stored.flights == s.flights[r := InStored(id)];
    FlightRemoved(s.flights, r, InStored(id));
  }

  /** A registration that was sent can be verified until it expires, and then the user exists with this name and
      password: active, no admin, at version 0, and signed in. */
  lemma RegisterThenVerify(s: State, r: nat, phone: string, name: string, hash: string, ttl: nat, elapsed: nat,
                           q: nat, uid: nat, jti: nat, tokenTtl: nat)
    requires r !in s.flights && q !in s.flights && !PhoneTaken(s, phone) && PendingIdsOk(s)
    requires uid !in s.users && jti !in s.jtis
    ensures var registered := Registrations.Whole(s, Registrations.Register(r, phone, name, hash, ttl, true));
            var t := Registrations.Whole(Next(registered, Tick(elapsed)),
                                         Registrations.Verify(q, phone, uid, jti, tokenTtl));
            if elapsed < ttl then
              && uid in t.users && t.users[uid] == User(phone, name, hash, Active, false, 0, false)
              && phone !in t.pending && Accepts(t, Claims(uid, false, 0))
              && RefreshToken(Claims(uid, false, 0), jti) in t.refresh && LiveUntil(t, jti, tokenTtl)
            else t.users == s.users
  {
    RegistrationIsStored(s, r, phone, name, hash, ttl, true);
    var registered := Registrations.Whole(s, Registrations.Register(r, phone, name, hash, ttl, true));
    var later := Next(registered, Tick(elapsed));
    assert forall p :: PhoneTaken(later, p) <==> PhoneTaken(s, p);
    VerifyIsDone(later, q, phone, uid, jti, tokenTtl);
  }

  /** A request that stores over an older row takes over its id; so when the older request then fails to send its code,
      the row that it deletes is the newer one. */
  lemma FailedSendDeletesReplacement(s: State, r: nat, q: nat, ttl: nat)
    requires r in s.flights && s.flights[r].InRegistration? && s.flights[r].phone in s.pending
    requires q in s.flights && q != r && s.flights[q] == InStored(s.pending[s.flights[r].phone].id)
    ensures var phone := s.flights[r].phone;
            var stored := Next(s, RegisterStore(r, ttl));
            && stored.pending[phone].id == s.pending[phone].id && stored.pending[phone].name == s.flights[r].name
            && phone !in Next(stored, RegisterDone(q, false)).pending
  {
    var stored := StoreRegistration(s, r, ttl);
    assert stored.flights[q] == s.flights[q];
  }

  predicate LiveUntil(t: State, jti: nat, ttl: nat) {
    jti in t.rows && !t.rows[jti].revoked && t.rows[jti].expiresAt == t.now + ttl
  }

  lemma VerifyIsDone(s: State, q: nat, phone: string, uid: nat, jti: nat, ttl: nat)
    requires q !in s.flights && uid !in s.users && jti !in s.jtis && phone in s.pending && !PhoneTaken(s, phone)
    ensures var t := Registrations.Whole(s, Registrations.Verify(q, phone, uid, jti, ttl));
            if s.now < s.pending[phone].expiresAt then
              && uid in t.users
              && t.users[uid] == User(phone, s.pending[phone].name, s.pending[phone].hash, Active, false, 0, false)
              && phone !in t.pending && Accepts(t, Claims(uid, false, 0))
              && RefreshToken(Claims(uid, false, 0), jti) in t.refresh && LiveUntil(t, jti, ttl)
            else t.users == s.users
  {
    var started := Start(s, q, InVerified(phone));
    assert started.flights[q] == InVerified(phone);
    assert PhoneTaken(started, phone) <==> PhoneTaken(s, phone);
  }

  /** The purge removes exactly the rows that expired before the given time. */
  lemma PurgeRemovesOld(s: State, before: int, phone: string)
    ensures var t := Next(s, Purge(before));
            && (phone in t.pending <==> phone in s.pending && before <= s.pending[phone].expiresAt)
            && (phone in t.pending ==> t.pending[phone] == s.pending[phone])
            && t.users == s.users
  {
  }
}
