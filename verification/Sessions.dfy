/**
 Accounts, token versions, refresh ids and pending registrations as one state machine.  Every SQL
 statement (or locked transaction) is one step, and requests interleave between their statements.
 An action whose guard fails changes nothing, so the runs are all sequences of actions.
 A token verifies when this service issued it; its expiry could only make fewer tokens acceptable.
 */
module Sessions {
  import opened Common

  datatype Status = Active | Paused | Banned

  datatype User = User(phone: string, name: string, hash: string, status: Status, isAdmin: bool, version: nat,
                       deleted: bool)

  /** The payload both tokens carry. */
  datatype Claims = Claims(sub: nat, isAdmin: bool, version: nat)

  datatype RefreshToken = RefreshToken(claims: Claims, jti: nat)

  /** A row of auth_refresh_tokens. */
  datatype Row = Row(user: nat, expiresAt: int, revoked: bool)

  datatype Pending = Pending(id: nat, name: string, hash: string, expiresAt: int)

  /** What a request remembers between two of its statements. */
  datatype Flight =
    | InLogin(claims: Claims)
    | InReset(claims: Claims, newHash: string)
    | InConsumed(token: RefreshToken)
    | InRefresh(claims: Claims, usedJti: nat)
    | InRegistration(phone: string, name: string, hash: string)
    | InStored(pendingId: nat)
    | InVerified(phone: string)
    | InPromote(uid: nat)
    | InDemote(uid: nat)

  datatype State = State(
    users: map<nat, User>, rows: map<nat, Row>, pending: map<string, Pending>,
    access: set<Claims>, refresh: set<RefreshToken>,
    jtis: set<nat>, pendingIds: nat, flights: map<nat, Flight>, now: int)

  datatype Action =
    | Tick(elapsed: nat)
    | LoginRead(r: nat, uid: nat)
    | LoginIssue(r: nat, jti: nat, ttl: nat)
    | ResetRead(r: nat, uid: nat, newHash: string)
    | ResetCommit(r: nat, jti: nat, ttl: nat)
    | RefreshConsume(r: nat, token: RefreshToken)
    | RefreshRead(r: nat)
    | RefreshIssue(r: nat, jti: nat, ttl: nat)
    | Logout(token: RefreshToken)
    | RegisterCheck(r: nat, phone: string, name: string, hash: string)
    | RegisterStore(r: nat, ttl: nat)
    | RegisterDone(r: nat, sent: bool)
    | VerifyOtp(r: nat, phone: string)
    | VerifyCommit(r: nat, uid: nat, jti: nat, ttl: nat)
    | PromoteRead(r: nat, uid: nat)
    | PromoteWrite(r: nat)
    | DemoteRead(r: nat, uid: nat)
    | DemoteWrite(r: nat)
    | DeleteUser(uid: nat)
    | SetStatus(uid: nat, status: Status)
    | ChangePassword(uid: nat, hash: string)
    | Purge(before: int)
    | Seed(uid: nat, phone: string, name: string, hash: string)

  const INIT: State := State(map[], map[], map[], {}, {}, {}, 0, map[], 0)

  // ----- Statements -----

  predicate LiveUser(s: State, uid: nat) {
    uid in s.users && !s.users[uid].deleted
  }

  predicate CanSignIn(s: State, uid: nat) {
    LiveUser(s, uid) && s.users[uid].status == Active
  }

  function CurrentClaims(s: State, uid: nat): Claims
    requires uid in s.users
  {
    Claims(uid, s.users[uid].isAdmin, s.users[uid].version)
  }

  predicate LiveRow(s: State, jti: nat) {
    jti in s.rows && !s.rows[jti].revoked && s.rows[jti].expiresAt > s.now
  }

  predicate PhoneTaken(s: State, phone: string) {
    exists uid :: uid in s.users && s.users[uid].phone == phone
  }

  function Start(s: State, r: nat, f: Flight): State {
    if r in s.flights then s else s.(flights := s.flights[r := f])
  }

  function Finish(s: State, r: nat): State {
    s.(flights := s.flights - {r})
  }

  /** Signs both tokens and stores the refresh id, which the upsert inserts because it is fresh. */
  function Issue(s: State, claims: Claims, jti: nat, ttl: nat): State {
    s.(access := s.access + {claims}, refresh := s.refresh + {RefreshToken(claims, jti)},
       jtis := s.jtis + {jti}, rows := s.rows[jti := Row(claims.sub, s.now + ttl, false)])
  }

  /** DELETE ... RETURNING user_id, then the check against the token's subject. */
  function Consume(s: State, r: nat, token: RefreshToken): State {
    if token !in s.refresh || r in s.flights || !LiveRow(s, token.jti) then s
    else
      var owner := s.rows[token.jti].user;
      var deleted := s.(rows := s.rows - {token.jti});
      if owner == token.claims.sub then Start(deleted, r, InConsumed(token)) else deleted
  }

  function ReadForRefresh(s: State, r: nat): State {
    if r in s.flights && s.flights[r].InConsumed? then
      var claims := s.flights[r].token.claims;
      if CanSignIn(s, claims.sub) && s.users[claims.sub].version == claims.version
      then s.(flights := s.flights[r := InRefresh(CurrentClaims(s, claims.sub), s.flights[r].token.jti)])
      else Finish(s, r)
    else s
  }

  function CheckRegistration(s: State, r: nat, phone: string, name: string, hash: string): State {
    if PhoneTaken(s, phone) then s else Start(s, r, InRegistration(phone, name, hash))
  }

  /** The upsert keeps the id of a row it replaces. */
  function StoreRegistration(s: State, r: nat, ttl: nat): State {
    if r in s.flights && s.flights[r].InRegistration? then
      var f := s.flights[r];
      var id := if f.phone in s.pending then s.pending[f.phone].id else s.pendingIds;
      s.(pending := s.pending[f.phone := Pending(id, f.name, f.hash, s.now + ttl)], pendingIds := s.pendingIds + 1,
         flights := s.flights[r := InStored(id)])
    else s
  }

  /** When the code cannot be sent the request deletes its pending row again. */
  function FinishRegistration(s: State, r: nat, sent: bool): State {
    if r in s.flights && s.flights[r].InStored? then
      var done := Finish(s, r);
      if sent then done
      else
        done.(pending := map phone | phone in s.pending && s.pending[phone].id != s.flights[r].pendingId ::
                         s.pending[phone])
    else s
  }

  /** The verifying transaction: SELECT FOR UPDATE, INSERT, DELETE, tokens; or a rollback. */
  function CommitRegistration(s: State, r: nat, uid: nat, jti: nat, ttl: nat): State {
    if r in s.flights && s.flights[r].InVerified? && uid !in s.users && jti !in s.jtis then
      var phone := s.flights[r].phone;
      var done := Finish(s, r);
      if phone !in s.pending || s.pending[phone].expiresAt <= s.now || PhoneTaken(s, phone) then done
      else
        var row := s.pending[phone];
        Issue(done.(users := s.users[uid := User(phone, row.name, row.hash, Active, false, 0, false)],
                    pending := s.pending - {phone}),
              Claims(uid, false, 0), jti, ttl)
    else s
  }

  function SetRole(s: State, r: nat, uid: nat, isAdmin: bool): State {
    var done := Finish(s, r);
    if LiveUser(s, uid)
    then done.(users := s.users[uid := s.users[uid].(isAdmin := isAdmin, version := s.users[uid].version + 1)])
    else done
  }

  function SeedAdmin(s: State, uid: nat, phone: string, name: string, hash: string): State {
    if uid in s.users && s.users[uid].phone == phone
    then s.(users := s.users[uid := s.users[uid].(hash := hash, status := Active, isAdmin := true)])
    else if uid !in s.users && !PhoneTaken(s, phone)
    then s.(users := s.users[uid := User(phone, name, hash, Active, true, 0, false)])
    else s
  }

  function Next(s: State, a: Action): State {
    match a
    case Tick(elapsed) => s.(now := s.now + elapsed)
    case LoginRead(r, uid) => if CanSignIn(s, uid) then Start(s, r, InLogin(CurrentClaims(s, uid))) else s
    case LoginIssue(r, jti, ttl) =>
      if r in s.flights && s.flights[r].InLogin? && jti !in s.jtis
      then Issue(Finish(s, r), s.flights[r].claims, jti, ttl)
      else s
    case ResetRead(r, uid, newHash) =>
      if CanSignIn(s, uid) then Start(s, r, InReset(CurrentClaims(s, uid), newHash)) else s
    case ResetCommit(r, jti, ttl) =>
      if r in s.flights && s.flights[r].InReset? && jti !in s.jtis && s.flights[r].claims.sub in s.users then
        var uid := s.flights[r].claims.sub;
        Issue(Finish(s, r).(users := s.users[uid := s.users[uid].(hash := s.flights[r].newHash)]), s.flights[r].claims,
              jti, ttl)
      else s
    case RefreshConsume(r, token) => Consume(s, r, token)
    case RefreshRead(r) => ReadForRefresh(s, r)
    case RefreshIssue(r, jti, ttl) =>
      if r in s.flights && s.flights[r].InRefresh? && jti !in s.jtis
      then Issue(Finish(s, r), s.flights[r].claims, jti, ttl)
      else s
    case Logout(token) =>
      if token in s.refresh && token.jti in s.rows
      then s.(rows := s.rows[token.jti := s.rows[token.jti].(revoked := true)])
      else s
    case RegisterCheck(r, phone, name, hash) => CheckRegistration(s, r, phone, name, hash)
    case RegisterStore(r, ttl) => StoreRegistration(s, r, ttl)
    case RegisterDone(r, sent) => FinishRegistration(s, r, sent)
    case VerifyOtp(r, phone) => Start(s, r, InVerified(phone))
    case VerifyCommit(r, uid, jti, ttl) => CommitRegistration(s, r, uid, jti, ttl)
    case PromoteRead(r, uid) => if LiveUser(s, uid) && !s.users[uid].isAdmin then Start(s, r, InPromote(uid)) else s
    case PromoteWrite(r) =>
      if r in s.flights && s.flights[r].InPromote? then SetRole(s, r, s.flights[r].uid, true) else s
    case DemoteRead(r, uid) => if LiveUser(s, uid) && s.users[uid].isAdmin then Start(s, r, InDemote(uid)) else s
    case DemoteWrite(r) =>
      if r in s.flights && s.flights[r].InDemote? then SetRole(s, r, s.flights[r].uid, false) else s
    case DeleteUser(uid) =>
      if LiveUser(s, uid)
      then s.(users := s.users[uid := s.users[uid].(deleted := true, version := s.users[uid].version + 1)]) else s
    case SetStatus(uid, status) =>
      if LiveUser(s, uid) then s.(users := s.users[uid := s.users[uid].(status := status)]) else s
    case ChangePassword(uid, hash) =>
      if LiveUser(s, uid) then s.(users := s.users[uid := s.users[uid].(hash := hash)]) else s
    case Purge(before) =>
      s.(pending := map phone | phone in s.pending && s.pending[phone].expiresAt >= before :: s.pending[phone])
    case Seed(uid, phone, name, hash) => SeedAdmin(s, uid, phone, name, hash)
  }

  function Run(s: State, actions: seq<Action>): State
    decreases |actions|
  {
    if actions == [] then s else Run(Next(s, actions[0]), actions[1..])
  }

  // ----- What the tokens are worth -----

  /** JwtStrategy.validate on an issued access token: the user it stands for, with the claim it carries. */
  predicate Accepts(s: State, c: Claims) {
    LiveUser(s, c.sub) && s.users[c.sub].version == c.version
  }

  /** Every claim that is out there: in tokens, or in a request about to sign some. */
  ghost predicate Claimed(s: State, c: Claims) {
    || c in s.access
    || (exists t :: t in s.refresh && t.claims == c)
    || (exists r :: r in s.flights && FlightClaims(s.flights[r]) == Some(c))
  }

  function FlightClaims(f: Flight): Option<Claims> {
    match f
    case InLogin(c) => Some(c)
    case InReset(c, _) => Some(c)
    case InRefresh(c, _) => Some(c)
    case InConsumed(t) => Some(t.claims)
    case _ => None
  }

  /** Versions only grow, phones stay, and within a version a role never changes
      (the seeder alone may grant one). */
  ghost predicate Evolves(s: State, t: State, seeded: bool) {
    forall uid :: uid in s.users ==>
      && uid in t.users
      && t.users[uid].phone == s.users[uid].phone
      && t.users[uid].version >= s.users[uid].version
      && (s.users[uid].deleted ==> t.users[uid].deleted)
      && (t.users[uid].version == s.users[uid].version ==>
            && t.users[uid].deleted == s.users[uid].deleted
            && (if seeded then s.users[uid].isAdmin ==> t.users[uid].isAdmin
                else t.users[uid].isAdmin == s.users[uid].isAdmin))
  }

  predicate TouchesUsers(a: Action) {
    || a.ResetCommit? || a.VerifyCommit? || a.PromoteWrite? || a.DemoteWrite?
    || a.DeleteUser? || a.SetStatus? || a.ChangePassword? || a.Seed?
  }

  lemma OtherStepsKeepUsers(s: State, a: Action)
    requires !TouchesUsers(a)
    ensures Next(s, a).users == s.users
  {
  }

  lemma SameUsersEvolve(s: State, t: State, seeded: bool)
    requires t.users == s.users
    ensures Evolves(s, t, seeded)
  {
  }

  predicate UserEvolves(u: User, v: User, seeded: bool) {
    && v.phone == u.phone && v.version >= u.version && (u.deleted ==> v.deleted)
    && (v.version == u.version ==>
          v.deleted == u.deleted && (if seeded then u.isAdmin ==> v.isAdmin else v.isAdmin == u.isAdmin))
  }

  /** Every step changes or adds at most one user. */
  lemma OneUserEvolves(s: State, t: State, uid: nat, seeded: bool)
    requires t.users == s.users || (uid in t.users && t.users == s.users[uid := t.users[uid]])
    requires uid in s.users && uid in t.users ==> UserEvolves(s.users[uid], t.users[uid], seeded)
    ensures Evolves(s, t, seeded)
  {
  }

  lemma RoleEvolves(s: State, r: nat, uid: nat, isAdmin: bool)
    ensures Evolves(s, SetRole(s, r, uid, isAdmin), false)
  {
    OneUserEvolves(s, SetRole(s, r, uid, isAdmin), uid, false);
  }

  lemma CommitEvolves(s: State, r: nat, uid: nat, jti: nat, ttl: nat)
    ensures Evolves(s, CommitRegistration(s, r, uid, jti, ttl), false)
  {
    OneUserEvolves(s, CommitRegistration(s, r, uid, jti, ttl), uid, false);
  }

  lemma SeedEvolves(s: State, uid: nat, phone: string, name: string, hash: string)
    ensures Evolves(s, SeedAdmin(s, uid, phone, name, hash), true)
  {
    OneUserEvolves(s, SeedAdmin(s, uid, phone, name, hash), uid, true);
  }

  lemma RowStepsEvolve(s: State, a: Action)
    requires a.DeleteUser? || a.SetStatus? || a.ChangePassword?
    ensures Evolves(s, Next(s, a), false)
  {
    OneUserEvolves(s, Next(s, a), a.uid, false);
  }

  lemma ResetEvolves(s: State, a: Action)
    requires a.ResetCommit?
    ensures Evolves(s, Next(s, a), false)
  {
    if a.r in s.flights && s.flights[a.r].InReset? {
      OneUserEvolves(s, Next(s, a), s.flights[a.r].claims.sub, false);
    } else {
      SameUsersEvolve(s, Next(s, a), false);
    }
  }

  lemma RoleStepsEvolve(s: State, a: Action)
    requires a.PromoteWrite? || a.DemoteWrite?
    ensures Evolves(s, Next(s, a), false)
  {
    SameUsersEvolve(s, s, false);
    if a.r in s.flights && (s.flights[a.r].InPromote? || s.flights[a.r].InDemote?) {
      RoleEvolves(s, a.r, s.flights[a.r].uid, a.PromoteWrite?);
    }
  }

  lemma UserStepsEvolve(s: State, a: Action)
    requires TouchesUsers(a)
    ensures Evolves(s, Next(s, a), a.Seed?)
  {
    if a.ResetCommit? {
      ResetEvolves(s, a);
    } else if a.PromoteWrite? || a.DemoteWrite? {
      RoleStepsEvolve(s, a);
    } else if a.VerifyCommit? {
      CommitEvolves(s, a.r, a.uid, a.jti, a.ttl);
    } else if a.Seed? {
      SeedEvolves(s, a.uid, a.phone, a.name, a.hash);
    } else {
      RowStepsEvolve(s, a);
    }
  }

  lemma NextEvolves(s: State, a: Action)
    ensures Evolves(s, Next(s, a), a.Seed?)
  {
    if TouchesUsers(a) {
      UserStepsEvolve(s, a);
    } else {
      OtherStepsKeepUsers(s, a);
      SameUsersEvolve(s, Next(s, a), a.Seed?);
    }
  }

  /** The step signs a user in: login, password reset, or registration. */
  predicate SignsIn(a: Action) {
    a.LoginIssue? || a.ResetCommit? || a.VerifyCommit?
  }

  /** Only these steps put a request in flight that holds claims. */
  predicate ReadsClaims(a: Action) {
    a.LoginRead? || a.ResetRead? || a.RefreshConsume? || a.RefreshRead?
  }

  predicate IsRegistrationStep(a: Action) {
    a.RegisterCheck? || a.RegisterStore? || a.RegisterDone? || a.VerifyOtp? || a.Purge?
  }

  predicate IsAccountStep(a: Action) {
    || a.PromoteRead? || a.PromoteWrite? || a.DemoteRead? || a.DemoteWrite?
    || a.DeleteUser? || a.SetStatus? || a.ChangePassword? || a.Seed? || a.Tick?
  }

  ghost predicate SameTokens(s: State, t: State) {
    t.access == s.access && t.refresh == s.refresh && t.jtis == s.jtis
  }

  ghost predicate NoClaimsRead(s: State, t: State) {
    forall r :: r in t.flights && FlightClaims(t.flights[r]).Some? ==> r in s.flights && s.flights[r] == t.flights[r]
  }

  lemma AccountStepsKeepTokens(s: State, a: Action)
    requires IsAccountStep(a)
    ensures var t := Next(s, a); SameTokens(s, t) && NoClaimsRead(s, t) && t.rows == s.rows && s.now <= t.now
  {
  }

  lemma RegistrationStepsKeepTokens(s: State, a: Action)
    requires IsRegistrationStep(a)
    ensures var t := Next(s, a); SameTokens(s, t) && NoClaimsRead(s, t) && t.rows == s.rows && s.now <= t.now
  {
  }

  lemma OtherStepsIssueNothing(s: State, a: Action)
    requires !SignsIn(a) && !a.RefreshIssue?
    ensures var t := Next(s, a); SameTokens(s, t) && t.rows.Keys <= s.rows.Keys && s.now <= t.now
  {
    if IsAccountStep(a) {
      AccountStepsKeepTokens(s, a);
    } else if IsRegistrationStep(a) {
      RegistrationStepsKeepTokens(s, a);
    }
  }

  ghost predicate Fresh(s: State, t: State, c: Claims) {
    Claimed(s, c) || (c.sub in t.users && c == CurrentClaims(t, c.sub))
  }

  /** t has one more pair of tokens than s, with these claims and this refresh id. */
  ghost predicate IssuesOne(s: State, t: State, c: Claims, jti: nat) {
    && t.access == s.access + {c} && t.refresh == s.refresh + {RefreshToken(c, jti)}
    && t.jtis == s.jtis + {jti} && t.rows.Keys == s.rows.Keys + {jti} && t.now == s.now
  }

  lemma CommitIssuesOne(s: State, a: Action)
    requires a.VerifyCommit? && Next(s, a).jtis != s.jtis
    ensures IssuesOne(s, Next(s, a), Claims(a.uid, false, 0), a.jti) && Fresh(s, Next(s, a), Claims(a.uid, false, 0))
  {
  }

  lemma FlightIssuesOne(s: State, a: Action)
    requires a.LoginIssue? || a.ResetCommit? || a.RefreshIssue?
    requires Next(s, a) != s
    ensures a.r in s.flights && FlightClaims(s.flights[a.r]).Some?
    ensures var c := FlightClaims(s.flights[a.r]).value; IssuesOne(s, Next(s, a), c, a.jti) && Claimed(s, c)
  {
  }

  lemma CommitWithoutTokens(s: State, a: Action)
    requires a.VerifyCommit? && Next(s, a).jtis == s.jtis
    ensures var t := Next(s, a);
            t.access == s.access && t.refresh == s.refresh && t.rows == s.rows && t.now == s.now
  {
  }

  /** A step that changes the tokens issues one pair, with claims it already held or just read from the row. */
  lemma TokensStep(s: State, a: Action)
    ensures var t := Next(s, a);
            || (SameTokens(s, t) && t.rows.Keys <= s.rows.Keys && s.now <= t.now)
            || (exists c, jti :: IssuesOne(s, t, c, jti) && Fresh(s, t, c))
  {
    if !SignsIn(a) && !a.RefreshIssue? {
      OtherStepsIssueNothing(s, a);
    } else if a.VerifyCommit? {
      if Next(s, a).jtis != s.jtis { CommitIssuesOne(s, a); } else { CommitWithoutTokens(s, a); }
    } else if Next(s, a) != s {
      FlightIssuesOne(s, a);
    }
  }

  lemma OtherStepsReadNoClaims(s: State, a: Action)
    requires !ReadsClaims(a)
    ensures NoClaimsRead(s, Next(s, a))
  {
    if IsAccountStep(a) {
      AccountStepsKeepTokens(s, a);
    } else if IsRegistrationStep(a) {
      RegistrationStepsKeepTokens(s, a);
    }
  }

  lemma NewFlight(s: State, a: Action, r: nat, c: Claims)
    requires r in Next(s, a).flights && FlightClaims(Next(s, a).flights[r]) == Some(c)
    ensures Fresh(s, Next(s, a), c)
  {
    if !ReadsClaims(a) {
      OtherStepsReadNoClaims(s, a);
    }
  }

  /** A step signs only claims it already held or that it just read from the user's row. */
  lemma NewClaims(s: State, a: Action, c: Claims)
    requires Claimed(Next(s, a), c)
    ensures Claimed(s, c) || (c.sub in Next(s, a).users && c == CurrentClaims(Next(s, a), c.sub))
  {
    TokensStep(s, a);
    if r :| r in Next(s, a).flights && FlightClaims(Next(s, a).flights[r]) == Some(c) {
      NewFlight(s, a, r, c);
    }
  }

  /** No claim runs ahead of its user's row, and one that is level with it agrees on the role
      (with the seeder in the run: never claims more). */
  ghost predicate ClaimOk(s: State, c: Claims, exact: bool) {
    && c.sub in s.users && c.version <= s.users[c.sub].version
    && (c.version == s.users[c.sub].version ==>
          if exact then c.isAdmin == s.users[c.sub].isAdmin else c.isAdmin ==> s.users[c.sub].isAdmin)
  }

  ghost predicate ClaimsOk(s: State, exact: bool) {
    forall c :: Claimed(s, c) ==> ClaimOk(s, c, exact)
  }

  lemma StepKeepsClaims(s: State, a: Action, exact: bool)
    requires ClaimsOk(s, exact) && (exact ==> !a.Seed?)
    ensures ClaimsOk(Next(s, a), exact)
  {
    NextEvolves(s, a);
    forall c | Claimed(Next(s, a), c) ensures ClaimOk(Next(s, a), c, exact) {
      NewClaims(s, a, c);
    }
  }

  lemma {:induction false} RunKeepsClaims(s: State, actions: seq<Action>)
    requires ClaimsOk(s, false)
    ensures ClaimsOk(Run(s, actions), false)
    decreases |actions|
  {
    if actions != [] {
      StepKeepsClaims(s, actions[0], false);
      RunKeepsClaims(Next(s, actions[0]), actions[1..]);
    }
  }

  /** The seeder gives the role to an existing account while a claim of that account's current version is out. */
  ghost predicate SeedsOverClaim(s: State, a: Action) {
    && a.Seed? && a.uid in s.users && s.users[a.uid].phone == a.phone && !s.users[a.uid].isAdmin
    && exists c :: Claimed(s, c) && c.sub == a.uid && c.version == s.users[a.uid].version
  }

  lemma SeedKeepsClaimed(s: State, a: Action, c: Claims)
    requires a.Seed?
    ensures Claimed(Next(s, a), c) <==> Claimed(s, c)
  {
    var t := Next(s, a);
    assert t.access == s.access && t.refresh == s.refresh && t.flights == s.flights;
  }

  lemma SeedKeepsExact(s: State, a: Action)
    requires ClaimsOk(s, true) && a.Seed?
    ensures ClaimsOk(Next(s, a), true) <==> !SeedsOverClaim(s, a)
  {
    var t := Next(s, a);
    if SeedsOverClaim(s, a) {
      var c :| Claimed(s, c) && c.sub == a.uid && c.version == s.users[a.uid].version;
      SeedKeepsClaimed(s, a, c);
      assert ClaimOk(s, c, true) && !ClaimOk(t, c, true);
    } else {
      forall c | Claimed(t, c) ensures ClaimOk(t, c, true) {
        SeedKeepsClaimed(s, a, c);
        assert ClaimOk(s, c, true);
      }
    }
  }

  /** One step keeps every claim exact unless it seeds over a claim, and then it never does. */
  lemma ExactStep(s: State, a: Action)
    requires ClaimsOk(s, true)
    ensures ClaimsOk(Next(s, a), true) <==> !SeedsOverClaim(s, a)
  {
    if a.Seed? {
      SeedKeepsExact(s, a);
    } else {
      StepKeepsClaims(s, a, true);
    }
  }

  ghost predicate HarmlessSeeds(s: State, actions: seq<Action>)
    decreases |actions|
  {
    actions != [] ==> !SeedsOverClaim(s, actions[0]) && HarmlessSeeds(Next(s, actions[0]), actions[1..])
  }

  ghost predicate AlwaysExact(s: State, actions: seq<Action>)
    decreases |actions|
  {
    ClaimsOk(s, true) && (actions != [] ==> AlwaysExact(Next(s, actions[0]), actions[1..]))
  }

  /** All along a run every claim of a current version carries the current role, exactly when no step of the run seeds
      over a claim. */
  lemma {:induction false} ExactIffHarmlessSeeds(s: State, actions: seq<Action>)
    requires ClaimsOk(s, true)
    ensures AlwaysExact(s, actions) <==> HarmlessSeeds(s, actions)
    ensures HarmlessSeeds(s, actions) ==> ClaimsOk(Run(s, actions), true)
    decreases |actions|
  {
    if actions != [] {
      ExactStep(s, actions[0]);
      if ClaimsOk(Next(s, actions[0]), true) {
        ExactIffHarmlessSeeds(Next(s, actions[0]), actions[1..]);
      }
    }
  }

  /** In every interleaved run, seeder included, an accepted access token never overstates the role, and it carries the
      current role if no step seeded over a claim. */
  lemma AcceptedClaimIsCurrent(actions: seq<Action>, c: Claims)
    ensures var s := Run(INIT, actions);
            c in s.access && Accepts(s, c) ==>
              && (c.isAdmin ==> s.users[c.sub].isAdmin)
              && (HarmlessSeeds(INIT, actions) ==> c.isAdmin == s.users[c.sub].isAdmin)
  {
    var s := Run(INIT, actions);
    RunKeepsClaims(INIT, actions);
    ExactIffHarmlessSeeds(INIT, actions);
    assert c in s.access ==> Claimed(s, c);
  }

  lemma {:induction false} VersionsOnlyGrow(s: State, actions: seq<Action>, uid: nat)
    requires uid in s.users
    ensures uid in Run(s, actions).users && Run(s, actions).users[uid].version >= s.users[uid].version
    decreases |actions|
  {
    if actions != [] {
      NextEvolves(s, actions[0]);
      VersionsOnlyGrow(Next(s, actions[0]), actions[1..], uid);
    }
  }

  /** After any step but the seeder's that changes a user's role or deletes the user, nothing signed or about to
      be signed before it is ever accepted again: not as an access token, not for a refresh. */
  lemma RoleChangeEndsOldTokens(before: seq<Action>, a: Action, after: seq<Action>, c: Claims)
    requires !a.Seed? && Claimed(Run(INIT, before), c) && c.sub in Run(INIT, before).users
    requires var s, t := Run(INIT, before), Next(Run(INIT, before), a);
             && c.sub in t.users
             && (t.users[c.sub].isAdmin != s.users[c.sub].isAdmin || t.users[c.sub].deleted != s.users[c.sub].deleted)
    ensures var u := Run(Next(Run(INIT, before), a), after);
            && !Accepts(u, c)
            && forall r :: r in u.flights && u.flights[r].InConsumed? && u.flights[r].token.claims == c ==>
                 r !in ReadForRefresh(u, r).flights
  {
    var s := Run(INIT, before);
    RunKeepsClaims(INIT, before);
    NextEvolves(s, a);
    VersionsOnlyGrow(Next(s, a), after, c.sub);
  }

  // ----- Refresh ids -----

  ghost predicate IdsDrawn(s: State) {
    && (forall j :: j in s.rows ==> j in s.jtis)
    && (forall t :: t in s.refresh ==> t.jti in s.jtis)
  }

  /** A refresh id that was handed out and can no longer be redeemed. */
  ghost predicate Dead(s: State, jti: nat) {
    jti in s.jtis && !LiveRow(s, jti)
  }

  /** The step takes the row of this refresh id. */
  predicate Redeems(s: State, a: Action, jti: nat) {
    a.RefreshConsume? && a.token.jti == jti && a.token in s.refresh && a.r !in s.flights && LiveRow(s, jti)
  }

  /** The step hands out the tokens that this refresh id paid for. */
  predicate Succeeds(s: State, a: Action, jti: nat) {
    && a.RefreshIssue? && a.r in s.flights && s.flights[a.r].InRefresh?
    && s.flights[a.r].usedJti == jti && a.jti !in s.jtis
  }

  lemma IdsStep(s: State, a: Action)
    requires IdsDrawn(s)
    ensures IdsDrawn(Next(s, a)) && s.jtis <= Next(s, a).jtis && s.now <= Next(s, a).now
  {
    TokensStep(s, a);
  }

  lemma DeadStaysDead(s: State, a: Action, jti: nat)
    requires Dead(s, jti)
    ensures Dead(Next(s, a), jti) && !Redeems(s, a, jti)
  {
    if !a.RefreshConsume? && !a.RefreshIssue? {
      OtherStepsKeepRows(s, a);
    }
  }

  predicate HoldsId(f: Flight, jti: nat) {
    (f.InConsumed? && f.token.jti == jti) || (f.InRefresh? && f.usedJti == jti)
  }

  function Holders(s: State, jti: nat): set<nat> {
    set r | r in s.flights && HoldsId(s.flights[r], jti)
  }

  /** How many refreshes a refresh id can still pay for: one while it is unspent, and one per request holding it. */
  function Credit(s: State, jti: nat): nat {
    |Holders(s, jti)| + if jti !in s.jtis || LiveRow(s, jti) then 1 else 0
  }

  /** What every step outside the three refresh statements does to refresh ids: rows keep their user and expiry and
      are not un-revoked, new rows come from signing in under a fresh id, and no request starts refreshing. */
  ghost predicate RefreshQuiet(s: State, t: State, signsIn: bool) {
    RowsKept(s, t, signsIn) && NoRefreshStarted(s, t)
  }

  ghost predicate RowsKept(s: State, t: State, signsIn: bool) {
    && s.jtis <= t.jtis && s.now <= t.now
    && (forall j :: j in t.rows ==>
          || (signsIn && j !in s.jtis && j in t.jtis)
          || (j in s.rows && t.rows[j].user == s.rows[j].user && t.rows[j].expiresAt == s.rows[j].expiresAt
              && (s.rows[j].revoked ==> t.rows[j].revoked)))
  }

  ghost predicate NoRefreshStarted(s: State, t: State) {
    forall r :: r in t.flights && (t.flights[r].InConsumed? || t.flights[r].InRefresh?) ==>
      r in s.flights && s.flights[r] == t.flights[r]
  }

  lemma SignInAddsRow(s: State, a: Action)
    requires SignsIn(a)
    ensures RowsKept(s, Next(s, a), true)
  {
  }

  lemma OtherStepsKeepRows(s: State, a: Action)
    requires !a.RefreshConsume? && !a.RefreshIssue?
    ensures RowsKept(s, Next(s, a), SignsIn(a))
  {
    if SignsIn(a) {
      SignInAddsRow(s, a);
    } else if IsAccountStep(a) {
      AccountStepsKeepTokens(s, a);
    } else if IsRegistrationStep(a) {
      RegistrationStepsKeepTokens(s, a);
    }
  }

  lemma OtherStepsStartNoRefresh(s: State, a: Action)
    requires !a.RefreshConsume? && !a.RefreshRead?
    ensures NoRefreshStarted(s, Next(s, a))
  {
    if !ReadsClaims(a) {
      OtherStepsReadNoClaims(s, a);
    }
  }

  lemma OtherStepsAreQuiet(s: State, a: Action)
    requires !a.RefreshConsume? && !a.RefreshRead? && !a.RefreshIssue?
    ensures RefreshQuiet(s, Next(s, a), SignsIn(a))
  {
    OtherStepsKeepRows(s, a);
    OtherStepsStartNoRefresh(s, a);
  }

  lemma QuietCredit(s: State, t: State, signsIn: bool, jti: nat)
    requires RefreshQuiet(s, t, signsIn)
    ensures Credit(t, jti) <= Credit(s, jti)
  {
    assert Holders(t, jti) <= Holders(s, jti);
    SubsetSize(Holders(t, jti), Holders(s, jti));
  }

  lemma ConsumeCredit(s: State, r: nat, token: RefreshToken, jti: nat)
    requires IdsDrawn(s)
    ensures Credit(Consume(s, r, token), jti) <= Credit(s, jti)
  {
    var t := Consume(s, r, token);
    if t != s && token.jti == jti {
      assert Holders(t, jti) <= Holders(s, jti) + {r};
      SubsetSize(Holders(t, jti), Holders(s, jti) + {r});
    } else {
      assert Holders(t, jti) <= Holders(s, jti);
      SubsetSize(Holders(t, jti), Holders(s, jti));
    }
  }

  lemma ReadCredit(s: State, r: nat, jti: nat)
    ensures Credit(ReadForRefresh(s, r), jti) <= Credit(s, jti)
  {
    assert Holders(ReadForRefresh(s, r), jti) <= Holders(s, jti);
    SubsetSize(Holders(ReadForRefresh(s, r), jti), Holders(s, jti));
  }

  lemma IssueCredit(s: State, r: nat, newJti: nat, ttl: nat, jti: nat)
    requires r in s.flights && s.flights[r].InRefresh? && newJti !in s.jtis
    ensures var t := Issue(Finish(s, r), s.flights[r].claims, newJti, ttl);
            (if s.flights[r].usedJti == jti then 1 else 0) + Credit(t, jti) <= Credit(s, jti)
  {
    var t := Issue(Finish(s, r), s.flights[r].claims, newJti, ttl);
    assert Holders(t, jti) == Holders(s, jti) - {r};
  }

  /** A successful refresh spends one credit of its refresh id, and no step ever adds one. */
  lemma CreditStep(s: State, a: Action, jti: nat)
    requires IdsDrawn(s)
    ensures (if Succeeds(s, a, jti) then 1 else 0) + Credit(Next(s, a), jti) <= Credit(s, jti)
  {
    match a
    case RefreshConsume(r, token) => ConsumeCredit(s, r, token, jti);
    case RefreshRead(r) => ReadCredit(s, r, jti);
    case RefreshIssue(r, newJti, ttl) =>
      if r in s.flights && s.flights[r].InRefresh? && newJti !in s.jtis {
        IssueCredit(s, r, newJti, ttl, jti);
      }
    case _ =>
      OtherStepsAreQuiet(s, a);
      QuietCredit(s, Next(s, a), SignsIn(a), jti);
  }

  /** Successful refreshes a run pays for with one refresh id. */
  function Successes(s: State, actions: seq<Action>, jti: nat): nat
    decreases |actions|
  {
    if actions == [] then 0
    else (if Succeeds(s, actions[0], jti) then 1 else 0) + Successes(Next(s, actions[0]), actions[1..], jti)
  }

  lemma {:induction false} SuccessesWithinCredit(s: State, actions: seq<Action>, jti: nat)
    requires IdsDrawn(s)
    ensures Successes(s, actions, jti) <= Credit(s, jti)
    decreases |actions|
  {
    if actions != [] {
      CreditStep(s, actions[0], jti);
      IdsStep(s, actions[0]);
      SuccessesWithinCredit(Next(s, actions[0]), actions[1..], jti);
    }
  }

  lemma {:induction false} RunWithinCredit(s: State, actions: seq<Action>, jti: nat)
    requires IdsDrawn(s)
    ensures Credit(Run(s, actions), jti) <= Credit(s, jti)
    decreases |actions|
  {
    if actions != [] {
      CreditStep(s, actions[0], jti);
      IdsStep(s, actions[0]);
      RunWithinCredit(Next(s, actions[0]), actions[1..], jti);
    }
  }

  /** In every interleaving a refresh id yields at most one successful refresh. */
  lemma SingleUse(actions: seq<Action>, jti: nat)
    ensures Successes(INIT, actions, jti) <= 1
  {
    SuccessesWithinCredit(INIT, actions, jti);
    assert Holders(INIT, jti) == {};
  }

  /** How often a run takes the row of a refresh id. */
  function Redemptions(s: State, actions: seq<Action>, jti: nat): nat
    decreases |actions|
  {
    if actions == [] then 0
    else (if Redeems(s, actions[0], jti) then 1 else 0) + Redemptions(Next(s, actions[0]), actions[1..], jti)
  }

  lemma {:induction false} DeadIsNeverRedeemed(s: State, actions: seq<Action>, jti: nat)
    requires Dead(s, jti)
    ensures Redemptions(s, actions, jti) == 0
    decreases |actions|
  {
    if actions != [] {
      DeadStaysDead(s, actions[0], jti);
      DeadIsNeverRedeemed(Next(s, actions[0]), actions[1..], jti);
    }
  }

  lemma {:induction false} RunDrawsIds(s: State, actions: seq<Action>)
    requires IdsDrawn(s)
    ensures IdsDrawn(Run(s, actions))
    decreases |actions|
  {
    if actions != [] {
      IdsStep(s, actions[0]);
      RunDrawsIds(Next(s, actions[0]), actions[1..]);
    }
  }

  /** After its redemption, its revocation or its expiry a refresh id is never redeemed, whatever follows, and pays only
      for requests that hold it already: at most one. */
  lemma NeverAfterTheEnd(before: seq<Action>, a: Action, after: seq<Action>, token: RefreshToken)
    requires var s := Run(INIT, before);
             && token in s.refresh
             && (Redeems(s, a, token.jti) || a == Logout(token)
                 || (token.jti in s.rows && s.rows[token.jti].expiresAt <= s.now))
    ensures var ended := Next(Run(INIT, before), a);
            && Dead(ended, token.jti)
            && Redemptions(ended, after, token.jti) == 0
            && Successes(ended, after, token.jti) <= |Holders(ended, token.jti)| <= 1
  {
    var s := Run(INIT, before);
    RunDrawsIds(INIT, before);
    RunWithinCredit(INIT, before, token.jti);
    assert Holders(INIT, token.jti) == {};
    IdsStep(s, a);
    CreditStep(s, a, token.jti);
    if !LiveRow(s, token.jti) {
      DeadStaysDead(s, a, token.jti);
    }
    DeadIsNeverRedeemed(Next(s, a), after, token.jti);
    SuccessesWithinCredit(Next(s, a), after, token.jti);
  }

  /** This request took the row of the refresh id and will hand out tokens for it, or still can. */
  predicate CanFinish(s: State, r: nat, jti: nat) {
    && r in s.flights && HoldsId(s.flights[r], jti)
    && (s.flights[r].InConsumed? ==>
          && LiveUser(s, s.flights[r].token.claims.sub)
          && s.users[s.flights[r].token.claims.sub].version == s.flights[r].token.claims.version)
  }

  /** Nobody new comes to hold a dead id, and only a request that can finish proceeds from its first statement. */
  lemma HoldersOfDead(s: State, a: Action, jti: nat, r: nat)
    requires Dead(s, jti) && r in Next(s, a).flights && HoldsId(Next(s, a).flights[r], jti)
    ensures r in s.flights && (Next(s, a).flights[r] == s.flights[r] || CanFinish(s, r, jti))
  {
    if !a.RefreshConsume? && !a.RefreshRead? {
      OtherStepsStartNoRefresh(s, a);
    }
  }

  lemma CannotFinishStays(s: State, a: Action, jti: nat, r: nat)
    requires Dead(s, jti) && ClaimsOk(s, false) && CanFinish(Next(s, a), r, jti)
    ensures CanFinish(s, r, jti)
  {
    HoldersOfDead(s, a, jti, r);
    NextEvolves(s, a);
    if s.flights[r].InConsumed? {
      assert Claimed(s, s.flights[r].token.claims);
      assert ClaimOk(s, s.flights[r].token.claims, false);
    }
  }

  lemma {:induction false} NobodyFinishes(s: State, actions: seq<Action>, jti: nat)
    requires Dead(s, jti) && ClaimsOk(s, false) && forall r :: !CanFinish(s, r, jti)
    ensures Successes(s, actions, jti) == 0
    decreases |actions|
  {
    if actions != [] {
      var t := Next(s, actions[0]);
      if Succeeds(s, actions[0], jti) {
        assert CanFinish(s, actions[0].r, jti);
      }
      forall r ensures !CanFinish(t, r, jti) {
        if CanFinish(t, r, jti) { CannotFinishStays(s, actions[0], jti, r); }
      }
      DeadStaysDead(s, actions[0], jti);
      StepKeepsClaims(s, actions[0], false);
      NobodyFinishes(t, actions[1..], jti);
    }
  }

  lemma IssueSucceeds(s: State, r: nat, jti: nat) returns (after: seq<Action>)
    requires r in s.flights && s.flights[r].InRefresh? && s.flights[r].usedJti == jti
    ensures |after| == 1 && Successes(s, after, jti) == 1
  {
    var unused := UnusedId(s.jtis);
    after := [RefreshIssue(r, unused, 0)];
    assert after[1..] == [];
  }

  lemma FinisherSucceeds(s: State, r: nat, jti: nat) returns (after: seq<Action>)
    requires CanFinish(s, r, jti)
    ensures Successes(s, after, jti) >= 1
  {
    if s.flights[r].InRefresh? {
      after := IssueSucceeds(s, r, jti);
    } else {
      var uid := s.flights[r].token.claims.sub;
      var active := Next(s, SetStatus(uid, Active));
      var read := Next(active, RefreshRead(r));
      assert read.flights[r] == InRefresh(CurrentClaims(active, uid), jti);
      var last := IssueSucceeds(read, r, jti);
      after := [SetStatus(uid, Active), RefreshRead(r)] + last;
      assert after[1..] == [RefreshRead(r)] + last && after[1..][1..] == last;
      assert Successes(active, after[1..], jti) == 1;
    }
  }

  /** Once a refresh id is dead, some continuation still hands out tokens for it exactly when a request holds it that
      has read its user already, or whose user is not deleted and still at the token's version. */
  lemma SuccessAfterTheEnd(before: seq<Action>, jti: nat)
    requires Dead(Run(INIT, before), jti)
    ensures var s := Run(INIT, before);
            (exists after :: Successes(s, after, jti) >= 1) <==> exists r :: CanFinish(s, r, jti)
  {
    var s := Run(INIT, before);
    RunKeepsClaims(INIT, before);
    if r :| CanFinish(s, r, jti) {
      var after := FinisherSucceeds(s, r, jti);
    } else {
      forall after ensures Successes(s, after, jti) == 0 {
        NobodyFinishes(s, after, jti);
      }
    }
  }

  // ----- The number of live sessions -----

  function LiveRowsOf(s: State, uid: nat): set<nat> {
    set j | j in s.rows && LiveRow(s, j) && s.rows[j].user == uid
  }

  predicate RefreshesFor(f: Flight, uid: nat) {
    (f.InConsumed? && f.token.claims.sub == uid) || (f.InRefresh? && f.claims.sub == uid)
  }

  function RefreshersOf(s: State, uid: nat): set<nat> {
    set r | r in s.flights && RefreshesFor(s.flights[r], uid)
  }

  /** Live rows, and rows that a refresh in progress has taken and not yet put back. */
  function SessionsOf(s: State, uid: nat): nat {
    |LiveRowsOf(s, uid)| + |RefreshersOf(s, uid)|
  }

  lemma QuietSessions(s: State, t: State, uid: nat)
    requires RefreshQuiet(s, t, false)
    ensures SessionsOf(t, uid) <= SessionsOf(s, uid)
  {
    assert LiveRowsOf(t, uid) <= LiveRowsOf(s, uid);
    assert RefreshersOf(t, uid) <= RefreshersOf(s, uid);
    SubsetSize(LiveRowsOf(t, uid), LiveRowsOf(s, uid));
    SubsetSize(RefreshersOf(t, uid), RefreshersOf(s, uid));
  }

  lemma ConsumeTakesLiveRow(s: State, r: nat, token: RefreshToken, uid: nat)
    ensures var t := Consume(s, r, token);
            if t != s && s.rows[token.jti].user == uid then
              LiveRowsOf(t, uid) <= LiveRowsOf(s, uid) - {token.jti} && token.jti in LiveRowsOf(s, uid)
            else LiveRowsOf(t, uid) <= LiveRowsOf(s, uid)
  {
  }

  lemma ConsumeAddsRefresher(s: State, r: nat, token: RefreshToken, uid: nat)
    ensures var t := Consume(s, r, token);
            RefreshersOf(t, uid) <= RefreshersOf(s, uid) + (if t != s && s.rows[token.jti].user == uid then {r} else {})
  {
  }

  lemma ConsumeSessions(s: State, r: nat, token: RefreshToken, uid: nat)
    ensures SessionsOf(Consume(s, r, token), uid) <= SessionsOf(s, uid)
  {
    var t := Consume(s, r, token);
    ConsumeTakesLiveRow(s, r, token, uid);
    ConsumeAddsRefresher(s, r, token, uid);
    if t != s && s.rows[token.jti].user == uid {
      SubsetSize(LiveRowsOf(t, uid), LiveRowsOf(s, uid) - {token.jti});
      SubsetSize(RefreshersOf(t, uid), RefreshersOf(s, uid) + {r});
    } else {
      SubsetSize(LiveRowsOf(t, uid), LiveRowsOf(s, uid));
      SubsetSize(RefreshersOf(t, uid), RefreshersOf(s, uid));
    }
  }

  lemma ReadSessions(s: State, r: nat, uid: nat)
    ensures SessionsOf(ReadForRefresh(s, r), uid) <= SessionsOf(s, uid)
  {
    var t := ReadForRefresh(s, r);
    assert LiveRowsOf(t, uid) == LiveRowsOf(s, uid);
    assert RefreshersOf(t, uid) <= RefreshersOf(s, uid);
    SubsetSize(RefreshersOf(t, uid), RefreshersOf(s, uid));
  }

  lemma IssueSessions(s: State, r: nat, newJti: nat, ttl: nat, uid: nat)
    requires r in s.flights && s.flights[r].InRefresh?
    ensures SessionsOf(Issue(Finish(s, r), s.flights[r].claims, newJti, ttl), uid) <= SessionsOf(s, uid)
  {
    var t := Issue(Finish(s, r), s.flights[r].claims, newJti, ttl);
    assert RefreshersOf(t, uid) == RefreshersOf(s, uid) - {r};
    var room := if s.flights[r].claims.sub == uid then {newJti} else {};
    assert LiveRowsOf(t, uid) <= LiveRowsOf(s, uid) + room;
    SubsetSize(LiveRowsOf(t, uid), LiveRowsOf(s, uid) + room);
  }

  /** Apart from signing in, no step raises the number of sessions: a refresh only moves its own. */
  lemma SessionsStep(s: State, a: Action, uid: nat)
    requires !SignsIn(a)
    ensures SessionsOf(Next(s, a), uid) <= SessionsOf(s, uid)
  {
    match a
    case RefreshConsume(r, token) => ConsumeSessions(s, r, token, uid);
    case RefreshRead(r) => ReadSessions(s, r, uid);
    case RefreshIssue(r, newJti, ttl) =>
      if r in s.flights && s.flights[r].InRefresh? && newJti !in s.jtis {
        IssueSessions(s, r, newJti, ttl, uid);
      }
    case _ =>
      OtherStepsAreQuiet(s, a);
      QuietSessions(s, Next(s, a), uid);
  }

  /** Without a new sign-in a run never has more live refresh rows for a user than it started with sessions. */
  lemma {:induction false} SessionsNeverGrow(s: State, actions: seq<Action>, uid: nat)
    requires forall i :: 0 <= i < |actions| ==> !SignsIn(actions[i])
    ensures |LiveRowsOf(Run(s, actions), uid)| <= SessionsOf(Run(s, actions), uid) <= SessionsOf(s, uid)
    decreases |actions|
  {
    if actions != [] {
      SessionsStep(s, actions[0], uid);
      SessionsNeverGrow(Next(s, actions[0]), actions[1..], uid);
    }
  }

  /** The three statements of one refresh with nothing in between. */
  function RefreshAlone(s: State, r: nat, token: RefreshToken, jti: nat, ttl: nat): State {
    var read := ReadForRefresh(Consume(s, r, token), r);
    if r in read.flights && read.flights[r].InRefresh?
    then Issue(Finish(read, r), read.flights[r].claims, jti, ttl)
    else read
  }

  lemma RefreshAloneIsThreeSteps(s: State, r: nat, token: RefreshToken, jti: nat, ttl: nat)
    requires jti !in s.jtis
    ensures RefreshAlone(s, r, token, jti, ttl)
         == Next(Next(Next(s, RefreshConsume(r, token)), RefreshRead(r)), RefreshIssue(r, jti, ttl))
  {
    var consumed := Next(s, RefreshConsume(r, token));
    assert consumed == Consume(s, r, token) && consumed.jtis == s.jtis;
    var read := Next(consumed, RefreshRead(r));
    assert read == ReadForRefresh(consumed, r) && read.jtis == s.jtis;
  }

  lemma FlightRemoved(flights: map<nat, Flight>, r: nat, f: Flight)
    requires r !in flights
    ensures flights[r := f] - {r} == flights
  {
  }

  lemma FlightsAfterRefresh(s: State, r: nat, token: RefreshToken, jti: nat, ttl: nat)
    requires r !in s.flights
    ensures RefreshAlone(s, r, token, jti, ttl).flights == s.flights
  {
    var consumed := Consume(s, r, token);
    if r in consumed.flights {
      var read := ReadForRefresh(consumed, r);
      assert consumed.flights == s.flights[r := InConsumed(token)];
      FlightRemoved(s.flights, r, InConsumed(token));
      if r in read.flights {
        assert read.flights == s.flights[r := read.flights[r]];
        FlightRemoved(s.flights, r, read.flights[r]);
      }
    }
  }

  /** A whole refresh, run alone, ends with no more live refresh rows for any user than it began with. */
  lemma WholeRefresh(s: State, r: nat, token: RefreshToken, jti: nat, ttl: nat, uid: nat)
    requires r !in s.flights && jti !in s.jtis
    ensures |LiveRowsOf(RefreshAlone(s, r, token, jti, ttl), uid)| <= |LiveRowsOf(s, uid)|
  {
    var consumed := Consume(s, r, token);
    var read := ReadForRefresh(consumed, r);
    ConsumeSessions(s, r, token, uid);
    ReadSessions(consumed, r, uid);
    if r in read.flights && read.flights[r].InRefresh? {
      IssueSessions(read, r, jti, ttl, uid);
    }
    FlightsAfterRefresh(s, r, token, jti, ttl);
    var t := RefreshAlone(s, r, token, jti, ttl);
    assert SessionsOf(t, uid) <= SessionsOf(s, uid);
    assert RefreshersOf(t, uid) == RefreshersOf(s, uid);
  }

  // ----- The seeder is the one exception -----

  lemma RunTwo(s: State, a: seq<Action>)
    requires |a| == 2
    ensures Run(s, a) == Next(Next(s, a[0]), a[1])
  {
    assert a[1..] == [a[1]] && a[1..][1..] == [];
    assert Run(Next(s, a[0]), a[1..]) == Run(Next(Next(s, a[0]), a[1]), []);
  }

  lemma RunThree(s: State, a: seq<Action>)
    requires |a| == 3
    ensures Run(s, a) == Next(Next(Next(s, a[0]), a[1]), a[2])
  {
    var s1 := Next(s, a[0]);
    var s2 := Next(s1, a[1]);
    assert Run(s2, a[1..][1..]) == Run(Next(s2, a[2]), []) by {
      assert a[1..][1..] == [a[2]] && a[1..][1..][1..] == [];
    }
    assert Run(s1, a[1..]) == Run(s2, a[1..][1..]);
  }

  lemma {:induction false} RunAppend(s: State, a: seq<Action>, b: seq<Action>)
    ensures Run(s, a + b) == Run(Run(s, a), b)
    decreases |a|
  {
    if a == [] {
      assert a + b == b;
    } else {
      assert (a + b)[1..] == a[1..] + b;
      RunAppend(Next(s, a[0]), a[1..], b);
    }
  }

  function SeededAccount(isAdmin: bool, version: nat): User {
    User("phone", "name", "hash", Active, isAdmin, version, false)
  }

  lemma SeedThenDemote()
    ensures SetRole(Start(SeedAdmin(INIT, 1, "phone", "name", "hash"), 0, InDemote(1)), 0, 1, false)
         == INIT.(users := map[1 := SeededAccount(false, 1)])
  {
    var seeded := SeedAdmin(INIT, 1, "phone", "name", "hash");
    assert seeded.users == map[1 := SeededAccount(true, 0)];
    assert Finish(Start(seeded, 0, InDemote(1)), 0).flights == map[];
  }

  lemma SeedStep(s: State, uid: nat, phone: string, name: string, hash: string)
    ensures Next(s, Seed(uid, phone, name, hash)) == SeedAdmin(s, uid, phone, name, hash)
  {
  }

  lemma DemoteSteps(s: State, r: nat, uid: nat)
    requires r !in s.flights && LiveUser(s, uid) && s.users[uid].isAdmin
    ensures Next(Next(s, DemoteRead(r, uid)), DemoteWrite(r)) == SetRole(Start(s, r, InDemote(uid)), r, uid, false)
  {
    assert Next(s, DemoteRead(r, uid)) == Start(s, r, InDemote(uid));
  }

  lemma LoginThenSeed(s: State)
    requires s == INIT.(users := map[1 := SeededAccount(false, 1)])
    ensures var t := Next(Next(Next(s, LoginRead(1, 1)), LoginIssue(1, 7, 60)), Seed(1, "phone", "name", "hash"));
            Claims(1, false, 1) in t.access && t.users == map[1 := SeededAccount(true, 1)]
  {
    var s1 := Next(s, LoginRead(1, 1));
    assert s1.flights == map[1 := InLogin(Claims(1, false, 1))] && s1.users == s.users;
    var s2 := Next(s1, LoginIssue(1, 7, 60));
    assert Claims(1, false, 1) in s2.access && s2.users == s.users;
  }

  /** The seeder grants the role without a new version, so an accepted token may then understate it. */
  lemma SeededRoleCanBeUnderstated()
    ensures exists actions, c ::
              var s := Run(INIT, actions);
              c in s.access && Accepts(s, c) && !c.isAdmin && s.users[c.sub].isAdmin
  {
    var first := [Seed(1, "phone", "name", "hash"), DemoteRead(0, 1), DemoteWrite(0)];
    var second := [LoginRead(1, 1), LoginIssue(1, 7, 60), Seed(1, "phone", "name", "hash")];
    SeedThenDemote();
    SeedStep(INIT, 1, "phone", "name", "hash");
    DemoteSteps(SeedAdmin(INIT, 1, "phone", "name", "hash"), 0, 1);
    RunThree(INIT, first);
    LoginThenSeed(Run(INIT, first));
    RunThree(Run(INIT, first), second);
    RunAppend(INIT, first, second);
    var c := Claims(1, false, 1);
    assert c in Run(INIT, first + second).access && Accepts(Run(INIT, first + second), c);
  }

  // ----- A refresh that outlives its end -----

  const FIRST_CLAIMS: Claims := Claims(1, true, 0)
  const FIRST_TOKEN: RefreshToken := RefreshToken(FIRST_CLAIMS, 7)

  /** One account has signed in; its refresh row lives until time 60. */
  function SignedIn(): State {
    INIT.(users := map[1 := SeededAccount(true, 0)], rows := map[7 := Row(1, 60, false)],
          access := {FIRST_CLAIMS}, refresh := {FIRST_TOKEN}, jtis := {7})
  }

  /** Its refresh has taken the row and read the user, and is about to sign. */
  function HalfRefreshed(): State {
    SignedIn().(rows := map[], flights := map[2 := InRefresh(FIRST_CLAIMS, 7)])
  }

  lemma ReachSignedIn()
    ensures Run(INIT, [Seed(1, "phone", "name", "hash"), LoginRead(0, 1), LoginIssue(0, 7, 60)]) == SignedIn()
  {
    var actions := [Seed(1, "phone", "name", "hash"), LoginRead(0, 1), LoginIssue(0, 7, 60)];
    var seeded := Next(INIT, actions[0]);
    assert seeded == INIT.(users := map[1 := SeededAccount(true, 0)]);
    var read := Next(seeded, actions[1]);
    assert read.flights == map[0 := InLogin(FIRST_CLAIMS)];
    assert Finish(read, 0).flights == map[];
    RunThree(INIT, actions);
  }

  lemma ReachHalfRefreshed()
    ensures Next(Next(SignedIn(), RefreshConsume(2, FIRST_TOKEN)), RefreshRead(2)) == HalfRefreshed()
  {
    var consumed := Next(SignedIn(), RefreshConsume(2, FIRST_TOKEN));
    assert consumed.rows == map[] && consumed.flights == map[2 := InConsumed(FIRST_TOKEN)];
    assert Next(consumed, RefreshRead(2)).flights == map[2 := InRefresh(FIRST_CLAIMS, 7)];
  }

  /** A reachable state in which neither a logout of the token nor the passing of its time stops the refresh that has
      begun: the row they would act on is gone, and the next statement hands out tokens. */
  lemma RefreshOutlivesItsEnd()
    ensures exists before, token, after ::
              var s := Run(INIT, before);
              && token in s.refresh
              && Successes(Next(s, Logout(token)), after, token.jti) == 1
              && Successes(Next(s, Tick(100)), after, token.jti) == 1
  {
    var signIn := [Seed(1, "phone", "name", "hash"), LoginRead(0, 1), LoginIssue(0, 7, 60)];
    var refresh := [RefreshConsume(2, FIRST_TOKEN), RefreshRead(2)];
    ReachSignedIn();
    ReachHalfRefreshed();
    RunAppend(INIT, signIn, refresh);
    RunTwo(SignedIn(), refresh);
    assert Run(INIT, signIn + refresh) == HalfRefreshed();
    var s := HalfRefreshed();
    var after := [RefreshIssue(2, 8, 60)];
    assert after[1..] == [];
    assert Successes(Next(s, Logout(FIRST_TOKEN)), after, 7) == 1;
    assert Successes(Next(s, Tick(100)), after, 7) == 1;
  }
}
