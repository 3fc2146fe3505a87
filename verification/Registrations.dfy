/**
 Registrations in the session machine: one user per phone in every run, pending rows turned into users one by
 one, and the two tables kept apart when requests do not overlap.
 */
module Registrations {
  import opened Common
  import opened Sessions

  // ----- Every interleaving -----

  ghost predicate UniquePhones(s: State) {
    forall u, v :: u in s.users && v in s.users && u != v ==> s.users[u].phone != s.users[v].phone
  }

  /** Where a step's users come from: the old ones keep their phones, and a new one has a phone nobody had. */
  ghost predicate UsersGrow(s: State, t: State) {
    && (forall uid :: uid in s.users ==> uid in t.users && t.users[uid].phone == s.users[uid].phone)
    && (forall uid :: uid in t.users && uid !in s.users ==>
          && !PhoneTaken(s, t.users[uid].phone)
          && t.users.Keys == s.users.Keys + {uid})
  }

  lemma StepUsersGrow(s: State, a: Action)
    ensures UsersGrow(s, Next(s, a))
  {
    match a
    case Seed(uid, phone, name, hash) => SeedGrowsUsers(s, uid, phone, name, hash);
    case VerifyCommit(r, uid, jti, ttl) => CommitGrowsUsers(s, a);
    case _ =>
      NextEvolves(s, a);
      OthersKeepUserIds(s, a);
      SameIdsGrow(s, Next(s, a));
  }

  lemma SeedGrowsUsers(s: State, uid: nat, phone: string, name: string, hash: string)
    ensures UsersGrow(s, SeedAdmin(s, uid, phone, name, hash))
  {
  }

  lemma CommitGrowsUsers(s: State, a: Action)
    requires a.VerifyCommit?
    ensures UsersGrow(s, CommitRegistration(s, a.r, a.uid, a.jti, a.ttl))
  {
    CommitMovesOneRow(s, a);
    if Promotes(s, a) {
      var phone := s.flights[a.r].phone;
      InsertGrowsUsers(s, CommitRegistration(s, a.r, a.uid, a.jti, a.ttl), a.uid,
                       User(phone, s.pending[phone].name, s.pending[phone].hash, Active, false, 0, false));
    }
  }

  lemma InsertGrowsUsers(s: State, t: State, uid: nat, u: User)
    requires uid !in s.users && !PhoneTaken(s, u.phone) && t.users == s.users[uid := u]
    ensures UsersGrow(s, t)
  {
    assert t.users.Keys == s.users.Keys + {uid};
  }

  lemma SameIdsGrow(s: State, t: State)
    requires Evolves(s, t, false) && t.users.Keys == s.users.Keys
    ensures UsersGrow(s, t)
  {
  }

  lemma {:induction false} PhonesStayUnique(s: State, actions: seq<Action>)
    requires UniquePhones(s)
    ensures UniquePhones(Run(s, actions))
    decreases |actions|
  {
    if actions != [] {
      var t := Next(s, actions[0]);
      StepUsersGrow(s, actions[0]);
      forall u, v | u in t.users && v in t.users && u != v ensures t.users[u].phone != t.users[v].phone {
        assert u in s.users || v in s.users;
      }
      PhonesStayUnique(t, actions[1..]);
    }
  }

  /** Each phone has at most one user in every interleaved run, the seeder included. */
  lemma OneUserPerPhone(actions: seq<Action>)
    ensures UniquePhones(Run(INIT, actions))
  {
    PhonesStayUnique(INIT, actions);
  }

  /** The step promotes a pending row to a user. */
  predicate Promotes(s: State, a: Action) {
    && a.VerifyCommit? && a.r in s.flights && s.flights[a.r].InVerified? && a.uid !in s.users && a.jti !in s.jtis
    && var phone := s.flights[a.r].phone;
       phone in s.pending && s.pending[phone].expiresAt > s.now && !PhoneTaken(s, phone)
  }

  /** The pending row of this phone has become a user with its name and hash, and nothing else about the two tables
      has changed. */
  ghost predicate RowBecameUser(s: State, t: State, phone: string, uid: nat) {
    && phone in s.pending && uid !in s.users
    && t.users.Keys == s.users.Keys + {uid} && |t.users| == |s.users| + 1
    && t.users[uid].phone == phone
    && t.users[uid].name == s.pending[phone].name && t.users[uid].hash == s.pending[phone].hash
    && t.pending == s.pending - {phone} && |t.pending| == |s.pending| - 1
    && (forall u :: u in s.users ==> t.users[u] == s.users[u])
  }

  /** A user appears only by a verify that removes exactly one unexpired pending row and carries over its name and
      hash; every other verify leaves users and pending rows as they were. */
  lemma VerifyMovesOneRow(s: State, a: Action)
    requires !a.Seed?
    ensures var t := Next(s, a);
            if Promotes(s, a) then RowBecameUser(s, t, s.flights[a.r].phone, a.uid)
            else
              && t.users.Keys == s.users.Keys && |t.users| == |s.users|
              && (a.VerifyCommit? ==> t.users == s.users && t.pending == s.pending)
  {
    if a.VerifyCommit? {
      CommitBecameUser(s, a);
    } else {
      OthersKeepUserIds(s, a);
      assert |Next(s, a).users.Keys| == |s.users.Keys|;
    }
  }

  lemma CommitBecameUser(s: State, a: Action)
    requires a.VerifyCommit?
    ensures var t := CommitRegistration(s, a.r, a.uid, a.jti, a.ttl);
            if Promotes(s, a) then RowBecameUser(s, t, s.flights[a.r].phone, a.uid)
            else t.users == s.users && t.pending == s.pending
  {
    CommitMovesOneRow(s, a);
    if Promotes(s, a) {
      var t := CommitRegistration(s, a.r, a.uid, a.jti, a.ttl);
      assert t.users.Keys == s.users.Keys + {a.uid};
    }
  }

  lemma CommitMovesOneRow(s: State, a: Action)
    requires a.VerifyCommit?
    ensures var t := CommitRegistration(s, a.r, a.uid, a.jti, a.ttl);
            if Promotes(s, a) then
              var phone := s.flights[a.r].phone;
              var row := s.pending[phone];
              && t.users == s.users[a.uid := User(phone, row.name, row.hash, Active, false, 0, false)]
              && t.pending == s.pending - {phone}
              && |t.users| == |s.users| + 1 && |t.pending| == |s.pending| - 1
            else t.users == s.users && t.pending == s.pending
  {
    CommitTables(s, a);
    if Promotes(s, a) {
      var phone := s.flights[a.r].phone;
      InsertedSize(s.users, a.uid, User(phone, s.pending[phone].name, s.pending[phone].hash, Active, false, 0, false));
      RemovedSize(s.pending, phone);
    }
  }

  lemma CommitTables(s: State, a: Action)
    requires a.VerifyCommit?
    ensures var t := CommitRegistration(s, a.r, a.uid, a.jti, a.ttl);
            if Promotes(s, a) then
              var phone := s.flights[a.r].phone;
              var row := s.pending[phone];
              && t.users == s.users[a.uid := User(phone, row.name, row.hash, Active, false, 0, false)]
              && t.pending == s.pending - {phone}
            else t.users == s.users && t.pending == s.pending
  {
  }

  lemma InsertedSize<K, V>(m: map<K, V>, k: K, v: V)
    requires k !in m
    ensures |m[k := v]| == |m| + 1
  {
    assert m[k := v].Keys == m.Keys + {k};
    assert |m[k := v].Keys| == |m.Keys| + 1;
  }

  lemma RemovedSize<K, V>(m: map<K, V>, k: K)
    requires k in m
    ensures |m - {k}| == |m| - 1
  {
    assert (m - {k}).Keys == m.Keys - {k};
    assert |(m - {k}).Keys| == |m.Keys| - 1;
  }

  lemma OthersKeepUserIds(s: State, a: Action)
    requires !a.Seed? && !a.VerifyCommit?
    ensures Next(s, a).users.Keys == s.users.Keys
  {
  }

  ghost predicate NoSeed(actions: seq<Action>) {
    forall i :: 0 <= i < |actions| ==> !actions[i].Seed?
  }

  function Promotions(s: State, actions: seq<Action>): nat
    decreases |actions|
  {
    if actions == [] then 0
    else (if Promotes(s, actions[0]) then 1 else 0) + Promotions(Next(s, actions[0]), actions[1..])
  }

  /** Without the seeder there are exactly as many users as pending rows were promoted. */
  lemma {:induction false} UsersArePromotions(s: State, actions: seq<Action>)
    requires NoSeed(actions)
    ensures |Run(s, actions).users| == |s.users| + Promotions(s, actions)
    decreases |actions|
  {
    if actions != [] {
      VerifyMovesOneRow(s, actions[0]);
      UsersArePromotions(Next(s, actions[0]), actions[1..]);
    }
  }

  // ----- Pending and registered phones -----

  ghost predicate Exclusive(s: State) {
    forall phone :: phone in s.pending ==> !PhoneTaken(s, phone)
  }

  /** The guard of the failing branches: a request stores a pending row although the phone it checked has been taken
      since, or the seeder creates an account for a phone that is pending. */
  predicate BreaksExclusion(s: State, a: Action) {
    || (a.RegisterStore? && a.r in s.flights && s.flights[a.r].InRegistration? && PhoneTaken(s, s.flights[a.r].phone))
    || (a.Seed? && a.uid !in s.users && !PhoneTaken(s, a.phone) && a.phone in s.pending)
  }

  /** The pending rows of t are old ones or one for `phone`, and the users have the same phones. */
  ghost predicate PendingWithin(s: State, t: State, phone: Option<string>) {
    && (forall p :: p in t.pending ==> p in s.pending || phone == Some(p))
    && (forall p :: PhoneTaken(t, p) ==> PhoneTaken(s, p))
  }

  lemma StoreExclusion(s: State, a: Action)
    requires a.RegisterStore? && Exclusive(s)
    ensures Exclusive(Next(s, a)) <==> !BreaksExclusion(s, a)
  {
    var t := Next(s, a);
    assert t.users == s.users;
    if a.r in s.flights && s.flights[a.r].InRegistration? {
      var phone := s.flights[a.r].phone;
      assert t.pending.Keys == s.pending.Keys + {phone};
      assert PhoneTaken(t, phone) <==> PhoneTaken(s, phone);
    }
  }

  lemma SeedExclusion(s: State, a: Action)
    requires a.Seed? && Exclusive(s)
    ensures Exclusive(Next(s, a)) <==> !BreaksExclusion(s, a)
  {
    var t := Next(s, a);
    assert t.pending == s.pending;
    StepUsersGrow(s, a);
    if a.uid !in s.users && !PhoneTaken(s, a.phone) {
      assert t.users[a.uid].phone == a.phone;
      assert PhoneTaken(t, a.phone);
    }
  }

  lemma CommitKeepsExclusion(s: State, a: Action)
    requires a.VerifyCommit? && Exclusive(s)
    ensures Exclusive(Next(s, a))
  {
    var t := Next(s, a);
    CommitMovesOneRow(s, a);
    forall p | p in t.pending ensures !PhoneTaken(t, p) {
      assert p in s.pending && p !in (if Promotes(s, a) then {s.flights[a.r].phone} else {});
      assert forall u :: u in t.users ==> t.users[u].phone != p;
    }
  }

  lemma OthersStay(s: State, a: Action)
    requires !a.RegisterStore? && !a.Seed? && !a.VerifyCommit?
    ensures PendingWithin(s, Next(s, a), None)
  {
    var t := Next(s, a);
    OthersKeepUserIds(s, a);
    StepUsersGrow(s, a);
    forall p | PhoneTaken(t, p) ensures PhoneTaken(s, p) {
      var u :| u in t.users && t.users[u].phone == p;
      assert u in s.users && s.users[u].phone == p;
    }
    OthersAddNoPending(s, a);
  }

  lemma OthersAddNoPending(s: State, a: Action)
    requires !a.RegisterStore? && !a.Seed? && !a.VerifyCommit?
    ensures forall p :: p in Next(s, a).pending ==> p in s.pending
  {
  }

  /** One step, of whatever request, keeps every phone out of one of the two tables unless it takes a failing branch,
      and then it never does. */
  lemma ExclusionStep(s: State, a: Action)
    requires Exclusive(s)
    ensures Exclusive(Next(s, a)) <==> !BreaksExclusion(s, a)
  {
    if a.RegisterStore? {
      StoreExclusion(s, a);
    } else if a.Seed? {
      SeedExclusion(s, a);
    } else if a.VerifyCommit? {
      CommitKeepsExclusion(s, a);
    } else {
      OthersStay(s, a);
    }
  }

  ghost predicate AlwaysExclusive(s: State, actions: seq<Action>)
    decreases |actions|
  {
    Exclusive(s) && (actions != [] ==> AlwaysExclusive(Next(s, actions[0]), actions[1..]))
  }

  predicate NeverBreaks(s: State, actions: seq<Action>)
    decreases |actions|
  {
    actions != [] ==> !BreaksExclusion(s, actions[0]) && NeverBreaks(Next(s, actions[0]), actions[1..])
  }

  /** All along an interleaved run no phone is both pending and registered, exactly when no step takes a failing
      branch. */
  lemma {:induction false} ExclusiveIffNeverBreaks(s: State, actions: seq<Action>)
    requires Exclusive(s)
    ensures AlwaysExclusive(s, actions) <==> NeverBreaks(s, actions)
    decreases |actions|
  {
    if actions != [] {
      ExclusionStep(s, actions[0]);
      if Exclusive(Next(s, actions[0])) {
        ExclusiveIffNeverBreaks(Next(s, actions[0]), actions[1..]);
      }
    }
  }

  // ----- Requests that do not overlap -----

  datatype Request =
    | Register(r: nat, phone: string, name: string, hash: string, ttl: nat, sent: bool)
    | Verify(r: nat, phone: string, uid: nat, jti: nat, ttl: nat)
    | Other(a: Action)

  /** A step of some other request; those may still interleave with one another. */
  predicate IsOther(a: Action) {
    !a.RegisterCheck? && !a.RegisterStore? && !a.RegisterDone? && !a.VerifyOtp? && !a.VerifyCommit?
  }

  /** A whole registration or verification request: its statements, as `Next` takes them, with nothing between. */
  function Whole(s: State, q: Request): State {
    match q
    case Register(r, phone, name, hash, ttl, sent) =>
      if r in s.flights then s
      else FinishRegistration(StoreRegistration(CheckRegistration(s, r, phone, name, hash), r, ttl), r, sent)
    case Verify(r, phone, uid, jti, ttl) =>
      if r in s.flights then s else CommitRegistration(Start(s, r, InVerified(phone)), r, uid, jti, ttl)
    case Other(a) => if IsOther(a) then Next(s, a) else s
  }

  lemma RegisterStatements(s: State, r: nat, phone: string, name: string, hash: string, ttl: nat, sent: bool)
    ensures Next(s, RegisterCheck(r, phone, name, hash)) == CheckRegistration(s, r, phone, name, hash)
    ensures Next(s, RegisterStore(r, ttl)) == StoreRegistration(s, r, ttl)
    ensures Next(s, RegisterDone(r, sent)) == FinishRegistration(s, r, sent)
  {
  }

  lemma RegisterIsRun(s: State, r: nat, phone: string, name: string, hash: string, ttl: nat, sent: bool)
    ensures Run(s, [RegisterCheck(r, phone, name, hash), RegisterStore(r, ttl), RegisterDone(r, sent)])
         == FinishRegistration(StoreRegistration(CheckRegistration(s, r, phone, name, hash), r, ttl), r, sent)
  {
    var checked := CheckRegistration(s, r, phone, name, hash);
    var stored := StoreRegistration(checked, r, ttl);
    RegisterStatements(s, r, phone, name, hash, ttl, sent);
    RegisterStatements(checked, r, phone, name, hash, ttl, sent);
    RegisterStatements(stored, r, phone, name, hash, ttl, sent);
    RunThree(s, [RegisterCheck(r, phone, name, hash), RegisterStore(r, ttl), RegisterDone(r, sent)]);
  }

  lemma VerifyIsRun(s: State, r: nat, phone: string, uid: nat, jti: nat, ttl: nat)
    ensures Run(s, [VerifyOtp(r, phone), VerifyCommit(r, uid, jti, ttl)])
         == CommitRegistration(Start(s, r, InVerified(phone)), r, uid, jti, ttl)
  {
    var started := Next(s, VerifyOtp(r, phone));
    assert started == Start(s, r, InVerified(phone));
    RunTwo(s, [VerifyOtp(r, phone), VerifyCommit(r, uid, jti, ttl)]);
  }

  /** A whole request is a run of its own steps. */
  lemma WholeIsRun(s: State, q: Request) returns (actions: seq<Action>)
    ensures Run(s, actions) == Whole(s, q)
  {
    actions := [];
    match q
    case Register(r, phone, name, hash, ttl, sent) =>
      if r !in s.flights {
        RegisterIsRun(s, r, phone, name, hash, ttl, sent);
        actions := [RegisterCheck(r, phone, name, hash), RegisterStore(r, ttl), RegisterDone(r, sent)];
      }
    case Verify(r, phone, uid, jti, ttl) =>
      if r !in s.flights {
        VerifyIsRun(s, r, phone, uid, jti, ttl);
        actions := [VerifyOtp(r, phone), VerifyCommit(r, uid, jti, ttl)];
      }
    case Other(a) =>
      if IsOther(a) {
        actions := [a];
        assert actions[1..] == [];
      }
  }

  lemma RegisterStays(s: State, r: nat, phone: string, name: string, hash: string, ttl: nat, sent: bool)
    requires r !in s.flights
    ensures PendingWithin(s, Whole(s, Register(r, phone, name, hash, ttl, sent)),
                          if PhoneTaken(s, phone) then None else Some(phone))
  {
    var s1 := CheckRegistration(s, r, phone, name, hash);
    var s2 := StoreRegistration(s1, r, ttl);
    var t := FinishRegistration(s2, r, sent);
    assert t.users == s.users;
    if !PhoneTaken(s, phone) {
      assert s2.pending.Keys == s.pending.Keys + {phone};
    }
    assert forall p :: PhoneTaken(t, p) ==> PhoneTaken(s, p);
  }

  lemma VerifyStays(s: State, r: nat, phone: string, uid: nat, jti: nat, ttl: nat)
    requires r !in s.flights && Exclusive(s)
    ensures Exclusive(Whole(s, Verify(r, phone, uid, jti, ttl)))
  {
    var started := Start(s, r, InVerified(phone));
    assert Exclusive(started) by {
      assert forall p :: PhoneTaken(started, p) ==> PhoneTaken(s, p);
    }
    CommitKeepsExclusion(started, VerifyCommit(r, uid, jti, ttl));
  }

  /** The request is the seeder's, creating an account for a phone that is pending. */
  predicate SeedsPendingPhone(s: State, q: Request) {
    q.Other? && q.a.Seed? && BreaksExclusion(s, q.a)
  }

  lemma WholeExclusion(s: State, q: Request)
    requires Exclusive(s)
    ensures Exclusive(Whole(s, q)) <==> !SeedsPendingPhone(s, q)
  {
    match q
    case Register(r, phone, name, hash, ttl, sent) =>
      if r !in s.flights { RegisterStays(s, r, phone, name, hash, ttl, sent); }
    case Verify(r, phone, uid, jti, ttl) =>
      if r !in s.flights { VerifyStays(s, r, phone, uid, jti, ttl); }
    case Other(a) =>
      if IsOther(a) { ExclusionStep(s, a); }
  }

  ghost predicate WholeAlwaysExclusive(s: State, requests: seq<Request>)
    decreases |requests|
  {
    Exclusive(s) && (requests != [] ==> WholeAlwaysExclusive(Whole(s, requests[0]), requests[1..]))
  }

  predicate NeverSeedsPending(s: State, requests: seq<Request>)
    decreases |requests|
  {
    requests != [] ==> !SeedsPendingPhone(s, requests[0]) && NeverSeedsPending(Whole(s, requests[0]), requests[1..])
  }

  /** When registration requests do not overlap, no phone is ever both pending and registered, unless the seeder
      creates an account for a phone that is pending, and then one is. */
  lemma {:induction false} NeverPendingAndRegistered(s: State, requests: seq<Request>)
    requires Exclusive(s)
    ensures WholeAlwaysExclusive(s, requests) <==> NeverSeedsPending(s, requests)
    decreases |requests|
  {
    if requests != [] {
      WholeExclusion(s, requests[0]);
      if Exclusive(Whole(s, requests[0])) {
        NeverPendingAndRegistered(Whole(s, requests[0]), requests[1..]);
      }
    }
  }

  /** Two requests for one phone have passed the phone check; the second has stored its row. */
  function HalfWay(phone: string, name: string, hash: string): State {
    INIT.(pending := map[phone := Pending(0, name, hash, 600)], pendingIds := 1,
          flights := map[0 := InRegistration(phone, name, hash), 1 := InStored(0)])
  }

  lemma ReachHalfWay(phone: string, name: string, hash: string)
    ensures var checked := CheckRegistration(CheckRegistration(INIT, 0, phone, name, hash), 1, phone, name, hash);
            StoreRegistration(checked, 1, 600) == HalfWay(phone, name, hash)
  {
    var s1 := CheckRegistration(INIT, 0, phone, name, hash);
    assert s1.flights == map[0 := InRegistration(phone, name, hash)];
    var s2 := CheckRegistration(s1, 1, phone, name, hash);
    assert s2.flights == map[0 := InRegistration(phone, name, hash), 1 := InRegistration(phone, name, hash)];
    assert StoreRegistration(s2, 1, 600).flights == HalfWay(phone, name, hash).flights;
  }

  lemma FromHalfWay(phone: string, name: string, hash: string)
    ensures var s := CommitRegistration(Start(HalfWay(phone, name, hash), 2, InVerified(phone)), 2, 1, 7, 60);
            !Exclusive(StoreRegistration(s, 0, 600))
  {
    var s4 := Start(HalfWay(phone, name, hash), 2, InVerified(phone));
    assert s4.flights[2] == InVerified(phone) && s4.flights[0] == InRegistration(phone, name, hash);
    var s5 := CommitRegistration(s4, 2, 1, 7, 60);
    assert s5.users[1].phone == phone && s5.flights[0] == InRegistration(phone, name, hash);
    var s6 := StoreRegistration(s5, 0, 600);
    assert phone in s6.pending && s6.users == s5.users;
    assert PhoneTaken(s6, phone);
  }

  /** Overlapping requests can leave a phone both pending and registered: the phone check of one request is
      followed by another request's whole registration. */
  lemma OverlapBreaksExclusion(phone: string, name: string, hash: string)
    ensures exists actions :: NoSeed(actions) && !Exclusive(Run(INIT, actions))
  {
    var first := [RegisterCheck(0, phone, name, hash), RegisterCheck(1, phone, name, hash), RegisterStore(1, 600)];
    var second := [VerifyOtp(2, phone), VerifyCommit(2, 1, 7, 60), RegisterStore(0, 600)];
    RunToHalfWay(phone, name, hash, first);
    RunFromHalfWay(phone, name, hash, second);
    RunAppend(INIT, first, second);
    assert !Exclusive(Run(INIT, first + second));
  }

  lemma RunToHalfWay(phone: string, name: string, hash: string, first: seq<Action>)
    requires first == [RegisterCheck(0, phone, name, hash), RegisterCheck(1, phone, name, hash), RegisterStore(1, 600)]
    ensures Run(INIT, first) == HalfWay(phone, name, hash)
  {
    ReachHalfWay(phone, name, hash);
    RunThree(INIT, first);
  }

  lemma RunFromHalfWay(phone: string, name: string, hash: string, second: seq<Action>)
    requires second == [VerifyOtp(2, phone), VerifyCommit(2, 1, 7, 60), RegisterStore(0, 600)]
    ensures !Exclusive(Run(HalfWay(phone, name, hash), second))
  {
    FromHalfWay(phone, name, hash);
    RunThree(HalfWay(phone, name, hash), second);
    VerifyThenStore(HalfWay(phone, name, hash), phone);
  }

  lemma VerifyThenStore(s: State, phone: string)
    ensures Next(Next(Next(s, VerifyOtp(2, phone)), VerifyCommit(2, 1, 7, 60)), RegisterStore(0, 600))
         == StoreRegistration(CommitRegistration(Start(s, 2, InVerified(phone)), 2, 1, 7, 60), 0, 600)
  {
  }
}
