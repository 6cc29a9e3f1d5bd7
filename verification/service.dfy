/** The referral engine: signup, login, profile completion and referral
    listing over the users and referrals tables, which it updates in place. */
module Service {
  import opened Results
  import opened Model
  import opened Repository

  /** A supplied referral code counts only when it is neither null nor empty. */
  predicate Supplied(referralCode: Option<string>) {
    referralCode.Some? && referralCode.value != ""
  }

  /** The referrals table after `referredId` completes the profile: each
      referral naming that user as referred is marked successful. */
  function MarkSuccessful(rs: seq<Referral>, referredId: string): (r: seq<Referral>)
    ensures |r| == |rs|
    ensures forall i :: 0 <= i < |rs| ==> r[i] == rs[i].(successful := r[i].successful)
    ensures forall i :: 0 <= i < |rs| ==> r[i].successful == (rs[i].successful || rs[i].referredId == referredId)
  {
    if rs == [] then []
    else
      var head := if rs[0].referredId == referredId then rs[0].(successful := true) else rs[0];
      [head] + MarkSuccessful(rs[1..], referredId)
  }

  /** Completing a profile twice has the effect of completing it once. */
  lemma MarkSuccessfulIdempotent(rs: seq<Referral>, referredId: string)
    ensures MarkSuccessful(MarkSuccessful(rs, referredId), referredId) == MarkSuccessful(rs, referredId)
  {
  }

  /** Marking referrals successful keeps the table's numbering and references
      and only turns success flags on. */
  lemma MarkSuccessfulAdvances(users: map<string, User>, rs: seq<Referral>, referredId: string)
    requires IdsSequential(rs) && ReferencesExist(users, rs)
    ensures IdsSequential(MarkSuccessful(rs, referredId))
    ensures ReferencesExist(users, MarkSuccessful(rs, referredId))
    ensures forall i :: 0 <= i < |rs| ==> ReferralAdvances(rs[i], MarkSuccessful(rs, referredId)[i])
  {
  }

  /** `current` is `before` with exactly the rows among `found[..k]` marked successful. */
  ghost predicate MarkedUpTo(before: seq<Referral>, found: seq<Referral>, k: nat, current: seq<Referral>)
    requires k <= |found|
  {
    && |current| == |before|
    && forall i :: 0 <= i < |before| ==>
         current[i] == if before[i] in found[..k] then before[i].(successful := true) else before[i]
  }

  /** Saving the next found row as successful extends the marked prefix by one. */
  lemma MarkNext(before: seq<Referral>, found: seq<Referral>, k: nat, current: seq<Referral>)
    requires IdsSequential(before)
    requires k < |found| && found[k] in before
    requires MarkedUpTo(before, found, k, current)
    ensures 1 <= found[k].id <= |current|
    ensures MarkedUpTo(before, found, k + 1, current[found[k].id - 1 := found[k].(successful := true)])
  {
    RowAtItsId(before, found[k]);
    assert found[..k + 1] == found[..k] + [found[k]];
  }

  /** Once every found row is saved, the table is the marked table. */
  lemma MarkedAll(before: seq<Referral>, found: seq<Referral>, referredId: string, current: seq<Referral>)
    requires forall x :: x in found <==> x in before && x.referredId == referredId
    requires MarkedUpTo(before, found, |found|, current)
    ensures current == MarkSuccessful(before, referredId)
  {
    assert found[..|found|] == found;
  }

  /** The invariant of the two tables, kept by every operation. */
  ghost predicate TablesValid(users: map<string, User>, rs: seq<Referral>) {
    && KeyedByUserId(users)
    && CodesUnique(users)
    && (forall id :: id in users ==> IsReferralCode(users[id].referralCode))
    && IdsSequential(rs)
    && ReferencesExist(users, rs)
  }

  /** Storing a new user whose code nobody holds keeps the invariant. */
  lemma AddUserKeepsValid(users: map<string, User>, rs: seq<Referral>, user: User)
    requires TablesValid(users, rs)
    requires user.userId !in users
    requires IsReferralCode(user.referralCode) && !CodeHeld(users, user.referralCode)
    ensures TablesValid(users[user.userId := user], rs)
    ensures TablesAdvance(users, rs, users[user.userId := user], rs)
  {
  }

  /** Appending a referral between two stored users, numbered next, keeps the invariant. */
  lemma AddReferralKeepsValid(users: map<string, User>, rs: seq<Referral>, referral: Referral)
    requires TablesValid(users, rs)
    requires referral.id == |rs| + 1
    requires referral.referrerId in users && referral.referredId in users
    ensures TablesValid(users, rs + [referral])
    ensures TablesAdvance(users, rs, users, rs + [referral])
  {
  }

  /** Completing a stored user's profile keeps the invariant. */
  lemma CompleteUserKeepsValid(users: map<string, User>, rs: seq<Referral>, userId: string)
    requires TablesValid(users, rs)
    requires userId in users
    ensures TablesValid(users[userId := users[userId].(profileCompleted := true)], MarkSuccessful(rs, userId))
    ensures TablesAdvance(users, rs, users[userId := users[userId].(profileCompleted := true)], MarkSuccessful(rs, userId))
  {
    MarkSuccessfulAdvances(users, rs, userId);
  }

  /** Completing a stored user's profile twice leaves both tables as one completion does. */
  lemma CompleteProfileTwiceIsOnce(users: map<string, User>, rs: seq<Referral>, userId: string)
    requires userId in users
    ensures var users1 := users[userId := users[userId].(profileCompleted := true)];
            && users1[userId := users1[userId].(profileCompleted := true)] == users1
            && MarkSuccessful(MarkSuccessful(rs, userId), userId) == MarkSuccessful(rs, userId)
  {
  }

  /** A user row may change only by its profile flag going from false to true. */
  ghost predicate UserAdvances(a: User, b: User) {
    b == a.(profileCompleted := b.profileCompleted) && (a.profileCompleted ==> b.profileCompleted)
  }

  /** A referral row may change only by its success flag going from false to true. */
  ghost predicate ReferralAdvances(a: Referral, b: Referral) {
    b == a.(successful := b.successful) && (a.successful ==> b.successful)
  }

  /** The tables only grow, and existing rows change only by flags going false to true. */
  ghost predicate TablesAdvance(users0: map<string, User>, rs0: seq<Referral>,
                                users1: map<string, User>, rs1: seq<Referral>) {
    && users0.Keys <= users1.Keys
    && (forall id :: id in users0 ==> UserAdvances(users0[id], users1[id]))
    && |rs0| <= |rs1|
    && (forall i :: 0 <= i < |rs0| ==> ReferralAdvances(rs0[i], rs1[i]))
  }

  class ReferralService {
    /** The users table, keyed by user id. */
    var users: map<string, User>
    /** The referrals table in insertion (and id) order. */
    var referrals: seq<Referral>
    /** The password encoder: `encode` hashes, `matches(raw, encoded)` verifies. */
    const encode: string -> string
    const matches: (string, string) -> bool

    ghost predicate Valid()
      reads this
    {
      TablesValid(users, referrals)
    }

    /** The service over the tables the repositories already hold. */
    constructor (users: map<string, User>, referrals: seq<Referral>,
                 encode: string -> string, matches: (string, string) -> bool)
      requires TablesValid(users, referrals)
      ensures Valid()
      ensures this.users == users && this.referrals == referrals
      ensures this.encode == encode && this.matches == matches
    {
      this.users := users;
      this.referrals := referrals;
      this.encode := encode;
      this.matches := matches;
    }

    /** `generateReferralCode`: draws UUIDs `uuids(0)`, `uuids(1)`, ... and
        returns the first eight characters of the first one whose prefix no
        stored user holds. The random source must eventually yield such a draw. */
    method GenerateReferralCode(uuids: nat -> string) returns (code: string)
      requires CodesUnique(users)
      requires forall n: nat :: IsUuidText(uuids(n))
      requires exists n: nat :: !CodeHeld(users, CodeFromUuid(uuids(n)))
      ensures IsReferralCode(code) && !CodeHeld(users, code)
      ensures exists n: nat :: code == CodeFromUuid(uuids(n))
                && forall j :: 0 <= j < n ==> CodeHeld(users, CodeFromUuid(uuids(j)))
    {
      ghost var free: nat :| !CodeHeld(users, CodeFromUuid(uuids(free)));
      var n := 0;
      code := CodeFromUuid(uuids(n));
      while FindByReferralCode(users, code).Some?
        invariant n <= free
        invariant code == CodeFromUuid(uuids(n))
        invariant forall j :: 0 <= j < n ==> CodeHeld(users, CodeFromUuid(uuids(j)))
        decreases free - n
      {
        n := n + 1;
        code := CodeFromUuid(uuids(n));
      }
    }

    /** `signup`: rejects a taken id; otherwise stores the new user at once,
        then links the referrer named by a supplied code. The user row stays
        stored even when the code turns out to be invalid. */
    method Signup(userId: string, password: string, referralCode: Option<string>, uuids: nat -> string)
      returns (r: Result<User>)
      requires Valid()
      requires forall n: nat :: IsUuidText(uuids(n))
      requires userId !in users ==> exists n: nat :: !CodeHeld(users, CodeFromUuid(uuids(n)))
      modifies this
      ensures Valid()
      ensures TablesAdvance(old(users), old(referrals), users, referrals)
      ensures userId in old(users) ==>
                r == Err(UserAlreadyExists) && users == old(users) && referrals == old(referrals)
      ensures userId !in old(users) ==>
                && userId in users
                && users == old(users)[userId := users[userId]]
                && users[userId].userId == userId
                && users[userId].password == encode(password)
                && users[userId].role == DefaultRole
                && !users[userId].profileCompleted
                && IsReferralCode(users[userId].referralCode)
                && !CodeHeld(old(users), users[userId].referralCode)
                && exists n: nat :: users[userId].referralCode == CodeFromUuid(uuids(n))
                     && forall j :: 0 <= j < n ==> CodeHeld(old(users), CodeFromUuid(uuids(j)))
      ensures userId !in old(users) && !Supplied(referralCode) ==>
                r == Ok(users[userId]) && referrals == old(referrals)
      ensures userId !in old(users) && Supplied(referralCode) && !CodeHeld(users, referralCode.value) ==>
                r == Err(InvalidReferralCode) && referrals == old(referrals)
      ensures userId !in old(users) && Supplied(referralCode) && CodeHeld(users, referralCode.value) ==>
                && r == Ok(users[userId])
                && referrals == old(referrals) + [Referral(|old(referrals)| + 1,
                     FindByReferralCode(users, referralCode.value).value.userId, userId, false)]
    {
      if userId in users {
        return Err(UserAlreadyExists);
      }
      var code := GenerateReferralCode(uuids);
      var user := User(userId, encode(password), code, false, DefaultRole);
      AddUserKeepsValid(users, referrals, user);
      users := users[userId := user];

      if Supplied(referralCode) {
        var referrer := FindByReferralCode(users, referralCode.value);
        if referrer.None? {
          return Err(InvalidReferralCode);
        }
        var referral := Referral(|referrals| + 1, referrer.value.userId, userId, false);
        AddReferralKeepsValid(users, referrals, referral);
        referrals := referrals + [referral];
      }
      return Ok(user);
    }

    /** `login`: finds the user, checks the password against the stored hash
        and issues a token for the user's id and role. */
    function Login(userId: string, password: string, generateToken: (string, string) -> string)
      : (r: Result<string>)
      reads this
      ensures r == Err(UserNotFound) <==> userId !in users
      ensures r == Err(AuthenticationFailed) <==> userId in users && !matches(password, users[userId].password)
      ensures r.Ok? <==> userId in users && matches(password, users[userId].password)
      ensures r.Ok? ==> r.value == generateToken(userId, users[userId].role)
    {
      if userId !in users then Err(UserNotFound)
      else if !matches(password, users[userId].password) then Err(AuthenticationFailed)
      else Ok(generateToken(userId, users[userId].role))
    }

    /** `completeProfile`: sets the user's profile flag, then loads the
        referrals naming the user as referred and saves each one as successful. */
    method CompleteProfile(userId: string) returns (r: Result<()>)
      requires Valid()
      modifies this
      ensures Valid()
      ensures TablesAdvance(old(users), old(referrals), users, referrals)
      ensures userId !in old(users) ==>
                r == Err(UserNotFound) && users == old(users) && referrals == old(referrals)
      ensures userId in old(users) ==>
                && r == Ok(())
                && users == old(users)[userId := old(users)[userId].(profileCompleted := true)]
                && referrals == MarkSuccessful(old(referrals), userId)
    {
      if userId !in users {
        return Err(UserNotFound);
      }
      var user := users[userId].(profileCompleted := true);
      users := users[userId := user];

      ghost var before := referrals;
      var found := FindByReferredId(referrals, userId);
      var k := 0;
      while k < |found|
        invariant 0 <= k <= |found|
        invariant users == old(users)[userId := user]
        invariant MarkedUpTo(before, found, k, referrals)
      {
        var referral := found[k];
        MarkNext(before, found, k, referrals);
        referrals := referrals[referral.id - 1 := referral.(successful := true)];
        k := k + 1;
      }
      MarkedAll(before, found, userId, referrals);
      CompleteUserKeepsValid(old(users), before, userId);
      return Ok(());
    }

    /** `getReferrals`: the referrals the user made, each once, in table order. */
    function GetReferrals(userId: string): (r: Result<seq<Referral>>)
      reads this
      requires Valid()
      ensures r.Err? <==> userId !in users
      ensures r.Err? ==> r.error == UserNotFound
      ensures r.Ok? ==> forall x :: x in r.value <==> x in referrals && x.referrerId == userId
      ensures r.Ok? ==> IdsAscending(r.value)
    {
      if userId !in users then Err(UserNotFound)
      else
        SequentialIdsAscend(referrals);
        Ok(FindByReferrerId(referrals, userId))
    }
  }
}
