/** The two stores as values: the users table is a map keyed by user id and
    the referrals table a sequence in insertion order. The derived queries of
    the repositories are equality filters over them. */
module Repository {
  import opened Results
  import opened Model

  // ---- users table -------------------------------------------------------

  /** Every row is stored under its own user id. */
  ghost predicate KeyedByUserId(users: map<string, User>) {
    forall id :: id in users ==> users[id].userId == id
  }

  /** No two users hold the same referral code. */
  ghost predicate CodesUnique(users: map<string, User>) {
    forall a, b :: a in users && b in users && users[a].referralCode == users[b].referralCode ==> a == b
  }

  /** Some stored user holds `code`. */
  ghost predicate CodeHeld(users: map<string, User>, code: string) {
    exists id :: id in users && users[id].referralCode == code
  }

  /** `findByReferralCode`: the user holding `code`, if any. The derived query
      returns an Optional, so it presumes at most one user matches. */
  function FindByReferralCode(users: map<string, User>, code: string): (r: Option<User>)
    requires CodesUnique(users)
    ensures r.Some? <==> CodeHeld(users, code)
    ensures r.Some? ==> r.value in users.Values && r.value.referralCode == code
  {
    if exists id :: id in users && users[id].referralCode == code then
      var id :| id in users && users[id].referralCode == code;
      Some(users[id])
    else
      None
  }

  // ---- referrals table ---------------------------------------------------

  /** The store numbers referrals 1, 2, 3, ... in insertion order. */
  ghost predicate IdsSequential(rs: seq<Referral>) {
    forall i :: 0 <= i < |rs| ==> rs[i].id == i + 1
  }

  /** Table order: ids strictly increase along the sequence (so no row repeats). */
  ghost predicate IdsAscending(rs: seq<Referral>) {
    forall i, j :: 0 <= i < j < |rs| ==> rs[i].id < rs[j].id
  }

  /** Both ends of every referral name a stored user. */
  ghost predicate ReferencesExist(users: map<string, User>, rs: seq<Referral>) {
    forall i :: 0 <= i < |rs| ==> rs[i].referrerId in users && rs[i].referredId in users
  }

  lemma SequentialIdsAscend(rs: seq<Referral>)
    requires IdsSequential(rs)
    ensures IdsAscending(rs)
  {
  }

  /** In a sequentially numbered table a row is found at index id - 1. */
  lemma RowAtItsId(rs: seq<Referral>, x: Referral)
    requires IdsSequential(rs)
    requires x in rs
    ensures 1 <= x.id <= |rs| && rs[x.id - 1] == x
  {
  }

  /** The rows of `rs` that satisfy `keep`, in table order. */
  function Select(rs: seq<Referral>, keep: Referral -> bool): (r: seq<Referral>)
    ensures |r| <= |rs|
    ensures forall x :: x in r <==> x in rs && keep(x)
  {
    if rs == [] then []
    else if keep(rs[0]) then [rs[0]] + Select(rs[1..], keep)
    else Select(rs[1..], keep)
  }

  /** Selecting rows keeps them in table order. */
  lemma {:induction false} SelectKeepsOrder(rs: seq<Referral>, keep: Referral -> bool)
    ensures IdsAscending(rs) ==> IdsAscending(Select(rs, keep))
  {
    if rs != [] && IdsAscending(rs) {
      var rest := Select(rs[1..], keep);
      SelectKeepsOrder(rs[1..], keep);
      forall x | x in rest ensures rs[0].id < x.id {
        var k :| 0 <= k < |rs[1..]| && rs[1..][k] == x;
        assert rs[k + 1] == x;
      }
    }
  }

  /** `findByReferrerId`: the referrals naming `referrerId` as referrer, in table order. */
  function FindByReferrerId(rs: seq<Referral>, referrerId: string): (r: seq<Referral>)
    ensures forall x :: x in r <==> x in rs && x.referrerId == referrerId
    ensures IdsAscending(rs) ==> IdsAscending(r)
  {
    SelectKeepsOrder(rs, (x: Referral) => x.referrerId == referrerId);
    Select(rs, (x: Referral) => x.referrerId == referrerId)
  }

  /** `findByReferredId`: the referrals naming `referredId` as referred user, in table order. */
  function FindByReferredId(rs: seq<Referral>, referredId: string): (r: seq<Referral>)
    ensures forall x :: x in r <==> x in rs && x.referredId == referredId
    ensures IdsAscending(rs) ==> IdsAscending(r)
  {
    SelectKeepsOrder(rs, (x: Referral) => x.referredId == referredId);
    Select(rs, (x: Referral) => x.referredId == referredId)
  }
}
