/** The row sequence of the CSV referral report: a header row, then one
    three-field row per referral, in the order the store lists them. */
module Controller {
  import opened Service

  /** The report's first row. */
  const Header: seq<string> := ["Referrer ID", "Referred ID", "Successful"]

  /** Java's `String.valueOf(boolean)`. */
  function BooleanText(b: bool): (s: string)
    ensures b <==> s == "true"
    ensures !b <==> s == "false"
  {
    if b then "true" else "false"
  }

  /** `generateReferralReport`: the rows written to the CSV writer, built
      from every stored referral. The store is only read. */
  method GenerateReferralReport(store: ReferralService) returns (rows: seq<seq<string>>)
    ensures |rows| == 1 + |store.referrals|
    ensures rows[0] == ["Referrer ID", "Referred ID", "Successful"]
    ensures forall i :: 0 <= i < |store.referrals| ==>
              rows[i + 1] == [store.referrals[i].referrerId, store.referrals[i].referredId,
                              BooleanText(store.referrals[i].successful)]
    ensures store.referrals == [] ==> rows == [Header]
  {
    var referrals := store.referrals;
    rows := [Header];
    for k := 0 to |referrals|
      invariant |rows| == 1 + k
      invariant rows[0] == Header
      invariant forall i :: 0 <= i < k ==>
                  rows[i + 1] == [referrals[i].referrerId, referrals[i].referredId,
                                  BooleanText(referrals[i].successful)]
    {
      var referral := referrals[k];
      rows := rows + [[referral.referrerId, referral.referredId, BooleanText(referral.successful)]];
    }
  }
}
