/** The two persisted entities and the text formats they carry. */
module Model {

  /** A row of the users table. `password` holds the encoder's output,
      never the raw password. */
  datatype User = User(
    userId: string,
    password: string,
    referralCode: string,
    profileCompleted: bool,
    role: string)

  /** A row of the referrals table; `id` is the surrogate key the store assigns. */
  datatype Referral = Referral(
    id: nat,
    referrerId: string,
    referredId: string,
    successful: bool)

  /** The role every user receives at signup. */
  const DefaultRole: string := "USER"

  /** Length of a referral code: the first group of a UUID's text form. */
  const CodeLength: nat := 8

  predicate IsLowerHexDigit(c: char) {
    '0' <= c <= '9' || 'a' <= c <= 'f'
  }

  /** The canonical text form of a UUID: 36 characters, lower-case hex digits
      in groups of 8-4-4-4-12 separated by hyphens. */
  predicate IsUuidText(s: string) {
    && |s| == 36
    && forall i :: 0 <= i < |s| ==>
         if i == 8 || i == 13 || i == 18 || i == 23 then s[i] == '-' else IsLowerHexDigit(s[i])
  }

  /** The form of every generated referral code. */
  predicate IsReferralCode(c: string) {
    |c| == CodeLength && forall i :: 0 <= i < |c| ==> IsLowerHexDigit(c[i])
  }

  /** The candidate code taken from one random UUID: its first eight characters. */
  function CodeFromUuid(uuid: string): (code: string)
    requires IsUuidText(uuid)
    ensures IsReferralCode(code)
    ensures code <= uuid
  {
    uuid[..CodeLength]
  }
}
