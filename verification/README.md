# Referral engine model

A Dafny model of the referral engine of a small referral-tracking web
service. Users sign up, optionally citing another user's referral code. When
a referred user completes their profile, the referral that names them is
marked successful. Referrers can list their referrals, and a report endpoint
exports every referral as CSV rows.

The service works on two tables:

- **users**: a `map<string, User>` keyed by user id. A `User` holds the id,
  the password hash, the referral code, the profile flag and the role.
- **referrals**: a `seq<Referral>` in insertion order. A `Referral` holds a
  surrogate id, the referrer's id, the referred user's id and the success flag.
  The store numbers rows 1, 2, 3, ... (an auto-increment key), so row `i`
  has id `i + 1`. Saving a referral with id `k` replaces row `k - 1`, and
  `findAll` lists rows in id order.

Modules:

- `Results`: `Option`, the four failures (`UserAlreadyExists`,
  `UserNotFound`, `InvalidReferralCode`, `AuthenticationFailed`) and
  `Result`. The exceptions the service throws become `Err` results.
- `Model`: the two entities, the UUID text form and the referral-code form.
- `Repository`: the table invariants and the derived queries
  (`findByReferralCode`, `findByReferrerId`, `findByReferredId`) as
  equality filters.
- `Service`: the class `ReferralService`, whose methods update the two
  tables in place. `Valid()` is the table invariant: rows are keyed by their
  own id, referral codes are unique and well formed, referral ids are
  sequential, and both ends of every referral are stored users. Every
  operation keeps `Valid()`, and `TablesAdvance` says that each one only
  adds rows or turns a flag from false to true.
- `Controller`: the row sequence of the CSV referral report.
- `Scenario`: client methods that follow the service's unit tests. They sign up
  A, then B with A's code, log in A, list A's referrals, and complete B's
  profile twice. They also try a duplicate id, an unknown login, an unknown
  referral code and a self-referral.

Abstract collaborators become parameters:

- The password encoder is a pair of functions (`encode`, `matches`) that the
  constructor receives.
- The token generator is a parameter of `Login`, as `JwtUtil` is in the source.
- The random source is a stream `uuids: nat -> string` of UUID texts. Draw
  `n` is the `n`-th call of `UUID.randomUUID()`.

Two behaviours of the code are kept as written:

- `signup` stores the new user (ReferralService.java line 52) before it
  checks the supplied referral code (lines 55-57). The two writes are not
  transactional, so an unknown code fails with `InvalidReferralCode` while
  the new user stays stored.
- The lookup of the supplied code (line 56) runs against a store that already
  holds the new user. A supplied code equal to the newcomer's fresh code
  makes the newcomer their own referrer (`Scenario.InvalidAndSelfReferral`).

## Model

| member | source | states |
|---|---|---|
| `Model.CodeFromUuid` | src/main/java/com/example/referral/service/ReferralService.java:113 | the candidate code is a prefix of the UUID text and is 8 lower-case hex digits |
| `Repository.FindByReferralCode` | src/main/java/com/example/referral/repository/UserRepository.java:12 | finds a user exactly when some stored user holds the code; the user found is stored and holds that code |
| `Repository.Select` | src/main/java/com/example/referral/repository/ReferralRepository.java:12-13 | a derived query keeps exactly the rows that satisfy its filter and is never longer than the table |
| `Repository.SelectKeepsOrder` | src/main/java/com/example/referral/repository/ReferralRepository.java:12-13 | a derived query lists rows in table order (ids strictly increase), so no row appears twice |
| `Repository.FindByReferrerId` | src/main/java/com/example/referral/repository/ReferralRepository.java:12 | lists exactly the referrals whose referrer is the given user, in table order |
| `Repository.FindByReferredId` | src/main/java/com/example/referral/repository/ReferralRepository.java:13 | lists exactly the referrals whose referred user is the given user, in table order |
| `Repository.RowAtItsId` | src/main/java/com/example/referral/model/Referral.java:19-21 | with auto-increment ids, a stored referral sits at position id - 1, which is what saving by id overwrites |
| `Service.MarkSuccessful` | src/main/java/com/example/referral/service/ReferralService.java:90-94 | after completion, a referral is successful iff it was before or names the user as referred; the row count and every other field are unchanged |
| `Service.MarkSuccessfulIdempotent` | src/main/java/com/example/referral/service/ReferralService.java:83-95 | completing the same profile a second time leaves the referrals table as the first completion left it |
| `Service.CompleteProfileTwiceIsOnce` | src/main/java/com/example/referral/service/ReferralService.java:83-95 | a second completion of the same profile leaves both the users table and the referrals table as the first completion left them |
| `Service.MarkSuccessfulAdvances` | src/main/java/com/example/referral/service/ReferralService.java:91-94 | marking referrals keeps ids and references valid and only turns success flags on |
| `Service.AddUserKeepsValid` | src/main/java/com/example/referral/service/ReferralService.java:46-52 | storing a new user whose fresh code nobody holds keeps referral codes unique and adds exactly one row |
| `Service.AddReferralKeepsValid` | src/main/java/com/example/referral/service/ReferralService.java:58-62 | appending a referral between two stored users, numbered next, keeps the invariant and leaves earlier rows alone |
| `Service.CompleteUserKeepsValid` | src/main/java/com/example/referral/service/ReferralService.java:84-94 | setting the profile flag and marking the referrals keeps the invariant and only turns flags on |
| `Service.ReferralService.constructor` | src/main/java/com/example/referral/service/ReferralService.java:29-34 | the service starts over the tables the repositories already hold, which must satisfy the table invariant, with the given password encoder |
| `Service.ReferralService.GenerateReferralCode` | src/main/java/com/example/referral/service/ReferralService.java:110-116 | returns the prefix of the first draw whose prefix no stored user holds: 8 hex characters, held by nobody, and every earlier draw was taken |
| `Service.ReferralService.Signup` | src/main/java/com/example/referral/service/ReferralService.java:39-66 | a taken id fails with UserAlreadyExists and nothing changes. Otherwise the new user is stored with role "USER", the profile flag off, the encoded password and a fresh unique code. No usable code: no referral. Unknown code: InvalidReferralCode, no referral, user kept. Held code: exactly one referral (holder, new user, false) is appended |
| `Service.ReferralService.Login` | src/main/java/com/example/referral/service/ReferralService.java:71-78 | unknown id gives UserNotFound; a password that does not match the stored hash gives AuthenticationFailed; otherwise the token for the id and stored role; no table changes |
| `Service.ReferralService.CompleteProfile` | src/main/java/com/example/referral/service/ReferralService.java:83-95 | unknown id gives UserNotFound and nothing changes; otherwise only that user's profile flag turns on and exactly the referrals naming the user as referred become successful |
| `Service.ReferralService.GetReferrals` | src/main/java/com/example/referral/service/ReferralService.java:100-105 | unknown id gives UserNotFound; otherwise exactly the referrals the user made, each once, in table order; no table changes |
| `Controller.BooleanText` | src/main/java/com/example/referral/controller/ReferralController.java:95 | the text of a flag is "true" when it is set and "false" when it is not |
| `Controller.GenerateReferralReport` | src/main/java/com/example/referral/controller/ReferralController.java:86-97 | a header row "Referrer ID", "Referred ID", "Successful", then row i + 1 holds referral i's referrer, referred user and flag text; header alone when there are no referrals; the store is only read |

## Left out

- Token signing, parsing and expiry (src/main/java/com/example/referral/security/JwtUtil.java) use a signing library and the wall clock. `Login` takes the token generator as a function parameter.
- The request filter in src/main/java/com/example/referral/security/JwtFilter.java is request plumbing and global security state, so it is not modelled.
- The password encoder is an external adaptive hash. It is modelled as a deterministic function `encode` and a predicate `matches`, so the random salt of each encoding is not captured.
- UUID randomness: only the text form of each draw is modelled, not the distribution.
- Service.ReferralService.GenerateReferralCode: requires that some draw in the stream yields a code nobody holds. The source has no retry bound and would loop forever otherwise, and that divergence is not modelled. `Signup` carries the same requirement when the id is new.
- Persistence: the two repositories become a map and a sequence. Database uniqueness constraints, transactions and concurrent signups are not modelled. Nothing in the source coordinates concurrency.
- The `id` of a referral is taken to count up from 1 in insertion order, and `findAll`, `findByReferrerId` and `findByReferredId` are taken to list rows in that order. The real store decides all of these.
- Java `null` for the user id or the password is not modelled. Only the referral code may be absent (`None`).
- CSV quoting and byte encoding by the CSV writer, the HTTP headers and the status codes of the report endpoint are left out. The model stops at the row sequence.
- The other controller endpoints only delegate to the service and map failures to HTTP statuses, so they are not modelled.
- Serialization of the returned user (the password hash is hidden from clients) is part of the transport and is not modelled.
