/** Client methods of the referral engine that follow the service's own test
    cases and the signup-referral-completion walk-through. */
module Scenario {
  import opened Results
  import opened Model
  import opened Repository
  import opened Service

  /** A UUID text whose first group is `group` and whose other digits are zero. */
  function UuidStartingWith(group: string): (uuid: string)
    requires IsReferralCode(group)
    ensures IsUuidText(uuid) && CodeFromUuid(uuid) == group
  {
    group + "-0000-4000-8000-000000000000"
  }

  /** Signup of A without a code, then the steps below. */
  method SignupAndReferral()
  {
    var s := new ReferralService(map[], [], p => "hash:" + p, (raw, hashed) => hashed == "hash:" + raw);
    var drawsA := (n: nat) => UuidStartingWith("0a0a0a0a");

    assert !CodeHeld(s.users, CodeFromUuid(drawsA(0)));
    var a := s.Signup("userA", "passwordA", None, drawsA);
    assert s.users.Keys == {"userA"};
    var codeA := s.users["userA"].referralCode;
    assert codeA == "0a0a0a0a";
    assert s.encode("passwordA") == "hash:" + "passwordA" == "hash:passwordA";
    assert a == Ok(User("userA", "hash:passwordA", codeA, false, "USER"));
    assert s.referrals == [];
    assert s.matches("passwordA", "hash:passwordA");
    ReferredSignup(s);
  }

  /** Signup of B with A's code, then the login, listing and completion steps below. */
  method ReferredSignup(s: ReferralService)
    requires s.Valid()
    requires s.users.Keys == {"userA"} && s.referrals == []
    requires s.users["userA"] == User("userA", "hash:passwordA", "0a0a0a0a", false, "USER")
    requires s.matches("passwordA", "hash:passwordA")
    modifies s
  {
    var codeA := "0a0a0a0a";
    var drawsB := (n: nat) => UuidStartingWith("0b0b0b0b");
    assert !CodeHeld(s.users, CodeFromUuid(drawsB(0)));
    var b := s.Signup("userB", "passwordB", Some(codeA), drawsB);
    assert b.Ok? && b.value.userId == "userB";
    assert CodeHeld(s.users, codeA);
    var referrer := FindByReferralCode(s.users, codeA).value;
    assert s.users["userA"] == referrer;
    var expected := Referral(1, "userA", "userB", false);
    assert s.referrals == [expected];

    assert s.users["userA"] == User("userA", "hash:passwordA", codeA, false, "USER");
    ListAndComplete(s);
  }

  /** Login of A, then A's referrals before and after B completes the profile, twice. */
  method ListAndComplete(s: ReferralService)
    requires s.Valid()
    requires "userA" in s.users && "userB" in s.users
    requires s.users["userA"].role == "USER" && s.matches("passwordA", s.users["userA"].password)
    requires s.referrals == [Referral(1, "userA", "userB", false)]
    modifies s
  {
    var token := s.Login("userA", "passwordA", (id, role) => id + "/" + role);
    assert token == Ok("userA" + "/" + "USER");

    var expected := Referral(1, "userA", "userB", false);
    var listed := s.GetReferrals("userA");
    assert listed.Ok? && expected in listed.value;
    assert listed.value == [expected];

    var done := s.CompleteProfile("userB");
    assert done == Ok(());
    assert s.users["userB"].profileCompleted;
    assert s.referrals == [expected.(successful := true)];

    var usersOnce, referralsOnce := s.users, s.referrals;
    var again := s.CompleteProfile("userB");
    MarkSuccessfulIdempotent([expected], "userB");
    assert again == Ok(()) && s.users == usersOnce && s.referrals == referralsOnce;

    listed := s.GetReferrals("userA");
    assert listed == Ok([expected.(successful := true)]);
  }

  /** A second signup under a taken id fails and changes nothing; login of an
      unknown id fails. */
  method DuplicateSignupAndUnknownLogin()
  {
    var s := new ReferralService(map[], [], p => "hash:" + p, (raw, hashed) => hashed == "hash:" + raw);
    var draws := (n: nat) => UuidStartingWith("0a0a0a0a");
    assert !CodeHeld(s.users, CodeFromUuid(draws(0)));
    var first := s.Signup("userA", "passwordA", None, draws);
    var usersBefore, referralsBefore := s.users, s.referrals;

    var second := s.Signup("userA", "passwordB", None, draws);
    assert second == Err(UserAlreadyExists);
    assert s.users == usersBefore && s.referrals == referralsBefore;

    var token := s.Login("nonexistent", "password", (id, role) => id + "/" + role);
    assert token == Err(UserNotFound);
  }

  /** An unknown code is rejected only after the new user is stored; a code
      equal to the newcomer's own fresh code makes the newcomer its own referrer. */
  method InvalidAndSelfReferral()
  {
    var s := new ReferralService(map[], [], p => "hash:" + p, (raw, hashed) => hashed == "hash:" + raw);
    var drawsC := (n: nat) => UuidStartingWith("0c0c0c0c");
    var drawsD := (n: nat) => UuidStartingWith("0d0d0d0d");

    assert !CodeHeld(s.users, CodeFromUuid(drawsC(0)));
    var c := s.Signup("userC", "passwordC", Some("NO-SUCH"), drawsC);
    assert !CodeHeld(s.users, "NO-SUCH") by {
      assert !IsReferralCode("NO-SUCH");
    }
    assert c == Err(InvalidReferralCode);
    assert "userC" in s.users && s.referrals == [];

    assert !CodeHeld(s.users, CodeFromUuid(drawsD(0)));
    var d := s.Signup("userD", "passwordD", Some("0d0d0d0d"), drawsD);
    assert s.users["userD"].referralCode == "0d0d0d0d";
    assert CodeHeld(s.users, "0d0d0d0d");
    var referrer := FindByReferralCode(s.users, "0d0d0d0d").value;
    assert s.users["userD"] == referrer;
    assert d.Ok? && s.referrals == [Referral(1, "userD", "userD", false)];
  }
}
