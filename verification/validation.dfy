/** Sign-up validation: an ordered chain of checks on a candidate customer
    where the first failing check supplies the one message shown. */
module Validation {
  import opened Wrappers
  import opened Models

  const FirstNameMissing := "Please Enter your First Name !!"
  const FirstNameTooShort := "First Name must be 3 char long or more"
  const LastNameMissing := "Please Enter your Last Name"
  const LastNameTooShort := "Last Name must be 3 char long or more"
  const PhoneMissing := "Enter your Phone Number"
  const PhoneTooShort := "Phone Number must be 10 char Long"
  const PasswordTooShort := "Password must be 5 char long"
  const EmailTooShort := "Email must be 5 char long"
  const EmailTaken := "Email Address Already Registered.."

  /** A candidate the chain lets through: names of at least 3 characters, a
      phone of at least 10, a password and an email of at least 5, and an
      email no stored customer has. */
  predicate Acceptable(c: Customer, stored: seq<Customer>) {
    && |c.firstName| >= 3
    && |c.lastName| >= 3
    && |c.phone| >= 10
    && |c.password| >= 5
    && |c.email| >= 5
    && !IsExists(stored, c.email)
  }

  /** `validateCustomer`: the message of the first failing check, or None when
      every check passes. The password is the one typed, before hashing. */
  function ValidateCustomer(c: Customer, stored: seq<Customer>): (r: Option<string>)
    ensures r.None? <==> Acceptable(c, stored)
    ensures r == Some(FirstNameMissing) <==> |c.firstName| == 0
    ensures r == Some(FirstNameTooShort) <==> 0 < |c.firstName| < 3
    ensures r == Some(LastNameMissing) <==> |c.firstName| >= 3 && |c.lastName| == 0
    ensures r == Some(LastNameTooShort) <==> |c.firstName| >= 3 && 0 < |c.lastName| < 3
    ensures r == Some(PhoneMissing) <==> |c.firstName| >= 3 && |c.lastName| >= 3 && |c.phone| == 0
    ensures r == Some(PhoneTooShort) <==>
      |c.firstName| >= 3 && |c.lastName| >= 3 && 0 < |c.phone| < 10
    ensures r == Some(PasswordTooShort) <==>
      |c.firstName| >= 3 && |c.lastName| >= 3 && |c.phone| >= 10 && |c.password| < 5
    ensures r == Some(EmailTooShort) <==>
      |c.firstName| >= 3 && |c.lastName| >= 3 && |c.phone| >= 10 && |c.password| >= 5 && |c.email| < 5
    ensures r == Some(EmailTaken) <==>
      |c.firstName| >= 3 && |c.lastName| >= 3 && |c.phone| >= 10 && |c.password| >= 5 && |c.email| >= 5
      && IsExists(stored, c.email)
  {
    if |c.firstName| == 0 then Some(FirstNameMissing)
    else if |c.firstName| < 3 then Some(FirstNameTooShort)
    else if |c.lastName| == 0 then Some(LastNameMissing)
    else if |c.lastName| < 3 then Some(LastNameTooShort)
    else if |c.phone| == 0 then Some(PhoneMissing)
    else if |c.phone| < 10 then Some(PhoneTooShort)
    else if |c.password| < 5 then Some(PasswordTooShort)
    else if |c.email| < 5 then Some(EmailTooShort)
    else if IsExists(stored, c.email) then Some(EmailTaken)
    else None
  }

  /** One check of the chain: whether it fails, and what it then reports. */
  datatype Rule = Rule(fails: bool, message: string)

  /** The checks in the order they are tried. */
  function Rules(c: Customer, stored: seq<Customer>): seq<Rule> {
    [ Rule(|c.firstName| == 0, FirstNameMissing),
      Rule(|c.firstName| < 3, FirstNameTooShort),
      Rule(|c.lastName| == 0, LastNameMissing),
      Rule(|c.lastName| < 3, LastNameTooShort),
      Rule(|c.phone| == 0, PhoneMissing),
      Rule(|c.phone| < 10, PhoneTooShort),
      Rule(|c.password| < 5, PasswordTooShort),
      Rule(|c.email| < 5, EmailTooShort),
      Rule(IsExists(stored, c.email), EmailTaken) ]
  }

  /** First-failure-wins over any list of checks. */
  function FirstFailure(rules: seq<Rule>): (r: Option<string>)
    ensures r.None? <==> forall i :: 0 <= i < |rules| ==> !rules[i].fails
    ensures r.Some? ==>
      exists i :: 0 <= i < |rules| && rules[i].fails && rules[i].message == r.value
        && forall j :: 0 <= j < i ==> !rules[j].fails
  {
    if |rules| == 0 then None
    else if rules[0].fails then Some(rules[0].message)
    else
      var r := FirstFailure(rules[1..]);
      assert forall j :: 0 < j < |rules| ==> rules[j] == rules[1..][j - 1];
      r
  }

  lemma FirstFailureCons(x: Rule, rest: seq<Rule>)
    ensures FirstFailure([x] + rest) == if x.fails then Some(x.message) else FirstFailure(rest)
  {
    assert ([x] + rest)[1..] == rest;
  }

  /** The if/elif chain is exactly first-failure-wins over the ordered checks. */
  lemma ValidateIsFirstFailure(c: Customer, stored: seq<Customer>)
    ensures ValidateCustomer(c, stored) == FirstFailure(Rules(c, stored))
  {
    var rs := Rules(c, stored);
    var r9: seq<Rule> := [rs[8]];
    var r8 := [rs[7]] + r9;
    var r7 := [rs[6]] + r8;
    var r6 := [rs[5]] + r7;
    var r5 := [rs[4]] + r6;
    var r4 := [rs[3]] + r5;
    var r3 := [rs[2]] + r4;
    var r2 := [rs[1]] + r3;
    assert rs == [rs[0]] + r2;
    FirstFailureCons(rs[8], []);
    assert r9 == [rs[8]] + [];
    FirstFailureCons(rs[7], r9);
    FirstFailureCons(rs[6], r8);
    FirstFailureCons(rs[5], r7);
    FirstFailureCons(rs[4], r6);
    FirstFailureCons(rs[3], r5);
    FirstFailureCons(rs[2], r4);
    FirstFailureCons(rs[1], r3);
    FirstFailureCons(rs[0], r2);
  }
}
