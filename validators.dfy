/** Request validators (server/validators/index.js). Each validator runs a fixed
    list of checks in order and pushes the message of every failing check. */
module Validators {
  import opened Common
  import opened Text
  import ServerUtils

  datatype Validation = Validation(isValid: bool, errors: seq<string>)

  /** A check: whether it fails, and the message it reports then. */
  type Check = (bool, string)

  /** The messages of the failing checks, in the order of the checks. */
  function Failures(checks: seq<Check>): seq<string>
  {
    if checks == [] then []
    else (if checks[0].0 then [checks[0].1] else []) + Failures(checks[1..])
  }

  function Messages(checks: seq<Check>): (ms: seq<string>)
    ensures |ms| == |checks| && forall k :: 0 <= k < |checks| ==> ms[k] == checks[k].1
  {
    seq(|checks|, k requires 0 <= k < |checks| => checks[k].1)
  }

  /** `a` is `b` with some elements left out and the rest in the same order. */
  predicate IsSubsequence(a: seq<string>, b: seq<string>)
    decreases |b|
  {
    if a == [] then true
    else if b == [] then false
    else (a[0] == b[0] && IsSubsequence(a[1..], b[1..])) || IsSubsequence(a, b[1..])
  }

  predicate DistinctMessages(ms: seq<string>)
  {
    forall i, j :: 0 <= i < j < |ms| ==> ms[i] != ms[j]
  }

  /** The reported messages keep the order of the checks, each at most once. */
  lemma {:induction false} FailuresInOrder(checks: seq<Check>)
    ensures IsSubsequence(Failures(checks), Messages(checks))
    ensures |Failures(checks)| <= |checks|
  {
    if checks != [] {
      FailuresInOrder(checks[1..]);
      assert Messages(checks)[1..] == Messages(checks[1..]);
      var rest := Failures(checks[1..]);
      if !checks[0].0 {
        assert Failures(checks) == rest;
        if rest != [] {
          assert IsSubsequence(rest, Messages(checks)[1..]);
        }
      } else {
        assert Failures(checks)[1..] == rest;
      }
    }
  }

  /** With distinct messages, a check's message is reported iff the check fails. */
  lemma {:induction false} FailuresReport(checks: seq<Check>, k: nat)
    requires k < |checks| && DistinctMessages(Messages(checks))
    ensures checks[k].1 in Failures(checks) <==> checks[k].0
  {
    var tail := checks[1..];
    assert DistinctMessages(Messages(tail)) by {
      forall i, j | 0 <= i < j < |tail| ensures Messages(tail)[i] != Messages(tail)[j] {
        assert Messages(checks)[i + 1] != Messages(checks)[j + 1];
      }
    }
    if k == 0 {
      assert checks[0].1 !in Failures(tail) by {
        forall j | 0 <= j < |tail| ensures tail[j].1 != checks[0].1 {
          assert Messages(checks)[0] != Messages(checks)[j + 1];
        }
        FailuresFrom(tail, checks[0].1);
      }
    } else {
      FailuresReport(tail, k - 1);
      assert checks[0].1 != checks[k].1 by {
        assert Messages(checks)[0] != Messages(checks)[k];
      }
    }
  }

  /** Every reported message is the message of one of the checks. */
  lemma {:induction false} FailuresFrom(checks: seq<Check>, m: string)
    requires forall j :: 0 <= j < |checks| ==> checks[j].1 != m
    ensures m !in Failures(checks)
  {
    if checks != [] {
      FailuresFrom(checks[1..], m);
    }
  }

  /** A subsequence of distinct messages is made of distinct messages. */
  lemma {:induction false} SubsequenceDistinct(a: seq<string>, b: seq<string>)
    requires IsSubsequence(a, b) && DistinctMessages(b)
    ensures DistinctMessages(a)
    ensures forall x :: x in a ==> x in b
    decreases |b|
  {
    if a != [] {
      assert DistinctMessages(b[1..]) by {
        forall i, j | 0 <= i < j < |b[1..]| ensures b[1..][i] != b[1..][j] {
          assert b[i + 1] != b[j + 1];
        }
      }
      if a[0] == b[0] && IsSubsequence(a[1..], b[1..]) {
        SubsequenceDistinct(a[1..], b[1..]);
        assert a == [a[0]] + a[1..];
        assert b[0] !in b[1..] by {
          forall j | 0 <= j < |b[1..]| ensures b[1..][j] != b[0] { assert b[j + 1] != b[0]; }
        }
      } else {
        SubsequenceDistinct(a, b[1..]);
      }
    }
  }

  // ---- validateUserRegistration ----

  const NameMessage: string := "Name must be at least 3 characters"
  const EmailMessage: string := "Valid email is required"
  const PasswordMessage: string := "Password must be at least 6 characters"
  const PhoneMessage: string := "Valid phone number is required"

  datatype UserData = UserData(name: Option<string>, email: Option<string>, phone: Option<string>, password: Option<string>)

  /** Missing, empty, or shorter than `n` once trimmed. */
  predicate TooShort(o: Option<string>, n: nat)
  {
    !Truthy(o) || |Trim(o.value)| < n
  }

  predicate EmailInvalid(email: Option<string>)
  {
    !Truthy(email) || !ServerUtils.ValidateEmail(email.value)
  }

  /** Missing, or shorter than 6 as given (no trimming). */
  predicate PasswordInvalid(password: Option<string>)
  {
    !Truthy(password) || |password.value| < 6
  }

  /** Missing, or shorter than 10 as given; the characters are not looked at. */
  predicate PhoneInvalid(phone: Option<string>)
  {
    !Truthy(phone) || |phone.value| < 10
  }

  /** The forms validateUserRegistration accepts: every rule holds. */
  predicate AcceptsUser(d: UserData)
  {
    !TooShort(d.name, 3) && !EmailInvalid(d.email) && !PasswordInvalid(d.password) && !PhoneInvalid(d.phone)
  }

  function UserChecks(d: UserData): seq<Check>
  {
    [(TooShort(d.name, 3), NameMessage), (EmailInvalid(d.email), EmailMessage),
     (PasswordInvalid(d.password), PasswordMessage), (PhoneInvalid(d.phone), PhoneMessage)]
  }

  method ValidateUserRegistration(d: UserData) returns (v: Validation)
    ensures v.errors == Failures(UserChecks(d))
    ensures v.isValid <==> v.errors == []
  {
    var nameBad, emailBad := TooShort(d.name, 3), EmailInvalid(d.email);
    var passwordBad, phoneBad := PasswordInvalid(d.password), PhoneInvalid(d.phone);
    var errors: seq<string> := [];
    if nameBad {
      errors := errors + [NameMessage];
    }
    if emailBad {
      errors := errors + [EmailMessage];
    }
    if passwordBad {
      errors := errors + [PasswordMessage];
    }
    if phoneBad {
      errors := errors + [PhoneMessage];
    }
    UserFailures(nameBad, emailBad, passwordBad, phoneBad);
    v := Validation(|errors| == 0, errors);
  }

  lemma UserFailures(a: bool, b: bool, c: bool, e: bool)
    ensures Failures([(a, NameMessage), (b, EmailMessage), (c, PasswordMessage), (e, PhoneMessage)])
            == Reported((a, NameMessage)) + Reported((b, EmailMessage)) + Reported((c, PasswordMessage)) + Reported((e, PhoneMessage))
    ensures Failures([(a, NameMessage), (b, EmailMessage), (c, PasswordMessage), (e, PhoneMessage)]) == [] <==> !a && !b && !c && !e
  {
    FailuresUnfold4([(a, NameMessage), (b, EmailMessage), (c, PasswordMessage), (e, PhoneMessage)]);
  }

  /** The message a single check contributes. */
  function Reported(c: Check): seq<string>
  {
    if c.0 then [c.1] else []
  }

  lemma FailuresStep(cs: seq<Check>, i: nat)
    requires i < |cs|
    ensures Failures(cs[i..]) == Reported(cs[i]) + Failures(cs[i + 1..])
  {
    assert cs[i..][1..] == cs[i + 1..];
  }

  lemma FailuresUnfold4(cs: seq<Check>)
    requires |cs| == 4
    ensures Failures(cs) == Reported(cs[0]) + Reported(cs[1]) + Reported(cs[2]) + Reported(cs[3])
  {
    assert cs[0..] == cs && cs[4..] == [];
    FailuresStep(cs, 0);
    FailuresStep(cs, 1);
    FailuresStep(cs, 2);
    FailuresStep(cs, 3);
  }

  lemma FailuresUnfold3(cs: seq<Check>)
    requires |cs| == 3
    ensures Failures(cs) == Reported(cs[0]) + Reported(cs[1]) + Reported(cs[2])
  {
    assert cs[0..] == cs && cs[3..] == [];
    FailuresStep(cs, 0);
    FailuresStep(cs, 1);
    FailuresStep(cs, 2);
  }

  /** For checks with distinct messages: the report lists distinct messages
      in the order of the checks, and each check's message is in it exactly
      when that check fails. */
  lemma ReportsExactly(cs: seq<Check>)
    requires DistinctMessages(Messages(cs))
    ensures IsSubsequence(Failures(cs), Messages(cs))
    ensures DistinctMessages(Failures(cs))
    ensures |Failures(cs)| <= |cs|
    ensures forall k :: 0 <= k < |cs| ==> (cs[k].1 in Failures(cs) <==> cs[k].0)
  {
    FailuresInOrder(cs);
    SubsequenceDistinct(Failures(cs), Messages(cs));
    forall k | 0 <= k < |cs| ensures cs[k].1 in Failures(cs) <==> cs[k].0 {
      FailuresReport(cs, k);
    }
  }

  /** The registration errors: name, e-mail, password, phone, in that order,
      each at most once and exactly when its rule fails. */
  lemma UserRegistrationErrors(d: UserData)
    ensures var errs := Failures(UserChecks(d));
      && |errs| <= 4
      && IsSubsequence(errs, [NameMessage, EmailMessage, PasswordMessage, PhoneMessage])
      && DistinctMessages(errs)
      && (NameMessage in errs <==> TooShort(d.name, 3))
      && (EmailMessage in errs <==> EmailInvalid(d.email))
      && (PasswordMessage in errs <==> PasswordInvalid(d.password))
      && (PhoneMessage in errs <==> PhoneInvalid(d.phone))
      && (errs == [] <==> AcceptsUser(d))
  {
    UserReports(TooShort(d.name, 3), EmailInvalid(d.email), PasswordInvalid(d.password), PhoneInvalid(d.phone));
  }

  lemma UserReports(a: bool, b: bool, c: bool, e: bool)
    ensures var errs := Failures([(a, NameMessage), (b, EmailMessage), (c, PasswordMessage), (e, PhoneMessage)]);
      && |errs| <= 4
      && IsSubsequence(errs, [NameMessage, EmailMessage, PasswordMessage, PhoneMessage])
      && DistinctMessages(errs)
      && (NameMessage in errs <==> a) && (EmailMessage in errs <==> b)
      && (PasswordMessage in errs <==> c) && (PhoneMessage in errs <==> e)
      && (errs == [] <==> !a && !b && !c && !e)
  {
    var cs := [(a, NameMessage), (b, EmailMessage), (c, PasswordMessage), (e, PhoneMessage)];
    assert Messages(cs) == [NameMessage, EmailMessage, PasswordMessage, PhoneMessage];
    ReportsExactly(cs);
    assert cs[0].0 == a && cs[1].0 == b && cs[2].0 == c && cs[3].0 == e;
    FailuresUnfold4(cs);
  }

  // ---- validateProjectCreation ----

  const TitleMessage: string := "Project title is required and must be at least 3 characters"
  const DescriptionMessage: string := "Project description must be at least 10 characters"
  const ClientIdMessage: string := "Client ID is required"

  datatype ProjectData = ProjectData(title: Option<string>, description: Option<string>, clientId: Option<string>)

  function ProjectChecks(d: ProjectData): seq<Check>
  {
    [(TooShort(d.title, 3), TitleMessage),
     (TooShort(d.description, 10), DescriptionMessage),
     (!Truthy(d.clientId), ClientIdMessage)]
  }

  method ValidateProjectCreation(d: ProjectData) returns (v: Validation)
    ensures v.errors == Failures(ProjectChecks(d))
    ensures v.isValid <==> v.errors == []
  {
    var errors: seq<string> := [];
    if TooShort(d.title, 3) {
      errors := errors + [TitleMessage];
    }
    if TooShort(d.description, 10) {
      errors := errors + [DescriptionMessage];
    }
    if !Truthy(d.clientId) {
      errors := errors + [ClientIdMessage];
    }
    FailuresUnfold3(ProjectChecks(d));
    v := Validation(|errors| == 0, errors);
  }

  /** Title, description, client id, in that order, each exactly when its rule fails. */
  lemma ProjectCreationErrors(d: ProjectData)
    ensures var errs := Failures(ProjectChecks(d));
      && IsSubsequence(errs, [TitleMessage, DescriptionMessage, ClientIdMessage])
      && DistinctMessages(errs)
      && (TitleMessage in errs <==> TooShort(d.title, 3))
      && (DescriptionMessage in errs <==> TooShort(d.description, 10))
      && (ClientIdMessage in errs <==> !Truthy(d.clientId))
  {
    ProjectReports(TooShort(d.title, 3), TooShort(d.description, 10), !Truthy(d.clientId));
  }

  lemma ProjectReports(a: bool, b: bool, c: bool)
    ensures var errs := Failures([(a, TitleMessage), (b, DescriptionMessage), (c, ClientIdMessage)]);
      && IsSubsequence(errs, [TitleMessage, DescriptionMessage, ClientIdMessage])
      && DistinctMessages(errs)
      && (TitleMessage in errs <==> a) && (DescriptionMessage in errs <==> b) && (ClientIdMessage in errs <==> c)
  {
    var cs := [(a, TitleMessage), (b, DescriptionMessage), (c, ClientIdMessage)];
    assert Messages(cs) == [TitleMessage, DescriptionMessage, ClientIdMessage];
    ReportsExactly(cs);
    assert cs[0].0 == a && cs[1].0 == b && cs[2].0 == c;
  }

  // ---- validateMeetingCreation ----

  const MeetingTitleMessage: string := "Meeting title is required"
  const DateMessage: string := "Meeting date must be in the future"
  const ParticipantsMessage: string := "At least one participant is required"

  /** `date` is the time stamp `new Date(date)` denotes. */
  datatype MeetingData = MeetingData(title: Option<string>, date: Option<int>, participants: Option<seq<Id>>)

  /** `now` is the reading of `new Date()`. */
  function MeetingChecks(d: MeetingData, now: int): seq<Check>
  {
    [(TooShort(d.title, 3), MeetingTitleMessage),
     (d.date.None? || d.date.value < now, DateMessage),
     (d.participants.None? || |d.participants.value| == 0, ParticipantsMessage)]
  }

  method ValidateMeetingCreation(d: MeetingData, now: int) returns (v: Validation)
    ensures v.errors == Failures(MeetingChecks(d, now))
    ensures v.isValid <==> v.errors == []
  {
    var errors: seq<string> := [];
    if TooShort(d.title, 3) {
      errors := errors + [MeetingTitleMessage];
    }
    if d.date.None? || d.date.value < now {
      errors := errors + [DateMessage];
    }
    if d.participants.None? || |d.participants.value| == 0 {
      errors := errors + [ParticipantsMessage];
    }
    FailuresUnfold3(MeetingChecks(d, now));
    v := Validation(|errors| == 0, errors);
  }

  /** A date equal to `now` passes; only a strictly earlier (or missing) date
      is reported, and so is a missing or empty participant list. */
  lemma MeetingCreationErrors(d: MeetingData, now: int)
    ensures var errs := Failures(MeetingChecks(d, now));
      && IsSubsequence(errs, [MeetingTitleMessage, DateMessage, ParticipantsMessage])
      && DistinctMessages(errs)
      && (DateMessage in errs <==> d.date.None? || d.date.value < now)
      && (ParticipantsMessage in errs <==> d.participants.None? || d.participants.value == [])
      && (MeetingTitleMessage in errs <==> TooShort(d.title, 3))
  {
    MeetingReports(TooShort(d.title, 3), d.date.None? || d.date.value < now, d.participants.None? || |d.participants.value| == 0);
  }

  lemma MeetingReports(a: bool, b: bool, c: bool)
    ensures var errs := Failures([(a, MeetingTitleMessage), (b, DateMessage), (c, ParticipantsMessage)]);
      && IsSubsequence(errs, [MeetingTitleMessage, DateMessage, ParticipantsMessage])
      && DistinctMessages(errs)
      && (MeetingTitleMessage in errs <==> a) && (DateMessage in errs <==> b) && (ParticipantsMessage in errs <==> c)
  {
    var cs := [(a, MeetingTitleMessage), (b, DateMessage), (c, ParticipantsMessage)];
    assert Messages(cs) == [MeetingTitleMessage, DateMessage, ParticipantsMessage];
    ReportsExactly(cs);
    assert cs[0].0 == a && cs[1].0 == b && cs[2].0 == c;
  }
}
