/** The account rules of cloud/main.js: the User beforeSave defaults and restricted
 *  flags (39-64), the Profile beforeSave defaults (95-205), and the copy of a Facebook
 *  profile into a profile change set, `_copyFacebookProfile` (316-357). */
module Accounts {
  import opened Common
  import opened Records
  import opened Text

  /** Which of the fields a client may not change are dirty in a User save. */
  datatype UserEdits = UserEdits(admin: bool, premium: bool, credits: bool)

  /** The User beforeSave hook. A new user gets admin and premium off, no credits, an empty
   *  match list and an ACL nobody but the master key passes. A client save of an existing
   *  user that touches admin, premium or credits is refused, checked in that order. Every
   *  accepted save copies authData.facebook.id into fbId. */
  function UserBeforeSave(u: User, isNew: bool, master: bool, dirty: UserEdits): (r: Result<User>)
    ensures isNew || master ==> r.Ok?
    ensures !isNew && !master ==> (r.Err? <==> dirty.admin || dirty.premium || dirty.credits)
    ensures !isNew && !master && dirty.admin ==> r == Err("You cant set the admin flag")
    ensures !isNew && !master && !dirty.admin && dirty.premium ==> r == Err("You cant set the premium flag")
    ensures !isNew && !master && !dirty.admin && !dirty.premium && dirty.credits ==>
              r == Err("You cant set the credits")
    ensures r.Ok? && isNew ==>
              && !r.value.admin && !r.value.premium && r.value.credits == 0
              && r.value.matches == Some([]) && r.value.acl == Some(NoAccess)
    ensures r.Ok? && !isNew ==> r.value.(fbId := u.fbId) == u
    ensures r.Ok? ==> r.value.fbId == if u.facebook.Some? then u.facebook.value.id else u.fbId
    ensures r.Ok? ==> r.value.status == u.status && r.value.profile == u.profile && r.value.facebook == u.facebook
  {
    if !isNew && !master && dirty.admin then Err("You cant set the admin flag")
    else if !isNew && !master && dirty.premium then Err("You cant set the premium flag")
    else if !isNew && !master && dirty.credits then Err("You cant set the credits")
    else
      var base := if isNew then u.(admin := false, premium := false, credits := 0, matches := Some([]), acl := Some(NoAccess))
                  else u;
      if base.facebook.Some? && base.fbId != base.facebook.value.id then Ok(base.(fbId := base.facebook.value.id))
      else Ok(base)
  }

  /** Saving twice is saving once: the second pass finds fbId already extracted. */
  lemma UserBeforeSaveSettles(u: User, master: bool)
    requires UserBeforeSave(u, false, master, UserEdits(false, false, false)).Ok?
    ensures var once := UserBeforeSave(u, false, master, UserEdits(false, false, false)).value;
            UserBeforeSave(once, false, master, UserEdits(false, false, false)) == Ok(once)
  {
  }

  /** Which fields the Profile beforeSave hook looks at are dirty in a save. */
  datatype ProfileEdits = ProfileEdits(birthdate: bool, gender: bool)

  const MinAgeFrom := 18
  /** MAX_AGE_PLUS: the top of the age slider, meaning "55 and over". */
  const MaxAgePlus := 55

  /** A JavaScript number that is falsy: absent or 0. */
  predicate FalsyNumber(n: Option<int>)
  {
    n.None? || n.value == 0
  }

  /** The default ageFrom: five years below the age, but not under 18. */
  function DefaultAgeFrom(age: int): (a: int)
    ensures a >= MinAgeFrom
    ensures a == age - 5 || (a == MinAgeFrom && age - 5 < MinAgeFrom)
  {
    if age - 5 < MinAgeFrom then MinAgeFrom else age - 5
  }

  /** The default ageTo: five years above the age, but not over 55. */
  function DefaultAgeTo(age: int): (a: int)
    ensures a <= MaxAgePlus
    ensures a == age + 5 || (a == MaxAgePlus && age + 5 > MaxAgePlus)
  {
    if age + 5 > MaxAgePlus then MaxAgePlus else age + 5
  }

  /** The Profile beforeSave hook. The RESTRICT_* switches of main.js:28-30 are off, so no
   *  field is refused. A new profile needs an owner (the calling user, else its uid field)
   *  and gets the defaults and an owner-only ACL. On an existing profile a changed
   *  birthdate fills a falsy ageFrom/ageTo around the age (`ageOf`, the age in years at
   *  the time of the save), and a changed gender fills absent guys/girls. */
  function ProfileBeforeSave(p: Profile, isNew: bool, requestUser: Option<Id>, dirty: ProfileEdits,
                             ageOf: BirthDate -> int): (r: Result<Profile>)
    ensures isNew && requestUser.None? && p.uid.None? ==> r == Err("Could not determine user Id for new profile")
    ensures isNew && (requestUser.Some? || p.uid.Some?) ==>
              && r.Ok?
              && r.value.photos == Some([]) && r.value.enabled == Some(false) && r.value.gps == Some(true)
              && r.value.about == Some("") && r.value.distance == Some(25) && r.value.distanceType == Some("km")
              && r.value.notifyMatch == Some(true) && r.value.notifyMessage == Some(true)
              && r.value.acl == Some(OwnerOnly(if requestUser.Some? then requestUser.value else p.uid.value))
              && r.value.uid == p.uid && r.value.birthdate == p.birthdate && r.value.gender == p.gender
              && r.value.ageFrom == p.ageFrom && r.value.ageTo == p.ageTo
              && r.value.guys == p.guys && r.value.girls == p.girls
    ensures !isNew ==> r.Ok? && r.value.(ageFrom := p.ageFrom, ageTo := p.ageTo, guys := p.guys, girls := p.girls) == p
    ensures !isNew ==>
              var dated := dirty.birthdate && p.birthdate.Some? && p.birthdate.value.Date?;
              && r.value.ageFrom == (if dated && FalsyNumber(p.ageFrom) then Some(DefaultAgeFrom(ageOf(p.birthdate.value))) else p.ageFrom)
              && r.value.ageTo == (if dated && FalsyNumber(p.ageTo) then Some(DefaultAgeTo(ageOf(p.birthdate.value))) else p.ageTo)
    ensures !isNew ==>
              && r.value.guys == (if dirty.gender && p.guys.None? then Some(p.gender != Some("M")) else p.guys)
              && r.value.girls == (if dirty.gender && p.girls.None? then Some(p.gender != Some("F")) else p.girls)
  {
    if isNew then
      if requestUser.None? && p.uid.None? then Err("Could not determine user Id for new profile")
      else
        var owner := if requestUser.Some? then requestUser.value else p.uid.value;
        Ok(p.(photos := Some([]), enabled := Some(false), gps := Some(true), about := Some(""),
              distance := Some(25), distanceType := Some("km"), notifyMatch := Some(true),
              notifyMessage := Some(true), acl := Some(OwnerOnly(owner))))
    else
      var q := if dirty.birthdate && p.birthdate.Some? && p.birthdate.value.Date? then
                 var age := ageOf(p.birthdate.value);
                 var withFrom := if FalsyNumber(p.ageFrom) then p.(ageFrom := Some(DefaultAgeFrom(age))) else p;
                 if FalsyNumber(p.ageTo) then withFrom.(ageTo := Some(DefaultAgeTo(age))) else withFrom
               else p;
      var g := if dirty.gender then
                 var withGuys := if q.guys.None? then q.(guys := Some(q.gender != Some("M"))) else q;
                 if withGuys.girls.None? then withGuys.(girls := Some(q.gender != Some("F"))) else withGuys
               else q;
      Ok(g)
  }

  /** The default age range always lies within 18..55 on its own side, and it is the
   *  age plus or minus five whenever that fits. */
  lemma DefaultRangeAroundAge(age: int)
    ensures MinAgeFrom <= DefaultAgeFrom(age) && DefaultAgeTo(age) <= MaxAgePlus
    ensures 23 <= age ==> DefaultAgeFrom(age) == age - 5
    ensures age <= 50 ==> DefaultAgeTo(age) == age + 5
    ensures 13 <= age <= 60 ==> DefaultAgeFrom(age) <= DefaultAgeTo(age)
  {
  }

  /** Gender preferences filled on a saved profile: a changed gender of "M" seeks girls only, "F" guys only. */
  lemma GenderDefaultsFollowGender(p: Profile, ageOf: BirthDate -> int)
    requires p.guys.None? && p.girls.None?
    ensures p.gender == Some("M") ==>
              var r := ProfileBeforeSave(p, false, None, ProfileEdits(false, true), ageOf).value;
              r.guys == Some(false) && r.girls == Some(true)
    ensures p.gender == Some("F") ==>
              var r := ProfileBeforeSave(p, false, None, ProfileEdits(false, true), ageOf).value;
              r.guys == Some(true) && r.girls == Some(false)
  {
  }

  // ---------------------------------------------------------------------------------
  // Copying a Facebook profile

  datatype FbHometown = FbHometown(name: Option<string>)

  /** The fields of the Facebook graph `me` response that are read. */
  datatype FbMe = FbMe(firstName: Option<string>, gender: Option<string>, birthday: Option<string>,
                       hometown: Option<FbHometown>)

  /** The profile change set `_copyFacebookProfile` fills in. */
  datatype FbUpdates = FbUpdates(name: Option<string>, gender: Option<string>, birthdate: Option<BirthDate>,
                                 fbBirthday: Option<string>, hometown: Option<string>)

  /** MINIMUM_AGE, in years. */
  const MinimumAge := 18

  /** Facebook's gender words as profile codes; anything else is passed through. */
  function MapGender(g: Option<string>): (r: Option<string>)
    ensures r == Some("M") <==> g == Some("male") || g == Some("M")
    ensures r == Some("F") <==> g == Some("female") || g == Some("F")
    ensures g != Some("male") && g != Some("female") ==> r == g
  {
    if g == Some("male") then Some("M") else if g == Some("female") then Some("F") else g
  }

  /** A full Facebook birthday MM/DD/YYYY, read field by field with `parseInt` into the
   *  arguments of `new Date(year, month - 1, day)`; a field that is not a number makes an
   *  invalid date. */
  function ParseBirthday(b: string): (d: BirthDate)
    requires |b| == 10
  {
    var year := ParseInt(b[6..10]);
    var month := ParseInt(b[0..2]);
    var day := ParseInt(b[3..5]);
    if year.None? || month.None? || day.None? then InvalidDate
    else Date(year.value, month.value - 1, day.value)
  }

  /** `_copyFacebookProfile`: fills the change set from the Facebook profile and returns
   *  the error code, or None for success. The RESTRICT_* checks are off. A ten-character
   *  birthday is parsed, any other non-empty one kept as fbBirthday; a birthdate in the
   *  change set that makes the user younger than 18 gives 'MINIMUM_AGE_ERROR'. */
  function CopyFacebookProfile(fb: FbMe, u: FbUpdates, ageOf: BirthDate -> int): (r: (FbUpdates, Option<string>))
    ensures r.0.name == fb.firstName && r.0.gender == MapGender(fb.gender)
    ensures Truthy(fb.birthday) && |fb.birthday.value| == 10 ==>
              r.0.birthdate == Some(ParseBirthday(fb.birthday.value)) && r.0.fbBirthday == u.fbBirthday
    ensures Truthy(fb.birthday) && |fb.birthday.value| != 10 ==>
              r.0.birthdate == u.birthdate && r.0.fbBirthday == fb.birthday
    ensures !Truthy(fb.birthday) ==> r.0.birthdate == u.birthdate && r.0.fbBirthday == u.fbBirthday
    ensures r.0.hometown == if fb.hometown.Some? then fb.hometown.value.name else u.hometown
    ensures r.1.Some? <==> r.0.birthdate.Some? && r.0.birthdate.value.Date? && ageOf(r.0.birthdate.value) < MinimumAge
    ensures r.1.Some? ==> r.1.value == "MINIMUM_AGE_ERROR"
  {
    var named := u.(name := fb.firstName, gender := MapGender(fb.gender));
    var dated := if Truthy(fb.birthday) && |fb.birthday.value| == 10 then named.(birthdate := Some(ParseBirthday(fb.birthday.value)))
                 else if Truthy(fb.birthday) then named.(fbBirthday := fb.birthday)
                 else named;
    var placed := if fb.hometown.Some? then dated.(hometown := fb.hometown.value.name) else dated;
    var tooYoung := placed.birthdate.Some? && placed.birthdate.value.Date? && ageOf(placed.birthdate.value) < MinimumAge;
    (placed, if tooYoung then Some("MINIMUM_AGE_ERROR") else None)
  }

  /** Two decimal digits of n < 100, with a leading zero. */
  function Pad2(n: nat): (s: string)
    requires n < 100
    ensures |s| == 2
  {
    [DigitChar(n / 10), DigitChar(n % 10)]
  }

  /** Four decimal digits of n < 10000, with leading zeros. */
  function Pad4(n: nat): (s: string)
    requires n < 10000
    ensures |s| == 4
  {
    Pad2(n / 100) + Pad2(n % 100)
  }

  /** The way Facebook writes a full birthday: MM/DD/YYYY. */
  function FacebookBirthday(year: nat, month: nat, day: nat): (s: string)
    requires year < 10000 && month < 100 && day < 100
    ensures |s| == 10
  {
    Pad2(month) + "/" + Pad2(day) + "/" + Pad4(year)
  }

  /** The digits of Pad2(n) are worth n. */
  lemma Pad2Digits(n: nat)
    requires n < 100
    ensures DigitsValue(Pad2(n)) == n
  {
    var s := Pad2(n);
    assert s[..1] == [DigitChar(n / 10)];
    assert s[..1][..0] == [];
    assert DigitsValue(s[..1]) == n / 10;
    assert DigitsValue(s) == 10 * (n / 10) + n % 10;
  }

  /** Appending two digits multiplies the value by 100 and adds theirs. */
  lemma DigitsValueAppend2(x: string, y: string)
    requires (forall i :: 0 <= i < |x| ==> IsDigit(x[i])) && |y| == 2 && IsDigit(y[0]) && IsDigit(y[1])
    ensures forall i :: 0 <= i < |x + y| ==> IsDigit((x + y)[i])
    ensures DigitsValue(x + y) == 100 * DigitsValue(x) + DigitsValue(y)
  {
    var xy := x + y;
    assert xy[..|xy| - 1] == x + [y[0]];
    assert (x + [y[0]])[..|x|] == x;
    assert y[..1] == [y[0]];
    assert y[..1][..0] == [];
    assert DigitsValue(x + [y[0]]) == 10 * DigitsValue(x) + DigitValue(y[0]);
    assert DigitsValue(y[..1]) == DigitValue(y[0]);
    assert DigitsValue(y) == 10 * DigitValue(y[0]) + DigitValue(y[1]);
    assert DigitsValue(xy) == 10 * DigitsValue(x + [y[0]]) + DigitValue(y[1]);
  }

  lemma Pad2Value(n: nat)
    requires n < 100
    ensures ParseInt(Pad2(n)) == Some(n)
  {
    ParseIntOfDigits(Pad2(n));
    Pad2Digits(n);
  }

  lemma Pad4Value(n: nat)
    requires n < 10000
    ensures ParseInt(Pad4(n)) == Some(n)
  {
    Pad2Digits(n / 100);
    Pad2Digits(n % 100);
    DigitsValueAppend2(Pad2(n / 100), Pad2(n % 100));
    ParseIntOfDigits(Pad4(n));
  }

  /** Parsing a full birthday reads back the month, day and year it was written from. */
  lemma ParseBirthdayRoundTrip(year: nat, month: nat, day: nat)
    requires year < 10000 && month < 100 && day < 100
    ensures ParseBirthday(FacebookBirthday(year, month, day)) == Date(year, month - 1, day)
  {
    var s := FacebookBirthday(year, month, day);
    assert s[0..2] == Pad2(month);
    assert s[3..5] == Pad2(day);
    assert s[6..10] == Pad4(year);
    Pad2Value(month);
    Pad2Value(day);
    Pad4Value(year);
  }
}
