/** What a user is shown: the candidate filter of GetMatches (cloud/main.js:550-636),
 *  the other party's profile of a mutual match in GetProfileForMatch (362-395) and
 *  GetMutualMatches (400-450), and the clean-up `_processProfile` (497-529) applies to
 *  every profile handed to a client. */
module Discovery {
  import opened Common
  import opened Records
  import opened SwipeRules
  import opened Store
  import opened Resolver
  import opened Text

  /** The genders searched for: 'M' when the searcher wants guys, then 'F' when it wants girls. */
  function GenderList(guys: Option<bool>, girls: Option<bool>): (g: seq<string>)
    ensures "M" in g <==> guys == Some(true)
    ensures "F" in g <==> girls == Some(true)
    ensures |g| <= 2 && NoDup(g)
  {
    (if guys == Some(true) then ["M"] else []) + (if girls == Some(true) then ["F"] else [])
  }

  /** The rows of the "already matched" query: the matches in which me holds a slot that
   *  is set, whether by its own swipe or by the other party's first-swipe reject ('O'). */
  function DecidedBy(ms: map<Key, Match>, me: Id): set<Key>
  {
    set k | k in ms && ((ms[k].uid1 == me && ms[k].u1action != Unset) || (ms[k].uid2 == me && ms[k].u2action != Unset))
  }

  /** The users a searcher is never shown again: the other party of each of those rows, and itself. */
  function ExcludedUsers(ms: map<Key, Match>, me: Id): set<Id>
  {
    (set k | k in DecidedBy(ms, me) :: OtherParty(ms[k], me)) + {me}
  }

  /** The other party of each listed match, in order. */
  function OthersOf(ms: map<Key, Match>, keys: seq<Key>, me: Id): (ids: seq<Id>)
    requires forall k :: k in keys ==> k in ms
    ensures |ids| == |keys|
    ensures forall i :: 0 <= i < |keys| ==> ids[i] == OtherParty(ms[keys[i]], me)
  {
    if keys == [] then [] else OthersOf(ms, keys[..|keys| - 1], me) + [OtherParty(ms[keys[|keys| - 1]], me)]
  }

  /** The loop of main.js:600-609 and the append of 614: the ids to leave out of the search,
   *  the searcher's own id last. */
  method ExclusionIds(ms: map<Key, Match>, me: Id, found: seq<Key>) returns (ids: seq<Id>)
    requires Lists(found, DecidedBy(ms, me))
    ensures ids == OthersOf(ms, found, me) + [me]
    ensures forall u :: u in ids <==> u in ExcludedUsers(ms, me)
  {
    assert forall k :: k in found ==> k in ms;
    ids := [];
    var i := 0;
    while i < |found|
      invariant 0 <= i <= |found|
      invariant ids == OthersOf(ms, found[..i], me)
    {
      assert found[..i + 1][..i] == found[..i];
      var row := ms[found[i]];
      if row.uid1 != me {
        ids := ids + [row.uid1];
      } else {
        ids := ids + [row.uid2];
      }
      i := i + 1;
    }
    assert found[..i] == found;
    ids := ids + [me];
    ExclusionListIsExcluded(ms, me, found);
  }

  /** The exclusion list holds exactly the excluded users. */
  lemma ExclusionListIsExcluded(ms: map<Key, Match>, me: Id, found: seq<Key>)
    requires Lists(found, DecidedBy(ms, me))
    ensures forall k :: k in found ==> k in ms
    ensures forall u :: u in OthersOf(ms, found, me) + [me] <==> u in ExcludedUsers(ms, me)
  {
    assert forall k :: k in found ==> k in ms;
    var ids := OthersOf(ms, found, me) + [me];
    forall u | u in ExcludedUsers(ms, me) ensures u in ids {
      if u != me {
        var k :| k in DecidedBy(ms, me) && OtherParty(ms[k], me) == u;
        var j :| 0 <= j < |found| && found[j] == k;
        assert ids[j] == u;
      }
    }
  }

  /** After a's swipe on b is stored, b is never shown to a again; after a first swipe that
   *  rejects, a is not shown to b either, through the 'O' in b's slot. */
  lemma SwipeHidesPair(ms: map<Key, Match>, profiles: map<Id, Profile>, a: Id, b: Id, liked: bool,
                       newId: Id, now: int, found: seq<Id>)
    requires MatchTable(ms) && a != b
    requires forall i :: i in found ==> i in profiles
    ensures var k := Canonical(a, b);
            var ms' := ms[k := Resolved(ms, profiles, a, b, liked, newId, now, found)];
            && b in ExcludedUsers(ms', a)
            && (!liked && k !in ms ==> a in ExcludedUsers(ms', b))
  {
    var k := Canonical(a, b);
    var ms' := ms[k := Resolved(ms, profiles, a, b, liked, newId, now, found)];
    assert k in DecidedBy(ms', a) && OtherParty(ms'[k], a) == b;
    if !liked && k !in ms {
      assert k in DecidedBy(ms', b) && OtherParty(ms'[k], b) == a;
    }
  }

  /** A first swipe that likes leaves the other user's slot unset, so the liker is still
   *  shown to the other user as far as this pair goes. */
  lemma FirstLikeKeepsLikerVisible(ms: map<Key, Match>, profiles: map<Id, Profile>, a: Id, b: Id,
                                   newId: Id, now: int, found: seq<Id>)
    requires MatchTable(ms) && a != b && Canonical(a, b) !in ms
    requires forall i :: i in found ==> i in profiles
    ensures var k := Canonical(a, b);
            k !in DecidedBy(ms[k := Resolved(ms, profiles, a, b, true, newId, now, found)], b)
  {
  }

  /** `_processProfile`: the age replaces the birthdate, the photo list is always present,
   *  and the private settings are removed; everything else is kept. `ageOf` stands for
   *  `_calculateAge` at the time of the call. */
  function ProcessProfile(p: Profile, ageOf: BirthDate -> int): (r: Profile)
    ensures r.birthdate.None?
    ensures r.age == if p.birthdate.Some? then Some(ageOf(p.birthdate.value)) else p.age
    ensures r.photos == Some(if p.photos.Some? then p.photos.value else [])
    ensures && r.notifyMatch.None? && r.notifyMessage.None? && r.ageFrom.None? && r.ageTo.None?
            && r.guys.None? && r.girls.None? && r.distance.None? && r.distanceType.None? && r.error.None?
    ensures && r.uid == p.uid && r.createdAt == p.createdAt && r.name == p.name && r.gender == p.gender
            && r.about == p.about && r.enabled == p.enabled && r.gps == p.gps && r.acl == p.acl
            && r.photo1 == p.photo1 && r.photo2 == p.photo2 && r.photo3 == p.photo3
  {
    var aged := if p.birthdate.Some? then p.(age := Some(ageOf(p.birthdate.value))) else p;
    aged.(birthdate := None, photos := Some(if p.photos.Some? then p.photos.value else []),
          notifyMatch := None, notifyMessage := None, ageFrom := None, ageTo := None,
          guys := None, girls := None, distance := None, distanceType := None, error := None)
  }

  /** A processed profile passes through processing again unchanged. */
  lemma ProcessProfileSettles(p: Profile, ageOf: BirthDate -> int)
    ensures ProcessProfile(ProcessProfile(p, ageOf), ageOf) == ProcessProfile(p, ageOf)
  {
  }

  /** A profile of a query answer, which is always stored; the blank profile for any other
   *  id is never read by a handler. */
  function Fetched(profiles: map<Id, Profile>, id: Id): Profile
  {
    if id in profiles then profiles[id] else BlankProfile(None, 0)
  }

  /** GetProfileForMatch for a caller with record `user` and id `me`; `found` is the match
   *  the id leads to. The id must be given and be in the caller's own match list; the
   *  match must exist, be mutual and have the caller as uid1 (answer: profile2) or uid2
   *  (answer: profile1). A caller without a match list, or an answer slot that is empty or
   *  leads to no stored profile (the include leaves it undefined), makes the handler throw. */
  function ProfileForMatch(user: User, me: Id, matchId: Option<Id>, found: Option<Match>,
                           profiles: map<Id, Profile>, ageOf: BirthDate -> int): (r: Result<Profile>)
    requires found.Some? && matchId.Some? ==> found.value.id == matchId.value
    ensures matchId.None? ==> r == Err("matchId param not provided")
    ensures matchId.Some? && user.matches.Some? && matchId.value !in user.matches.value ==>
              r == Err("Match id:" + DecimalText(matchId.value) + " is not a mutual match for user " + DecimalText(me))
    ensures r.Ok? ==>
              && matchId.Some? && user.matches.Some? && matchId.value in user.matches.value
              && found.Some? && found.value.state == M && Involves(found.value, me)
    ensures r.Ok? && found.value.uid1 == me ==>
              found.value.profile2.Some? && found.value.profile2.value in profiles
              && r.value == ProcessProfile(profiles[found.value.profile2.value], ageOf)
    ensures r.Ok? && found.value.uid1 != me ==>
              found.value.profile1.Some? && found.value.profile1.value in profiles
              && r.value == ProcessProfile(profiles[found.value.profile1.value], ageOf)
    ensures matchId.Some? && user.matches.Some? && matchId.value in user.matches.value
            && found.Some? && found.value.state == M && Involves(found.value, me) ==>
              var slot := if found.value.uid1 == me then found.value.profile2 else found.value.profile1;
              (r.Ok? <==> slot.Some? && slot.value in profiles) && (r.Err? ==> r == Err(TypeErrorRaised))
  {
    if matchId.None? then Err("matchId param not provided")
    else if user.matches.None? then Err(TypeErrorRaised)
    else if matchId.value !in user.matches.value then
      Err("Match id:" + DecimalText(matchId.value) + " is not a mutual match for user " + DecimalText(me))
    else if found.None? then Err(ObjectNotFound)
    else
      var m := found.value;
      if m.state != M then Err("Match " + DecimalText(matchId.value) + " is not a mutual match")
      else
        var slot := if m.uid1 == me then Some(m.profile2) else if m.uid2 == me then Some(m.profile1) else None;
        if slot.None? then Err("User does not belong to match " + DecimalText(m.id))
        else if slot.value.None? || slot.value.value !in profiles then Err(TypeErrorRaised)
        else Ok(ProcessProfile(profiles[slot.value.value], ageOf))
  }

  /** With the profiles attached as the resolver attaches them, the profile returned
   *  belongs to the other party, never to the caller. */
  lemma ProfileForMatchIsOtherParty(user: User, me: Id, m: Match, profiles: map<Id, Profile>, ageOf: BirthDate -> int)
    requires m.uid1 != m.uid2
    requires m.profile1.Some? ==> m.profile1.value in profiles && profiles[m.profile1.value].uid == Some(m.uid1)
    requires m.profile2.Some? ==> m.profile2.value in profiles && profiles[m.profile2.value].uid == Some(m.uid2)
    requires ProfileForMatch(user, me, Some(m.id), Some(m), profiles, ageOf).Ok?
    ensures ProfileForMatch(user, me, Some(m.id), Some(m), profiles, ageOf).value.uid == Some(OtherParty(m, me))
    ensures OtherParty(m, me) != me
  {
  }

  /** A mutual match as GetMutualMatches returns it: the caller's own profile slot emptied,
   *  and the other party's profile processed. */
  datatype MutualView = MutualView(record: Match, profile: Profile)

  /** One match of the GetMutualMatches loop (main.js:422-445); None when it is skipped
   *  because the other profile slot is empty or leads to no stored profile (the include
   *  leaves it undefined), or the caller is not a party. */
  function ViewOf(m: Match, me: Id, profiles: map<Id, Profile>, ageOf: BirthDate -> int): (v: Option<MutualView>)
    ensures v.Some? ==> Involves(m, me) && v.value.record.(profile1 := m.profile1, profile2 := m.profile2) == m
    ensures v.Some? && m.uid1 == me ==>
              && v.value.record.profile1.None? && m.profile2.Some? && v.value.record.profile2 == m.profile2
              && m.profile2.value in profiles && v.value.profile == ProcessProfile(profiles[m.profile2.value], ageOf)
    ensures v.Some? && m.uid1 != me ==>
              && v.value.record.profile2.None? && m.profile1.Some? && v.value.record.profile1 == m.profile1
              && m.profile1.value in profiles && v.value.profile == ProcessProfile(profiles[m.profile1.value], ageOf)
    ensures v.None? <==> || !Involves(m, me)
                         || (m.uid1 == me && (m.profile2.None? || m.profile2.value !in profiles))
                         || (m.uid1 != me && (m.profile1.None? || m.profile1.value !in profiles))
  {
    if m.uid1 == me then
      if m.profile2.None? || m.profile2.value !in profiles then None
      else Some(MutualView(m.(profile1 := None), ProcessProfile(profiles[m.profile2.value], ageOf)))
    else if m.uid2 == me then
      if m.profile1.None? || m.profile1.value !in profiles then None
      else Some(MutualView(m.(profile2 := None), ProcessProfile(profiles[m.profile1.value], ageOf)))
    else None
  }

  /** The views of the listed matches, in order, skipped ones left out. */
  function MutualViews(ms: map<Key, Match>, keys: seq<Key>, me: Id, profiles: map<Id, Profile>,
                       ageOf: BirthDate -> int): (vs: seq<MutualView>)
    requires forall k :: k in keys ==> k in ms
    ensures |vs| <= |keys|
    ensures forall v :: v in vs ==> exists k :: k in keys && ViewOf(ms[k], me, profiles, ageOf) == Some(v)
    ensures forall k :: k in keys && ViewOf(ms[k], me, profiles, ageOf).Some? ==>
              ViewOf(ms[k], me, profiles, ageOf).value in vs
  {
    if keys == [] then []
    else
      var init := MutualViews(ms, keys[..|keys| - 1], me, profiles, ageOf);
      var last := keys[|keys| - 1];
      var v := ViewOf(ms[last], me, profiles, ageOf);
      assert forall k :: k in keys ==> k in keys[..|keys| - 1] || k == last;
      if v.Some? then init + [v.value] else init
  }

  /** GetMutualMatches: the views of the requested mutual matches (`found`, the answer of
   *  the query on state 'M' and the given ids). */
  method GetMutualMatches(ms: map<Key, Match>, profiles: map<Id, Profile>, me: Id, matchIds: Option<seq<Id>>,
                          found: seq<Key>, ageOf: BirthDate -> int) returns (r: Result<seq<MutualView>>)
    requires matchIds.Some? ==> Lists(found, set k | k in ms && ms[k].state == M && ms[k].id in matchIds.value)
    ensures matchIds.None? ==> r == Err("matchIds param not provided")
    ensures matchIds.Some? ==> r == Ok(MutualViews(ms, found, me, profiles, ageOf))
    ensures r.Ok? ==> forall v :: v in r.value ==>
              v.record.state == M && v.record.id in matchIds.value && Involves(v.record, me)
  {
    if matchIds.None? {
      return Err("matchIds param not provided");
    }
    MutualViewsAreRequested(ms, profiles, me, matchIds.value, found, ageOf);
    var result := CollectViews(ms, profiles, me, found, ageOf);
    r := Ok(result);
  }

  /** The loop of GetMutualMatches over the matches found. */
  method CollectViews(ms: map<Key, Match>, profiles: map<Id, Profile>, me: Id, found: seq<Key>,
                      ageOf: BirthDate -> int) returns (result: seq<MutualView>)
    requires forall k :: k in found ==> k in ms
    ensures result == MutualViews(ms, found, me, profiles, ageOf)
  {
    result := [];
    var i := 0;
    while i < |found|
      invariant 0 <= i <= |found|
      invariant result == MutualViews(ms, found[..i], me, profiles, ageOf)
    {
      assert found[..i + 1][..i] == found[..i];
      var v := ViewOf(ms[found[i]], me, profiles, ageOf);
      if v.Some? {
        result := result + [v.value];
      }
      i := i + 1;
    }
    assert found[..i] == found;
  }

  /** Every view GetMutualMatches returns is of a requested mutual match of the caller. */
  lemma MutualViewsAreRequested(ms: map<Key, Match>, profiles: map<Id, Profile>, me: Id, matchIds: seq<Id>,
                                found: seq<Key>, ageOf: BirthDate -> int)
    requires Lists(found, set k | k in ms && ms[k].state == M && ms[k].id in matchIds)
    ensures forall k :: k in found ==> k in ms
    ensures forall v :: v in MutualViews(ms, found, me, profiles, ageOf) ==>
              v.record.state == M && v.record.id in matchIds && Involves(v.record, me)
  {
    assert forall k :: k in found ==> k in ms;
    forall v | v in MutualViews(ms, found, me, profiles, ageOf)
      ensures v.record.state == M && v.record.id in matchIds && Involves(v.record, me)
    {
      var k :| k in found && ViewOf(ms[k], me, profiles, ageOf) == Some(v);
      assert k in (set k | k in ms && ms[k].state == M && ms[k].id in matchIds);
    }
  }

  /** The pair's match after a likes b and then b likes a, starting from the table ms. */
  function AfterTwoLikes(ms: map<Key, Match>, profiles: map<Id, Profile>, a: Id, b: Id,
                         newId: Id, otherId: Id, now: int, later: int, found: seq<Id>): Match
    requires MatchTable(ms) && newId !in MatchIds(ms)
    requires forall i :: i in found ==> i in profiles
  {
    ResolvedKeepsTable(ms, profiles, a, b, true, newId, now, found);
    var ms1 := ms[Canonical(a, b) := Resolved(ms, profiles, a, b, true, newId, now, found)];
    Resolved(ms1, profiles, b, a, true, otherId, later, found)
  }

  /** As written, two likes make a pair mutual, yet neither party can then fetch the
   *  other's profile: ProcessMatch leaves the users' records as they were, so a party
   *  whose list did not already hold the fresh id of the new match (ua for a, ub for b)
   *  is refused by GetProfileForMatch. */
  lemma MutualPairCannotView(ms: map<Key, Match>, profiles: map<Id, Profile>, a: Id, b: Id, ua: User, ub: User,
                             newId: Id, otherId: Id, now: int, later: int, found: seq<Id>, ageOf: BirthDate -> int)
    requires MatchTable(ms) && a != b && Canonical(a, b) !in ms && newId !in MatchIds(ms)
    requires forall i :: i in found ==> i in profiles
    requires ua.matches.Some? ==> newId !in ua.matches.value
    requires ub.matches.Some? ==> newId !in ub.matches.value
    ensures var m := AfterTwoLikes(ms, profiles, a, b, newId, otherId, now, later, found);
            && m.state == M && m.id == newId
            && ProfileForMatch(ua, a, Some(m.id), Some(m), profiles, ageOf).Err?
            && ProfileForMatch(ub, b, Some(m.id), Some(m), profiles, ageOf).Err?
  {
    var k := Canonical(a, b);
    var first := Resolved(ms, profiles, a, b, true, newId, now, found);
    assert Canonical(b, a) == k;
    assert OtherSlot(first, a, b) == Unset;
    var m := AfterTwoLikes(ms, profiles, a, b, newId, otherId, now, later, found);
    assert CallerSlot(m, b, a) == L;
  }

  /** With the lists updated as intended, each party of a mutual match with both profiles
   *  attached is answered with the other party's profile. */
  lemma RecordedMutualMatchViewable(users: map<Id, User>, m: Match, profiles: map<Id, Profile>,
                                    me: Id, ageOf: BirthDate -> int)
    requires m.state == M && m.uid1 != m.uid2 && m.profile1.Some? && m.profile2.Some?
    requires m.profile1.value in profiles && profiles[m.profile1.value].uid == Some(m.uid1)
    requires m.profile2.value in profiles && profiles[m.profile2.value].uid == Some(m.uid2)
    requires me in users && Involves(m, me)
    ensures var r := ProfileForMatch(RecordMutualMatch(users, m)[me], me, Some(m.id), Some(m), profiles, ageOf);
            r.Ok? && r.value.uid == Some(OtherParty(m, me))
  {
    var r := ProfileForMatch(RecordMutualMatch(users, m)[me], me, Some(m.id), Some(m), profiles, ageOf);
    ProfileForMatchIsOtherParty(RecordMutualMatch(users, m)[me], me, m, profiles, ageOf);
  }
}
