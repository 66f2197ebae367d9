/** The swipe resolver, the cloud function ProcessMatch (cloud/main.js:644-777). */
module Resolver {
  import opened Common
  import opened Records
  import opened SwipeRules
  import opened Store

  /** The record a swipe leaves under Canonical(caller, other): the stored one or a
   *  new one with id newId, swiped, with profiles attached if it became mutual. */
  function Resolved(ms: map<Key, Match>, profiles: map<Id, Profile>, caller: Id, other: Id, liked: bool,
                    newId: Id, now: int, found: seq<Id>): (m: Match)
    requires MatchTable(ms)
    requires forall i :: i in found ==> i in profiles
    ensures (m.uid1, m.uid2) == Canonical(caller, other)
    ensures Consistent(m)
    ensures m.state == M <==> m.u1action == L && m.u2action == L
    ensures CallerSlot(m, caller, other) == (if liked then L else R)
    ensures m.id == (if Canonical(caller, other) in ms then ms[Canonical(caller, other)].id else newId)
    ensures Canonical(caller, other) !in ms ==> m.acl == Acl(false, false, {caller, other}, {caller, other})
  {
    var k := Canonical(caller, other);
    var e := Lookup(ms, k);
    SwipeKeepsConsistency(e, newId, now, caller, other, liked);
    MutualIffBothLiked(e, newId, now, caller, other, liked);
    var s := Swiped(e, newId, now, caller, other, liked);
    MaterializeKeepsConsistency(s, found, profiles);
    Materialize(s, found, profiles)
  }

  /** Putting a resolved record back under its pair keeps the table well formed. */
  lemma ResolvedKeepsTable(ms: map<Key, Match>, profiles: map<Id, Profile>, caller: Id, other: Id, liked: bool,
                           newId: Id, now: int, found: seq<Id>)
    requires MatchTable(ms)
    requires newId !in MatchIds(ms)
    requires forall i :: i in found ==> i in profiles
    ensures MatchTable(ms[Canonical(caller, other) := Resolved(ms, profiles, caller, other, liked, newId, now, found)])
  {
    var k := Canonical(caller, other);
    var m := Resolved(ms, profiles, caller, other, liked, newId, now, found);
    var ms' := ms[k := m];
    forall k1, k2 | k1 in ms' && k2 in ms' && k1 != k2
      ensures ms'[k1].id != ms'[k2].id
    {
      if k1 == k {
        assert k2 in ms;
        if k !in ms { assert ms[k2].id in MatchIds(ms); }
      } else if k2 == k {
        assert k1 in ms;
        if k !in ms { assert ms[k1].id in MatchIds(ms); }
      }
    }
  }

  /** ProcessMatch. The caller's id is `request.user.id`; `newId` and `now` are the
   *  object id and creation time storage gives a new match; `found` is the answer of
   *  the profile query on the pair. Nothing is read or written without both
   *  parameters; a swipe saves the resolved record; a mutual state sends one match
   *  push to the other user, on every such swipe, if that user exists, and an error
   *  otherwise. No user's `matches` list is touched: the update after main.js:740
   *  is unreachable. */
  method ProcessMatch(db: Database, caller: Id, otherUserId: Option<Id>, liked: Option<bool>,
                      newId: Id, now: int, found: seq<Id>) returns (r: Result<Option<Match>>)
    requires db.Valid()
    requires newId !in MatchIds(db.matches)
    requires otherUserId.Some? ==> Lists(found, ProfilesOfPair(db.profiles, caller, otherUserId.value))
    modifies db
    ensures db.Valid()
    ensures otherUserId.None? ==> r == Err("otherUserId was not provided") && unchanged(db)
    ensures otherUserId.Some? && liked.None? ==> r == Err("liked was not provided") && unchanged(db)
    ensures otherUserId.Some? && liked.Some? ==>
              var other := otherUserId.value;
              var m := Resolved(old(db.matches), old(db.profiles), caller, other, liked.value, newId, now, found);
              && db.matches == old(db.matches)[Canonical(caller, other) := m]
              && (m.state != M ==> r == Ok(None) && db.outbox == old(db.outbox))
              && (m.state == M && other in old(db.users) ==>
                    r == Ok(Some(m)) && db.outbox == old(db.outbox) + [Push([UserChannel(other)], NewMatch(m.id))])
              && (m.state == M && other !in old(db.users) ==> r == Err(ObjectNotFound) && db.outbox == old(db.outbox))
    ensures db.users == old(db.users) && db.profiles == old(db.profiles) && db.messages == old(db.messages)
    ensures db.reports == old(db.reports) && db.deletedUsers == old(db.deletedUsers)
  {
    if otherUserId.None? {
      return Err("otherUserId was not provided");
    }
    if liked.None? {
      return Err("liked was not provided");
    }
    var other := otherUserId.value;
    var k := Canonical(caller, other);
    var m := Resolved(db.matches, db.profiles, caller, other, liked.value, newId, now, found);
    ResolvedKeepsTable(db.matches, db.profiles, caller, other, liked.value, newId, now, found);
    db.matches := db.matches[k := m];
    if m.state != M {
      return Ok(None);
    }
    if other !in db.users {
      return Err(ObjectNotFound);
    }
    db.outbox := db.outbox + [Push([UserChannel(other)], NewMatch(m.id))];
    r := Ok(Some(m));
  }

  /** A swipe that finds the pair already mutual and likes again leaves it mutual:
   *  the record does not change, so ProcessMatch sends the match push once more. */
  lemma RepeatedLikeStaysMutual(ms: map<Key, Match>, profiles: map<Id, Profile>, caller: Id, other: Id,
                                newId: Id, now: int, found: seq<Id>)
    requires MatchTable(ms)
    requires forall i :: i in found ==> i in profiles
    requires Canonical(caller, other) in ms && ms[Canonical(caller, other)].state == M
    ensures Resolved(ms, profiles, caller, other, true, newId, now, found).state == M
  {
    var k := Canonical(caller, other);
    MutualMeansTwoLikes(ms[k]);
  }

  /** A swipe with a reject never leaves a mutual record; it leaves the pair
   *  rejected unless the other slot is still unset. */
  lemma RejectIsNeverMutual(ms: map<Key, Match>, profiles: map<Id, Profile>, caller: Id, other: Id,
                            newId: Id, now: int, found: seq<Id>)
    requires MatchTable(ms)
    requires forall i :: i in found ==> i in profiles
    ensures var m := Resolved(ms, profiles, caller, other, false, newId, now, found);
            m.state == (if OtherSlot(m, caller, other) == Unset then P else Rej)
  {
  }

  /** The update main.js:742-745 evidently meant to make once a pair is mutual: both
   *  users' `matches` lists gain the match id (addUnique); a user that does not exist
   *  is left out. ProcessMatch as written never reaches it. */
  function RecordMutualMatch(users: map<Id, User>, m: Match): (r: map<Id, User>)
    ensures r.Keys == users.Keys
    ensures forall u :: u in users && !Involves(m, u) ==> r[u] == users[u]
    ensures forall u :: u in users && Involves(m, u) ==>
              && r[u].(matches := users[u].matches) == users[u]
              && r[u].matches.Some? && m.id in r[u].matches.value
              && (users[u].matches.Some? ==> forall y :: y in r[u].matches.value <==> y in users[u].matches.value || y == m.id)
              && (users[u].matches.None? ==> r[u].matches == Some([m.id]))
              && (users[u].matches.Some? && NoDup(users[u].matches.value) ==> NoDup(r[u].matches.value))
  {
    var withFirst := if m.uid1 in users then users[m.uid1 := users[m.uid1].(matches := PushUnique(users[m.uid1].matches, m.id))] else users;
    if m.uid2 in withFirst then withFirst[m.uid2 := withFirst[m.uid2].(matches := PushUnique(withFirst[m.uid2].matches, m.id))] else withFirst
  }
}
