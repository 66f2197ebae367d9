/** Ending matches: RemoveMatch (cloud/main.js:834-858), deleteUser
 *  (cloud/main.js:1069-1151), the Match afterDelete cascade (cloud/main.js:995-1021),
 *  DeleteUnmatched (cloud/main.js:1023-1047) and notifyRemoveMatch
 *  (cloud/main.js:1197-1208). */
module Teardown {
  import opened Common
  import opened Records
  import opened SwipeRules
  import opened Store
  import opened Text

  /** 'user_' + uid, where an undefined uid renders as 'user_undefined'. */
  function ChannelOf(uid: Option<Id>): Channel
  {
    if uid.Some? then UserChannel(uid.value) else UndefinedUserChannel
  }

  /** notifyRemoveMatch: one removeMatch push, with one channel per listed uid in order. */
  function NotifyRemoveMatch(matchId: Id, uids: seq<Option<Id>>): (p: Push)
    ensures p.payload == MatchRemoved(matchId)
    ensures |p.channels| == |uids|
    ensures forall i :: 0 <= i < |uids| ==> (p.channels[i] == UndefinedUserChannel <==> uids[i].None?)
    ensures forall i :: 0 <= i < |uids| && uids[i].Some? ==> p.channels[i] == UserChannel(uids[i].value)
  {
    Push(seq(|uids|, i requires 0 <= i < |uids| => ChannelOf(uids[i])), MatchRemoved(matchId))
  }

  /** RemoveMatch. The match found by id is marked D whoever the caller is; the id is removed
   *  from the caller's list and from the list of the party that is not the caller; the push
   *  goes to 'user_undefined', since the variable naming its target is never assigned. The
   *  saves run side by side, so a missing other user fails the call after everything else is done. */
  method RemoveMatch(db: Database, caller: Id, matchId: Id, found: Option<Key>) returns (r: Result<()>)
    requires db.Valid() && caller in db.users
    requires FoundById(db.matches, matchId, found)
    modifies db
    ensures db.Valid()
    ensures found.None? ==> r == Err(ObjectNotFound) && unchanged(db)
    ensures found.Some? ==>
              var m := old(db.matches)[found.value];
              var other := OtherParty(m, caller);
              && db.matches == old(db.matches)[found.value := m.(state := D)]
              && db.users == PullMatch(PullMatch(old(db.users), other, matchId), caller, matchId)
              && db.outbox == old(db.outbox) + [NotifyRemoveMatch(matchId, [None])]
              && r == (if other in old(db.users) then Ok(()) else Err(ObjectNotFound))
    ensures db.profiles == old(db.profiles) && db.messages == old(db.messages)
    ensures db.reports == old(db.reports) && db.deletedUsers == old(db.deletedUsers)
  {
    if found.None? {
      return Err(ObjectNotFound);
    }
    r := RemoveFound(db, caller, matchId, found.value);
  }

  /** RemoveMatch's writes once the match is found under key k. */
  method RemoveFound(db: Database, caller: Id, matchId: Id, k: Key) returns (r: Result<()>)
    requires db.Valid() && k in db.matches
    modifies db
    ensures db.Valid()
    ensures var m := old(db.matches)[k];
            var other := OtherParty(m, caller);
            && db.matches == old(db.matches)[k := m.(state := D)]
            && db.users == PullMatch(PullMatch(old(db.users), other, matchId), caller, matchId)
            && db.outbox == old(db.outbox) + [NotifyRemoveMatch(matchId, [None])]
            && r == (if other in old(db.users) then Ok(()) else Err(ObjectNotFound))
    ensures db.profiles == old(db.profiles) && db.messages == old(db.messages)
    ensures db.reports == old(db.reports) && db.deletedUsers == old(db.deletedUsers)
  {
    var m := db.matches[k];
    var other := OtherParty(m, caller);
    UpdateKeepsTable(db.matches, k, m.(state := D));
    var matches := db.matches[k := m.(state := D)];
    var users := PullMatch(PullMatch(db.users, other, matchId), caller, matchId);
    var undefinedTarget: Option<Id> := None;
    var outbox := db.outbox + [NotifyRemoveMatch(matchId, [undefinedTarget])];
    r := if other in db.users then Ok(()) else Err(ObjectNotFound);
    db.matches, db.users, db.outbox := matches, users, outbox;
  }

  /** The users, matches and outbox that deleteUser's match loop works on. */
  datatype Tally = Tally(users: map<Id, User>, matches: map<Key, Match>, outbox: seq<Push>)

  /** One mutual match of a deleted user torn down: state D, the match id pulled from
   *  the other party, one removeMatch push to that party. */
  function EndOne(t: Tally, uid: Id, k: Key): Tally
    requires k in t.matches
  {
    var m := t.matches[k];
    var other := OtherParty(m, uid);
    Tally(PullMatch(t.users, other, m.id), t.matches[k := m.(state := D)],
          t.outbox + [Push([UserChannel(other)], MatchRemoved(m.id))])
  }

  /** deleteUser's loop over the mutual matches (main.js:1113-1133), in the order storage
   *  gives them. It stops after the first match whose other party does not exist (that
   *  save fails and ends the chain), reporting false. */
  function EndMutualMatches(t: Tally, uid: Id, keys: seq<Key>): (r: (Tally, bool))
    requires forall k :: k in keys ==> k in t.matches
    ensures r.0.matches.Keys == t.matches.Keys && r.0.users.Keys == t.users.Keys
    decreases |keys|
  {
    if keys == [] then (t, true)
    else
      var other := OtherParty(t.matches[keys[0]], uid);
      var next := EndOne(t, uid, keys[0]);
      if other !in t.users then (next, false) else EndMutualMatches(next, uid, keys[1..])
  }

  /** The loop keeps the Match table well formed. */
  lemma {:induction false} EndMutualMatchesKeepsTable(t: Tally, uid: Id, keys: seq<Key>)
    requires forall k :: k in keys ==> k in t.matches
    requires MatchTable(t.matches)
    ensures MatchTable(EndMutualMatches(t, uid, keys).0.matches)
    decreases |keys|
  {
    if keys != [] {
      var k := keys[0];
      UpdateKeepsTable(t.matches, k, t.matches[k].(state := D));
      if OtherParty(t.matches[k], uid) in t.users {
        EndMutualMatchesKeepsTable(EndOne(t, uid, k), uid, keys[1..]);
      }
    }
  }

  /** When every other party exists, the loop marks exactly the listed matches D (the rest
   *  stay as they were) and appends one push per listed match. */
  lemma {:induction false} EndMutualMatchesMarks(t: Tally, uid: Id, keys: seq<Key>)
    requires forall k :: k in keys ==> k in t.matches
    requires EndMutualMatches(t, uid, keys).1
    ensures var r := EndMutualMatches(t, uid, keys).0;
            && (forall k :: k in t.matches ==>
                  r.matches[k] == if k in keys then t.matches[k].(state := D) else t.matches[k])
            && |r.outbox| == |t.outbox| + |keys| && t.outbox <= r.outbox
    decreases |keys|
  {
    if keys != [] {
      var k := keys[0];
      EndMutualMatchesMarks(EndOne(t, uid, k), uid, keys[1..]);
      assert forall k' :: k' in keys <==> k' == k || k' in keys[1..];
    }
  }

  /** When the loop ran to the end, every other party exists and its list no longer holds
   *  the match id, and every user keeps all other fields. */
  lemma {:induction false} EndMutualMatchesPulls(t: Tally, uid: Id, keys: seq<Key>)
    requires forall k :: k in keys ==> k in t.matches
    requires EndMutualMatches(t, uid, keys).1
    ensures var r := EndMutualMatches(t, uid, keys).0;
            && (forall k :: k in keys ==>
                  var o := OtherParty(t.matches[k], uid);
                  o in r.users && (r.users[o].matches.Some? ==> t.matches[k].id !in r.users[o].matches.value))
            && (forall u :: u in t.users ==> r.users[u].(matches := t.users[u].matches) == t.users[u])
    decreases |keys|
  {
    if keys != [] {
      var k := keys[0];
      var next := EndOne(t, uid, k);
      EndMutualMatchesPulls(next, uid, keys[1..]);
      var r := EndMutualMatches(next, uid, keys[1..]).0;
      forall k' | k' in keys
        ensures var o := OtherParty(t.matches[k'], uid);
                o in r.users && (r.users[o].matches.Some? ==> t.matches[k'].id !in r.users[o].matches.value)
      {
        if k' in keys[1..] {
          var m', n' := t.matches[k'], next.matches[k'];
          assert n'.id == m'.id && n'.uid1 == m'.uid1 && n'.uid2 == m'.uid2;
        } else {
          assert k' == k;
          PulledStaysPulled(next, uid, keys[1..], OtherParty(t.matches[k], uid), t.matches[k].id);
        }
      }
    }
  }

  /** Once an id is out of a user's list, the rest of the loop does not bring it back. */
  lemma {:induction false} PulledStaysPulled(t: Tally, uid: Id, keys: seq<Key>, u: Id, id: Id)
    requires forall k :: k in keys ==> k in t.matches
    requires u in t.users && (t.users[u].matches.Some? ==> id !in t.users[u].matches.value)
    ensures var r := EndMutualMatches(t, uid, keys).0;
            r.users[u].matches.Some? ==> id !in r.users[u].matches.value
    decreases |keys|
  {
    if keys != [] {
      var next := EndOne(t, uid, keys[0]);
      if OtherParty(t.matches[keys[0]], uid) in t.users {
        PulledStaysPulled(next, uid, keys[1..], u, id);
      }
    }
  }

  /** deleteUser's loop over the mutual matches on the fetched records. */
  method EndEach(t: Tally, uid: Id, mutual: seq<Key>) returns (r: Tally, ok: bool)
    requires forall k :: k in mutual ==> k in t.matches
    ensures (r, ok) == EndMutualMatches(t, uid, mutual)
  {
    r := t;
    var i := 0;
    while i < |mutual|
      invariant 0 <= i <= |mutual|
      invariant forall k :: k in mutual ==> k in r.matches
      invariant EndMutualMatches(r, uid, mutual[i..]) == EndMutualMatches(t, uid, mutual)
    {
      var k := mutual[i];
      assert mutual[i..][0] == k && mutual[i..][1..] == mutual[i + 1..];
      var other := OtherParty(r.matches[k], uid);
      var next := EndOne(r, uid, k);
      if other !in r.users {
        return next, false;
      }
      r := next;
      i := i + 1;
    }
    assert mutual[i..] == [];
    ok := true;
  }

  /** The loop saved: the database's users, matches and outbox end as EndMutualMatches says. */
  method TearDownMutualMatches(db: Database, uid: Id, mutual: seq<Key>) returns (ok: bool)
    requires forall k :: k in mutual ==> k in db.matches
    modifies db
    ensures (Tally(db.users, db.matches, db.outbox), ok) ==
            EndMutualMatches(Tally(old(db.users), old(db.matches), old(db.outbox)), uid, mutual)
    ensures db.profiles == old(db.profiles) && db.messages == old(db.messages)
    ensures db.reports == old(db.reports) && db.deletedUsers == old(db.deletedUsers)
  {
    var end;
    end, ok := EndEach(Tally(db.users, db.matches, db.outbox), uid, mutual);
    db.users, db.matches, db.outbox := end.users, end.matches, end.outbox;
  }

  /** deleteUser. The user is saved with status 'deleting'; its profile, when it exists, is
   *  kept as a snapshot and destroyed; each mutual match is torn down (EndMutualMatches);
   *  unless that loop stopped on a missing user, a DeletedUser row is saved and the user destroyed.
   *  Pending and rejected matches are not touched. */
  method DeleteUser(db: Database, uid: Id, mutual: seq<Key>) returns (r: Result<()>)
    requires db.Valid() && uid in db.users
    requires Lists(mutual, MatchesOfUserIn(db.matches, uid, M))
    modifies db
    ensures db.Valid()
    ensures var self := old(db.users)[uid].(status := Deleting);
            var pointer := old(db.users)[uid].profile;
            var snapshot := if pointer.Some? && pointer.value in old(db.profiles)
                            then Some(old(db.profiles)[pointer.value]) else None;
            var start := Tally(old(db.users)[uid := self], old(db.matches), old(db.outbox));
            var end := EndMutualMatches(start, uid, mutual);
            && db.matches == end.0.matches && db.outbox == end.0.outbox
            && db.profiles == (if snapshot.Some? then old(db.profiles) - {pointer.value} else old(db.profiles))
            && (end.1 ==>
                  && r == Ok(()) && db.users == end.0.users - {uid}
                  && db.deletedUsers == old(db.deletedUsers) + [DeletedUser(uid, self, snapshot)])
            && (!end.1 ==>
                  && r == Err(ObjectNotFound) && db.users == end.0.users
                  && db.deletedUsers == old(db.deletedUsers))
    ensures db.messages == old(db.messages) && db.reports == old(db.reports)
  {
    var self := db.users[uid].(status := Deleting);
    db.users := db.users[uid := self];
    var snapshot: Option<Profile> := None;
    var pointer := self.profile;
    if pointer.Some? && pointer.value in db.profiles {
      snapshot := Some(db.profiles[pointer.value]);
      db.profiles := db.profiles - {pointer.value};
    }
    EndMutualMatchesKeepsTable(Tally(db.users, db.matches, db.outbox), uid, mutual);
    var ok := TearDownMutualMatches(db, uid, mutual);
    if !ok {
      return Err(ObjectNotFound);
    }
    db.deletedUsers := db.deletedUsers + [DeletedUser(uid, self, snapshot)];
    db.users := db.users - {uid};
    r := Ok(());
  }

  /** The ids of the matches stored under some of the given keys. */
  function IdsAt(ms: map<Key, Match>, keys: set<Key>): set<Id>
  {
    set k | k in keys && k in ms :: ms[k].id
  }

  /** The messages that do not belong to any of the given matches. */
  function MessagesOutside(msgs: map<Id, ChatMessage>, ids: set<Id>): map<Id, ChatMessage>
  {
    map i | i in msgs && msgs[i].matchId !in ids :: msgs[i]
  }

  /** The Match afterDelete cascade for a destroyed match m. For a mutual match its id is
   *  removed from both users' lists and a removeMatch push goes to both; in every case the
   *  match's messages are destroyed. */
  method AfterDeleteMatch(db: Database, m: Match)
    modifies db
    ensures db.messages == MessagesOutside(old(db.messages), {m.id})
    ensures m.state == M ==>
              && db.users == PullMatch(PullMatch(old(db.users), m.uid1, m.id), m.uid2, m.id)
              && db.outbox == old(db.outbox) + [NotifyRemoveMatch(m.id, [Some(m.uid1), Some(m.uid2)])]
    ensures m.state != M ==> db.users == old(db.users) && db.outbox == old(db.outbox)
    ensures db.matches == old(db.matches) && db.profiles == old(db.profiles)
    ensures db.reports == old(db.reports) && db.deletedUsers == old(db.deletedUsers)
  {
    if m.state == M {
      db.users := PullMatch(db.users, m.uid1, m.id);
      db.users := PullMatch(db.users, m.uid2, m.id);
      db.outbox := db.outbox + [NotifyRemoveMatch(m.id, [Some(m.uid1), Some(m.uid2)])];
    }
    db.messages := MessagesOutside(db.messages, {m.id});
  }

  /** After the cascade for a mutual match, neither user lists it and none of its messages remain. */
  lemma AfterDeleteLeavesNoTrace(users: map<Id, User>, msgs: map<Id, ChatMessage>, m: Match, u: Id)
    requires u == m.uid1 || u == m.uid2
    requires u in users && users[u].matches.Some?
    ensures var after := PullMatch(PullMatch(users, m.uid1, m.id), m.uid2, m.id);
            u in after && m.id !in after[u].matches.value
    ensures forall i :: i in MessagesOutside(msgs, {m.id}) ==> MessagesOutside(msgs, {m.id})[i].matchId != m.id
  {
  }

  /** The pending and rejected matches of u: what DeleteUnmatched's query selects. */
  function UnmatchedOf(ms: map<Key, Match>, u: Id): set<Key>
  {
    set k | k in ms && (ms[k].state == P || ms[k].state == Rej) && Involves(ms[k], u)
  }

  /** Destroying one more match removes it and its messages, on top of those already gone. */
  lemma OneMoreDeleted(ms: map<Key, Match>, msgs: map<Id, ChatMessage>, done: set<Key>, k: Key)
    requires k in ms && k !in done
    ensures (ms - done) - {k} == ms - (done + {k})
    ensures MessagesOutside(MessagesOutside(msgs, IdsAt(ms, done)), {ms[k].id})
            == MessagesOutside(msgs, IdsAt(ms, done + {k}))
  {
    assert IdsAt(ms, done + {k}) == IdsAt(ms, done) + {ms[k].id};
  }

  /** DeleteUnmatched: every pending or rejected match of the caller is destroyed, which
   *  runs the afterDelete cascade (destroying its messages) for each; the answer reports the count. */
  method DeleteUnmatched(db: Database, caller: Id, found: seq<Key>) returns (r: Result<string>)
    requires db.Valid()
    requires Lists(found, UnmatchedOf(db.matches, caller))
    modifies db
    ensures db.Valid()
    ensures db.matches == old(db.matches) - set k | k in found
    ensures db.messages == MessagesOutside(old(db.messages), IdsAt(old(db.matches), set k | k in found))
    ensures r == Ok("found " + DecimalText(|found|) + " rejected matches to delete")
    ensures db.users == old(db.users) && db.outbox == old(db.outbox) && db.profiles == old(db.profiles)
    ensures db.reports == old(db.reports) && db.deletedUsers == old(db.deletedUsers)
  {
    var i := 0;
    ghost var done: set<Key> := {};
    while i < |found|
      invariant 0 <= i <= |found|
      invariant forall k :: k in done <==> k in found[..i]
      invariant db.matches == old(db.matches) - done
      invariant db.messages == MessagesOutside(old(db.messages), IdsAt(old(db.matches), done))
      invariant db.users == old(db.users) && db.outbox == old(db.outbox) && db.profiles == old(db.profiles)
      invariant db.reports == old(db.reports) && db.deletedUsers == old(db.deletedUsers)
    {
      var k := found[i];
      assert k !in found[..i] && k in UnmatchedOf(old(db.matches), caller);
      var m := db.matches[k];
      db.matches := db.matches - {k};
      AfterDeleteMatch(db, m);
      OneMoreDeleted(old(db.matches), old(db.messages), done, k);
      done := done + {k};
      assert found[..i + 1] == found[..i] + [k];
      i := i + 1;
    }
    assert found[..i] == found;
    assert done == set k | k in found;
    r := Ok("found " + DecimalText(|found|) + " rejected matches to delete");
  }
}
