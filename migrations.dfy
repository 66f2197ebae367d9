/** The one-off data migrations of cloud/migrations.js: the legacy photo slots folded into
 *  `photos`, user ACLs made private, and the `matches` lists and ChatMessage `userIds`
 *  filled in for data written before those fields existed. */
module Migrations {
  import opened Common
  import opened Records
  import opened Store
  import opened Resolver

  // ---------------------------------------------------------------------------
  // Migrate_003_Profile_Photos (cloud/migrations.js:8-34)

  /** The photos of the three legacy slots that are set, in slot order. */
  function LegacyPhotos(p: Profile): (r: seq<Photo>)
    ensures |r| <= 3
    ensures forall x :: x in r <==> p.photo1 == Some(x) || p.photo2 == Some(x) || p.photo3 == Some(x)
    ensures p.photo1.Some? ==> r[0] == p.photo1.value
    ensures p.photo3.Some? ==> r[|r| - 1] == p.photo3.value
    ensures p.photo2.Some? ==> |r| > (if p.photo1.Some? then 1 else 0) && r[if p.photo1.Some? then 1 else 0] == p.photo2.value
    ensures r == [] <==> p.photo1.None? && p.photo2.None? && p.photo3.None?
  {
    (if p.photo1.Some? then [p.photo1.value] else [])
    + (if p.photo2.Some? then [p.photo2.value] else [])
    + (if p.photo3.Some? then [p.photo3.value] else [])
  }

  /** The profiles without a `photos` field: the query of the migration. */
  function LackingPhotos(ps: map<Id, Profile>): set<Id>
  {
    set p | p in ps && ps[p].photos.None?
  }

  /** The profiles after the profiles in `chosen` have had their photos filled in. */
  function WithLegacyPhotos(ps: map<Id, Profile>, chosen: set<Id>): (r: map<Id, Profile>)
    ensures r.Keys == ps.Keys
  {
    map p | p in ps :: if p in chosen then ps[p].(photos := Some(LegacyPhotos(ps[p]))) else ps[p]
  }

  /** After the migration no profile lacks photos, a profile that had photos keeps them,
   *  and a migrated profile differs only in `photos`, which holds its legacy photos. */
  lemma PhotoMigrationSettles(ps: map<Id, Profile>)
    ensures var r := WithLegacyPhotos(ps, LackingPhotos(ps));
            && LackingPhotos(r) == {}
            && (forall p :: p in ps && ps[p].photos.Some? ==> r[p] == ps[p])
            && (forall p :: p in ps && ps[p].photos.None? ==>
                  r[p].(photos := None) == ps[p] && r[p].photos == Some(LegacyPhotos(ps[p])))
  {
    var r := WithLegacyPhotos(ps, LackingPhotos(ps));
    forall p | p in r ensures r[p].photos.Some? {
      if ps[p].photos.None? {
        assert p in LackingPhotos(ps);
      }
    }
  }

  /** Migrate_003: each profile the query returns has `photos` set from its legacy slots,
   *  and all of them are saved. The 200-row cap of the query is not modelled. */
  method MigrateProfilePhotos(db: Database, found: seq<Id>) returns (status: Result<string>)
    requires Lists(found, LackingPhotos(db.profiles))
    modifies db
    ensures db.profiles == WithLegacyPhotos(old(db.profiles), LackingPhotos(old(db.profiles)))
    ensures status == Ok("complete")
    ensures db.users == old(db.users) && db.matches == old(db.matches) && db.messages == old(db.messages)
    ensures db.reports == old(db.reports) && db.deletedUsers == old(db.deletedUsers) && db.outbox == old(db.outbox)
  {
    var ps := db.profiles;
    ghost var done: set<Id> := {};
    var i := 0;
    while i < |found|
      invariant 0 <= i <= |found|
      invariant forall p :: p in done <==> p in found[..i]
      invariant ps == WithLegacyPhotos(db.profiles, done)
    {
      var p := found[i];
      assert p in LackingPhotos(db.profiles);
      assert p !in done;
      ps := ps[p := ps[p].(photos := Some(LegacyPhotos(ps[p])))];
      done := done + {p};
      assert found[..i + 1] == found[..i] + [p];
      i := i + 1;
    }
    assert found[..i] == found;
    assert done == LackingPhotos(db.profiles);
    db.profiles := ps;
    status := Ok("complete");
  }

  // ---------------------------------------------------------------------------
  // Migrate_002_Disable_Public_Read_to_Users (cloud/migrations.js:37-68)

  /** A user the ACL migration saves: it has no ACL, or its ACL grants public read. */
  predicate NeedsPrivateAcl(u: User)
  {
    u.acl.None? || u.acl.value.publicRead
  }

  /** The user after the ACL migration: no ACL becomes an owner-only one, public read is
   *  switched off, and any other ACL is left as it is. */
  function PrivateAcl(u: User, id: Id): (r: User)
    ensures r.(acl := u.acl) == u
    ensures !NeedsPrivateAcl(r)
    ensures !NeedsPrivateAcl(u) <==> r == u
    ensures u.acl.None? ==> r.acl == Some(OwnerOnly(id))
    ensures u.acl.Some? ==> r.acl.value.(publicRead := u.acl.value.publicRead) == u.acl.value
  {
    if u.acl.None? then u.(acl := Some(OwnerOnly(id)))
    else if u.acl.value.publicRead then u.(acl := Some(u.acl.value.(publicRead := false)))
    else u
  }

  /** The users after the ACL migration of the users in `chosen`. */
  function WithPrivateAcls(users: map<Id, User>, chosen: set<Id>): (r: map<Id, User>)
    ensures r.Keys == users.Keys
  {
    map u | u in users :: if u in chosen then PrivateAcl(users[u], u) else users[u]
  }

  /** Running the ACL migration a second time saves nobody and changes nothing. */
  lemma AclMigrationSettles(users: map<Id, User>)
    ensures var r := WithPrivateAcls(users, users.Keys);
            && (forall u :: u in r ==> !NeedsPrivateAcl(r[u]))
            && WithPrivateAcls(r, r.Keys) == r
  {
  }

  /** Migrate_002 over every user (ascending createdAt; the 1000-row cap is not modelled):
   *  `saved` is the users that needed a change, in query order, and only they change. */
  method MigrateAcls(db: Database, found: seq<Id>) returns (saved: seq<Id>, status: Result<string>)
    requires Lists(found, db.users.Keys)
    modifies db
    ensures db.users == WithPrivateAcls(old(db.users), old(db.users).Keys)
    ensures NoDup(saved) && forall u :: u in saved <==> u in old(db.users) && NeedsPrivateAcl(old(db.users)[u])
    ensures status == Ok("complete")
    ensures db.profiles == old(db.profiles) && db.matches == old(db.matches) && db.messages == old(db.messages)
    ensures db.reports == old(db.reports) && db.deletedUsers == old(db.deletedUsers) && db.outbox == old(db.outbox)
  {
    var users := db.users;
    saved := [];
    ghost var done: set<Id> := {};
    var i := 0;
    while i < |found|
      invariant 0 <= i <= |found|
      invariant forall u :: u in done <==> u in found[..i]
      invariant users == WithPrivateAcls(db.users, done)
      invariant NoDup(saved) && forall u :: u in saved <==> u in done && NeedsPrivateAcl(db.users[u])
    {
      var u := found[i];
      assert u !in done;
      if NeedsPrivateAcl(users[u]) {
        users := users[u := PrivateAcl(users[u], u)];
        saved := saved + [u];
      }
      done := done + {u};
      assert found[..i + 1] == found[..i] + [u];
      i := i + 1;
    }
    assert found[..i] == found;
    assert done == db.users.Keys;
    db.users := users;
    status := Ok("complete");
  }

  // ---------------------------------------------------------------------------
  // Migrate_001_Pre_User_Matches_ChatMessage_UserIds (cloud/migrations.js:71-149)

  /** The status text when a step of the migration throws: a JavaScript error object
   *  serialises with JSON.stringify to "{}". */
  const MigrationError := "migration error {}"

  /** usersById: the users without a `matches` field, by id. */
  function Unlinked(users: map<Id, User>): (r: map<Id, User>)
    ensures forall u :: u in r <==> u in users && users[u].matches.None?
    ensures forall u :: u in r ==> r[u] == users[u]
  {
    map u | u in users && users[u].matches.None? :: users[u]
  }

  /** The loop of lines 103-113 over the mutual matches, in order: each match's id is added
   *  with addUnique to both of its users. A match with a user that is not in `byId` makes
   *  the loop throw, and the whole step fails. */
  function LinkAll(byId: map<Id, User>, ms: map<Key, Match>, keys: seq<Key>): (r: Option<map<Id, User>>)
    requires forall k :: k in keys ==> k in ms
    ensures r.Some? <==> forall k :: k in keys ==> ms[k].uid1 in byId && ms[k].uid2 in byId
    ensures r.Some? ==> r.value.Keys == byId.Keys
  {
    if keys == [] then Some(byId)
    else
      var init := keys[..|keys| - 1];
      var m := ms[keys[|keys| - 1]];
      assert forall k :: k in keys <==> k in init || k == keys[|keys| - 1];
      var prev := LinkAll(byId, ms, init);
      if prev.None? || m.uid1 !in byId || m.uid2 !in byId then None
      else Some(RecordMutualMatch(prev.value, m))
  }

  /** Once the loop succeeds, a user without a list before has one exactly when it takes
   *  part in a listed match; the list then holds, once each, the ids of those matches, and
   *  nothing else about the user changes. */
  lemma {:induction false} LinkAllLists(byId: map<Id, User>, ms: map<Key, Match>, keys: seq<Key>, u: Id)
    requires forall k :: k in keys ==> k in ms
    requires LinkAll(byId, ms, keys).Some? && u in byId && byId[u].matches.None?
    ensures var l := LinkAll(byId, ms, keys).value[u];
            && l.(matches := None) == byId[u]
            && (l.matches.Some? <==> exists k :: k in keys && Involves(ms[k], u))
            && (l.matches.Some? ==>
                  && NoDup(l.matches.value)
                  && forall y :: y in l.matches.value <==> exists k :: k in keys && Involves(ms[k], u) && ms[k].id == y)
  {
    if keys != [] {
      var init := keys[..|keys| - 1];
      var last := keys[|keys| - 1];
      assert forall k :: k in keys <==> k in init || k == last;
      assert LinkAll(byId, ms, init).Some?;
      LinkAllLists(byId, ms, init, u);
    }
  }

  /** As written, a mutual match with a user who already has a `matches` list (so is not
   *  among the loaded users) makes the migration fail. */
  lemma PreLinkedUserFailsLink(users: map<Id, User>, ms: map<Key, Match>, keys: seq<Key>, k: Key)
    requires forall k :: k in keys ==> k in ms
    requires k in keys && ms[k].uid1 in users && users[ms[k].uid1].matches.Some?
    ensures LinkAll(Unlinked(users), ms, keys).None?
  {
  }

  /** matchesById: the listed matches by their id, a later one replacing an earlier one with
   *  the same id. */
  function MatchesById(ms: map<Key, Match>, keys: seq<Key>): (r: map<Id, Match>)
    requires forall k :: k in keys ==> k in ms
    ensures forall k :: k in keys ==> ms[k].id in r
    ensures forall id :: id in r ==> exists k :: k in keys && r[id] == ms[k] && ms[k].id == id
  {
    if keys == [] then map[]
    else
      var init := keys[..|keys| - 1];
      var m := ms[keys[|keys| - 1]];
      var prev := MatchesById(ms, init);
      assert forall k :: k in keys <==> k in init || k == keys[|keys| - 1];
      prev[m.id := m]
  }

  /** The message loop of lines 136-140: every message gets the user ids of its match. A
   *  message whose match is not among the loaded ones makes the loop throw. */
  function Stamped(msgs: map<Id, ChatMessage>, byMatch: map<Id, Match>): (r: Option<map<Id, ChatMessage>>)
    ensures r.Some? <==> forall i :: i in msgs ==> msgs[i].matchId in byMatch
    ensures r.Some? ==> r.value.Keys == msgs.Keys
  {
    if forall i :: i in msgs ==> msgs[i].matchId in byMatch then
      Some(map i | i in msgs :: msgs[i].(userIds := Some([byMatch[msgs[i].matchId].uid1, byMatch[msgs[i].matchId].uid2])))
    else None
  }

  /** After a successful run every message names, in order, the two users of the mutual
   *  match it belongs to, and is otherwise unchanged. */
  lemma StampedNamesMutualPair(ms: map<Key, Match>, keys: seq<Key>, msgs: map<Id, ChatMessage>, i: Id)
    requires forall k :: k in keys ==> k in ms && ms[k].state == M
    requires Stamped(msgs, MatchesById(ms, keys)).Some? && i in msgs
    ensures var r := Stamped(msgs, MatchesById(ms, keys)).value[i];
            && r.(userIds := msgs[i].userIds) == msgs[i]
            && exists k :: k in keys && ms[k].id == msgs[i].matchId && ms[k].state == M
                           && r.userIds == Some([ms[k].uid1, ms[k].uid2])
  {
    var byMatch := MatchesById(ms, keys);
    assert msgs[i].matchId in byMatch;
    var k :| k in keys && byMatch[msgs[i].matchId] == ms[k] && ms[k].id == msgs[i].matchId;
  }

  /** The usersById loop of lines 94-97 over the answer of the users query. */
  method UsersById(users: map<Id, User>, loaded: seq<Id>) returns (byId: map<Id, User>)
    requires Lists(loaded, set u | u in users && users[u].matches.None?)
    ensures byId == Unlinked(users)
  {
    byId := map[];
    var j := 0;
    while j < |loaded|
      invariant 0 <= j <= |loaded|
      invariant forall u :: u in byId <==> u in loaded[..j]
      invariant forall u :: u in byId ==> u in users && byId[u] == users[u]
    {
      assert loaded[j] in loaded;
      byId := byId[loaded[j] := users[loaded[j]]];
      assert loaded[..j + 1] == loaded[..j] + [loaded[j]];
      j := j + 1;
    }
    assert loaded[..j] == loaded;
  }

  /** The match loop of lines 103-113 on the loaded users. */
  method LinkMatches(byId: map<Id, User>, ms: map<Key, Match>, keys: seq<Key>) returns (r: Option<map<Id, User>>)
    requires forall k :: k in keys ==> k in ms
    ensures r == LinkAll(byId, ms, keys)
  {
    var linked := byId;
    var i := 0;
    while i < |keys|
      invariant 0 <= i <= |keys|
      invariant LinkAll(byId, ms, keys[..i]) == Some(linked)
    {
      assert keys[..i + 1][..i] == keys[..i];
      var m := ms[keys[i]];
      if m.uid1 !in linked || m.uid2 !in linked {
        assert keys[i] in keys;
        return None;
      }
      linked := RecordMutualMatch(linked, m);
      i := i + 1;
    }
    assert keys[..i] == keys;
    r := Some(linked);
  }

  /** The matchesById loop of lines 129-132. */
  method MatchesByIdOf(ms: map<Key, Match>, keys: seq<Key>) returns (byMatch: map<Id, Match>)
    requires forall k :: k in keys ==> k in ms
    ensures byMatch == MatchesById(ms, keys)
  {
    byMatch := map[];
    var i := 0;
    while i < |keys|
      invariant 0 <= i <= |keys|
      invariant byMatch == MatchesById(ms, keys[..i])
    {
      assert keys[..i + 1][..i] == keys[..i];
      byMatch := byMatch[ms[keys[i]].id := ms[keys[i]]];
      i := i + 1;
    }
    assert keys[..i] == keys;
  }

  /** The message loop of lines 136-140 over the answer of the message query. */
  method StampMessages(msgs: map<Id, ChatMessage>, found: seq<Id>, byMatch: map<Id, Match>)
    returns (r: Option<map<Id, ChatMessage>>)
    requires Lists(found, msgs.Keys)
    ensures r == Stamped(msgs, byMatch)
  {
    var stamped := msgs;
    ghost var done: set<Id> := {};
    var i := 0;
    while i < |found|
      invariant 0 <= i <= |found|
      invariant forall x :: x in done <==> x in found[..i]
      invariant forall x :: x in done ==> msgs[x].matchId in byMatch
      invariant stamped.Keys == msgs.Keys
      invariant forall x :: x in msgs ==>
                  stamped[x] == if x in done
                                then msgs[x].(userIds := Some([byMatch[msgs[x].matchId].uid1, byMatch[msgs[x].matchId].uid2]))
                                else msgs[x]
    {
      var x := found[i];
      assert x !in done;
      assert x in found;
      var msg := stamped[x];
      assert msg == msgs[x];
      if msg.matchId !in byMatch {
        return None;
      }
      var mm := byMatch[msg.matchId];
      stamped := stamped[x := msg.(userIds := Some([mm.uid1, mm.uid2]))];
      done := done + {x};
      assert found[..i + 1] == found[..i] + [x];
      i := i + 1;
    }
    assert found[..i] == found;
    assert done == msgs.Keys;
    assert forall x :: x in msgs ==> msgs[x].matchId in byMatch;
    assert stamped == Stamped(msgs, byMatch).value;
    r := Some(stamped);
  }

  /** Migrate_001. The users without a `matches` list each get the ids of their mutual
   *  matches, and all of them are saved; then every message gets the user ids of its match.
   *  The message query filters on a `usersIds` field that nothing writes, so it returns
   *  every message. A failure of the first step saves nothing; a failure of the second
   *  leaves the users saved. The 1000-row caps of the queries are not modelled. */
  method MigrateMatchLists(db: Database, loaded: seq<Id>, mutual: seq<Key>, msgs: seq<Id>)
    returns (status: Result<string>)
    requires Lists(loaded, set u | u in db.users && db.users[u].matches.None?)
    requires Lists(mutual, set k | k in db.matches && db.matches[k].state == M)
    requires Lists(msgs, db.messages.Keys)
    modifies db
    ensures var linked := LinkAll(Unlinked(old(db.users)), old(db.matches), mutual);
            && (linked.None? ==> status == Err(MigrationError) && db.users == old(db.users) && db.messages == old(db.messages))
            && (linked.Some? ==> db.users == old(db.users) + linked.value)
            && (linked.Some? ==>
                  var st := Stamped(old(db.messages), MatchesById(old(db.matches), mutual));
                  && (st.None? ==> status == Err(MigrationError) && db.messages == old(db.messages))
                  && (st.Some? ==> status == Ok("migration complete") && db.messages == st.value))
    ensures db.profiles == old(db.profiles) && db.matches == old(db.matches) && db.reports == old(db.reports)
    ensures db.deletedUsers == old(db.deletedUsers) && db.outbox == old(db.outbox)
  {
    assert forall k :: k in mutual ==> k in db.matches;
    var linked := SaveLinkedUsers(db, loaded, mutual);
    if !linked {
      return Err(MigrationError);
    }
    var stamped := SaveStampedMessages(db, mutual, msgs);
    status := if stamped then Ok("migration complete") else Err(MigrationError);
  }

  /** The first step of Migrate_001: link the mutual matches and save the loaded users. */
  method SaveLinkedUsers(db: Database, loaded: seq<Id>, mutual: seq<Key>) returns (ok: bool)
    requires Lists(loaded, set u | u in db.users && db.users[u].matches.None?)
    requires forall k :: k in mutual ==> k in db.matches
    modifies db
    ensures var linked := LinkAll(Unlinked(old(db.users)), old(db.matches), mutual);
            && ok == linked.Some?
            && db.users == (if ok then old(db.users) + linked.value else old(db.users))
    ensures db.profiles == old(db.profiles) && db.matches == old(db.matches) && db.messages == old(db.messages)
    ensures db.reports == old(db.reports) && db.deletedUsers == old(db.deletedUsers) && db.outbox == old(db.outbox)
  {
    var byId := UsersById(db.users, loaded);
    var linked := LinkMatches(byId, db.matches, mutual);
    ok := linked.Some?;
    if ok {
      db.users := db.users + linked.value;
    }
  }

  /** The second step of Migrate_001: stamp the messages and save them. */
  method SaveStampedMessages(db: Database, mutual: seq<Key>, msgs: seq<Id>) returns (ok: bool)
    requires forall k :: k in mutual ==> k in db.matches
    requires Lists(msgs, db.messages.Keys)
    modifies db
    ensures var st := Stamped(old(db.messages), MatchesById(old(db.matches), mutual));
            && ok == st.Some?
            && db.messages == (if ok then st.value else old(db.messages))
    ensures db.users == old(db.users) && db.profiles == old(db.profiles) && db.matches == old(db.matches)
    ensures db.reports == old(db.reports) && db.deletedUsers == old(db.deletedUsers) && db.outbox == old(db.outbox)
  {
    var byMatch := MatchesByIdOf(db.matches, mutual);
    var stamped := StampMessages(db.messages, msgs, byMatch);
    ok := stamped.Some?;
    if ok {
      db.messages := stamped.value;
    }
  }
}
