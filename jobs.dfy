/** The reconciliation jobs of cloud/jobs.js: rebuilding a user's match list from the
 *  Match table, the daily new-like push, repair of mutual matches without profiles,
 *  and merging duplicate profiles. */
module Jobs {
  import opened Common
  import opened Records
  import opened SwipeRules
  import opened Store
  import opened Sorting
  import opened Text
  import opened Discovery

  // ---------------------------------------------------------------------------
  // rebuildMatches and arraysEqual (cloud/jobs.js:98-137)

  /** `Array.prototype.sort` on an id array, in place. */
  method SortIds(a: array<Id>)
    modifies a
    ensures a[..] == SortBy(old(a[..]), IdOrder)
  {
    var s := SortBy(a[..], IdOrder);
    var i := 0;
    while i < a.Length
      invariant 0 <= i <= a.Length
      invariant forall j :: 0 <= j < i ==> a[j] == s[j]
    {
      a[i] := s[i];
      i := i + 1;
    }
    assert a[..] == s;
  }

  /** arraysEqual: the same array (or null twice) is equal to itself; null and arrays of
   *  different lengths are unequal and left alone; otherwise both arrays are sorted in
   *  place and compared element by element, so the answer is whether they hold the same
   *  ids as often. */
  method ArraysEqual(a: array?<Id>, b: array?<Id>) returns (eq: bool)
    modifies a, b
    ensures a == b ==> eq && (a != null ==> a[..] == old(a[..]))
    ensures a != b && (a == null || b == null) ==> !eq
    ensures a != b && a != null && b != null && a.Length != b.Length ==>
              !eq && a[..] == old(a[..]) && b[..] == old(b[..])
    ensures a != b && a != null && b != null && a.Length == b.Length ==>
              && a[..] == SortBy(old(a[..]), IdOrder) && b[..] == SortBy(old(b[..]), IdOrder)
              && (eq <==> multiset(old(a[..])) == multiset(old(b[..])))
  {
    if a == b {
      return true;
    }
    if a == null || b == null {
      return false;
    }
    if a.Length != b.Length {
      return false;
    }
    SortIds(a);
    SortIds(b);
    SortedIdsEqual(a[..], b[..]);
    eq := SameElements(a, b);
  }

  /** The element-by-element comparison at the end of arraysEqual. */
  method SameElements(a: array<Id>, b: array<Id>) returns (eq: bool)
    requires a.Length == b.Length
    ensures eq <==> a[..] == b[..]
  {
    var i := 0;
    while i < a.Length
      invariant 0 <= i <= a.Length
      invariant forall j :: 0 <= j < i ==> a[j] == b[j]
    {
      if a[i] != b[i] {
        assert a[..][i] != b[..][i];
        return false;
      }
      i := i + 1;
    }
    assert a[..] == b[..];
    return true;
  }

  /** The ids of the listed matches, in order. */
  function IdsOf(ms: map<Key, Match>, keys: seq<Key>): (ids: seq<Id>)
    requires forall k :: k in keys ==> k in ms
    ensures |ids| == |keys|
    ensures forall i :: 0 <= i < |keys| ==> ids[i] == ms[keys[i]].id
  {
    if keys == [] then [] else IdsOf(ms, keys[..|keys| - 1]) + [ms[keys[|keys| - 1]].id]
  }

  /** The loop of jobs.js:110 collecting the ids of the query answer. */
  method CollectIds(ms: map<Key, Match>, found: seq<Key>) returns (ids: seq<Id>)
    requires forall k :: k in found ==> k in ms
    ensures ids == IdsOf(ms, found)
  {
    ids := [];
    var i := 0;
    while i < |found|
      invariant 0 <= i <= |found|
      invariant ids == IdsOf(ms, found[..i])
    {
      assert found[..i + 1][..i] == found[..i];
      ids := ids + [ms[found[i]].id];
      i := i + 1;
    }
    assert found[..i] == found;
  }

  /** The ids of u's mutual matches. */
  function MutualIdsOf(ms: map<Key, Match>, u: Id): set<Id>
  {
    set k | k in MatchesOfUserIn(ms, u, M) :: ms[k].id
  }

  /** The list rebuildMatches computes holds each of the user's mutual match ids once. */
  lemma RebuiltIdsAreMutualIds(ms: map<Key, Match>, u: Id, found: seq<Key>)
    requires MatchTable(ms)
    requires Lists(found, MatchesOfUserIn(ms, u, M))
    ensures NoDup(IdsOf(ms, found))
    ensures forall x :: x in IdsOf(ms, found) <==> x in MutualIdsOf(ms, u)
  {
    var ids := IdsOf(ms, found);
    forall i, j | 0 <= i < j < |ids| ensures ids[i] != ids[j] {
      assert found[i] != found[j];
    }
    forall x | x in MutualIdsOf(ms, u) ensures x in ids {
      var k :| k in MatchesOfUserIn(ms, u, M) && ms[k].id == x;
      var i :| 0 <= i < |found| && found[i] == k;
      assert ids[i] == x;
    }
  }

  /** What rebuildMatches writes given the stored list and the computed one: nothing when
   *  they hold the same ids; otherwise the computed list, which arraysEqual has sorted in
   *  place when the two lengths agreed. */
  function RebuiltList(stored: seq<Id>, ids: seq<Id>): (w: Option<seq<Id>>)
    ensures w.None? <==> multiset(stored) == multiset(ids)
    ensures w.Some? ==> multiset(w.value) == multiset(ids)
    ensures w.Some? && |stored| == |ids| ==> SortedBy(w.value, IdOrder)
  {
    if multiset(stored) == multiset(ids) then None
    else Some(if |stored| == |ids| then SortBy(ids, IdOrder) else ids)
  }

  /** The answer of a query for u's matches in a state lists stored matches only. */
  lemma ListedAreStored(ms: map<Key, Match>, u: Id, st: State, found: seq<Key>)
    requires Lists(found, MatchesOfUserIn(ms, u, st))
    ensures forall k :: k in found ==> k in ms
  {
    forall k | k in found ensures k in ms {
      assert k in MatchesOfUserIn(ms, u, st);
    }
  }

  /** What rebuildMatches writes for a stored field that may be missing. */
  function RebuildWrite(stored: Option<seq<Id>>, ids: seq<Id>): Option<seq<Id>>
  {
    if stored.None? then None else RebuiltList(stored.value, ids)
  }

  /** rebuildMatches for one user; `found` is the answer of the query for the user's mutual
   *  matches. A user without a `matches` field is not written. */
  method RebuildMatches(db: Database, uid: Id, found: seq<Key>)
    requires uid in db.users
    requires Lists(found, MatchesOfUserIn(db.matches, uid, M))
    modifies db
    ensures forall k :: k in found ==> k in old(db.matches)
    ensures var w := RebuildWrite(old(db.users[uid].matches), IdsOf(old(db.matches), found));
            db.users == if w.None? then old(db.users) else old(db.users)[uid := old(db.users[uid]).(matches := w)]
    ensures db.matches == old(db.matches) && db.profiles == old(db.profiles) && db.messages == old(db.messages)
    ensures db.reports == old(db.reports) && db.deletedUsers == old(db.deletedUsers) && db.outbox == old(db.outbox)
  {
    ListedAreStored(db.matches, uid, M, found);
    var ids := CollectIds(db.matches, found);
    var stored := db.users[uid].matches;
    if stored.None? {
      return;
    }
    var write := Rewrite(stored.value, ids);
    if write.Some? {
      var before := db.users;
      db.users := before[uid := before[uid].(matches := write)];
    }
  }

  /** The stored list and the computed one go into arraysEqual as arrays; the computed
   *  array, sorted or not, is the list to write when they differ. */
  method Rewrite(stored: seq<Id>, ids: seq<Id>) returns (write: Option<seq<Id>>)
    ensures write == RebuiltList(stored, ids)
  {
    var a := new Id[|stored|](j requires 0 <= j < |stored| => stored[j]);
    var b := new Id[|ids|](j requires 0 <= j < |ids| => ids[j]);
    assert a[..] == stored && b[..] == ids;
    var eq := ArraysEqual(a, b);
    if eq {
      return None;
    }
    return Some(b[..]);
  }

  /** After rebuildMatches, a user that has a match list holds each of its mutual match
   *  ids, once, and nothing else; the list is rewritten only if it did not. */
  lemma RebuildRestoresMutualIds(ms: map<Key, Match>, u: Id, found: seq<Key>, stored: seq<Id>)
    requires MatchTable(ms)
    requires Lists(found, MatchesOfUserIn(ms, u, M))
    ensures var ids := IdsOf(ms, found);
            var after := if RebuiltList(stored, ids).Some? then RebuiltList(stored, ids).value else stored;
            && multiset(after) == multiset(ids)
            && NoDup(ids)
            && (forall x :: x in after <==> x in MutualIdsOf(ms, u))
  {
    RebuiltIdsAreMutualIds(ms, u, found);
    var ids := IdsOf(ms, found);
    var after := if RebuiltList(stored, ids).Some? then RebuiltList(stored, ids).value else stored;
    assert forall x :: x in after <==> x in multiset(ids);
  }

  // ---------------------------------------------------------------------------
  // New_Like_Notifications (cloud/jobs.js:28-76)

  /** The pending matches created in [from, to). */
  function PendingIn(ms: map<Key, Match>, from: int, to: int): set<Key>
  {
    set k | k in ms && ms[k].state == P && from <= ms[k].createdAt < to
  }

  /** The user the job picks for a pending match. It tests a field `action1` that no code
   *  writes (the slots are u1action and u2action), which is always undefined, so the pick
   *  is always uid1. */
  function NotifiedAsWritten(m: Match): Id
  {
    m.uid1
  }

  /** The pick the test evidently meant: when uid1 has acted, uid2 is the one liked. */
  function LikedUser(m: Match): Id
  {
    if m.u1action != Unset then m.uid2 else m.uid1
  }

  /** The keys of the `likedUserIds` dictionary: each pick once, in first-seen order. */
  function LikedUsers(ms: map<Key, Match>, keys: seq<Key>): (us: seq<Id>)
    requires forall k :: k in keys ==> k in ms
    ensures NoDup(us)
    ensures forall i :: 0 <= i < |keys| ==> NotifiedAsWritten(ms[keys[i]]) in us
    ensures forall u :: u in us ==> u in (set k | k in keys :: NotifiedAsWritten(ms[k]))
  {
    if keys == [] then []
    else
      var init := LikedUsers(ms, keys[..|keys| - 1]);
      assert forall i :: 0 <= i < |keys| - 1 ==> keys[i] == keys[..|keys| - 1][i];
      AddUnique(init, NotifiedAsWritten(ms[keys[|keys| - 1]]))
  }

  /** 'user_' + id for each id. */
  function Channels(ids: seq<Id>): (cs: seq<Channel>)
    ensures |cs| == |ids|
    ensures forall i :: 0 <= i < |ids| ==> cs[i] == UserChannel(ids[i])
  {
    seq(|ids|, i requires 0 <= i < |ids| => UserChannel(ids[i]))
  }

  /** New_Like_Notifications over the pending matches of the day (`found`, in storage
   *  order): one newLikes push to the picked users, and the status text with their count. */
  method NewLikeNotifications(db: Database, from: int, to: int, found: seq<Key>) returns (status: string)
    requires Lists(found, PendingIn(db.matches, from, to))
    modifies db
    ensures var liked := LikedUsers(old(db.matches), found);
            && db.outbox == old(db.outbox) + [Push(Channels(liked), NewLikes)]
            && status == "Notified " + DecimalText(|liked|) + " users of a new like"
    ensures db.users == old(db.users) && db.matches == old(db.matches) && db.profiles == old(db.profiles)
    ensures db.messages == old(db.messages) && db.reports == old(db.reports) && db.deletedUsers == old(db.deletedUsers)
  {
    assert forall k :: k in found ==> k in db.matches by {
      forall k | k in found ensures k in db.matches {
        assert k in PendingIn(db.matches, from, to);
      }
    }
    var liked := CollectLiked(db.matches, found);
    var channels := Channels(liked);
    db.outbox := db.outbox + [Push(channels, NewLikes)];
    status := "Notified " + DecimalText(|channels|) + " users of a new like";
  }

  /** The `matchQuery.each` loop filling `likedUserIds`. */
  method CollectLiked(ms: map<Key, Match>, found: seq<Key>) returns (liked: seq<Id>)
    requires forall k :: k in found ==> k in ms
    ensures liked == LikedUsers(ms, found)
  {
    liked := [];
    var i := 0;
    while i < |found|
      invariant 0 <= i <= |found|
      invariant liked == LikedUsers(ms, found[..i])
    {
      assert found[..i + 1][..i] == found[..i];
      liked := AddUnique(liked, NotifiedAsWritten(ms[found[i]]));
      i := i + 1;
    }
    assert found[..i] == found;
  }

  /** As written, the user who liked is notified of a like and the user who was liked is
   *  not: in a pending match where uid1 liked uid2, the pick is uid1. */
  lemma LikerNotifiedInsteadOfLiked(m: Match)
    requires Consistent(m) && m.state == P && m.u1action == L && m.uid1 != m.uid2
    ensures NotifiedAsWritten(m) == m.uid1 && m.u2action == Unset
    ensures LikedUser(m) == m.uid2 != NotifiedAsWritten(m)
  {
  }

  /** The intended pick is the party that has not swiped yet, next to a like. */
  lemma LikedUserIsTheOneLiked(m: Match)
    requires Consistent(m) && m.state == P && (m.u1action == L || m.u2action == L)
    ensures || (LikedUser(m) == m.uid1 && m.u1action == Unset && m.u2action == L)
            || (LikedUser(m) == m.uid2 && m.u2action == Unset && m.u1action == L)
  {
  }

  // ---------------------------------------------------------------------------
  // Fix_Mutual_Matches_Missing_Profiles (cloud/jobs.js:141-178)

  /** The mutual matches without profile1. */
  function MissingProfiles(ms: map<Key, Match>): set<Key>
  {
    set k | k in ms && ms[k].state == M && ms[k].profile1.None?
  }

  /** `match.set(slot, pointer)` as saved: an undefined pointer is left out of the save
   *  body, so the stored slot stays. */
  function SavedPointer(stored: Option<Id>, pointer: Option<Id>): (r: Option<Id>)
    ensures pointer.Some? ==> r == pointer
    ensures pointer.None? ==> r == stored
  {
    if pointer.Some? then pointer else stored
  }

  /** fixMutualMatch: both users are fetched (a missing one fails the step and nothing is
   *  saved); then each slot gets its user's profile pointer, where the user has one. */
  function Repaired(m: Match, users: map<Id, User>): (r: Option<Match>)
    ensures r.Some? <==> m.uid1 in users && m.uid2 in users
    ensures r.Some? ==> r.value == m.(profile1 := SavedPointer(m.profile1, users[m.uid1].profile),
                                      profile2 := SavedPointer(m.profile2, users[m.uid2].profile))
  {
    if m.uid1 in users && m.uid2 in users then
      Some(m.(profile1 := SavedPointer(m.profile1, users[m.uid1].profile),
              profile2 := SavedPointer(m.profile2, users[m.uid2].profile)))
    else None
  }

  /** The table after the repair of the given keys. */
  function RepairedTable(ms: map<Key, Match>, users: map<Id, User>, keys: set<Key>): map<Key, Match>
  {
    map k | k in ms :: if k in keys && Repaired(ms[k], users).Some? then Repaired(ms[k], users).value else ms[k]
  }

  /** Every user's profile pointer, when set, leads to a profile of that user. */
  ghost predicate OwnProfiles(users: map<Id, User>, profiles: map<Id, Profile>)
  {
    forall u :: u in users && users[u].profile.Some? ==>
      users[u].profile.value in profiles && profiles[users[u].profile.value].uid == Some(u)
  }

  /** Repair keeps the table well formed: only profile slots change. */
  lemma RepairKeepsTable(ms: map<Key, Match>, users: map<Id, User>, keys: set<Key>)
    requires MatchTable(ms)
    ensures MatchTable(RepairedTable(ms, users, keys))
  {
    var ms' := RepairedTable(ms, users, keys);
    forall k1, k2 | k1 in ms' && k2 in ms' && k1 != k2
      ensures ms'[k1].id != ms'[k2].id
    {
      assert ms'[k1].id == ms[k1].id && ms'[k2].id == ms[k2].id;
    }
  }

  /** When users point at their own profiles, and a slot the repair keeps already holds its
   *  party's profile, a repaired match shows each party the other party's profile. */
  lemma RepairedMatchShowsOtherParty(m: Match, users: map<Id, User>, profiles: map<Id, Profile>,
                                     viewer: User, me: Id, ageOf: BirthDate -> int)
    requires m.uid1 != m.uid2 && OwnProfiles(users, profiles)
    requires m.profile1.Some? ==> m.profile1.value in profiles && profiles[m.profile1.value].uid == Some(m.uid1)
    requires m.profile2.Some? ==> m.profile2.value in profiles && profiles[m.profile2.value].uid == Some(m.uid2)
    requires Repaired(m, users).Some?
    requires ProfileForMatch(viewer, me, Some(m.id), Repaired(m, users), profiles, ageOf).Ok?
    ensures ProfileForMatch(viewer, me, Some(m.id), Repaired(m, users), profiles, ageOf).value.uid == Some(OtherParty(m, me))
  {
    var r := Repaired(m, users).value;
    ProfileForMatchIsOtherParty(viewer, me, r, profiles, ageOf);
  }

  /** Repairing one more key updates that key alone. */
  lemma RepairOneMore(ms: map<Key, Match>, users: map<Id, User>, done: set<Key>, k: Key)
    requires k in ms && k !in done
    ensures var fixed := Repaired(ms[k], users);
            RepairedTable(ms, users, done + {k})
            == if fixed.Some? then RepairedTable(ms, users, done)[k := fixed.value] else RepairedTable(ms, users, done)
  {
  }

  /** The loop of the job over the answer of its query, on the fetched records. */
  method RepairAll(ms: map<Key, Match>, users: map<Id, User>, found: seq<Key>) returns (out: map<Key, Match>, ok: bool)
    requires NoDup(found) && forall k :: k in found ==> k in ms
    ensures out == RepairedTable(ms, users, set k | k in found)
    ensures ok <==> forall k :: k in found ==> Repaired(ms[k], users).Some?
  {
    out := ms;
    ok := true;
    ghost var done: set<Key> := {};
    var i := 0;
    while i < |found|
      invariant 0 <= i <= |found|
      invariant forall k :: k in done <==> k in found[..i]
      invariant out == RepairedTable(ms, users, done)
      invariant ok <==> forall j :: 0 <= j < i ==> Repaired(ms[found[j]], users).Some?
    {
      var k := found[i];
      assert k !in done;
      RepairOneMore(ms, users, done, k);
      var fixed := Repaired(out[k], users);
      if fixed.Some? {
        out := out[k := fixed.value];
      } else {
        ok := false;
      }
      done := done + {k};
      assert found[..i + 1] == found[..i] + [k];
      i := i + 1;
    }
    assert found[..i] == found;
    assert done == set k | k in found;
  }

  /** Fix_Mutual_Matches_Missing_Profiles over the answer of its query; every step runs,
   *  and the job succeeds when no step failed. */
  method FixMissingProfiles(db: Database, found: seq<Key>) returns (ok: bool)
    requires db.Valid()
    requires Lists(found, MissingProfiles(db.matches))
    modifies db
    ensures db.Valid()
    ensures db.matches == RepairedTable(old(db.matches), old(db.users), set k | k in found)
    ensures ok <==> forall k :: k in found ==> Repaired(old(db.matches)[k], old(db.users)).Some?
    ensures db.users == old(db.users) && db.profiles == old(db.profiles) && db.messages == old(db.messages)
    ensures db.reports == old(db.reports) && db.deletedUsers == old(db.deletedUsers) && db.outbox == old(db.outbox)
  {
    assert forall k :: k in found ==> k in db.matches by {
      forall k | k in found ensures k in db.matches {
        assert k in MissingProfiles(db.matches);
      }
    }
    var repaired;
    repaired, ok := RepairAll(db.matches, db.users, found);
    RepairKeepsTable(db.matches, db.users, set k | k in found);
    db.matches := repaired;
  }

  // ---------------------------------------------------------------------------
  // Fix_Duplicate_Profiles and fixDupes (cloud/jobs.js:180-251)

  /** A profile's creation time, as `_.sortBy(dupe, 'createdAt')` reads it. */
  function CreatedAt(profiles: map<Id, Profile>): Id -> int
  {
    (p: Id) => Fetched(profiles, p).createdAt
  }

  /** The uids of the listed profiles, each once, in first-seen order: the keys of `_.groupBy`. */
  function UidsOf(profiles: map<Id, Profile>, ordered: seq<Id>): (uids: seq<Option<Id>>)
    ensures NoDup(uids)
    ensures forall p :: p in ordered ==> Fetched(profiles, p).uid in uids
    ensures forall u :: u in uids ==> exists p :: p in ordered && Fetched(profiles, p).uid == u
  {
    if ordered == [] then []
    else
      var init := UidsOf(profiles, ordered[..|ordered| - 1]);
      assert forall p :: p in ordered ==> p in ordered[..|ordered| - 1] || p == ordered[|ordered| - 1];
      AddUnique(init, Fetched(profiles, ordered[|ordered| - 1]).uid)
  }

  /** The listed profiles with a given uid, in order: one group of `_.groupBy`. */
  function Members(profiles: map<Id, Profile>, ordered: seq<Id>, uid: Option<Id>): (ps: seq<Id>)
    ensures forall p :: p in ps <==> p in ordered && Fetched(profiles, p).uid == uid
    ensures NoDup(ordered) ==> NoDup(ps)
  {
    if ordered == [] then []
    else
      var init := Members(profiles, ordered[..|ordered| - 1], uid);
      var last := ordered[|ordered| - 1];
      assert forall p :: p in ordered <==> p in ordered[..|ordered| - 1] || p == last;
      assert NoDup(ordered) ==> last !in ordered[..|ordered| - 1];
      if Fetched(profiles, last).uid == uid then init + [last] else init
  }

  /** A group with more than one profile: the earliest created is kept, the others are
   *  the duplicates. */
  datatype DupGroup = DupGroup(uid: Option<Id>, orig: Id, dupes: seq<Id>)

  /** The group of one uid, sorted by creation time (stably). */
  function GroupOf(profiles: map<Id, Profile>, ordered: seq<Id>, uid: Option<Id>): (g: DupGroup)
    requires |Members(profiles, ordered, uid)| > 1
    ensures g.uid == uid && |g.dupes| >= 1
    ensures multiset([g.orig] + g.dupes) == multiset(Members(profiles, ordered, uid))
    ensures forall d :: d in g.dupes ==> Fetched(profiles, g.orig).createdAt <= Fetched(profiles, d).createdAt
    ensures g.orig in ordered && Fetched(profiles, g.orig).uid == uid
  {
    var sorted := SortBy(Members(profiles, ordered, uid), CreatedAt(profiles));
    assert sorted == [sorted[0]] + sorted[1..];
    assert sorted[0] in multiset(Members(profiles, ordered, uid));
    assert forall i :: 1 <= i < |sorted| ==> CreatedAt(profiles)(sorted[0]) <= CreatedAt(profiles)(sorted[i]);
    DupGroup(uid, sorted[0], sorted[1..])
  }

  /** Because `_.sortBy` is stable, the original is the earliest created member, and among
   *  members created at the same time the one listed first. */
  lemma GroupOfKeepsFirstOfTies(profiles: map<Id, Profile>, ordered: seq<Id>, uid: Option<Id>, i: int)
    requires |Members(profiles, ordered, uid)| > 1
    requires var ms := Members(profiles, ordered, uid);
             && 0 <= i < |ms|
             && (forall j :: 0 <= j < |ms| ==> Fetched(profiles, ms[i]).createdAt <= Fetched(profiles, ms[j]).createdAt)
             && (forall j :: 0 <= j < i ==> Fetched(profiles, ms[i]).createdAt < Fetched(profiles, ms[j]).createdAt)
    ensures GroupOf(profiles, ordered, uid).orig == Members(profiles, ordered, uid)[i]
  {
    SortByHeadIsFirstMinimum(Members(profiles, ordered, uid), CreatedAt(profiles), i);
  }

  /** The groups of the given uids that hold more than one profile, in order. */
  function GroupsOf(profiles: map<Id, Profile>, ordered: seq<Id>, uids: seq<Option<Id>>): (gs: seq<DupGroup>)
    ensures forall g :: g in gs ==>
              g.uid in uids && |Members(profiles, ordered, g.uid)| > 1 && g == GroupOf(profiles, ordered, g.uid)
    ensures forall u :: u in uids && |Members(profiles, ordered, u)| > 1 ==> GroupOf(profiles, ordered, u) in gs
  {
    if uids == [] then []
    else
      var init := GroupsOf(profiles, ordered, uids[..|uids| - 1]);
      var last := uids[|uids| - 1];
      assert forall u :: u in uids <==> u in uids[..|uids| - 1] || u == last;
      if |Members(profiles, ordered, last)| > 1 then
        var g := GroupOf(profiles, ordered, last);
        assert forall x :: x in init + [g] <==> x in init || x == g;
        init + [g]
      else init
  }

  /** The duplicate groups of Fix_Duplicate_Profiles, `ordered` being the profiles as the
   *  query returns them. */
  function DupGroups(profiles: map<Id, Profile>, ordered: seq<Id>): seq<DupGroup>
  {
    GroupsOf(profiles, ordered, UidsOf(profiles, ordered))
  }

  /** Two different profiles with the same uid make that uid a group of more than one
   *  profile, kept among the duplicate groups, with each of the two as its original or
   *  among its duplicates. */
  lemma DupGroupsCoverDuplicates(profiles: map<Id, Profile>, ordered: seq<Id>, p: Id, q: Id)
    requires NoDup(ordered)
    requires p in ordered && q in ordered && p != q && Fetched(profiles, p).uid == Fetched(profiles, q).uid
    ensures var u := Fetched(profiles, p).uid;
            && |Members(profiles, ordered, u)| > 1
            && var g := GroupOf(profiles, ordered, u);
               && g in DupGroups(profiles, ordered)
               && (p == g.orig || p in g.dupes) && (q == g.orig || q in g.dupes)
  {
    var u := Fetched(profiles, p).uid;
    var ms := Members(profiles, ordered, u);
    assert p in ms && q in ms;
    var i :| 0 <= i < |ms| && ms[i] == p;
    var j :| 0 <= j < |ms| && ms[j] == q;
    assert i != j;
    assert u in UidsOf(profiles, ordered);
    var g := GroupOf(profiles, ordered, u);
    assert g in GroupsOf(profiles, ordered, UidsOf(profiles, ordered));
    assert p in multiset(ms) && q in multiset(ms);
    assert p in multiset([g.orig] + g.dupes) && q in multiset([g.orig] + g.dupes);
  }

  /** The slot of u's side of a match gets `orig`: uid1 first, then uid2; a match where u
   *  is on neither side is left as it is. */
  function Repoint(m: Match, u: Id, orig: Id): (r: Match)
    ensures r.(profile1 := m.profile1, profile2 := m.profile2) == m
    ensures m.uid1 == u ==> r.profile1 == Some(orig) && r.profile2 == m.profile2
    ensures m.uid1 != u && m.uid2 == u ==> r.profile2 == Some(orig) && r.profile1 == m.profile1
    ensures !Involves(m, u) ==> r == m
  {
    if m.uid1 == u then m.(profile1 := Some(orig))
    else if m.uid2 == u then m.(profile2 := Some(orig))
    else m
  }

  /** A match with a slot pointing at one of the duplicates. */
  function RefersTo(ms: map<Key, Match>, dupes: seq<Id>): set<Key>
  {
    set k | k in ms && ((ms[k].profile1.Some? && ms[k].profile1.value in dupes) || (ms[k].profile2.Some? && ms[k].profile2.value in dupes))
  }

  /** The users, matches and profiles the duplicate fixer writes. */
  datatype Tables = Tables(users: map<Id, User>, matches: map<Key, Match>, profiles: map<Id, Profile>)

  /** fixDupes on one group: the owner is fetched (a group without uid or with an owner that
   *  does not exist fails, writing nothing); the owner's profile pointer becomes the
   *  original; every match pointing at a duplicate is repointed on the owner's side; the
   *  duplicates are destroyed. */
  function FixDupesOf(t: Tables, g: DupGroup): (r: (Tables, bool))
    ensures !r.1 <==> g.uid.None? || g.uid.value !in t.users
    ensures !r.1 ==> r.0 == t
    ensures r.1 ==> r.0.users == t.users[g.uid.value := t.users[g.uid.value].(profile := Some(g.orig))]
    ensures r.1 ==> r.0.profiles == t.profiles - (set d | d in g.dupes)
    ensures r.1 ==> r.0.matches.Keys == t.matches.Keys
    ensures r.1 ==> forall k :: k in t.matches ==>
              r.0.matches[k] == if k in RefersTo(t.matches, g.dupes) then Repoint(t.matches[k], g.uid.value, g.orig) else t.matches[k]
  {
    if g.uid.None? || g.uid.value !in t.users then (t, false)
    else
      var u := g.uid.value;
      var hits := RefersTo(t.matches, g.dupes);
      var matches := map k | k in t.matches :: if k in hits then Repoint(t.matches[k], u, g.orig) else t.matches[k];
      (Tables(t.users[u := t.users[u].(profile := Some(g.orig))], matches, t.profiles - (set d | d in g.dupes)), true)
  }

  /** Repointing keeps the Match table well formed: only profile slots change. */
  lemma FixDupesKeepsTable(t: Tables, g: DupGroup)
    requires MatchTable(t.matches)
    ensures MatchTable(FixDupesOf(t, g).0.matches)
  {
    var ms' := FixDupesOf(t, g).0.matches;
    forall k1, k2 | k1 in ms' && k2 in ms' && k1 != k2
      ensures ms'[k1].id != ms'[k2].id
    {
      assert ms'[k1].id == t.matches[k1].id && ms'[k2].id == t.matches[k2].id;
    }
  }

  /** After fixDupes, no match of the owner points at a duplicate on the owner's side. */
  lemma {:induction false} FixDupesClearsOwnSide(t: Tables, g: DupGroup, k: Key)
    requires FixDupesOf(t, g).1 && k in t.matches
    ensures var m := FixDupesOf(t, g).0.matches[k];
            && (m.uid1 == g.uid.value ==> m.profile1.None? || m.profile1.value !in g.dupes || m.profile1.value == g.orig)
            && (m.uid1 != g.uid.value && m.uid2 == g.uid.value ==>
                  m.profile2.None? || m.profile2.value !in g.dupes || m.profile2.value == g.orig)
  {
    var u := g.uid.value;
    var old_m := t.matches[k];
    if old_m.uid1 == u && old_m.profile1.Some? && old_m.profile1.value in g.dupes {
      assert k in RefersTo(t.matches, g.dupes);
    } else if old_m.uid1 != u && old_m.uid2 == u && old_m.profile2.Some? && old_m.profile2.value in g.dupes {
      assert k in RefersTo(t.matches, g.dupes);
    }
  }

  /** The tables after running fixDupes on each group in turn, and whether all succeeded. */
  function FixAll(t: Tables, gs: seq<DupGroup>): (Tables, bool)
  {
    if gs == [] then (t, true)
    else
      var before := FixAll(t, gs[..|gs| - 1]);
      var after := FixDupesOf(before.0, gs[|gs| - 1]);
      (after.0, before.1 && after.1)
  }

  /** Fixing a group whose owner exists leaves its duplicates gone. */
  lemma FixDupesDestroysDupes(t: Tables, g: DupGroup)
    requires g.uid.Some? && g.uid.value in t.users
    ensures forall d :: d in g.dupes ==> d !in FixDupesOf(t, g).0.profiles
    ensures g.orig !in g.dupes && g.orig in t.profiles ==> g.orig in FixDupesOf(t, g).0.profiles
  {
  }

  /** The loop of fixDupes over the matches pointing at a duplicate, one save each. */
  method RepointAll(ms: map<Key, Match>, hits: set<Key>, u: Id, orig: Id) returns (out: map<Key, Match>)
    ensures out.Keys == ms.Keys
    ensures forall k :: k in ms ==> out[k] == if k in hits then Repoint(ms[k], u, orig) else ms[k]
  {
    out := ms;
    var remaining := hits;
    while remaining != {}
      invariant remaining <= hits
      invariant out.Keys == ms.Keys
      invariant forall k :: k in ms ==> out[k] == if k in hits - remaining then Repoint(ms[k], u, orig) else ms[k]
      decreases remaining
    {
      var k :| k in remaining;
      if k in out {
        out := out[k := Repoint(out[k], u, orig)];
      }
      remaining := remaining - {k};
    }
  }

  /** fixDupes on the database. */
  method FixDupes(db: Database, g: DupGroup) returns (ok: bool)
    requires db.Valid()
    modifies db
    ensures db.Valid()
    ensures (Tables(db.users, db.matches, db.profiles), ok) == FixDupesOf(Tables(old(db.users), old(db.matches), old(db.profiles)), g)
    ensures db.messages == old(db.messages) && db.reports == old(db.reports)
    ensures db.deletedUsers == old(db.deletedUsers) && db.outbox == old(db.outbox)
  {
    ghost var t := Tables(db.users, db.matches, db.profiles);
    FixDupesKeepsTable(t, g);
    if g.uid.None? || g.uid.value !in db.users {
      return false;
    }
    var u := g.uid.value;
    var owner := db.users[u].(profile := Some(g.orig));
    db.users := db.users[u := owner];
    var repointed := RepointAll(db.matches, RefersTo(db.matches, g.dupes), u, g.orig);
    assert repointed == FixDupesOf(t, g).0.matches;
    db.matches := repointed;
    db.profiles := db.profiles - (set d | d in g.dupes);
    ok := true;
  }

  /** Fix_Duplicate_Profiles: fixDupes on every duplicate group of the profiles, listed in
   *  `ordered` as the query returns them (every profile once, newest first). The job
   *  reports success when every group was fixed. */
  method FixDuplicateProfiles(db: Database, ordered: seq<Id>) returns (ok: bool)
    requires db.Valid()
    requires Lists(ordered, db.profiles.Keys)
    requires forall i, j :: 0 <= i < j < |ordered| ==> db.profiles[ordered[j]].createdAt <= db.profiles[ordered[i]].createdAt
    modifies db
    ensures db.Valid()
    ensures (Tables(db.users, db.matches, db.profiles), ok) ==
            FixAll(Tables(old(db.users), old(db.matches), old(db.profiles)), DupGroups(old(db.profiles), ordered))
    ensures db.messages == old(db.messages) && db.reports == old(db.reports)
    ensures db.deletedUsers == old(db.deletedUsers) && db.outbox == old(db.outbox)
  {
    var groups := DupGroups(db.profiles, ordered);
    ok := FixGroups(db, groups);
  }

  /** The loop over the groups; every group is attempted whatever happened before. */
  method FixGroups(db: Database, groups: seq<DupGroup>) returns (ok: bool)
    requires db.Valid()
    modifies db
    ensures db.Valid()
    ensures (Tables(db.users, db.matches, db.profiles), ok) == FixAll(Tables(old(db.users), old(db.matches), old(db.profiles)), groups)
    ensures db.messages == old(db.messages) && db.reports == old(db.reports)
    ensures db.deletedUsers == old(db.deletedUsers) && db.outbox == old(db.outbox)
  {
    ghost var t := Tables(db.users, db.matches, db.profiles);
    ok := true;
    var i := 0;
    while i < |groups|
      invariant 0 <= i <= |groups|
      invariant db.Valid()
      invariant (Tables(db.users, db.matches, db.profiles), ok) == FixAll(t, groups[..i])
      invariant db.messages == old(db.messages) && db.reports == old(db.reports)
      invariant db.deletedUsers == old(db.deletedUsers) && db.outbox == old(db.outbox)
    {
      ghost var prefix := FixAll(t, groups[..i]);
      assert groups[..i + 1][..i] == groups[..i];
      assert FixAll(t, groups[..i + 1]) ==
             (FixDupesOf(prefix.0, groups[i]).0, prefix.1 && FixDupesOf(prefix.0, groups[i]).1);
      var fixed := FixDupes(db, groups[i]);
      ok := ok && fixed;
      i := i + 1;
    }
    assert groups[..i] == groups;
  }
}
