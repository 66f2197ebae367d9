/** The pure rules of the swipe resolver, ProcessMatch (cloud/main.js:644-777):
 *  the canonical pair, which slot the caller owns, the state table, the record
 *  a swipe leaves, and how the two profiles are attached on a mutual match. */
module SwipeRules {
  import opened Common
  import opened Records

  /** The (uid1, uid2) pair for two users: the smaller id first, so that both
   *  users' swipes reach the same record. */
  function Canonical(a: Id, b: Id): (k: Key)
    ensures k.0 <= k.1
    ensures multiset{k.0, k.1} == multiset{a, b}
  {
    if a < b then (a, b) else (b, a)
  }

  /** The caller writes u1action exactly when its id is strictly smaller;
   *  a caller swiping on itself writes u2action. */
  predicate OwnsFirstSlot(caller: Id, other: Id)
  {
    caller < other
  }

  /** The slot the caller owns, and the other party's slot. */
  function CallerSlot(m: Match, caller: Id, other: Id): Action
  {
    if OwnsFirstSlot(caller, other) then m.u1action else m.u2action
  }

  function OtherSlot(m: Match, caller: Id, other: Id): Action
  {
    if OwnsFirstSlot(caller, other) then m.u2action else m.u1action
  }

  /** The state table: an unset slot gives P, else a reject gives R, else two
   *  likes give M; an 'O' next to an 'L' leaves the previous state. */
  function NextState(a1: Action, a2: Action, prev: State): State
  {
    if a1 == Unset || a2 == Unset then P
    else if a1 == R || a2 == R then Rej
    else if a1 == L && a2 == L then M
    else prev
  }

  /** What every stored match satisfies: 'O' only ever stands beside a decided
   *  slot, a self-match never gets a first slot of its own, and the state is the
   *  table's (reading an 'O' beside an 'L' as rejected) unless the match was deleted. */
  predicate Consistent(m: Match)
  {
    && (m.u1action == O ==> m.u2action == L || m.u2action == R)
    && (m.u2action == O ==> m.u1action == L || m.u1action == R)
    && (m.uid1 == m.uid2 ==> m.u1action == Unset || m.u1action == O)
    && (m.state == D || m.state == NextState(m.u1action, m.u2action, Rej))
  }

  /** The record a first swipe creates before the caller's slot is written: only the two
   *  users may read and write it, and a reject puts 'O' in the other party's slot. Its
   *  state is a placeholder that the table always overwrites. */
  function Created(id: Id, now: int, caller: Id, other: Id, liked: bool): (m: Match)
    ensures (m.uid1, m.uid2) == Canonical(caller, other)
    ensures OtherSlot(m, caller, other) == (if liked then Unset else O)
    ensures m.id == id && m.profile1 == None && m.profile2 == None
    ensures m.acl == Acl(false, false, {caller, other}, {caller, other})
  {
    var k := Canonical(caller, other);
    var pre := if liked then Unset else O;
    var acl := Acl(false, false, {k.0, k.1}, {k.0, k.1});
    if OwnsFirstSlot(caller, other) then Match(id, k.0, k.1, Unset, pre, P, None, None, acl, now)
    else Match(id, k.0, k.1, pre, Unset, P, None, None, acl, now)
  }

  /** The match after one swipe (main.js:681-709): the existing record, or a
   *  created one, with the caller's slot set and the state recomputed. */
  function Swiped(existing: Option<Match>, id: Id, now: int, caller: Id, other: Id, liked: bool): (m: Match)
    requires existing.Some? ==> (existing.value.uid1, existing.value.uid2) == Canonical(caller, other)
    ensures (m.uid1, m.uid2) == Canonical(caller, other)
    ensures CallerSlot(m, caller, other) == (if liked then L else R)
    ensures OtherSlot(m, caller, other) ==
              (if existing.Some? then OtherSlot(existing.value, caller, other) else if liked then Unset else O)
    ensures m.id == (if existing.Some? then existing.value.id else id)
    ensures existing.Some? ==> m.profile1 == existing.value.profile1 && m.profile2 == existing.value.profile2
    ensures existing.None? ==> m.profile1 == None && m.profile2 == None
    ensures m.acl == if existing.Some? then existing.value.acl else Acl(false, false, {caller, other}, {caller, other})
  {
    var base := if existing.Some? then existing.value else Created(id, now, caller, other, liked);
    var act := if liked then L else R;
    var m := if OwnsFirstSlot(caller, other) then base.(u1action := act) else base.(u2action := act);
    m.(state := NextState(m.u1action, m.u2action, m.state))
  }

  /** A swipe keeps a consistent record consistent, and creates a consistent one. Its state
   *  is the table's for the new slots, reading an 'O' beside an 'L' as rejected; a deleted
   *  record keeps D there instead, and otherwise takes the table's state again. */
  lemma SwipeKeepsConsistency(existing: Option<Match>, id: Id, now: int, caller: Id, other: Id, liked: bool)
    requires existing.Some? ==> (existing.value.uid1, existing.value.uid2) == Canonical(caller, other)
    requires existing.Some? ==> Consistent(existing.value)
    ensures Consistent(Swiped(existing, id, now, caller, other, liked))
    ensures var m := Swiped(existing, id, now, caller, other, liked);
            (existing.None? || existing.value.state != D) ==> m.state == NextState(m.u1action, m.u2action, Rej)
    ensures var m := Swiped(existing, id, now, caller, other, liked);
            existing.Some? && existing.value.state == D ==> m.state == NextState(m.u1action, m.u2action, D)
  {
    var m := Swiped(existing, id, now, caller, other, liked);
    if existing.Some? {
      var e := existing.value;
      if m.u1action == O || m.u2action == O {
        // the 'O' is the other party's, unchanged by this swipe
        assert OtherSlot(e, caller, other) == O;
        assert CallerSlot(e, caller, other) == L || CallerSlot(e, caller, other) == R;
      }
    }
  }

  /** A consistent mutual match has two likes and two different users. */
  lemma MutualMeansTwoLikes(m: Match)
    requires Consistent(m) && m.state == M
    ensures m.u1action == L && m.u2action == L
    ensures m.uid1 != m.uid2
  {
  }

  /** After a swipe on a consistent record the state is mutual exactly when both slots hold a like. */
  lemma MutualIffBothLiked(existing: Option<Match>, id: Id, now: int, caller: Id, other: Id, liked: bool)
    requires existing.Some? ==> (existing.value.uid1, existing.value.uid2) == Canonical(caller, other)
    requires existing.Some? ==> Consistent(existing.value)
    ensures var m := Swiped(existing, id, now, caller, other, liked);
            m.state == M <==> m.u1action == L && m.u2action == L
  {
    SwipeKeepsConsistency(existing, id, now, caller, other, liked);
  }

  /** Replaying a swipe leaves the record as the first application left it. */
  lemma SwipeReplay(existing: Option<Match>, id: Id, now: int, caller: Id, other: Id, liked: bool, id2: Id, now2: int)
    requires existing.Some? ==> (existing.value.uid1, existing.value.uid2) == Canonical(caller, other)
    ensures var m := Swiped(existing, id, now, caller, other, liked);
            Swiped(Some(m), id2, now2, caller, other, liked) == m
  {
  }

  /** Two users swiping on each other, first a then b, settle on the one record
   *  under (min, max): mutual if both liked, rejected otherwise. */
  lemma TwoSwipesSettle(a: Id, b: Id, likeA: bool, likeB: bool, id: Id, id2: Id, t1: int, t2: int)
    requires a != b
    ensures Canonical(b, a) == Canonical(a, b)
    ensures var m1 := Swiped(None, id, t1, a, b, likeA);
            var m2 := Swiped(Some(m1), id2, t2, b, a, likeB);
            && (m2.uid1, m2.uid2) == Canonical(a, b)
            && m2.id == id
            && CallerSlot(m2, a, b) == (if likeA then L else R)
            && CallerSlot(m2, b, a) == (if likeB then L else R)
            && m2.state == (if likeA && likeB then M else Rej)
  {
    var m1 := Swiped(None, id, t1, a, b, likeA);
    var m2 := Swiped(Some(m1), id2, t2, b, a, likeB);
    assert CallerSlot(m2, a, b) == OtherSlot(m2, b, a);
  }

  /** The order in which the two swipes arrive does not change the slots or the state. */
  lemma SwipeOrderIrrelevant(a: Id, b: Id, likeA: bool, likeB: bool, id: Id, id2: Id, t1: int, t2: int)
    requires a != b
    ensures Canonical(b, a) == Canonical(a, b)
    ensures var ab := Swiped(Some(Swiped(None, id, t1, a, b, likeA)), id2, t2, b, a, likeB);
            var ba := Swiped(Some(Swiped(None, id, t1, b, a, likeB)), id2, t2, a, b, likeA);
            ab.uid1 == ba.uid1 && ab.uid2 == ba.uid2 &&
            ab.u1action == ba.u1action && ab.u2action == ba.u2action && ab.state == ba.state
  {
    TwoSwipesSettle(a, b, likeA, likeB, id, id2, t1, t2);
    TwoSwipesSettle(b, a, likeB, likeA, id, id2, t1, t2);
  }

  /** Attaching the profiles on a mutual match (main.js:719-733): with exactly two
   *  profiles found, the one owned by uid1 goes to profile1 (found[0] if its uid is
   *  uid1, found[1] otherwise); with any other count the record is kept as it is. */
  function Materialize(m: Match, found: seq<Id>, profiles: map<Id, Profile>): (r: Match)
    requires forall i :: i in found ==> i in profiles
    ensures r.(profile1 := m.profile1, profile2 := m.profile2) == m
    ensures m.state != M || |found| != 2 ==> r == m
    ensures m.state == M && |found| == 2 ==>
              && r.profile1.Some? && r.profile2.Some?
              && multiset{r.profile1.value, r.profile2.value} == multiset{found[0], found[1]}
              && ((exists i :: 0 <= i < 2 && profiles[found[i]].uid == Some(m.uid1)) ==>
                    profiles[r.profile1.value].uid == Some(m.uid1))
  {
    if m.state != M || |found| != 2 then m
    else if profiles[found[0]].uid == Some(m.uid1) then m.(profile1 := Some(found[0]), profile2 := Some(found[1]))
    else m.(profile1 := Some(found[1]), profile2 := Some(found[0]))
  }

  /** When one profile of each user is found, in either order, uid1's goes to
   *  profile1 and uid2's to profile2. */
  lemma MaterializeCanonicalSlots(m: Match, x: Id, y: Id, profiles: map<Id, Profile>)
    requires m.state == M && m.uid1 != m.uid2
    requires x in profiles && y in profiles
    requires profiles[x].uid == Some(m.uid1) && profiles[y].uid == Some(m.uid2)
    ensures Materialize(m, [x, y], profiles).profile1 == Some(x)
    ensures Materialize(m, [x, y], profiles).profile2 == Some(y)
    ensures Materialize(m, [y, x], profiles).profile1 == Some(x)
    ensures Materialize(m, [y, x], profiles).profile2 == Some(y)
  {
  }

  /** Attaching profiles leaves slots and state alone, so consistency is kept. */
  lemma MaterializeKeepsConsistency(m: Match, found: seq<Id>, profiles: map<Id, Profile>)
    requires forall i :: i in found ==> i in profiles
    requires Consistent(m)
    ensures Consistent(Materialize(m, found, profiles))
  {
  }
}
