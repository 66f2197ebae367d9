/** The Parse classes the cloud code works on, held as maps from object id to
 *  record, with the push notifications sent so far as an outbox. */
module Store {
  import opened Common
  import opened Records
  import opened SwipeRules

  /** The Match table: every record is stored under its own (uid1, uid2) pair
   *  with uid1 <= uid2 (the unique index on uid1 and uid2 of mongo-indexes.js:22),
   *  its slots and state obey the swipe table, and no two records share an id. */
  ghost predicate MatchTable(ms: map<Key, Match>)
  {
    && (forall k :: k in ms ==> k.0 <= k.1 && ms[k].uid1 == k.0 && ms[k].uid2 == k.1)
    && (forall k :: k in ms ==> Consistent(ms[k]))
    && (forall k, k' :: k in ms && k' in ms && k != k' ==> ms[k].id != ms[k'].id)
  }

  /** The ids of all stored matches. */
  function MatchIds(ms: map<Key, Match>): set<Id>
  {
    set k | k in ms :: ms[k].id
  }

  /** The record stored under a pair, if any: `matchQuery.first()` on uid1 and uid2. */
  function Lookup(ms: map<Key, Match>, k: Key): (r: Option<Match>)
    ensures r.Some? <==> k in ms
    ensures r.Some? ==> r.value == ms[k]
  {
    if k in ms then Some(ms[k]) else None
  }

  /** `found` is the answer of a lookup of a match by its object id. */
  predicate FoundById(ms: map<Key, Match>, id: Id, found: Option<Key>)
  {
    && (found.Some? ==> found.value in ms && ms[found.value].id == id)
    && (found.None? ==> forall k :: k in ms ==> ms[k].id != id)
  }

  /** The ids of the profiles whose uid is a or b: `containedIn("uid", [a, b])`. */
  function ProfilesOfPair(profiles: map<Id, Profile>, a: Id, b: Id): set<Id>
  {
    set p | p in profiles && (profiles[p].uid == Some(a) || profiles[p].uid == Some(b))
  }

  /** The keys of the stored matches in a given state that involve u. */
  function MatchesOfUserIn(ms: map<Key, Match>, u: Id, s: State): set<Key>
  {
    set k | k in ms && ms[k].state == s && Involves(ms[k], u)
  }

  /** The ids of the messages of one match: `equalTo('match', m)`. */
  function MessagesOf(msgs: map<Id, ChatMessage>, matchId: Id): set<Id>
  {
    set i | i in msgs && msgs[i].matchId == matchId
  }

  /** Saving `remove('matches', id)` on user u: u's list loses every copy of id, nothing else
   *  changes; a user that does not exist is left out (its save fails). */
  function PullMatch(users: map<Id, User>, u: Id, id: Id): (r: map<Id, User>)
    ensures r.Keys == users.Keys
    ensures forall v :: v in users && v != u ==> r[v] == users[v]
    ensures u in users ==>
              && r[u].(matches := users[u].matches) == users[u]
              && (r[u].matches.Some? <==> users[u].matches.Some?)
              && (r[u].matches.Some? ==>
                    && id !in r[u].matches.value
                    && forall y :: y != id ==> (y in r[u].matches.value <==> y in users[u].matches.value))
  {
    if u in users then users[u := users[u].(matches := Pull(users[u].matches, id))] else users
  }

  /** The database: one map per Parse class, the DeletedUser rows, and the pushes sent. */
  class Database {
    var users: map<Id, User>
    var profiles: map<Id, Profile>
    var matches: map<Key, Match>
    var messages: map<Id, ChatMessage>
    var reports: map<Id, Report>
    var deletedUsers: seq<DeletedUser>
    var outbox: seq<Push>

    ghost predicate Valid()
      reads this
    {
      MatchTable(matches)
    }

    /** An empty database. */
    constructor ()
      ensures Valid()
      ensures users == map[] && profiles == map[] && matches == map[]
      ensures messages == map[] && reports == map[] && deletedUsers == [] && outbox == []
    {
      users, profiles, matches := map[], map[], map[];
      messages, reports, deletedUsers, outbox := map[], map[], [], [];
    }
  }

  /** Changing a stored match's state to D, or its profile slots, keeps the table well formed. */
  lemma UpdateKeepsTable(ms: map<Key, Match>, k: Key, m: Match)
    requires MatchTable(ms) && k in ms
    requires m.(state := ms[k].state, profile1 := ms[k].profile1, profile2 := ms[k].profile2) == ms[k]
    requires m.state == D || m.state == ms[k].state
    ensures MatchTable(ms[k := m])
  {
    var ms' := ms[k := m];
    forall k1, k2 | k1 in ms' && k2 in ms' && k1 != k2
      ensures ms'[k1].id != ms'[k2].id
    {
      assert ms'[k1].id == ms[k1].id && ms'[k2].id == ms[k2].id;
    }
  }
}
