/** The records the cloud code reads and writes — User, Profile, Match,
 *  ChatMessage, Report, DeletedUser — and the push notifications it sends.
 *  A record's object id is the key it is stored under (see Store), except for
 *  Match, which is stored under its (uid1, uid2) pair and carries its id. */
module Records {
  import opened Common

  /** Parse object ids. The source compares user ids with JavaScript `<`;
   *  all the model needs is a total order, so ids are naturals. */
  type Id = nat

  /** The (uid1, uid2) pair a Match is stored under. */
  type Key = (Id, Id)

  /** A swipe slot (u1action / u2action): unset, 'L' like, 'R' reject,
   *  'O' "the other party rejected first". */
  datatype Action = Unset | L | R | O

  /** Match.state: 'P' pending, 'R' rejected, 'M' mutual, 'D' deleted. */
  datatype State = P | Rej | M | D

  datatype Match = Match(
    id: Id,
    uid1: Id,
    uid2: Id,
    u1action: Action,
    u2action: Action,
    state: State,
    profile1: Option<Id>,
    profile2: Option<Id>,
    acl: Acl,
    createdAt: int)

  /** User.status: absent, 'deleting' or 'banned'. */
  datatype Status = Active | Deleting | Banned

  /** A Parse ACL: public flags and the user ids granted read or write access. */
  datatype Acl = Acl(publicRead: bool, publicWrite: bool, readers: set<Id>, writers: set<Id>)

  /** `new Parse.ACL()` with public read and write switched off: nobody but the master key. */
  const NoAccess := Acl(false, false, {}, {})

  /** `new Parse.ACL(u)`: read and write for u only. */
  function OwnerOnly(u: Id): Acl
  {
    Acl(false, false, {u}, {u})
  }

  /** The `authData.facebook` object of a user linked to Facebook. */
  datatype FacebookAuth = FacebookAuth(id: Option<string>)

  datatype User = User(
    admin: bool,
    premium: bool,
    credits: int,
    matches: Option<seq<Id>>,
    status: Status,
    profile: Option<Id>,
    acl: Option<Acl>,
    fbId: Option<string>,
    facebook: Option<FacebookAuth>)

  /** A birthdate as the arguments given to JavaScript's `new Date(year, month, day)`;
   *  InvalidDate is what a NaN argument produces. */
  datatype BirthDate = Date(year: int, monthIndex: int, day: int) | InvalidDate

  /** A stored photo file: its name and url. */
  datatype Photo = Photo(name: string, url: string)

  datatype Profile = Profile(
    uid: Option<Id>,
    createdAt: int,
    name: Option<string>,
    gender: Option<string>,
    birthdate: Option<BirthDate>,
    age: Option<int>,
    about: Option<string>,
    photos: Option<seq<Photo>>,
    photo1: Option<Photo>,
    photo2: Option<Photo>,
    photo3: Option<Photo>,
    enabled: Option<bool>,
    gps: Option<bool>,
    distance: Option<int>,
    distanceType: Option<string>,
    notifyMatch: Option<bool>,
    notifyMessage: Option<bool>,
    ageFrom: Option<int>,
    ageTo: Option<int>,
    guys: Option<bool>,
    girls: Option<bool>,
    error: Option<string>,
    acl: Option<Acl>)

  /** A Profile with no field set but its owner and creation time. */
  function BlankProfile(uid: Option<Id>, createdAt: int): Profile
  {
    Profile(uid, createdAt, None, None, None, None, None, None, None, None, None, None, None,
            None, None, None, None, None, None, None, None, None, None)
  }

  /** A chat message; `matchId` is the id of the Match it belongs to. */
  datatype ChatMessage = ChatMessage(
    matchId: Id,
    sender: Option<Id>,
    userIds: Option<seq<Id>>,
    senderName: Option<string>,
    text: Option<string>,
    image: Option<Photo>,
    audio: Option<Photo>,
    acl: Option<Acl>)

  datatype Report = Report(
    reportedUser: Option<Id>,
    profile: Option<Id>,
    actionTaken: Option<string>,
    actionUser: Option<Id>)

  /** The tombstone deleteUser leaves: the user's id and snapshots of the user and profile. */
  datatype DeletedUser = DeletedUser(uid: Id, user: User, profile: Option<Profile>)

  /** A push channel 'user_' + id; UndefinedUserChannel is 'user_undefined'. */
  datatype Channel = UserChannel(uid: Id) | UndefinedUserChannel

  /** The `data` of a push, by its `type`. The fixed alert, badge, sound and title strings of
   *  the match, newLikes and ban pushes are not carried. */
  datatype Payload =
    | NewMatch(matchId: Id)
    | MatchRemoved(matchId: Id)
    | MatchOfUserRemoved(userId: Id)
    | AccountBanned
    | Message(alert: Option<string>, messageId: Id, matchId: Id, text: Option<string>, sender: Id)
    | ReloadProfile
    | NewLikes

  datatype Push = Push(channels: seq<Channel>, payload: Payload)

  /** The party of a match that is not u: `uid1 === u ? uid2 : uid1`. */
  function OtherParty(m: Match, u: Id): (o: Id)
    ensures u == m.uid1 || u == m.uid2 ==> (o == m.uid1 || o == m.uid2) && (m.uid1 != m.uid2 ==> o != u)
    ensures u != m.uid1 ==> o == m.uid1
  {
    if m.uid1 == u then m.uid2 else m.uid1
  }

  /** Whether u is one of the match's two users. */
  predicate Involves(m: Match, u: Id)
  {
    m.uid1 == u || m.uid2 == u
  }
}
