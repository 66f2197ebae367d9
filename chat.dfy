/** The ChatMessage hooks: the beforeSave gate that decides whether a message may
 *  be stored and stamps it (cloud/main.js:884-926), and the afterSave fan-out that
 *  pushes it to the other members of the match (cloud/main.js:931-974). */
module Chat {
  import opened Common
  import opened Records
  import opened Store

  /** The match a message refers to, as the `get` by id found it. */
  function FoundMatch(ms: map<Key, Match>, found: Option<Key>): Option<Match>
    requires found.Some? ==> found.value in ms
  {
    if found.Some? then Some(ms[found.value]) else None
  }

  /** The beforeSave gate. A master save passes untouched. Otherwise the match must
   *  exist, have the caller as uid1 or uid2 and be mutual; an admitted message gets
   *  the caller as sender, read access for the two users only, and the two user ids. */
  function Admit(master: bool, caller: Id, msg: ChatMessage, found: Option<Match>): (r: Result<ChatMessage>)
    ensures master ==> r == Ok(msg)
    ensures !master ==>
              (r.Ok? <==> found.Some? && Involves(found.value, caller) && found.value.state == M)
    ensures !master && found.None? ==> r == Err(ObjectNotFound)
    ensures !master && found.Some? && !Involves(found.value, caller) ==>
              r == Err("User is not a part of the provided match object")
    ensures !master && found.Some? && Involves(found.value, caller) && found.value.state != M ==>
              r == Err("Cant message to a non-mutual match")
    ensures !master && r.Ok? ==>
              var m := found.value;
              && r.value.sender == Some(caller)
              && r.value.userIds == Some([m.uid1, m.uid2])
              && caller in r.value.userIds.value
              && r.value.acl == Some(Acl(false, false, {m.uid1, m.uid2}, {}))
              && r.value.(sender := msg.sender, userIds := msg.userIds, acl := msg.acl) == msg
  {
    if master then Ok(msg)
    else
      var stamped := msg.(sender := Some(caller));
      if found.None? then Err(ObjectNotFound)
      else
        var m := found.value;
        if m.uid1 != caller && m.uid2 != caller then Err("User is not a part of the provided match object")
        else if m.state != M then Err("Cant message to a non-mutual match")
        else Ok(stamped.(acl := Some(Acl(false, false, {m.uid1, m.uid2}, {})), userIds := Some([m.uid1, m.uid2])))
  }

  /** The channels of the fan-out: 'user_' + id for each member id other than the sender, in order. */
  function RecipientChannels(ids: seq<Id>, sender: Id): (cs: seq<Channel>)
    ensures |cs| <= |ids|
    ensures forall c :: c in cs ==> c.UserChannel? && c.uid in ids && c.uid != sender
    ensures forall id :: id in ids && id != sender ==> UserChannel(id) in cs
  {
    if ids == [] then []
    else
      var init := RecipientChannels(ids[..|ids| - 1], sender);
      var id := ids[|ids| - 1];
      assert forall x :: x in ids ==> x in ids[..|ids| - 1] || x == id;
      if id != sender then init + [UserChannel(id)] else init
  }

  /** The loop of main.js:943-947 that builds the channel list. */
  method ChatRecipients(ids: seq<Id>, sender: Id) returns (channels: seq<Channel>)
    ensures channels == RecipientChannels(ids, sender)
  {
    channels := [];
    var i := 0;
    while i < |ids|
      invariant 0 <= i <= |ids|
      invariant channels == RecipientChannels(ids[..i], sender)
    {
      assert ids[..i + 1][..i] == ids[..i];
      if ids[i] != sender {
        channels := channels + [UserChannel(ids[i])];
      }
      i := i + 1;
    }
    assert ids[..i] == ids;
  }

  /** How JavaScript renders an absent string in a concatenation. */
  function Render(s: Option<string>): string
  {
    if s.Some? then s.value else "undefined"
  }

  /** The push alert: the sender's name followed by the text, else a note that an
   *  image or an audio message was sent, else the name alone. */
  function AlertText(name: Option<string>, text: Option<string>, image: Option<Photo>, audio: Option<Photo>): (r: Option<string>)
    ensures r.None? <==> name.None? && !Truthy(text) && image.None? && audio.None?
    ensures r.Some? ==> Render(name) <= r.value
    ensures Truthy(text) ==> r == Some(Render(name) + ": " + text.value)
    ensures !Truthy(text) && image.Some? ==> r == Some(Render(name) + " sent an image")
    ensures !Truthy(text) && image.None? && audio.Some? ==> r == Some(Render(name) + " sent an audio message")
  {
    if Truthy(text) then Some(Render(name) + ": " + text.value)
    else if image.Some? then Some(Render(name) + " sent an image")
    else if audio.Some? then Some(Render(name) + " sent an audio message")
    else name
  }

  /** Saving a chat message through both hooks. `found` is the lookup of the message's
   *  match by id. An admitted message is stored under msgId; unless the save is a master
   *  one, a message push then goes to every member but the sender. */
  method SaveChatMessage(db: Database, master: bool, caller: Id, msgId: Id, msg: ChatMessage, found: Option<Key>)
    returns (r: Result<ChatMessage>)
    requires FoundById(db.matches, msg.matchId, found)
    modifies db
    ensures r == Admit(master, caller, msg, FoundMatch(old(db.matches), found))
    ensures r.Ok? ==> db.messages == old(db.messages)[msgId := r.value]
    ensures r.Err? ==> db.messages == old(db.messages)
    ensures (r.Err? || master) ==> db.outbox == old(db.outbox)
    ensures r.Ok? && !master ==>
              var saved := r.value;
              db.outbox == old(db.outbox) + [Push(RecipientChannels(saved.userIds.value, caller),
                                                  Message(AlertText(saved.senderName, saved.text, saved.image, saved.audio),
                                                          msgId, saved.matchId, saved.text, caller))]
    ensures db.users == old(db.users) && db.profiles == old(db.profiles) && db.matches == old(db.matches)
    ensures db.reports == old(db.reports) && db.deletedUsers == old(db.deletedUsers)
  {
    r := Admit(master, caller, msg, FoundMatch(db.matches, found));
    if r.Err? {
      return;
    }
    var saved := r.value;
    db.messages := db.messages[msgId := saved];
    if master {
      return;
    }
    var channels := ChatRecipients(saved.userIds.value, caller);
    var alert := AlertText(saved.senderName, saved.text, saved.image, saved.audio);
    db.outbox := db.outbox + [Push(channels, Message(alert, msgId, saved.matchId, saved.text, caller))];
  }

  /** An admitted message is pushed to exactly the other party of its match, never to the sender. */
  lemma FanOutReachesOtherParty(caller: Id, msg: ChatMessage, m: Match)
    requires Admit(false, caller, msg, Some(m)).Ok?
    requires m.uid1 != m.uid2
    ensures var saved := Admit(false, caller, msg, Some(m)).value;
            RecipientChannels(saved.userIds.value, caller) == [UserChannel(OtherParty(m, caller))]
  {
  }
}
