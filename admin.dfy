/** The moderation functions of cloud/admin.js that write: DeletePhoto, BanUser and
 *  CloseReport, each behind checkAdmin. */
module Admin {
  import opened Common
  import opened Records
  import opened SwipeRules
  import opened Store

  /** checkAdmin's error; a caller without the admin flag gets it and nothing else happens. */
  const NotAdmin := "You do not have admin permission"

  // ---------------------------------------------------------------------------
  // DeletePhoto (cloud/admin.js:77-116)

  /** Whether a photo's url is the one asked for (`photos[i].url() === photoUrl`). */
  predicate UrlIs(p: Photo, url: Option<string>)
  {
    url == Some(p.url)
  }

  /** The photos the splice loop keeps, as written: a matching photo is spliced out, and
   *  the index moves on past the photo that slid into its place, which is kept without
   *  being looked at. */
  function SpliceScan(photos: seq<Photo>, url: Option<string>): seq<Photo>
  {
    if photos == [] then []
    else if !UrlIs(photos[0], url) then [photos[0]] + SpliceScan(photos[1..], url)
    else if |photos| == 1 then []
    else [photos[1]] + SpliceScan(photos[2..], url)
  }

  /** As written, the loop only removes photos, and never one without the url. */
  lemma {:induction false} SpliceScanKeepsOthers(photos: seq<Photo>, url: Option<string>)
    ensures var r := SpliceScan(photos, url);
            && |r| <= |photos|
            && (forall p :: p in r ==> p in photos)
            && (forall p :: p in photos && !UrlIs(p, url) ==> p in r)
    decreases |photos|
  {
    if photos != [] {
      SpliceScanKeepsOthers(photos[1..], url);
      assert photos == [photos[0]] + photos[1..];
      if UrlIs(photos[0], url) && |photos| > 1 {
        SpliceScanKeepsOthers(photos[2..], url);
        assert photos[1..] == [photos[1]] + photos[2..];
      }
    }
  }

  /** The photos left by removing every photo with the url, which the loop is evidently for. */
  function RemoveUrl(photos: seq<Photo>, url: Option<string>): (r: seq<Photo>)
    ensures forall p :: p in r <==> p in photos && !UrlIs(p, url)
    ensures |r| <= |photos|
  {
    if photos == [] then []
    else if UrlIs(photos[0], url) then RemoveUrl(photos[1..], url)
    else [photos[0]] + RemoveUrl(photos[1..], url)
  }

  /** No two neighbouring photos both have the url. */
  predicate NoAdjacentMatches(photos: seq<Photo>, url: Option<string>)
  {
    forall i :: 0 <= i < |photos| - 1 ==> !(UrlIs(photos[i], url) && UrlIs(photos[i + 1], url))
  }

  /** As written, the loop removes every matching photo as long as no two matching photos
   *  are neighbours. */
  lemma {:induction false} SpliceScanRemovesIsolatedMatches(photos: seq<Photo>, url: Option<string>)
    requires NoAdjacentMatches(photos, url)
    ensures SpliceScan(photos, url) == RemoveUrl(photos, url)
    decreases |photos|
  {
    if photos != [] {
      assert NoAdjacentMatches(photos[1..], url) by {
        forall i | 0 <= i < |photos[1..]| - 1
          ensures !(UrlIs(photos[1..][i], url) && UrlIs(photos[1..][i + 1], url))
        {
          assert photos[1..][i] == photos[i + 1] && photos[1..][i + 1] == photos[i + 2];
        }
      }
      SpliceScanRemovesIsolatedMatches(photos[1..], url);
      if UrlIs(photos[0], url) && |photos| > 1 {
        assert !UrlIs(photos[1], url);
        assert photos[1..][1..] == photos[2..];
        assert photos[1..][0] == photos[1];
        assert NoAdjacentMatches(photos[2..], url) by {
          forall i | 0 <= i < |photos[2..]| - 1
            ensures !(UrlIs(photos[2..][i], url) && UrlIs(photos[2..][i + 1], url))
          {
            assert photos[2..][i] == photos[i + 2] && photos[2..][i + 1] == photos[i + 3];
          }
        }
        SpliceScanRemovesIsolatedMatches(photos[2..], url);
      }
    }
  }

  /** Two neighbouring copies of the photo show the skip: one copy stays. */
  lemma SpliceScanKeepsSecondOfTwo(p: Photo)
    ensures SpliceScan([p, p], Some(p.url)) == [p]
    ensures RemoveUrl([p, p], Some(p.url)) == []
  {
    assert [p, p][1..] == [p];
  }

  /** What the loop has produced once its index is at i: the photos before i are final and
   *  the rest is still to be scanned. An index past the end means the scan is over. */
  function Scanned(kept: seq<Photo>, i: nat, url: Option<string>): seq<Photo>
  {
    if i <= |kept| then kept[..i] + SpliceScan(kept[i..], url) else kept
  }

  /** One pass of the loop body on a photo with the url: the splice, then the skip over
   *  the photo that slid into its place. */
  lemma SpliceStep(kept: seq<Photo>, i: nat, url: Option<string>)
    requires i < |kept| && UrlIs(kept[i], url)
    ensures Scanned(kept[..i] + kept[i + 1..], i + 1, url) == Scanned(kept, i, url)
  {
    var tail := kept[i..];
    var after := kept[..i] + kept[i + 1..];
    if i + 1 < |kept| {
      assert tail[1] == kept[i + 1] && tail[2..] == kept[i + 2..];
      assert SpliceScan(tail, url) == [kept[i + 1]] + SpliceScan(kept[i + 2..], url);
      assert after[..i + 1] == kept[..i] + [kept[i + 1]];
      assert after[i + 1..] == kept[i + 2..];
    } else {
      assert tail == [kept[i]];
      assert after == kept[..i];
    }
  }

  /** One pass of the loop body on a photo without the url. */
  lemma KeepStep(kept: seq<Photo>, i: nat, url: Option<string>)
    requires i < |kept| && !UrlIs(kept[i], url)
    ensures Scanned(kept, i + 1, url) == Scanned(kept, i, url)
  {
    assert kept[i..][1..] == kept[i + 1..];
    assert kept[..i + 1] == kept[..i] + [kept[i]];
  }

  /** The splice loop of admin.js:94-100 on the profile's photo array. */
  method SpliceOut(photos: seq<Photo>, url: Option<string>) returns (kept: seq<Photo>)
    ensures kept == SpliceScan(photos, url)
  {
    kept := photos;
    var i := 0;
    assert kept[..0] == [] && kept[0..] == kept;
    while i < |kept|
      invariant 0 <= i <= |kept| + 1
      invariant Scanned(kept, i, url) == SpliceScan(photos, url)
      decreases |kept| + 1 - i
    {
      if UrlIs(kept[i], url) {
        SpliceStep(kept, i, url);
        kept := kept[..i] + kept[i + 1..];
      } else {
        KeepStep(kept, i, url);
      }
      i := i + 1;
    }
    if i == |kept| {
      assert kept[i..] == [] && kept[..i] == kept;
    }
  }

  /** DeletePhoto. The report must exist; its reported user, its profile and the profile's
   *  photo array must be there, or the handler throws and writes nothing. The photos the
   *  splice loop keeps are saved, and the reported user's app is told to reload its profile. */
  method DeletePhoto(db: Database, caller: Id, reportId: Option<Id>, photoUrl: Option<string>)
    returns (r: Result<()>)
    requires caller in db.users
    modifies db
    ensures !old(db.users[caller].admin) ==> r == Err(NotAdmin) && unchanged(db)
    ensures old(db.users[caller].admin) && (reportId.None? || reportId.value !in old(db.reports)) ==>
              r == Err(ObjectNotFound) && unchanged(db)
    ensures old(db.users[caller].admin) && reportId.Some? && reportId.value in old(db.reports) ==>
              var report := old(db.reports)[reportId.value];
              if report.reportedUser.None? || report.profile.None? || report.profile.value !in old(db.profiles)
                 || old(db.profiles)[report.profile.value].photos.None?
              then r == Err(TypeErrorRaised) && unchanged(db)
              else
                var p := old(db.profiles)[report.profile.value];
                && r == Ok(())
                && db.profiles == old(db.profiles)[report.profile.value := p.(photos := Some(SpliceScan(p.photos.value, photoUrl)))]
                && db.outbox == old(db.outbox) + [Push([UserChannel(report.reportedUser.value)], ReloadProfile)]
                && db.users == old(db.users) && db.matches == old(db.matches) && db.messages == old(db.messages)
                && db.reports == old(db.reports) && db.deletedUsers == old(db.deletedUsers)
  {
    if !db.users[caller].admin {
      return Err(NotAdmin);
    }
    if reportId.None? || reportId.value !in db.reports {
      return Err(ObjectNotFound);
    }
    var report := db.reports[reportId.value];
    if report.reportedUser.None? || report.profile.None? || report.profile.value !in db.profiles {
      return Err(TypeErrorRaised);
    }
    var p := db.profiles[report.profile.value];
    if p.photos.None? {
      return Err(TypeErrorRaised);
    }
    var kept := SpliceOut(p.photos.value, photoUrl);
    db.profiles := db.profiles[report.profile.value := p.(photos := Some(kept))];
    db.outbox := db.outbox + [Push([UserChannel(report.reportedUser.value)], ReloadProfile)];
    r := Ok(());
  }

  // ---------------------------------------------------------------------------
  // BanUser (cloud/admin.js:122-225)

  /** The reports against u: `equalTo('reportedUser', u)`. */
  function ReportsAgainst(rs: map<Id, Report>, u: Id): set<Id>
  {
    set i | i in rs && rs[i].reportedUser == Some(u)
  }

  /** The listed reports that have no action yet get the action 'banned' by the admin;
   *  every other report is left as it was. */
  function ActionReports(rs: map<Id, Report>, listed: set<Id>, admin: Id): (r: map<Id, Report>)
    ensures r.Keys == rs.Keys
    ensures forall i :: i in rs && (i !in listed || Truthy(rs[i].actionTaken)) ==> r[i] == rs[i]
    ensures forall i :: i in listed && i in rs && !Truthy(rs[i].actionTaken) ==>
              r[i] == rs[i].(actionTaken := Some("banned"), actionUser := Some(admin))
  {
    map i | i in rs :: if i in listed && !Truthy(rs[i].actionTaken)
                       then rs[i].(actionTaken := Some("banned"), actionUser := Some(admin)) else rs[i]
  }

  /** Banning twice closes nothing more: the reports closed the first time keep their action. */
  lemma ActionReportsSettles(rs: map<Id, Report>, listed: set<Id>, admin: Id, other: Id)
    ensures ActionReports(ActionReports(rs, listed, admin), listed, other) == ActionReports(rs, listed, admin)
  {
  }

  /** The users, matches and removeMatch channels of the banned user's match loop, and
   *  whether a counterpart was missing (its save fails). */
  datatype Sweep = Sweep(users: map<Id, User>, matches: map<Key, Match>, channels: seq<Channel>, missing: bool)

  /** updateMatchAndUser over the listed matches, in order: each becomes D, its counterpart
   *  joins the channels and has a value removed from its list. As written the value
   *  removed is the banned user's id; `pullMatchId` selects the match id instead. */
  function EndBanned(s: Sweep, banned: Id, keys: seq<Key>, pullMatchId: bool): (r: Sweep)
    requires forall k :: k in keys ==> k in s.matches
    ensures r.matches.Keys == s.matches.Keys && r.users.Keys == s.users.Keys
  {
    if keys == [] then s
    else EndStep(EndBanned(s, banned, keys[..|keys| - 1], pullMatchId), banned, keys[|keys| - 1], pullMatchId)
  }

  /** updateMatchAndUser on one match. */
  function EndStep(prev: Sweep, banned: Id, k: Key, pullMatchId: bool): (r: Sweep)
    requires k in prev.matches
    ensures r.matches.Keys == prev.matches.Keys && r.users.Keys == prev.users.Keys
    ensures r.missing == (prev.missing || OtherParty(prev.matches[k], banned) !in prev.users)
    ensures r.channels == prev.channels + [UserChannel(OtherParty(prev.matches[k], banned))]
  {
    var m := prev.matches[k];
    var other := OtherParty(m, banned);
    Sweep(PullMatch(prev.users, other, if pullMatchId then m.id else banned),
          prev.matches[k := m.(state := D)], prev.channels + [UserChannel(other)],
          prev.missing || other !in prev.users)
  }

  /** The loop marks exactly the listed matches D and changes nothing else about them. */
  lemma {:induction false} EndBannedMatches(s: Sweep, banned: Id, keys: seq<Key>, pullMatchId: bool)
    requires forall k :: k in keys ==> k in s.matches
    ensures var r := EndBanned(s, banned, keys, pullMatchId);
            forall k :: k in s.matches ==> r.matches[k] == if k in keys then s.matches[k].(state := D) else s.matches[k]
  {
    if keys != [] {
      var init := keys[..|keys| - 1];
      EndBannedMatches(s, banned, init, pullMatchId);
      assert forall k :: k in keys <==> k in init || k == keys[|keys| - 1];
    }
  }

  /** The loop keeps the Match table well formed. */
  lemma {:induction false} EndBannedKeepsTable(s: Sweep, banned: Id, keys: seq<Key>, pullMatchId: bool)
    requires forall k :: k in keys ==> k in s.matches
    requires MatchTable(s.matches)
    ensures MatchTable(EndBanned(s, banned, keys, pullMatchId).matches)
  {
    if keys != [] {
      var init := keys[..|keys| - 1];
      EndBannedKeepsTable(s, banned, init, pullMatchId);
      var prev := EndBanned(s, banned, init, pullMatchId).matches;
      var k := keys[|keys| - 1];
      UpdateKeepsTable(prev, k, prev[k].(state := D));
    }
  }

  /** One channel per listed match, for its counterpart, in order. */
  lemma {:induction false} EndBannedChannels(s: Sweep, banned: Id, keys: seq<Key>, pullMatchId: bool)
    requires forall k :: k in keys ==> k in s.matches
    ensures var r := EndBanned(s, banned, keys, pullMatchId);
            && |r.channels| == |s.channels| + |keys| && s.channels <= r.channels
            && (forall i :: 0 <= i < |keys| ==> r.channels[|s.channels| + i] == UserChannel(OtherParty(s.matches[keys[i]], banned)))
  {
    if keys != [] {
      var init := keys[..|keys| - 1];
      EndBannedChannels(s, banned, init, pullMatchId);
      EndBannedMatches(s, banned, init, pullMatchId);
      var prev := EndBanned(s, banned, init, pullMatchId);
      var k := keys[|keys| - 1];
      assert prev.matches[k].uid1 == s.matches[k].uid1 && prev.matches[k].uid2 == s.matches[k].uid2;
      var r := EndBanned(s, banned, keys, pullMatchId);
      forall i | 0 <= i < |keys| ensures r.channels[|s.channels| + i] == UserChannel(OtherParty(s.matches[keys[i]], banned)) {
        if i < |init| {
          assert keys[i] == init[i];
        }
      }
    }
  }

  /** The loop never changes who a match is between, or its id. */
  lemma {:induction false} EndBannedKeepsParties(s: Sweep, banned: Id, keys: seq<Key>, pullMatchId: bool, k: Key)
    requires forall k :: k in keys ==> k in s.matches
    requires k in s.matches
    ensures var m := EndBanned(s, banned, keys, pullMatchId).matches[k];
            m.uid1 == s.matches[k].uid1 && m.uid2 == s.matches[k].uid2 && m.id == s.matches[k].id
  {
    if keys != [] {
      EndBannedKeepsParties(s, banned, keys[..|keys| - 1], pullMatchId, k);
    }
  }

  /** Whether some listed match has a counterpart that is not a stored user. */
  function MissingAmong(ms: map<Key, Match>, users: map<Id, User>, banned: Id, keys: seq<Key>): (b: bool)
    requires forall k :: k in keys ==> k in ms
  {
    keys != [] && (MissingAmong(ms, users, banned, keys[..|keys| - 1]) || OtherParty(ms[keys[|keys| - 1]], banned) !in users)
  }

  /** MissingAmong holds exactly when some listed match's counterpart does not exist. */
  lemma {:induction false} MissingAmongMeans(ms: map<Key, Match>, users: map<Id, User>, banned: Id, keys: seq<Key>)
    requires forall k :: k in keys ==> k in ms
    ensures MissingAmong(ms, users, banned, keys) <==> exists i :: 0 <= i < |keys| && OtherParty(ms[keys[i]], banned) !in users
  {
    if keys != [] {
      var init := keys[..|keys| - 1];
      MissingAmongMeans(ms, users, banned, init);
      if exists i :: 0 <= i < |keys| && OtherParty(ms[keys[i]], banned) !in users {
        var i :| 0 <= i < |keys| && OtherParty(ms[keys[i]], banned) !in users;
        if i < |init| {
          assert keys[i] == init[i];
        }
      }
      if MissingAmong(ms, users, banned, init) {
        var i :| 0 <= i < |init| && OtherParty(ms[init[i]], banned) !in users;
        assert keys[i] == init[i];
      }
    }
  }

  /** A counterpart that does not exist is reported as missing. */
  lemma {:induction false} EndBannedMissing(s: Sweep, banned: Id, keys: seq<Key>, pullMatchId: bool)
    requires forall k :: k in keys ==> k in s.matches
    ensures EndBanned(s, banned, keys, pullMatchId).missing == (s.missing || MissingAmong(s.matches, s.users, banned, keys))
  {
    if keys != [] {
      var init := keys[..|keys| - 1];
      EndBannedMissing(s, banned, init, pullMatchId);
      EndBannedKeepsParties(s, banned, init, pullMatchId, keys[|keys| - 1]);
    }
  }

  /** The loop only ever removes ids from lists, and leaves every other field of every user. */
  lemma {:induction false} EndBannedOnlyRemoves(s: Sweep, banned: Id, keys: seq<Key>, pullMatchId: bool, u: Id, y: Id)
    requires forall k :: k in keys ==> k in s.matches
    requires u in s.users
    ensures var r := EndBanned(s, banned, keys, pullMatchId);
            && r.users[u].(matches := s.users[u].matches) == s.users[u]
            && (r.users[u].matches.Some? <==> s.users[u].matches.Some?)
            && (r.users[u].matches.Some? && y in r.users[u].matches.value ==> y in s.users[u].matches.value)
  {
    if keys != [] {
      EndBannedOnlyRemoves(s, banned, keys[..|keys| - 1], pullMatchId, u, y);
    }
  }

  /** As written, a counterpart keeps the id of the match that was just ended: only the
   *  banned user's id is removed from its list. */
  lemma {:induction false} BanLeavesEndedMatchListed(s: Sweep, banned: Id, keys: seq<Key>, u: Id, y: Id)
    requires forall k :: k in keys ==> k in s.matches
    requires u in s.users && s.users[u].matches.Some? && y in s.users[u].matches.value && y != banned
    ensures var r := EndBanned(s, banned, keys, false);
            r.users[u].matches.Some? && y in r.users[u].matches.value
  {
    if keys != [] {
      BanLeavesEndedMatchListed(s, banned, keys[..|keys| - 1], u, y);
    }
  }

  /** With the match id removed instead, no counterpart still lists an ended match. */
  lemma {:induction false} CorrectedBanUnlistsEndedMatches(s: Sweep, banned: Id, keys: seq<Key>)
    requires forall k :: k in keys ==> k in s.matches
    ensures var r := EndBanned(s, banned, keys, true);
            forall k :: k in keys && OtherParty(s.matches[k], banned) in s.users ==>
              var o := OtherParty(s.matches[k], banned);
              r.users[o].matches.Some? ==> s.matches[k].id !in r.users[o].matches.value
  {
    if keys != [] {
      var init := keys[..|keys| - 1];
      var last := keys[|keys| - 1];
      CorrectedBanUnlistsEndedMatches(s, banned, init);
      EndBannedMatches(s, banned, init, true);
      var prev := EndBanned(s, banned, init, true);
      var r := EndBanned(s, banned, keys, true);
      forall k | k in keys && OtherParty(s.matches[k], banned) in s.users
        ensures var o := OtherParty(s.matches[k], banned);
                r.users[o].matches.Some? ==> s.matches[k].id !in r.users[o].matches.value
      {
        if k != last {
          assert k in init;
        } else {
          assert prev.matches[last].id == s.matches[last].id;
          assert prev.matches[last].uid1 == s.matches[last].uid1 && prev.matches[last].uid2 == s.matches[last].uid2;
        }
      }
    }
  }

  /** The loop over matches1 and then matches2 (admin.js:178-196) on the fetched records. */
  method EndEach(s: Sweep, banned: Id, keys: seq<Key>) returns (r: Sweep)
    requires forall k :: k in keys ==> k in s.matches
    ensures r == EndBanned(s, banned, keys, false)
  {
    r := s;
    var i := 0;
    while i < |keys|
      invariant 0 <= i <= |keys|
      invariant r == EndBanned(s, banned, keys[..i], false)
    {
      assert keys[..i + 1][..i] == keys[..i];
      r := EndStep(r, banned, keys[i], false);
      i := i + 1;
    }
    assert keys[..i] == keys;
  }

  /** The reports loop (admin.js:169-175) over the answer of the reports query. */
  method ActionReportsOf(rs: map<Id, Report>, admin: Id, listed: seq<Id>) returns (out: map<Id, Report>)
    requires forall i :: i in listed ==> i in rs
    ensures out == ActionReports(rs, (set i | i in listed), admin)
  {
    out := rs;
    ghost var done: set<Id> := {};
    var i := 0;
    while i < |listed|
      invariant 0 <= i <= |listed|
      invariant forall x :: x in done <==> x in listed[..i]
      invariant out == ActionReports(rs, done, admin)
    {
      var x := listed[i];
      var report := out[x];
      if !Truthy(report.actionTaken) {
        out := out[x := report.(actionTaken := Some("banned"), actionUser := Some(admin))];
      }
      done := done + {x};
      assert listed[..i + 1] == listed[..i] + [x];
      i := i + 1;
    }
    assert listed[..i] == listed;
    assert done == set i | i in listed;
  }

  /** BanUser. Without a user id the call fails (the error is reported, and the fetch of an
   *  undefined id then fails too); a missing user fails before any write; a user without a
   *  profile, or whose profile pointer leads to no stored profile (the include leaves it
   *  undefined), makes the handler throw before any write. Otherwise the user is saved as
   *  banned with an empty match list, its profile disabled, its open reports closed, each of
   *  its mutual matches (those with it as uid1, then as uid2) ended with the counterpart's
   *  list edited, and two pushes sent: removeMatch to the counterparts and accountBanned to
   *  the user. These saves run side by side: a missing counterpart fails the call once the
   *  rest is written. */
  method BanUser(db: Database, caller: Id, userId: Option<Id>, reports: seq<Id>,
                 matches1: seq<Key>, matches2: seq<Key>) returns (r: Result<()>)
    requires db.Valid() && caller in db.users
    requires userId.Some? ==> Lists(reports, ReportsAgainst(db.reports, userId.value))
    requires userId.Some? ==> Lists(matches1, set k | k in db.matches && db.matches[k].state == M && db.matches[k].uid1 == userId.value)
    requires userId.Some? ==> Lists(matches2, set k | k in db.matches && db.matches[k].state == M && db.matches[k].uid2 == userId.value)
    modifies db
    ensures db.Valid()
    ensures !old(db.users[caller].admin) ==> r == Err(NotAdmin) && unchanged(db)
    ensures old(db.users[caller].admin) && userId.None? ==> r == Err("Invalid params") && unchanged(db)
    ensures old(db.users[caller].admin) && userId.Some? && userId.value !in old(db.users) ==>
              r == Err(ObjectNotFound) && unchanged(db)
    ensures old(db.users[caller].admin) && userId.Some? && userId.value in old(db.users) &&
            (old(db.users[userId.value].profile).None? || old(db.users[userId.value].profile).value !in old(db.profiles)) ==>
              r == Err(TypeErrorRaised) && unchanged(db)
    ensures old(db.users[caller].admin) && userId.Some? && userId.value in old(db.users) &&
            old(db.users[userId.value].profile).Some? && old(db.users[userId.value].profile).value in old(db.profiles) ==>
              var u := userId.value;
              var p := old(db.users[u].profile).value;
              var self := old(db.users[u]).(status := Banned, matches := Some([]));
              var s := EndBanned(Sweep(old(db.users)[u := self], old(db.matches), [], false), u, matches1 + matches2, false);
              && db.users == s.users && db.matches == s.matches
              && db.profiles == old(db.profiles)[p := old(db.profiles)[p].(enabled := Some(false))]
              && db.reports == ActionReports(old(db.reports), (set i | i in reports), caller)
              && db.outbox == old(db.outbox) + [Push(s.channels, MatchOfUserRemoved(u)), Push([UserChannel(u)], AccountBanned)]
              && r == (if !s.missing then Ok(()) else Err(ObjectNotFound))
    ensures db.messages == old(db.messages) && db.deletedUsers == old(db.deletedUsers)
  {
    if !db.users[caller].admin {
      return Err(NotAdmin);
    }
    if userId.None? {
      return Err("Invalid params");
    }
    var u := userId.value;
    if u !in db.users {
      return Err(ObjectNotFound);
    }
    if db.users[u].profile.None? || db.users[u].profile.value !in db.profiles {
      return Err(TypeErrorRaised);
    }
    var keys := matches1 + matches2;
    assert forall k :: k in keys ==> k in db.matches;
    assert forall i :: i in reports ==> i in db.reports;
    r := BanExisting(db, caller, u, reports, keys);
  }

  /** The writes of BanUser once the user and its profile are loaded. */
  method BanExisting(db: Database, admin: Id, u: Id, reports: seq<Id>, keys: seq<Key>) returns (r: Result<()>)
    requires db.Valid() && u in db.users && db.users[u].profile.Some? && db.users[u].profile.value in db.profiles
    requires forall i :: i in reports ==> i in db.reports
    requires forall k :: k in keys ==> k in db.matches
    modifies db
    ensures db.Valid()
    ensures var p := old(db.users[u].profile).value;
            var self := old(db.users[u]).(status := Banned, matches := Some([]));
            var s := EndBanned(Sweep(old(db.users)[u := self], old(db.matches), [], false), u, keys, false);
            && db.users == s.users && db.matches == s.matches
            && db.profiles == old(db.profiles)[p := old(db.profiles)[p].(enabled := Some(false))]
            && db.reports == ActionReports(old(db.reports), (set i | i in reports), admin)
            && db.outbox == old(db.outbox) + [Push(s.channels, MatchOfUserRemoved(u)), Push([UserChannel(u)], AccountBanned)]
            && r == (if !s.missing then Ok(()) else Err(ObjectNotFound))
    ensures db.messages == old(db.messages) && db.deletedUsers == old(db.deletedUsers)
  {
    var banned := db.users[u];
    var start := Sweep(db.users[u := banned.(status := Banned, matches := Some([]))], db.matches, [], false);
    EndBannedKeepsTable(start, u, keys, false);
    var p := banned.profile.value;
    var profiles := db.profiles[p := db.profiles[p].(enabled := Some(false))];
    var actioned := ActionReportsOf(db.reports, admin, reports);
    var s := EndEach(start, u, keys);
    var outbox := db.outbox + [Push(s.channels, MatchOfUserRemoved(u)), Push([UserChannel(u)], AccountBanned)];
    db.users, db.matches, db.profiles, db.reports, db.outbox := s.users, s.matches, profiles, actioned, outbox;
    r := if !s.missing then Ok(()) else Err(ObjectNotFound);
  }

  // ---------------------------------------------------------------------------
  // CloseReport (cloud/admin.js:227-249)

  /** A request parameter as the handler sees it: absent (`undefined`), an explicit JSON
   *  null, or a string. */
  datatype Param = Absent | Null | Given(text: string)

  /** Whether CloseReport's parameters pass its check: a report id, and an action that is
   *  given (the empty string counts as given). */
  predicate CloseParamsValid(reportId: Option<Id>, action: Param)
  {
    reportId.Some? && action.Given?
  }

  /** The stored actionTaken after `set('actionTaken', action)` and a save. An absent
   *  parameter sets `undefined`, which the JSON save body leaves out, so the stored
   *  value stays; a null clears it; a string replaces it. */
  function SavedAction(stored: Option<string>, action: Param): (r: Option<string>)
    ensures action.Given? ==> r == Some(action.text)
    ensures action.Null? ==> r.None?
    ensures action.Absent? ==> r == stored
  {
    match action
    case Absent => stored
    case Null => None
    case Given(text) => Some(text)
  }

  /** CloseReport as written: a bad parameter is reported but the handler goes on, so a
   *  report that can be fetched is still saved with the action and the admin.
   *  `paramsText` is the JSON text of the request parameters. */
  function CloseReportAsWritten(rs: map<Id, Report>, admin: Id, reportId: Option<Id>, action: Param,
                                paramsText: string): (r: (map<Id, Report>, Result<()>))
    ensures !CloseParamsValid(reportId, action) ==> r.1 == Err("Invalid parameters " + paramsText)
    ensures CloseParamsValid(reportId, action) && reportId.value !in rs ==> r == (rs, Err(ObjectNotFound))
    ensures CloseParamsValid(reportId, action) && reportId.value in rs ==> r.1 == Ok(())
    ensures reportId.None? || reportId.value !in rs ==> r.0 == rs
    ensures reportId.Some? && reportId.value in rs ==>
              var before := rs[reportId.value];
              && r.0.Keys == rs.Keys
              && (forall i :: i in rs && i != reportId.value ==> r.0[i] == rs[i])
              && r.0[reportId.value].(actionTaken := before.actionTaken, actionUser := before.actionUser) == before
              && r.0[reportId.value].actionUser == Some(admin)
              && (action.Given? ==> r.0[reportId.value].actionTaken == Some(action.text))
              && (action.Null? ==> r.0[reportId.value].actionTaken.None?)
              && (action.Absent? ==> r.0[reportId.value].actionTaken == before.actionTaken)
  {
    var written := if reportId.Some? && reportId.value in rs
                   then var report := rs[reportId.value];
                        rs[reportId.value := report.(actionTaken := SavedAction(report.actionTaken, action), actionUser := Some(admin))]
                   else rs;
    var result := if !CloseParamsValid(reportId, action) then Err("Invalid parameters " + paramsText)
                  else if reportId.value !in rs then Err(ObjectNotFound)
                  else Ok(());
    (written, result)
  }

  /** CloseReport as evidently intended: a bad parameter ends the call before the fetch. */
  function CloseReportIntended(rs: map<Id, Report>, admin: Id, reportId: Option<Id>, action: Param,
                               paramsText: string): (r: (map<Id, Report>, Result<()>))
  {
    if !CloseParamsValid(reportId, action) then (rs, Err("Invalid parameters " + paramsText))
    else CloseReportAsWritten(rs, admin, reportId, action, paramsText)
  }

  /** The intended handler writes a report exactly when it succeeds; with valid parameters
   *  the two versions agree. */
  lemma CloseReportIntendedWritesOnlyOnSuccess(rs: map<Id, Report>, admin: Id, reportId: Option<Id>,
                                              action: Param, paramsText: string)
    ensures var r := CloseReportIntended(rs, admin, reportId, action, paramsText);
            && (r.1.Err? ==> r.0 == rs)
            && (r.1.Ok? ==> reportId.Some? && action.Given? && r.0[reportId.value].actionTaken == Some(action.text)
                            && r.0[reportId.value].actionUser == Some(admin))
    ensures CloseParamsValid(reportId, action) ==>
              CloseReportIntended(rs, admin, reportId, action, paramsText) == CloseReportAsWritten(rs, admin, reportId, action, paramsText)
  {
  }

  /** As written, a request without an action fails yet saves the admin as the report's
   *  actionUser: an absent action keeps the stored one, a null action clears it. */
  lemma CloseReportWritesOnBadParams(rs: map<Id, Report>, admin: Id, id: Id, paramsText: string)
    requires id in rs && rs[id].actionUser != Some(admin)
    ensures var r := CloseReportAsWritten(rs, admin, Some(id), Absent, paramsText);
            r.1.Err? && r.0 == rs[id := rs[id].(actionUser := Some(admin))] && r.0 != rs
    ensures var r := CloseReportAsWritten(rs, admin, Some(id), Null, paramsText);
            r.1.Err? && r.0 == rs[id := rs[id].(actionTaken := None, actionUser := Some(admin))] && r.0 != rs
  {
    assert rs[id := rs[id].(actionUser := Some(admin))][id] != rs[id];
  }

  /** CloseReport on the database. */
  method CloseReport(db: Database, caller: Id, reportId: Option<Id>, action: Param, paramsText: string)
    returns (r: Result<()>)
    requires caller in db.users
    modifies db
    ensures !old(db.users[caller].admin) ==> r == Err(NotAdmin) && unchanged(db)
    ensures old(db.users[caller].admin) ==>
              (db.reports, r) == CloseReportAsWritten(old(db.reports), caller, reportId, action, paramsText)
    ensures db.users == old(db.users) && db.matches == old(db.matches) && db.profiles == old(db.profiles)
    ensures db.messages == old(db.messages) && db.deletedUsers == old(db.deletedUsers) && db.outbox == old(db.outbox)
  {
    if !db.users[caller].admin {
      return Err(NotAdmin);
    }
    r := Ok(());
    if !CloseParamsValid(reportId, action) {
      r := Err("Invalid parameters " + paramsText);
    }
    if reportId.None? || reportId.value !in db.reports {
      if r.Ok? {
        r := Err(ObjectNotFound);
      }
      return;
    }
    var report := db.reports[reportId.value];
    db.reports := db.reports[reportId.value := report.(actionTaken := SavedAction(report.actionTaken, action), actionUser := Some(caller))];
  }
}
