# A verified model of a Parse dating-app backend

This project models the cloud code of a Parse dating app. It covers:
- the swipe-to-match protocol: who swiped on whom, and when a pair becomes mutual;
- the bookkeeping around it: the users' `matches` id lists, the chat hooks, the
  teardown of matches, the admin actions, and the repair and migration jobs.

The model is written in Dafny, and properties of it are proved.

**Data model** (modules `Records` and `Store`)
- The `Database` class holds one map per Parse class: users, profiles, matches,
  messages and reports.
- It also holds the DeletedUser rows and an outbox of the pushes sent.
- Matches are keyed by the ordered pair `(uid1, uid2)`, with `uid1 <= uid2`. This is the
  unique index of `mongo-indexes.js`.
- `Database.Valid()` states that the match table is well formed:
  - every key is in canonical order and agrees with its record;
  - every record's slots and state are ones the resolver can produce;
  - no two records share a match id.

**Handlers**
- Cloud functions, hooks and jobs are methods taking the database, with `modifies db`.
  Each states its whole new state in terms of the old state and of specification
  functions.
- The answer of a storage query is a sequence parameter. The contract requires it to list
  exactly the records the query selects, each once, in an order the model does not fix.
- Object ids that storage hands out and creation times are parameters.
- A fetch by id that finds nothing answers `Err(ObjectNotFound)`.
- A JavaScript `TypeError` in a callback answers `Err(TypeErrorRaised)`.

**Modules**
- `SwipeRules` and `Resolver`: ProcessMatch.
- `Chat`: the ChatMessage hooks.
- `Teardown`: RemoveMatch, deleteUser, the Match afterDelete cascade, DeleteUnmatched and
  notifyRemoveMatch.
- `Accounts`: the User and Profile beforeSave hooks, and `_copyFacebookProfile`.
- `Discovery`:
  - the exclusion list and gender list of GetMatches;
  - `_processProfile`;
  - GetProfileForMatch and GetMutualMatches.
- `Jobs`: cloud/jobs.js.
- `Admin`: cloud/admin.js.
- `Migrations`: cloud/migrations.js.
- `Text`: `parseInt` and decimal rendering.
- `Sorting`: the sorts the jobs use.

**Modelled as written.** The model follows the code as written, not the comments'
intent. Where the two differ, the as-written behaviour is modelled and proved, and the
intended behaviour is stated beside it:
- ProcessMatch never updates the users' `matches` lists. After `if (...) ;` on
  cloud/main.js:740, line 741 always returns.
- The match push goes out on every swipe that leaves the pair mutual, including a
  repeated like.
- RemoveMatch pushes to `user_undefined`, because `otherUserId` is never assigned.
- BanUser removes the banned user's id from the other party's list, not the match id.
- DeletePhoto skips the photo after each one it removes.
- New_Like_Notifications reads the unwritten field `action1`, so it always picks `uid1`.
- CloseReport reports bad parameters but goes on to save.
- Migrate_001 selects messages on the misspelled field `usersIds`, so it loads every
  message.

## Model

| member | source | states |
|---|---|---|
| Common.Without | cloud/main.js:849-850 | Parse's `remove` on a list: the id is gone, every other element stays, and a list without it is unchanged. |
| Common.AddUnique | cloud/main.js:744-745 | Parse's `addUnique`: the id is present afterwards, nothing else is added, a list already holding it is unchanged, and a duplicate-free list stays duplicate-free. |
| Common.Pull | cloud/main.js:1004 | `remove` on a list field that may be absent: an absent field stays absent, and a present one loses exactly the id. |
| Common.PushUnique | cloud/migrations.js:111-112 | `addUnique` on a list field that may be absent: an absent field becomes the one-element list. |
| Records.OtherParty | cloud/main.js:1124-1125 | For a party of a match between two different users, the result is the other party; for a non-party it is uid1. |
| SwipeRules.Canonical | cloud/main.js:664-675 | The pair key holds the two ids, smaller first. |
| SwipeRules.Created | cloud/main.js:683-700 | A new record is keyed canonically and has no profiles. Its ACL lets exactly the two users read and write it. A first reject puts 'O' in the other party's slot; a first like leaves that slot unset. |
| SwipeRules.Swiped | cloud/main.js:681-709 | After a swipe, the caller's slot is L or R as liked. The other slot is kept, or set as for a new record. The id, profiles and ACL are those of the stored record, or those of a new one. |
| SwipeRules.SwipeKeepsConsistency | cloud/main.js:697-707 | A swipe leaves a consistent record. Its state is the table's for the new slots: P beside an unset slot, otherwise Rej beside an R, otherwise M for two likes. An 'O' beside an 'L' counts as rejected, except on a deleted record, which keeps D there. |
| SwipeRules.MutualMeansTwoLikes | cloud/main.js:707 | A consistent mutual record has two likes and two different users. |
| SwipeRules.MutualIffBothLiked | cloud/main.js:705-707 | After a swipe the state is M exactly when both slots are L. |
| SwipeRules.SwipeReplay | cloud/main.js:681-709 | Repeating the same swipe on its own result changes nothing. |
| SwipeRules.TwoSwipesSettle | cloud/main.js:664-709 | After both users swipe, the pair is mutual iff both liked, rejected iff either rejected, and keyed the same from both sides. |
| SwipeRules.SwipeOrderIrrelevant | cloud/main.js:664-709 | Two users' first swipes give the same slots and state whichever comes first. |
| SwipeRules.Materialize | cloud/main.js:711-733 | On a mutual record with exactly two profiles found, profile1 is the one owned by uid1 and profile2 the other. Any other count leaves the record as it was. |
| SwipeRules.MaterializeCanonicalSlots | cloud/main.js:725-731 | Whichever order the two profiles come back in, profile1 is uid1's. |
| SwipeRules.MaterializeKeepsConsistency | cloud/main.js:711-735 | Attaching profiles keeps the record consistent. |
| Store.Lookup | cloud/main.js:677-683 | `first()` on the pair finds the stored record exactly when the key is stored. |
| Store.PullMatch | cloud/main.js:849-850 | `remove('matches', id)` on one user drops every copy of the id, keeps every other id and field, and leaves other users alone. A missing list stays missing. |
| Store.Database.constructor | mongo-indexes.js:22 | An empty database satisfies the match-table invariant. |
| Store.UpdateKeepsTable | mongo-indexes.js:22 | Changing only a record's state to D, or only its profile slots, keeps the table well formed. |
| Resolver.Resolved | cloud/main.js:664-735 | The saved record is keyed canonically and consistent. It is mutual iff both slots are L, and has the caller's slot set as liked. It keeps the stored id or takes the new one. A new record is readable and writable by exactly the two users. |
| Resolver.ResolvedKeepsTable | cloud/main.js:735 | Saving the resolved record under its pair keeps the table well formed when the new id is fresh. |
| Resolver.ProcessMatch | cloud/main.js:644-777 | A missing parameter is an error with no write. Otherwise the resolved record is saved and no user list changes. A mutual state pushes one match notice to the other user, or fails if that user does not exist. |
| Resolver.RepeatedLikeStaysMutual | cloud/main.js:702-707 | A like on an already-mutual pair leaves it mutual, so the match push is sent again. |
| Resolver.RejectIsNeverMutual | cloud/main.js:699-706 | A reject leaves the pair rejected, or pending while the other slot is unset. |
| Resolver.RecordMutualMatch | cloud/main.js:743-747 | The intended update: both users' lists gain the match id once (addUnique), keep every other id and field, and stay duplicate-free. |
| Chat.Admit | cloud/main.js:884-926 | A master save passes untouched. Otherwise the message is admitted iff the match exists, has the caller as a party and is mutual, each refusal with its own error. An admitted message gets the caller as sender, both user ids, and read access for the two users. |
| Chat.RecipientChannels | cloud/main.js:943-948 | The channels are 'user_' + id for exactly the member ids that are not the sender. |
| Chat.ChatRecipients | cloud/main.js:944-948 | The loop builds those channels in order. |
| Chat.AlertText | cloud/main.js:950-954 | The alert is name + ': ' + text; else name + ' sent an image'; else name + ' sent an audio message'. It always starts with the name, and it is absent only when the name and every content are absent. |
| Chat.SaveChatMessage | cloud/main.js:884-974 | An admitted message is stored. Unless the save is a master save, one message push goes to the other members. A refused message writes nothing. |
| Chat.FanOutReachesOtherParty | cloud/main.js:905-948 | An admitted message is pushed to exactly the other party of its match. |
| Text.DecimalText | cloud/main.js:374 | An id pasted into a message is a non-empty run of digits. |
| Text.DigitPrefix | cloud/main.js:338-340 | The digits `parseInt` reads: a prefix of the input, all digits, stopped by the first non-digit. |
| Text.DecimalTextValue | cloud/main.js:374 | The decimal text of a number reads back as that number. |
| Text.ParseIntOfDigits | cloud/main.js:338-340 | `parseInt` of a digit string is its value. |
| Text.ParseIntOfDecimal | cloud/main.js:338-340 | `parseInt` inverts decimal rendering. |
| Accounts.UserBeforeSave | cloud/main.js:39-64 | A new user gets admin and premium off, no credits, an empty list and a closed ACL. A client save of an existing user that touches admin, premium or credits is refused with the first applicable error, and nothing else is. Every accepted save copies the Facebook id into fbId. |
| Accounts.UserBeforeSaveSettles | cloud/main.js:58-61 | A second save of a saved user changes nothing more. |
| Accounts.DefaultAgeFrom | cloud/main.js:157-161 | The default lower bound is age - 5, raised to 18. |
| Accounts.DefaultAgeTo | cloud/main.js:162-166 | The default upper bound is age + 5, capped at 55. |
| Accounts.ProfileBeforeSave | cloud/main.js:95-205 | A new profile needs an owner and gets the listed defaults and an owner-only ACL. On a saved profile, a changed birthdate fills only falsy ageFrom and ageTo, and a changed gender fills only absent guys and girls. |
| Accounts.DefaultRangeAroundAge | cloud/main.js:151-168 | The defaults stay within 18..55, equal age ± 5 whenever that fits, and form a non-empty range for ages 13..60. |
| Accounts.GenderDefaultsFollowGender | cloud/main.js:169-173 | A man is set to seek girls only and a woman guys only. |
| Accounts.MapGender | cloud/main.js:335 | 'male' becomes M, 'female' becomes F, anything else passes through. |
| Accounts.CopyFacebookProfile | cloud/main.js:316-357 | Name and mapped gender are copied. A ten-character birthday is parsed, and any other non-empty one is kept as fbBirthday. The hometown name is copied. 'MINIMUM_AGE_ERROR' comes back exactly when a birthdate makes the user younger than 18. |
| Accounts.Pad2Value | cloud/main.js:339-340 | A two-digit field reads back as its number. |
| Accounts.Pad4Value | cloud/main.js:338 | A four-digit year reads back as its number. |
| Accounts.ParseBirthdayRoundTrip | cloud/main.js:337-341 | Parsing a Facebook MM/DD/YYYY birthday gives the date with a zero-based month. |
| Sorting.InsertBy | cloud/jobs.js:204 | Inserting into a sorted list keeps it sorted and adds exactly the one element. |
| Sorting.SortBy | cloud/jobs.js:130-131 | The sort result is ordered and a permutation of the input. |
| Sorting.SortByHeadIsFirstMinimum | cloud/jobs.js:204 | The sort is stable at the head: among the elements with the smallest key, the first one listed comes first. |
| Sorting.SortedIdsEqual | cloud/jobs.js:130-136 | Two sorted id lists are equal exactly when they hold the same ids as often. |
| Sorting.SortIgnoresOrder | cloud/jobs.js:130-131 | Lists with the same elements sort to the same list. |
| Discovery.GenderList | cloud/main.js:558-561 | 'M' is searched iff guys is set, 'F' iff girls is set, each at most once. |
| Discovery.OthersOf | cloud/main.js:605-610 | Each returned row contributes the party that is not the caller. |
| Discovery.ExclusionIds | cloud/main.js:600-615 | The loop plus the appended caller id give exactly the caller and every user the caller has swiped on or been rejected by. |
| Discovery.ExclusionListIsExcluded | cloud/main.js:578-615 | The list holds a user iff that user is the caller or the other party of a record where the caller's slot is set. |
| Discovery.SwipeHidesPair | cloud/main.js:578-615 | After a's swipe on b, b is excluded for a. After a first reject, a is also excluded for b. |
| Discovery.FirstLikeKeepsLikerVisible | cloud/main.js:584-586 | After a first like, the pair does not hide the liker from the other user. |
| Discovery.ProcessProfile | cloud/main.js:497-529 | The age replaces the birthdate, photos is always present, and the private settings are removed. Everything else is kept. |
| Discovery.ProcessProfileSettles | cloud/main.js:497-529 | Processing twice is processing once. |
| Discovery.ProfileForMatch | cloud/main.js:362-395 | Without an id, or with an id not in the caller's list, the call fails with its message. A success means the match is mutual and has the caller as a party. The answer is the processed profile of the other slot. On such a match, an empty slot or one leading to no stored profile throws a TypeError. |
| Discovery.ProfileForMatchIsOtherParty | cloud/main.js:389 | With profiles attached as the resolver attaches them, the answer is the other party's profile. |
| Discovery.ViewOf | cloud/main.js:422-437 | A match is shown iff it has the caller as a party and the other party's slot leads to a stored profile. Only the other party's profile is kept, processed. |
| Discovery.MutualViews | cloud/main.js:422-445 | Every view comes from a listed match, and every listed match that has a view is included. |
| Discovery.GetMutualMatches | cloud/main.js:400-450 | Without ids the call fails. Otherwise it returns the views, in query order, of the requested mutual matches that involve the caller. |
| Discovery.MutualViewsAreRequested | cloud/main.js:411-416 | Every returned view is of a requested mutual match of the caller. |
| Discovery.MutualPairCannotView | cloud/main.js:740-747 | As written, after two likes on a new pair the match is mutual with the fresh id. Any party whose list did not already hold that id is refused by GetProfileForMatch. |
| Discovery.RecordedMutualMatchViewable | cloud/main.js:743-747 | With the lists updated as intended, each party is shown the other's profile. |
| Jobs.SortIds | cloud/jobs.js:130-131 | Sorting an id array in place leaves the sorted permutation of its old contents. |
| Jobs.ArraysEqual | cloud/jobs.js:123-137 | The result is true for the same array and false when either is null or the lengths differ, leaving the arrays as they were. For two arrays of equal length it is true iff both hold the same ids as often, and both arrays end sorted. |
| Jobs.SameElements | cloud/jobs.js:133-136 | The loop returns true iff the arrays are element-wise equal. |
| Jobs.IdsOf | cloud/jobs.js:110 | The ids of the listed records, in order. |
| Jobs.CollectIds | cloud/jobs.js:109-110 | The loop collects exactly those ids. |
| Jobs.RebuiltIdsAreMutualIds | cloud/jobs.js:99-110 | The recomputed list holds each mutual match id of the user once, and nothing else. |
| Jobs.RebuiltList | cloud/jobs.js:112-118 | Nothing is written iff the stored list has the same ids as often as the new one. |
| Jobs.RebuildMatches | cloud/jobs.js:98-121 | A user without a list, or whose list already matches, is untouched. Otherwise the list becomes the recomputed ids. |
| Jobs.Rewrite | cloud/jobs.js:112-118 | The comparison and write decision follow RebuiltList. |
| Jobs.RebuildRestoresMutualIds | cloud/jobs.js:98-121 | After the rebuild the list holds exactly the user's mutual match ids, once each. |
| Jobs.LikedUsers | cloud/jobs.js:41-50 | The chosen ids are duplicate-free and cover exactly the pick of each listed pending match. |
| Jobs.Channels | cloud/jobs.js:52 | One 'user_' channel per id, in order. |
| Jobs.NewLikeNotifications | cloud/jobs.js:28-76 | One newLikes push goes to the channels of the picked users, the status reports their count, and nothing else changes. |
| Jobs.CollectLiked | cloud/jobs.js:41-50 | The loop computes LikedUsers. |
| Jobs.LikerNotifiedInsteadOfLiked | cloud/jobs.js:43-46 | As written, when uid1 liked, uid1 (the liker) is picked, not uid2 (the one liked). |
| Jobs.LikedUserIsTheOneLiked | cloud/jobs.js:43-46 | The corrected pick is the party that has not swiped yet, opposite a like. |
| Jobs.SavedPointer | cloud/jobs.js:173-174 | A slot set to a user's profile pointer takes that pointer. A user without one leaves the stored slot, since an undefined value is not saved. |
| Jobs.Repaired | cloud/jobs.js:165-176 | A match is repaired iff both users exist. Each slot then takes its user's profile pointer, or keeps its stored value when that user has none. |
| Jobs.RepairKeepsTable | cloud/jobs.js:173-175 | Repairing keeps the match table well formed. |
| Jobs.RepairedMatchShowsOtherParty | cloud/jobs.js:173-174 | When users point at their own profiles, and any stored slot holds its party's profile, a repaired match shows each party the other's profile. |
| Jobs.RepairAll | cloud/jobs.js:150-160 | The loop repairs exactly the listed matches, and reports success iff every one could be repaired. |
| Jobs.FixMissingProfiles | cloud/jobs.js:141-178 | The table afterwards is the repaired table, and success means every listed match was repaired. |
| Jobs.UidsOf | cloud/jobs.js:191 | The group keys are duplicate-free and are exactly the uids of the listed profiles. |
| Jobs.Members | cloud/jobs.js:191 | A group holds exactly the listed profiles with its uid. |
| Jobs.GroupOf | cloud/jobs.js:204-205 | The original is the earliest created profile of the group, and the duplicates are all the others. |
| Jobs.GroupOfKeepsFirstOfTies | cloud/jobs.js:202-205 | Among members created at the same earliest time, the one listed first is kept as the original. |
| Jobs.GroupsOf | cloud/jobs.js:196 | Exactly the groups with more than one profile are kept. |
| Jobs.DupGroupsCoverDuplicates | cloud/jobs.js:191-205 | Two different listed profiles with the same uid make that uid a group of more than one profile, kept among the groups the job merges, with each of the two as its original or among its duplicates. |
| Jobs.Repoint | cloud/jobs.js:233-242 | The owner's slot is uid1's if it is uid1, else uid2's; it gets the original. A match without the owner is untouched. |
| Jobs.FixDupesOf | cloud/jobs.js:214-250 | Without an owner nothing changes. Otherwise the user points at the original, each referring match of the user is repointed, and the duplicates are destroyed. |
| Jobs.FixDupesKeepsTable | cloud/jobs.js:244 | fixDupes keeps the match table well formed. |
| Jobs.FixDupesClearsOwnSide | cloud/jobs.js:224-244 | Afterwards no match points at a duplicate on the owner's side. |
| Jobs.FixDupesDestroysDupes | cloud/jobs.js:248 | The duplicates are gone and the original is kept. |
| Jobs.RepointAll | cloud/jobs.js:233-243 | The loop repoints exactly the referring matches. |
| Jobs.FixDupes | cloud/jobs.js:214-250 | The database afterwards is FixDupesOf of the old tables. |
| Jobs.FixDuplicateProfiles | cloud/jobs.js:180-212 | On the query's answer, which lists every profile once, newest first, every duplicate group is fixed in turn. Success means each group was fixed. |
| Jobs.FixGroups | cloud/jobs.js:202-207 | The groups are fixed one after another. |
| Admin.SpliceScanKeepsOthers | cloud/admin.js:94-100 | The scan only removes photos, and keeps every photo whose url differs. |
| Admin.RemoveUrl | cloud/admin.js:96-98 | The evident intent: exactly the photos without the url remain. |
| Admin.SpliceScanRemovesIsolatedMatches | cloud/admin.js:94-100 | When no two matching photos are adjacent, the scan is exactly RemoveUrl. |
| Admin.SpliceScanKeepsSecondOfTwo | cloud/admin.js:94-100 | Two adjacent matching photos leave one behind. |
| Admin.SpliceOut | cloud/admin.js:94-100 | The loop with its in-place splice computes SpliceScan. |
| Admin.DeletePhoto | cloud/admin.js:77-116 | A non-admin is refused with no write (checkAdmin). A missing report or dangling pointer fails with no write. Otherwise the scanned photos are saved and a reloadProfile push goes to the reported user. |
| Admin.ActionReports | cloud/admin.js:169-175 | Only listed reports without an action change, getting 'banned' and the admin. |
| Admin.ActionReportsSettles | cloud/admin.js:169-175 | A second pass, even by another admin, changes nothing. |
| Admin.ActionReportsOf | cloud/admin.js:169-175 | The loop computes ActionReports. |
| Admin.EndBanned | cloud/admin.js:180-198 | The sweep over the listed matches keeps the set of matches and users. |
| Admin.EndStep | cloud/admin.js:187-198 | One match adds its counterpart's channel, and the missing flag records whether that counterpart exists. |
| Admin.EndBannedMatches | cloud/admin.js:191 | Exactly the listed matches become D; nothing else about them changes. |
| Admin.EndBannedKeepsTable | cloud/admin.js:191-192 | The sweep keeps the match table well formed. |
| Admin.EndBannedChannels | cloud/admin.js:180-189 | One channel per listed match, for its counterpart, in order. |
| Admin.EndBannedKeepsParties | cloud/admin.js:191 | The sweep never changes who a match is between, or its id. |
| Admin.MissingAmongMeans | cloud/admin.js:194-197 | The missing flag means that some listed counterpart is not a stored user. |
| Admin.EndBannedMissing | cloud/admin.js:194-197 | The sweep reports a missing counterpart exactly as MissingAmong says. |
| Admin.EndBannedOnlyRemoves | cloud/admin.js:194-196 | Users only lose ids from their lists, and keep every other field. |
| Admin.BanLeavesEndedMatchListed | cloud/admin.js:196 | As written, a counterpart keeps every id other than the banned user's, including the id of the ended match. |
| Admin.CorrectedBanUnlistsEndedMatches | cloud/admin.js:196 | With the match id removed instead, no counterpart lists an ended match. |
| Admin.EndEach | cloud/admin.js:180-198 | The loop computes the sweep. |
| Admin.BanUser | cloud/admin.js:122-225 | A non-admin or a missing user id is refused with no write. A missing user fails with no write, as does one without a profile pointer or with a pointer to a profile that is no longer stored. Otherwise the user is banned with an empty list and its profile disabled. Its open reports are actioned, its mutual matches ended, and a removeMatch push and an accountBanned push are sent. |
| Admin.BanExisting | cloud/admin.js:156-217 | Gives the whole new state of a ban: the user, profile, reports, swept matches and users, and the two pushes. |
| Admin.CloseReportAsWritten | cloud/admin.js:227-249 | Bad parameters are reported, yet a fetched report is still saved with the admin as actionUser. A string action replaces actionTaken, a null one clears it, and an absent one leaves it as stored. A missing report fails with no write. |
| Admin.CloseReportIntendedWritesOnlyOnSuccess | cloud/admin.js:234-235 | With the missing return added, a report is written exactly when the call succeeds. |
| Admin.CloseReportWritesOnBadParams | cloud/admin.js:234-242 | As written, a call without an action fails yet writes the admin into actionUser. An absent action keeps the stored one, and a null action clears it. |
| Admin.CloseReport | cloud/admin.js:227-249 | A non-admin is refused with no write. Otherwise the reports become CloseReportAsWritten's. |
| Teardown.NotifyRemoveMatch | cloud/main.js:1197-1208 | One removeMatch push, one 'user_' channel per uid, 'user_undefined' for an undefined one. |
| Teardown.RemoveMatch | cloud/main.js:834-858 | A missing match fails with no write. Otherwise the match becomes D, the id leaves both users' lists, and a push goes to 'user_undefined'. The call fails if the other user does not exist. |
| Teardown.RemoveFound | cloud/main.js:843-852 | The writes of RemoveMatch once the match is found. |
| Teardown.EndMutualMatches | cloud/main.js:1112-1134 | The teardown loop, which stops after the first match whose other party is missing, keeps the set of matches and users. |
| Teardown.EndMutualMatchesKeepsTable | cloud/main.js:1122-1133 | The teardown loop keeps the match table well formed. |
| Teardown.EndMutualMatchesMarks | cloud/main.js:1120-1134 | Exactly the listed matches become D, with one push each. |
| Teardown.EndMutualMatchesPulls | cloud/main.js:1125-1133 | Every other party exists and no longer lists the match, and users keep all other fields. |
| Teardown.PulledStaysPulled | cloud/main.js:1120-1134 | Once removed, an id is not brought back by the rest of the loop. |
| Teardown.EndEach | cloud/main.js:1120-1134 | The loop computes EndMutualMatches. |
| Teardown.TearDownMutualMatches | cloud/main.js:1120-1134 | The database afterwards holds the loop's users, matches and outbox. |
| Teardown.DeleteUser | cloud/main.js:1069-1151 | The user is marked 'deleting' and its profile snapshotted and destroyed. Its mutual matches are ended. Unless a save failed, a DeletedUser row is saved and the user destroyed. Pending and rejected matches are untouched. |
| Teardown.AfterDeleteMatch | cloud/main.js:995-1021 | A mutual match leaves both lists and both users are pushed. In every case its messages are destroyed. |
| Teardown.AfterDeleteLeavesNoTrace | cloud/main.js:999-1015 | Afterwards neither user lists the match and none of its messages remain. |
| Teardown.OneMoreDeleted | cloud/main.js:1041 | Destroying one more match removes it and its messages on top of those already gone. |
| Teardown.DeleteUnmatched | cloud/main.js:1023-1047 | Exactly the caller's pending and rejected matches and their messages are destroyed. The answer reports their count. |
| Migrations.LegacyPhotos | cloud/migrations.js:17-28 | The truthy photo1, photo2, photo3, in that order, and nothing else. |
| Migrations.PhotoMigrationSettles | cloud/migrations.js:13-28 | Afterwards no profile lacks photos. Profiles that had photos are unchanged, and the others differ only in photos. |
| Migrations.MigrateProfilePhotos | cloud/migrations.js:8-34 | Every profile without photos gets its legacy photos, and the status is 'complete'. |
| Migrations.PrivateAcl | cloud/migrations.js:51-59 | A user with no ACL gets an owner-only one, and public read is turned off. A user needing neither is unchanged. |
| Migrations.AclMigrationSettles | cloud/migrations.js:50-60 | Afterwards no user needs the change, and a second run changes nothing. |
| Migrations.MigrateAcls | cloud/migrations.js:37-68 | Exactly the users that needed a change are changed and saved, once each. |
| Migrations.Unlinked | cloud/migrations.js:73-97 | usersById holds exactly the users without a list. |
| Migrations.LinkAll | cloud/migrations.js:103-113 | The loop succeeds iff both users of every mutual match are loaded. |
| Migrations.LinkAllLists | cloud/migrations.js:103-113 | A loaded user ends with a list iff it takes part in a mutual match. The list holds those match ids, once each, and nothing else about the user changes. |
| Migrations.PreLinkedUserFailsLink | cloud/migrations.js:106-111 | A mutual match of a user that already had a list makes the step throw. |
| Migrations.MatchesById | cloud/migrations.js:127-132 | Every mutual match is found by its id. |
| Migrations.Stamped | cloud/migrations.js:136-140 | The stamping succeeds iff every message's match was loaded. |
| Migrations.StampedNamesMutualPair | cloud/migrations.js:136-140 | Each stamped message names, in order, the two users of its mutual match, and is otherwise unchanged. |
| Migrations.SaveLinkedUsers | cloud/migrations.js:99-115 | The users are saved with their linked lists iff linking succeeds; otherwise nothing is written. |
| Migrations.SaveStampedMessages | cloud/migrations.js:125-143 | The messages are saved stamped iff every one's match was loaded; otherwise nothing is written. |
| Migrations.UsersById | cloud/migrations.js:92-97 | The loop builds usersById. |
| Migrations.LinkMatches | cloud/migrations.js:103-113 | The loop computes LinkAll. |
| Migrations.MatchesByIdOf | cloud/migrations.js:127-132 | The loop builds matchesById. |
| Migrations.StampMessages | cloud/migrations.js:134-140 | The loop computes Stamped. |
| Migrations.MigrateMatchLists | cloud/migrations.js:71-149 | Linked users are saved, then stamped messages. A failing step gives 'migration error {}' and writes nothing more. |

## Left out

- Storage, queries, saves and push delivery are maps and an appended outbox. Query answers are parameters listing the selected records. Promise chains run in sequence, and `Parse.Promise.when` as a sequence of saves.
- The concurrent first-swipe race is not modelled. The unique `(uid1, uid2)` index is a key invariant.
- JavaScript dates are not modelled:
  - `_calculateAge` is the `ageOf` parameter;
  - the birthdate bounds of GetMatches, `getYesterdayDateRange` and the push time are not modelled;
  - the creation-date window of New_Like_Notifications is `from`/`to` parameters.
- Geo-radius filtering, the profile query of GetMatches and its 25-row page, and the 1000-row and 200-row query caps are storage behaviour.
- The network calls of `CopyFacebookProfile` are not modelled, and neither are cloud/linkedin.js, cloud/patch.js, cloud/app.js, cloud/email.js, cloud/video.js, index.js, parse-config.js and the configuration files. ContactMessage and the admin read-only queries (GetReportedUsers, GetReportedUserDetails) are not part of this model.
- The RESTRICT_* switches of cloud/main.js:28-30 are off, so their branches are not modelled.
- Accounts.ProfileBeforeSave: an Invalid Date is truthy, so the source stores NaN in ageFrom and ageTo. The model has no NaN, and leaves the range unset for an invalid date.
- Accounts.DefaultAgeFrom: the NaN age of an invalid birthdate is not an input, for the same reason.
- ACLs are the four fields of `Acl`, on users, profiles, matches and chat messages; role-based access is not modelled.
- Sorting.SortBy: JavaScript's default `sort()` compares ids as strings. Here ids are numbers, so the order is numeric; equality after sorting, which is all arraysEqual uses, is the same.
- Jobs.UidsOf: the key order of `_.groupBy` follows first appearance, as JavaScript objects keep insertion order for non-numeric keys.
- An included pointer whose object no longer exists is read as `undefined`, as Parse Server's include drops it. Then DeletePhoto and BanUser throw a TypeError before any write. GetMutualMatches skips the match, and GetProfileForMatch throws. Parse's include is not part of this model.
- Discovery.Fetched: only profiles of a query answer are read through it, and those are stored. Its blank profile for any other id is never read.
- Teardown.RemoveMatch: the push to 'user_undefined' is modelled as written. No corrected variant is given; the evidently intended target is the other party, as in deleteUser.
- Migrations.MigrateMatchLists: a failing `saveAll` of the users or messages is not modelled. Only a throw in the loops fails a step.
- Teardown.DeleteUser: the JSON snapshots of the user and profile are the records themselves.
- Admin.BanUser: the promises of the ban's saves all run. A missing counterpart reports the failure after all writes, not at the first one.
- Chat.Admit: a ChatMessage without a `match` pointer makes the hook throw a TypeError. This case is not modelled, because every modelled message has a match id.
- An absent CloseReport action (cloud/admin.js:232, 239) and a missing profile pointer in fixMutualMatch (cloud/jobs.js:173-174) are `undefined`. The Parse SDK leaves undefined values out of the save body, so the stored value stays. That SDK is not part of this model; the model takes this behaviour as given.
- The User afterSave hook (cloud/main.js:69-88) is not part of this model. It creates and links a Profile whenever a user without one is saved, for example at deleteUser's first save.
- Teardown.AfterDeleteMatch: the ChatMessage query (cloud/main.js:1011-1014) sets no limit, so Parse answers at most 100 rows. The model destroys every message of the match, which holds only while at most 100 match.
- Teardown.AfterDeleteLeavesNoTrace: "no message of the match remains" holds only under the same 100-row bound.
- Jobs.FixDupesOf: the `Parse.Query.or(...).find()` of cloud/jobs.js:224-228 sets no limit, so Parse answers at most 100 matches. The model repoints every referring match, which holds only while at most 100 refer to the duplicates.
- Jobs.FixDupesClearsOwnSide: "no owner's-side slot keeps a duplicate" holds only under the same 100-row bound.
- Teardown.DeleteUser: the profile fetch at cloud/main.js:1096-1107 is not returned into the promise chain. It races with the DeletedUser save at cloud/main.js:1145, so the row may be saved without the profile snapshot, and a failed destroy is never reported. The model takes the snapshot and destroys the profile before the teardown.
- Admin.BanUser: `Parse.Promise.when` rejects with an array of errors. The model reports one ObjectNotFound error; Jobs.FixMissingProfiles reports failure as a flag.
- Jobs.LikedUsers: JavaScript lists integer-like object keys in ascending order before the others, so for such ids `_.keys(likedUserIds)` is sorted rather than in first-appearance order. The model keeps first appearance; the set of channels is the same.
- Accounts.UserBeforeSave: the hook also runs on the master saves of BanUser, deleteUser, RemoveMatch and the jobs. There the model leaves fbId as stored and does not apply the sync from authData (cloud/main.js:58-61).

## Findings

| source | as written | input that shows it | evidently intended | confidence | as-written member | corrected member |
|---|---|---|---|---|---|---|
| cloud/main.js:740 | `if (...) ;` makes line 741 return always, so no user list gains the match id | a likes b, then b likes a: the pair is M, but GetProfileForMatch refuses both | both users' lists gain the match id (addUnique) | not executed | Discovery.MutualPairCannotView | Discovery.RecordedMutualMatchViewable |
| cloud/admin.js:196 | the banned user's id is removed from the counterpart's list | a mutual match with id y between a banned user and u: y stays in u's list | the match id is removed | not executed | Admin.BanLeavesEndedMatchListed | Admin.CorrectedBanUnlistsEndedMatches |
| cloud/admin.js:94-99 | `splice(i, 1)` inside a loop that still increments i | photos [p, p] with photoUrl = p's url leave [p] | every photo with the url is removed | not executed | Admin.SpliceScanKeepsSecondOfTwo | Admin.RemoveUrl |
| cloud/jobs.js:43 | reads `action1`, which nothing writes, so uid1 is always picked | a pending match where uid1 liked uid2: uid1 is notified | the user who was liked and has not swiped yet | not executed | Jobs.LikerNotifiedInsteadOfLiked | Jobs.LikedUserIsTheOneLiked |
| cloud/admin.js:234-235 | the parameter check reports an error but does not return | CloseReport with a report id and no action fails, yet saves the admin as the report's actionUser | return after the error, writing nothing | not executed | Admin.CloseReportWritesOnBadParams | Admin.CloseReportIntendedWritesOnlyOnSuccess |
