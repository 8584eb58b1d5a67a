# Meetup client rules, modelled in Dafny

This project models the client-side rules of a React "meetup" web client whose
data lives in a hosted Postgres backend. The model covers:

- the friend-relationship hook: it derives a status, and sends, accepts and removes requests;
- the zod input schemas;
- the invite-address pattern and the user list of the "Add New Friend" dialog;
- the three-step meetup wizard;
- the call dialog's selection list;
- notification read-marking;
- the chat page's naming, preview and sending;
- direct-chat creation;
- the wall's likes and posts;
- photo upload paths and records;
- the translation tables with their key fallback.

The backend is a `Tables.Database` object with one sequence of rows per table,
plus a map for stored files. Each component is a class. Its fields are the
component's React state, and its methods are the event handlers, each taken as
one atomic step. Anything the backend decides comes in as a parameter:

- whether a call succeeded;
- new ids and timestamps (`Stamp`);
- public URLs;
- the collation order of names.

Nullable columns are `Option`s, except the `created_at` and `updated_at` timestamps, which are integers (see "Left out"). JavaScript truthiness of strings is `Common.Truthy`. String lengths are JavaScript's `.length`, in UTF-16 code units (`Common.Utf16Length`).

Files:

- `common.dfy`: option type, white space, trimming, ASCII lower case, substring test, filtering, decimal digits.
- `query.dfy`: ordering and limiting as the backend's `.order` / `.limit` do.
- `tables.dfy`: the row types and the `Database`.
- One file per source file of the core: `friend_status.dfy`, `validation.dfy`, `add_friend.dfy`, `create_meetup.dfy`, `call_dialog.dfy`, `notifications.dfy`, `messages.dfy`, `new_chat.dfy`, `wall.dfy`, `photo_upload.dfy`, `language.dfy`.

## Model

| member | source | states |
|---|---|---|
| FriendStatus.Single | src/hooks/useFriendStatus.tsx:24-26 | `.single()` yields a row exactly when one row matched; zero or several rows give no row and no failure |
| FriendStatus.DeriveCases | src/hooks/useFriendStatus.tsx:28-36 | no row gives none; an accepted row gives friends; any other status (pending, null, anything) gives pending_sent when the row's user_id is the viewer, else pending_received |
| FriendStatus.DeriveSwapsViewers | src/hooks/useFriendStatus.tsx:28-36 | for one row between two different users, one sees pending_sent exactly when the other sees pending_received, friends is seen by both or neither, and neither sees none |
| FriendStatus.PairRowsSymmetric | src/hooks/useFriendStatus.tsx:23 | the either-direction filter matches the same rows whichever user is the viewer |
| FriendStatus.LookupSymmetric | src/hooks/useFriendStatus.tsx:20-36 | viewer A's status is pending_sent exactly when B's is pending_received; friends and none are symmetric |
| FriendStatus.LookupUnrelated | src/hooks/useFriendStatus.tsx:26-39 | a failed query, no matching row or several matching rows all end in none |
| FriendStatus.RequestNotification | src/hooks/useFriendStatus.tsx:60-68 | the notification goes to the target, has type friend_request and carries the sender's id as from_user_id |
| FriendStatus.AcceptIncoming | src/hooks/useFriendStatus.tsx:101-105 | same number of rows; exactly the rows from the target to the viewer become accepted; every other row is unchanged |
| FriendStatus.SendThenLookup | src/hooks/useFriendStatus.tsx:45-71 | on a pair with no row, after a send the sender sees pending_sent and the target sees pending_received |
| FriendStatus.SendAgainHidesRelationship | src/hooks/useFriendStatus.tsx:45-57 | sending on a pair that already has a row is not refused, and afterwards both users' lookups give none (two rows match) |
| FriendStatus.RemoveThenLookup | src/hooks/useFriendStatus.tsx:78-89 | after removal no row connects the pair in either direction, both users see none, and every row not between them survives |
| FriendStatus.AcceptLeavesOutgoing | src/hooks/useFriendStatus.tsx:101-105 | a row the viewer sent is never changed by the viewer's accept, so nobody can accept their own request |
| FriendStatus.AcceptThenLookup | src/hooks/useFriendStatus.tsx:97-110 | when the pair's only row is the target's request, accepting makes both users see friends |
| FriendStatus.PairRowsAcceptedCount | src/hooks/useFriendStatus.tsx:101-105 | accepting changes no row's pair, so the number of rows between the two users is kept |
| FriendStatus.FriendStatusHook.constructor | src/hooks/useFriendStatus.tsx:9-10 | status starts as none and loading as true |
| FriendStatus.FriendStatusHook.CheckFriendStatus | src/hooks/useFriendStatus.tsx:12-43 | with no user, no target, or the viewer as target the status is left unchanged; otherwise it becomes the derived lookup status; loading ends false either way |
| FriendStatus.FriendStatusHook.SendFriendRequest | src/hooks/useFriendStatus.tsx:45-76 | returns true exactly when signed in with a target and the insert succeeds; then one pending row is appended, the status becomes pending_sent, and the notification is appended if its own insert succeeds; on false nothing changes |
| FriendStatus.FriendStatusHook.RemoveFriend | src/hooks/useFriendStatus.tsx:78-95 | on success every row between the pair is deleted whatever its status and the status becomes none; on failure nothing changes |
| FriendStatus.FriendStatusHook.AcceptFriendRequest | src/hooks/useFriendStatus.tsx:97-115 | on success the target's requests to the viewer become accepted and the status becomes friends even if no row matched; on failure nothing changes |
| Validation.ChainIssues | src/lib/validationSchemas.ts:5-20 | a chain reports no issue exactly when every check in it passes, and at most one issue per check |
| Validation.UsernameAccepted | src/lib/validationSchemas.ts:12-16 | a username passes exactly when it has 3 to 20 characters, all ASCII letters, digits or underscores (so characters and UTF-16 code units agree) |
| Validation.PasswordAccepted | src/lib/validationSchemas.ts:6-11 | a sign-up password passes exactly when it has 8 to 72 UTF-16 code units with an ASCII upper-case letter, a lower-case letter and a digit |
| Validation.DisplayNameAccepted | src/lib/validationSchemas.ts:17-20 | a display name passes exactly when it has 1 to 50 UTF-16 code units |
| Validation.EmailAccepted | src/lib/validationSchemas.ts:5 | an e-mail passes exactly when it has the e-mail format and at most 255 UTF-16 code units |
| Validation.SignupAccepted | src/lib/validationSchemas.ts:4-21 | a sign-up is accepted exactly when all four fields are present strings meeting their rules, lengths in UTF-16 code units |
| Validation.LoginAccepted | src/lib/validationSchemas.ts:23-26 | a log-in is accepted exactly when the e-mail is valid (at most 255 code units) and the password is a non-empty string |
| Validation.LoginWeakerThanSignup | src/lib/validationSchemas.ts:23-26 | with a valid e-mail every sign-up password is acceptable at log-in, and "a" is acceptable at log-in though it is not a valid sign-up password |
| Validation.LengthsCountCodeUnits | src/lib/validationSchemas.ts:6-20 | the bounds count UTF-16 code units: 26 astral characters are too long for a display name, and "Aa1" with three emoji is a long enough password |
| Validation.PostAccepted | src/lib/validationSchemas.ts:29-35 | a post is accepted exactly when its content has 1 to 5000 UTF-16 code units and a present media URL is a URL (missing or null is fine) |
| Validation.CommentAccepted | src/lib/validationSchemas.ts:38-43 | a comment is accepted exactly when its content has 1 to 1000 UTF-16 code units |
| Validation.ProfileUpdateAccepted | src/lib/validationSchemas.ts:46-63 | every field may be missing; a present username or display name must be a string meeting the sign-up rules (null is refused); a bio is null or at most 500 UTF-16 code units |
| Validation.CaptionAccepted | src/lib/validationSchemas.ts:66-72 | a caption is missing, null or at most 200 UTF-16 code units |
| Validation.LocationAccepted | src/lib/validationSchemas.ts:75-78 | a location is accepted exactly when latitude is in [-90, 90] and longitude in [-180, 180], bounds included |
| AddFriend.InviteEmailIsPattern | src/components/dialogs/AddFriendDialog.tsx:111-112 | every address the scan accepts matches `^[^\s@]+@[^\s@]+\.[^\s@]+$` |
| AddFriend.PatternIsInviteEmail | src/components/dialogs/AddFriendDialog.tsx:111-112 | every address matching the regular expression passes the scan |
| AddFriend.InviteEmailMatchesPattern | src/components/dialogs/AddFriendDialog.tsx:111-112 | the scan accepts exactly the strings the regular expression matches |
| AddFriend.InviteEmailShape | src/components/dialogs/AddFriendDialog.tsx:111 | an accepted address has exactly one '@', not at the start, and no white space |
| AddFriend.InviteOutcomeMeaning | src/components/dialogs/AddFriendDialog.tsx:107-115 | the invitation is skipped exactly when nobody is signed in or the field is blank, and goes out exactly when the field is not blank and matches the pattern |
| AddFriend.BlankQueryKeepsAll | src/components/dialogs/AddFriendDialog.tsx:150-151 | a blank query shows the fetched list unchanged |
| AddFriend.QueryKeepsMatches | src/components/dialogs/AddFriendDialog.tsx:150-157 | with a non-blank query a user is shown exactly when the lower-cased query occurs in their lower-cased username or display name |
| AddFriend.Others | src/components/dialogs/AddFriendDialog.tsx:52 | exactly the profiles whose id is not the user's |
| AddFriend.ByDisplayNameOrdered | src/components/dialogs/AddFriendDialog.tsx:53 | ordering by display name keeps every profile, puts profiles with a display name first and in collation order, nulls last |
| AddFriend.RequestedIdsMeaning | src/components/dialogs/AddFriendDialog.tsx:69-77 | a user is marked as requested exactly when some row sent by the signed-in user names them, whatever its status; incoming rows mark nobody |
| AddFriend.AddFriendDialog.constructor | src/components/dialogs/AddFriendDialog.tsx:34-38 | the lists and fields start empty and loading false |
| AddFriend.AddFriendDialog.FetchUsers | src/components/dialogs/AddFriendDialog.tsx:47-67 | a successful read replaces the list with the first 20 other profiles ordered by display name; a failed one keeps it |
| AddFriend.AddFriendDialog.FetchExistingFriends | src/components/dialogs/AddFriendDialog.tsx:69-81 | a successful read sets the requested list to the user's sent rows' friend ids; a failed one keeps it |
| AddFriend.AddFriendDialog.SetSearchQuery | src/components/dialogs/AddFriendDialog.tsx:189 | the query becomes the typed text |
| AddFriend.AddFriendDialog.SendFriendRequest | src/components/dialogs/AddFriendDialog.tsx:83-105 | with a user and a successful insert, one pending row is appended, the id is added to the requested list and the Add button is disabled; no notification is written; a failed insert changes neither table nor list |
| AddFriend.AddFriendDialog.SetEmailInvite | src/components/dialogs/AddFriendDialog.tsx:263 | the invite field becomes the typed text |
| AddFriend.AddFriendDialog.SendEmailInvite | src/components/dialogs/AddFriendDialog.tsx:107-148 | the outcome is skipped, rejected or invited as the pattern test decides; only an invitation clears the field; nothing is stored |
| CreateMeetup.InitialForm | src/pages/CreateMeetup.tsx:14-23 | the form has exactly the eight fields, all empty strings except category 'social' and isPrivate false |
| CreateMeetup.NextStepOf | src/pages/CreateMeetup.tsx:38 | the step goes up by one and stops at 3 |
| CreateMeetup.PrevStepOf | src/pages/CreateMeetup.tsx:39 | the step goes down by one and stops at 1 |
| CreateMeetup.StepMovesStayInRange | src/pages/CreateMeetup.tsx:38-39 | both moves keep the step in 1..3; each undoes the other away from the clamped end; next at 3 and previous at 1 change nothing |
| CreateMeetup.InitialFormBlocksContinue | src/pages/CreateMeetup.tsx:133-136 | on the initial form neither Continue button is enabled, whatever the attendee field holds |
| CreateMeetup.DetailsGuard | src/pages/CreateMeetup.tsx:133-136 | step 1's Continue is enabled exactly when title and description are non-empty, white space included, on any form |
| CreateMeetup.WhenWhereGuard | src/pages/CreateMeetup.tsx:211-214 | step 2's Continue does not depend on maxAttendees and is enabled exactly when date, time and location are non-empty, on any form |
| CreateMeetup.Wizard.constructor | src/pages/CreateMeetup.tsx:13-23 | the wizard starts at step 1 with the initial form |
| CreateMeetup.Wizard.HandleInputChange | src/pages/CreateMeetup.tsx:34-36 | exactly the named field takes the new value; every other field is kept |
| CreateMeetup.Wizard.NextStep | src/pages/CreateMeetup.tsx:38 | the step becomes the next step, still in range, and the form is untouched |
| CreateMeetup.Wizard.PrevStep | src/pages/CreateMeetup.tsx:39 | the step becomes the previous step, still in range, and the form is untouched |
| CreateMeetup.Wizard.Continue | src/pages/CreateMeetup.tsx:133-214 | Continue advances from step 1 only when title and description are filled, and from step 2 only when date, time and location are filled |
| CreateMeetup.Wizard.Submit | src/pages/CreateMeetup.tsx:41-45 | submitting stores nothing and goes to /meetups |
| CallDialog.CallableFriends | src/components/dialogs/CallDialog.tsx:52-53 | exactly the rows the user sent whose status is accepted |
| CallDialog.ReceivedFriendNotOffered | src/components/dialogs/CallDialog.tsx:52-53 | an accepted request the user received is not offered |
| CallDialog.Toggled | src/components/dialogs/CallDialog.tsx:65-71 | a selected id is removed, an unselected one is appended at the end, and no other id changes membership |
| CallDialog.ToggledNoDup | src/components/dialogs/CallDialog.tsx:65-71 | toggling never creates a duplicate |
| CallDialog.FilterNoDup | src/components/dialogs/CallDialog.tsx:68 | removing ids from a list without duplicates leaves a list without duplicates |
| CallDialog.ToggleTwice | src/components/dialogs/CallDialog.tsx:65-71 | toggling an id twice restores the selected set, and the exact list when the id was not selected |
| CallDialog.ModeFor | src/components/dialogs/CallDialog.tsx:80 | the mode is conference exactly when more than one friend is selected |
| CallDialog.CallDialogState.constructor | src/components/dialogs/CallDialog.tsx:28 | the selection starts empty |
| CallDialog.CallDialogState.FetchFriends | src/components/dialogs/CallDialog.tsx:37-63 | without a user nothing happens; otherwise a successful read sets the list to the callable friends, and loading ends false |
| CallDialog.CallDialogState.ToggleFriend | src/components/dialogs/CallDialog.tsx:65-71 | the selection becomes the toggled list and keeps having no duplicate |
| CallDialog.CallDialogState.StartCall | src/components/dialogs/CallDialog.tsx:73-85 | an empty selection is refused with the dialog left as it was; otherwise the mode is reported, the dialog closes and the selection empties |
| CallDialog.CallDialogState.Cancel | src/components/dialogs/CallDialog.tsx:142-147 | the dialog closes and the selection empties |
| Notifications.UnreadCount | src/components/dialogs/NotificationsDialog.tsx:98 | the count is at most the list's length and is 0 exactly when no entry is unread |
| Notifications.MarkAllRead | src/components/dialogs/NotificationsDialog.tsx:72 | same length; every entry is read and otherwise unchanged |
| Notifications.MarkRead | src/components/dialogs/NotificationsDialog.tsx:90-92 | same length; entries with the id become read; all others are unchanged |
| Notifications.MarkAllReadClearsBadge | src/components/dialogs/NotificationsDialog.tsx:72-98 | after marking everything read the unread count is 0 |
| Notifications.MarkReadIdempotent | src/components/dialogs/NotificationsDialog.tsx:90-92 | marking an id twice is the same as marking it once |
| Notifications.MarkReadCount | src/components/dialogs/NotificationsDialog.tsx:90-98 | marking an id lowers the unread count by the number of unread entries with that id |
| Notifications.BackendMarkAll | src/components/dialogs/NotificationsDialog.tsx:64-68 | only the user's rows change, and only in is_read: false becomes true, while true and null are left as they are |
| Notifications.Latest | src/components/dialogs/NotificationsDialog.tsx:43-50 | the user's 20 newest notifications (all of them when there are fewer), newest first; no notification of the user that was left out is newer than one that was kept |
| Notifications.NotificationsDialog.constructor | src/components/dialogs/NotificationsDialog.tsx:34-35 | the list starts empty and loading false |
| Notifications.NotificationsDialog.FetchNotifications | src/components/dialogs/NotificationsDialog.tsx:43-57 | a successful read sets the list to the latest notifications; a failed one keeps it |
| Notifications.NotificationsDialog.MarkAllAsRead | src/components/dialogs/NotificationsDialog.tsx:59-79 | without a user nothing happens; a successful update changes the backend rows and marks every loaded entry read; a failed one changes neither |
| Notifications.NotificationsDialog.MarkAsRead | src/components/dialogs/NotificationsDialog.tsx:81-96 | a successful update marks the id read in the backend, whoever owns the row, and in the list; a failed one changes neither |
| Notifications.NotificationsDialog.Click | src/components/dialogs/NotificationsDialog.tsx:142 | clicking a read entry changes nothing; clicking an unread one marks its id |
| Messages.FirstOther | src/pages/Messages.tsx:129-131 | the first participant who is not the user, or none when there is no such participant |
| Messages.GroupShowsName | src/pages/Messages.tsx:127 | a group chat with a non-empty name is shown by that name |
| Messages.ChatNameFromOther | src/pages/Messages.tsx:126-136 | otherwise the name comes from the first participant other than the user: a non-empty display name first, else a non-empty username, else (also when there is no such participant) the text 'messages.unknownUser' |
| Messages.OwnEntryNeverNames | src/pages/Messages.tsx:129-135 | a chat whose only participant is the user shows 'messages.unknownUser', never the user's own name |
| Messages.LastMessageMeaning | src/pages/Messages.tsx:138-141 | the preview is the last message's content, or 'messages.noMessages' when there is no message or the last one is empty |
| Messages.ChatMessages | src/pages/Messages.tsx:87-103 | exactly the chat's messages, each as often as it is stored, oldest first |
| Messages.ByRecentUpdate | src/pages/Messages.tsx:76 | the same chats, most recently updated first |
| Messages.MessagesPage.constructor | src/pages/Messages.tsx:44-48 | no chats, no selection, no messages, an empty input, and loading true |
| Messages.MessagesPage.FetchChats | src/pages/Messages.tsx:64-85 | a successful read sets the chats, most recently updated first; loading ends false either way |
| Messages.MessagesPage.FetchMessages | src/pages/Messages.tsx:87-103 | a successful read sets the messages to the chat's messages, oldest first; a failed one keeps them |
| Messages.MessagesPage.SelectChat | src/pages/Messages.tsx:58-62 | selecting a non-empty chat id loads its messages |
| Messages.MessagesPage.SetNewMessage | src/pages/Messages.tsx:219 | the input becomes the typed text |
| Messages.MessagesPage.DeselectChat | src/pages/Messages.tsx:176 | the back button clears the selection, which disables sending |
| Messages.MessagesPage.SendMessage | src/pages/Messages.tsx:105-124 | nothing happens unless the input is not blank, a chat is selected, a user is signed in and the insert succeeds; then the untrimmed text is stored with the chat and sender, the input is cleared and the chat reloaded |
| Messages.SentMessageListed | src/pages/Messages.tsx:110-120 | a sent message appears in the reloaded chat |
| NewChat.Candidates | src/components/dialogs/NewChatDialog.tsx:43-56 | 20 profiles other than the user's (all of them when there are fewer), each taken from the others as often as it occurs there |
| NewChat.FilteredUsersMeaning | src/components/dialogs/NewChatDialog.tsx:118-121 | a user is shown exactly when the lower-cased query occurs in their lower-cased username or display name |
| NewChat.EmptyQueryKeepsNamed | src/components/dialogs/NewChatDialog.tsx:118-121 | with an empty query exactly the users having a username or a display name are shown |
| NewChat.NewChatRow | src/components/dialogs/NewChatDialog.tsx:87-94 | the new chat is not a group, has no name and is created by the user |
| NewChat.CreatedChatBlocksNext | src/components/dialogs/NewChatDialog.tsx:63-84 | once a direct chat exists, the next creation is refused whoever the partner is |
| NewChat.NewChatMembership | src/components/dialogs/NewChatDialog.tsx:99-104 | the fresh chat has exactly two members: the user, then the chosen user |
| NewChat.NewChatDialog.constructor | src/components/dialogs/NewChatDialog.tsx:33-35 | empty list, empty query, loading false |
| NewChat.NewChatDialog.FetchUsers | src/components/dialogs/NewChatDialog.tsx:43-56 | a successful read sets the candidates; a failed one keeps the list |
| NewChat.NewChatDialog.CreateDirectChat | src/components/dialogs/NewChatDialog.tsx:58-116 | no user: nothing; refused exactly when the lookup returned any non-group membership of the user; otherwise one chat row is inserted and, if the member insert succeeds, the two members, and the dialog closes; a failed member insert leaves the chat row |
| Wall.LikersOf | src/pages/Wall.tsx:42 | exactly the user ids of the post's like rows |
| Wall.PublicPosts | src/pages/Wall.tsx:44-45 | exactly the posts whose is_private is false, newest first |
| Wall.Feed | src/pages/Wall.tsx:35-54 | the public posts in that order, each with its likers |
| Wall.FeedIsPublic | src/pages/Wall.tsx:44-45 | the feed holds every public post and no other, newest first |
| Wall.IsLikedMeaning | src/pages/Wall.tsx:157 | a feed post is liked exactly when a like row for that post carries the user's id |
| Wall.Unliked | src/pages/Wall.tsx:83-87 | every like row of this post and user goes; every other row stays, as often as it occurred |
| Wall.Liked | src/pages/Wall.tsx:89-94 | exactly one like row for this post and user is added; every other row stays |
| Wall.LikeRoundTrip | src/pages/Wall.tsx:78-97 | after unliking the reloaded post is not liked (even after several likes); after liking it is; liking then unliking equals unliking |
| Wall.NewPost | src/pages/Wall.tsx:60-66 | the new post holds the untrimmed text, the user, and is_private false |
| Wall.CreatedPostListed | src/pages/Wall.tsx:56-72 | a created post appears in the reloaded feed |
| Wall.WallPage.constructor | src/pages/Wall.tsx:25-27 | no posts, an empty input, loading true |
| Wall.WallPage.FetchPosts | src/pages/Wall.tsx:35-54 | a successful read sets the feed; loading ends false either way |
| Wall.WallPage.SetNewPost | src/pages/Wall.tsx:130-135 | the input holds the typed text when it fits in 500 UTF-16 code units, otherwise its longest prefix that fits |
| Wall.WallPage.ToggleLike | src/pages/Wall.tsx:78-101 | without a user nothing; otherwise a liked post is unliked, an unliked one liked when the write takes effect, and the feed is reloaded whatever the write's outcome |
| Wall.WallPage.CreatePost | src/pages/Wall.tsx:56-76 | nothing happens unless the text is not blank, a user is signed in and the insert succeeds; then the post is appended, the input cleared and the feed reloaded |
| PhotoUpload.LastDot | src/components/dialogs/PhotoUploadDialog.tsx:53 | the position of a '.' with no '.' after it, or none when the name has no '.' |
| PhotoUpload.FileExt | src/components/dialogs/PhotoUploadDialog.tsx:53 | the extension has no '.'; it is the whole name when there is no '.', otherwise the name is some text, a '.', and the extension |
| PhotoUpload.FileExtOfJoin | src/components/dialogs/PhotoUploadDialog.tsx:53 | the extension of base + "." + ext is ext whenever ext has no '.' |
| PhotoUpload.ProfilePathFixed | src/components/dialogs/PhotoUploadDialog.tsx:54-60 | profile photos go to avatars with upsert, at a path that does not depend on the time; gallery photos go to media without upsert |
| PhotoUpload.GalleryPathTime | src/components/dialogs/PhotoUploadDialog.tsx:55 | a gallery path determines the time it was made at |
| PhotoUpload.GalleryPathsDiffer | src/components/dialogs/PhotoUploadDialog.tsx:55 | two gallery uploads by one user at different times never share a path |
| PhotoUpload.MediaRow | src/components/dialogs/PhotoUploadDialog.tsx:81-92 | the gallery record has the user, the public URL, media_type image, is_private false, and a null caption when none was typed |
| PhotoUpload.WithAvatar | src/components/dialogs/PhotoUploadDialog.tsx:70-78 | only the user's profile rows change, and only their avatar_url |
| PhotoUpload.PhotoUploadDialog.constructor | src/components/dialogs/PhotoUploadDialog.tsx:28-31 | no file, no caption, no preview, loading false |
| PhotoUpload.PhotoUploadDialog.SelectFile | src/components/dialogs/PhotoUploadDialog.tsx:33-45 | a picked file is kept with its preview; cancelling the picker changes nothing |
| PhotoUpload.PhotoUploadDialog.SetCaption | src/components/dialogs/PhotoUploadDialog.tsx:175 | the caption becomes the typed text |
| PhotoUpload.PhotoUploadDialog.Remove | src/components/dialogs/PhotoUploadDialog.tsx:135-138 | the file and preview are cleared and the caption kept |
| PhotoUpload.PhotoUploadDialog.UploadPhoto | src/components/dialogs/PhotoUploadDialog.tsx:47-108 | without a file or a user nothing happens; a successful upload stores the file under the derived bucket and path; when the record write also succeeds the profile's avatar or a new gallery record is written, the dialog closes and file, caption and preview reset; otherwise the form is kept |
| Language.T | src/hooks/useLanguage.tsx:167-169 | `t` returns the current language's entry when it is present and not empty, and the key itself when the key is absent |
| Language.NavEntries | src/hooks/useLanguage.tsx:13-23 | the English navigation entries and their Russian counterparts have the same keys, none empty, none of the undefined keys |
| Language.NavSectionAgrees | src/hooks/useLanguage.tsx:87-97 | the Russian navigation entries agree with the English ones |
| Language.DashboardEntries | src/hooks/useLanguage.tsx:24-36 | the dashboard entries have the same keys in both languages, none empty |
| Language.DashboardSectionAgrees | src/hooks/useLanguage.tsx:98-110 | the Russian dashboard entries agree with the English ones |
| Language.FriendsEntries | src/hooks/useLanguage.tsx:37-42 | the friends entries have the same keys in both languages, none empty |
| Language.FriendsSectionAgrees | src/hooks/useLanguage.tsx:111-116 | the Russian friends entries agree with the English ones |
| Language.MeetupsEntries | src/hooks/useLanguage.tsx:43-51 | the meetups entries have the same keys in both languages, none empty |
| Language.MeetupsSectionAgrees | src/hooks/useLanguage.tsx:117-125 | the Russian meetups entries agree with the English ones |
| Language.GalleryEntries | src/hooks/useLanguage.tsx:52-57 | the gallery entries have the same keys in both languages, none empty |
| Language.GallerySectionAgrees | src/hooks/useLanguage.tsx:126-131 | the Russian gallery entries agree with the English ones |
| Language.WallEntries | src/hooks/useLanguage.tsx:58-62 | the wall entries have the same keys in both languages, none empty |
| Language.WallSectionAgrees | src/hooks/useLanguage.tsx:132-136 | the Russian wall entries agree with the English ones |
| Language.MessagesEntries | src/hooks/useLanguage.tsx:63-68 | the messages entries have the same keys in both languages, none empty, and lack the two fallback keys |
| Language.MessagesSectionAgrees | src/hooks/useLanguage.tsx:137-142 | the Russian messages entries agree with the English ones |
| Language.ProfileEntries | src/hooks/useLanguage.tsx:69-75 | the profile entries have the same keys in both languages, none empty |
| Language.ProfileSectionAgrees | src/hooks/useLanguage.tsx:143-149 | the Russian profile entries agree with the English ones |
| Language.CommonEntries | src/hooks/useLanguage.tsx:76-84 | the common entries have the same keys in both languages, none empty |
| Language.CommonSectionAgrees | src/hooks/useLanguage.tsx:150-158 | the Russian common entries agree with the English ones |
| Language.SectionAgrees | src/hooks/useLanguage.tsx:11-160 | every section agrees between the two languages |
| Language.MergedAgrees | src/hooks/useLanguage.tsx:11-160 | merging agreeing sections keeps the same keys in both languages, no empty entry and no undefined key |
| Language.TablesAgree | src/hooks/useLanguage.tsx:11-160 | the English and Russian tables define the same keys, no entry is empty, and 'nav.map', 'messages.unknownUser' and 'messages.noMessages' are in neither |
| Language.FallbackAgrees | src/hooks/useLanguage.tsx:168 | for two agreeing tables a key falls back in one exactly when it falls back in the other, and exactly when it is missing |
| Language.FallbackIndependentOfLanguage | src/hooks/useLanguage.tsx:168 | switching language never changes whether a key falls back |
| Language.FallbackMeansMissing | src/hooks/useLanguage.tsx:168 | `t` falls back exactly on the keys the current table lacks |
| Language.UndefinedKeysShowThemselves | src/components/layout/DesktopNav.tsx:28 | 'nav.map' and the two message fallbacks show as the key text in either language |
| Language.Toggled | src/components/layout/Header.tsx:10-12 | the toggle always changes the language |
| Language.ToggleTwice | src/components/layout/Header.tsx:10-12 | two toggles restore the language |
| Language.LanguageProvider.constructor | src/hooks/useLanguage.tsx:165 | the language starts as English |
| Language.LanguageProvider.SetLanguage | src/hooks/useLanguage.tsx:165 | the language becomes the chosen one |
| Language.LanguageProvider.ToggleLanguage | src/components/layout/Header.tsx:10-12 | the language becomes the toggled one |

## Left out

- Backend client internals are not modelled: PostgREST filter syntax, row-level security, error codes and auth sessions. Every backend call is a success or failure parameter, and ids, timestamps and public URLs come in as parameters.
- The `PGRST116` case of `checkFriendStatus` is not a separate error. A lookup matching zero or several rows gives no row, and every other failure is `lookupOk = false`.
- Messages.MessagesPage.FetchChats: the chats come in as a parameter. The embedded-resource filter `.eq('chat_participants.user_id', …)` is not modelled, so the model does not state which chats a user sees.
- AddFriend.AddFriendDialog.FetchUsers: the database's collation of display names is the `rank` parameter.
- NewChat.Candidates: `.limit(20)` without `.order` returns rows in an unspecified order. The model takes table order.
- NewChat.NewChatDialog.FetchUsers: the dialog fetches whenever it opens, even without a signed-in user, and then filters on an undefined id. That read is not modelled: without a user the list stays as it was.
- Notifications.NotificationsDialog.FetchNotifications: the dialog reads only when a user is signed in, as the model does.
- Timestamps: `created_at` and `updated_at` are nullable in the database types, but the model takes them as never null and as integers. The backend's descending order puts null timestamps first, and Notifications.Latest, Wall.PublicPosts and Messages.ByRecentUpdate do not model that case.
- Wall.WallPage.SetNewPost: the prefix is cut between characters. The model does not say whether a browser may split a surrogate pair at the limit.
- CallDialog.ToggleTwice: the exact list is restored only when the id was not selected. When the id was selected and not last, it comes back at the end, so only the set is restored.
- Language.T: keys such as `constructor` that JavaScript finds on every object's prototype are not modelled.
- Validation: zod's `.email()` and `.url()` formats are predicate parameters. The model does not state whether `.trim()` runs before the length and pattern checks (it runs the checks on the raw input), nor the order of reported issues.
- Validation.ChainIssues: the reported issues carry the schema's messages but not zod's issue codes or paths.
- PhotoUpload.PhotoUploadDialog.UploadPhoto: a non-upsert upload onto an existing path fails in the storage service. That failure is part of the `uploadOk` parameter, not derived from the stored objects.
- PhotoUpload.PhotoUploadDialog.SelectFile: the preview's data URL is a parameter. The file reader's asynchrony is not modelled.
- AddFriend.AddFriendDialog.SendEmailInvite: the invitation is only logged. The unused profile read and the message text are not modelled.
- CreateMeetup.Wizard.Submit: the form is only logged. The model returns the route it navigates to.
- Not modelled: toasts, console output, navigation, callbacks to the parent (`onChatCreated`, `onPhotoUploaded`), React effects and their ordering, concurrent users, and stale `isLiked` values.
- Also not modelled: the map pages (floating point, geolocation, map rendering), the pages that render mock data, Settings, Auth and the UI shells.
