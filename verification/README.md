# Linkwarden decision logic, modelled in Dafny

Linkwarden is a self-hosted bookmark manager. It saves a link, preserves the
target page in several formats (screenshot, PDF, single-file "monolith" HTML,
readable text), and shares links through collections with per-member
permissions. This project models the decision logic around that:

- **The link-details panel**, in both of its versions
  (`apps/web/components/LinkDetails.tsx` and the older
  `components/LinkDetails.tsx`). It covers:
  - how the collection owner's archive preferences are resolved;
  - when a link counts as ready (`isReady`);
  - which banner, preview and format row is shown;
  - the Wayback Machine link with the protocol stripped;
  - who sees the refresh and edit controls;
  - the edit handlers (`submit`, `setCollection`, `setTags`, the icon popover and the banner upload);
  - the older panel's 5-second polling timer.

  The two versions share one module, `LinkDetails`. Their differences live in
  `LinkDetailsApp` (web panel) and `LinkDetailsRoot` (older panel).
- **The account-settings update** (`updateUserById`), in module `UpdateUser`.
  It covers:
  - the ordered chain of 400 answers;
  - the avatar file;
  - the email-change verification;
  - the password rules and the invited-user rules;
  - the fields written (de-duplicated collection order, locale fallback, write-once referral, password hash);
  - the whitelist synchronisation, written as the source's delete-then-create loop.
- **The deprecated link-listing query** (`getLinks`), in module `LinkQuery`.
  The `findMany` arguments are built as a filter tree. An evaluator over link
  rows then proves what every such query admits.
- **Collective permissions** (`useCollectivePermissions`), in module
  `Permissions`. A loop over collection ids overwrites the permission on every
  id that matches a collection. It is proved equal to a fold, and the fold is
  proved to give the last matching collection's permission.
- **The new RSS subscription dialog** (`NewRssSubscriptionModal`), in module
  `RssModal`. It is a small state machine over the form and the
  `submitLoader` flag.

JavaScript values are modelled explicitly (module `Js`):

- `null` and `undefined` are `None`.
- A string is truthy when present and non-empty. A number is truthy when present and non-zero.
- `=== true` is `IsTrue`.
- `toLowerCase` and `trim` cover ASCII letters and the ASCII, no-break and byte-order-mark spaces.
- `.length` counts UTF-16 code units (`JsLength`), so a character beyond the Basic Multilingual Plane counts twice.

Calls into code outside the core become parameters:

- `formatAvailable` and `atLeastOneFormatAvailable`;
- `getPublicUserData`;
- the settlement of React Query mutations (`Settled`);
- bcrypt's `compareSync` and `hashSync`;
- the zod validation result (`Parsed`);
- the Prisma conflict lookup;
- the clock behind `Date.now()`.

React state and database tables become classes whose methods change their
fields:

- `LinkDetailsState`, `Poller`, `CollectivePermissions`, `NewRssSubscriptionModal`;
- `AccountStore`, whose `users`, `files`, `whitelist` and `emailRequests` stand for the database, the upload folder and the outgoing mail.

The readiness rule of the panel (`isReady`) works as follows:

- it always needs the readable text;
- the screenshot preference waits for the PDF (`link.pdf`), not for the screenshot image;
- for the viewer's own collection, the monolith preference is copied from the screenshot preference.

So in the viewer's own collection, a link with the screenshot preference
becomes ready only once its PDF, its monolith copy and its readable text exist,
and the screenshot image itself never matters
(`LinkDetails.OwnScreenshotNeedsPdfAndMonolith`,
`LinkDetails.ReadinessIgnoresScreenshot`).

## Model

| member | source | states |
|---|---|---|
| `Js.Lower` | apps/web/lib/api/controllers/users/userId/updateUserById.ts:50-56 | lower-casing keeps the length and maps each character on its own |
| `Js.TrimEmptyIffBlank` | apps/web/lib/api/controllers/users/userId/updateUserById.ts:255-258 | `trim()` yields "" exactly when every character is white space |
| `Js.NatToDecimal` | apps/web/lib/api/controllers/users/userId/updateUserById.ts:81 | the rendering is a non-empty string of digits with no leading zero, and the digits denote the number |
| `Js.NatToDecimalInjective` | apps/web/lib/api/controllers/users/userId/updateUserById.ts:81 | different numbers render differently |
| `Js.IntToDecimal` | apps/web/lib/api/controllers/users/userId/updateUserById.ts:81 | a non-negative id renders as its digits; a negative one as "-" followed by the digits of its magnitude |
| `Js.IntToDecimalInjective` | apps/web/lib/api/controllers/users/userId/updateUserById.ts:81 | different ids render differently |
| `Js.JsLength` | apps/web/lib/api/controllers/users/userId/updateUserById.ts:73 | `.length` counts UTF-16 code units: between the number of characters and twice it, 0 only for "", and the character count when every character is in the Basic Multilingual Plane |
| `Permissions.FindCollection` | apps/web/hooks/useCollectivePermissions.ts:14 | a found collection is in the list with the requested id; nothing is found iff no collection has that id |
| `Permissions.FindMember` | apps/web/hooks/useCollectivePermissions.ts:17-19 | a found member belongs to the collection and is the signed-in user; nothing is found iff there is no user or no member with that id |
| `Permissions.PermissionFor` | apps/web/hooks/useCollectivePermissions.ts:17-28 | the owner gets full access and nobody else does; member access is only ever the user's own membership with at least one right; a non-owner without access has no membership or one with all three rights false |
| `Permissions.Step` | apps/web/hooks/useCollectivePermissions.ts:14-29 | an id naming no loaded collection leaves the value; one naming a collection sets that collection's permission |
| `Permissions.Resolved` | apps/web/hooks/useCollectivePermissions.ts:13-30 | the value after the loop is the prior one or the permission of a collection some id names |
| `Permissions.NoMatchKeepsPrior` | apps/web/hooks/useCollectivePermissions.ts:13-16 | ids that match no loaded collection leave the permission unchanged |
| `Permissions.UnmatchedSuffixKeeps` | apps/web/hooks/useCollectivePermissions.ts:13-30 | unmatched ids after the last match do not change the outcome |
| `Permissions.LastMatchWins` | apps/web/hooks/useCollectivePermissions.ts:13-30 | the loop's outcome is the permission for the last id that matches a collection |
| `Permissions.CollectivePermissions.constructor` | apps/web/hooks/useCollectivePermissions.ts:11 | the state starts without a permission |
| `Permissions.CollectivePermissions.RunEffect` | apps/web/hooks/useCollectivePermissions.ts:12-31 | the for loop leaves the state equal to the fold `Resolved` of its prior value over the ids |
| `LinkDetails.ResolveOwner` | apps/web/components/LinkDetails.tsx:83-104 | another user's collection takes the fetched public data; the viewer's own takes the viewer's preferences, with the monolith preference copied from the screenshot one |
| `LinkDetails.RequiredFormats` | apps/web/components/LinkDetails.tsx:106-114 | readable text is always required; the PDF iff the screenshot or PDF preference is exactly true; the monolith iff its preference is; the screenshot never |
| `LinkDetails.IsReady` | apps/web/components/LinkDetails.tsx:106-114 | `isReady` holds exactly when every required format is stored |
| `LinkDetails.NotReadyWithoutReadable` | apps/web/components/LinkDetails.tsx:112 | without readable text a link is never ready |
| `LinkDetails.ReadinessIgnoresScreenshot` | apps/web/components/LinkDetails.tsx:109 | the stored screenshot does not affect readiness |
| `LinkDetails.OwnMonolithPreferenceIgnored` | apps/web/components/LinkDetails.tsx:97 | in the viewer's own collection, the viewer's monolith preference does not affect readiness |
| `LinkDetails.OwnScreenshotNeedsPdfAndMonolith` | apps/web/components/LinkDetails.tsx:96-113 | in the viewer's own collection with screenshots on, ready iff PDF, monolith and readable text are stored |
| `LinkDetails.PreviewAreaFor` | apps/web/components/LinkDetails.tsx:176-195 | the preview image iff a preview is available; else a blank block iff the preview is marked "unavailable"; else a skeleton |
| `LinkDetails.ShowEditControls` | apps/web/components/LinkDetails.tsx:197-199 | banner upload and icon editing appear iff not standalone, the user may update and the route is not public |
| `LinkDetails.EditedIffOtherFieldsDiffer` | apps/web/components/LinkDetails.tsx:122-127 | a copy that differs from the original only in `updatedAt` is no edit |
| `LinkDetails.Edited` | apps/web/components/LinkDetails.tsx:122-127 | the copy counts as edited exactly when it differs from the original in a field other than `updatedAt`; an edited copy differs from the original |
| `LinkDetails.SaveButtonAgainstSubmit` | apps/web/components/LinkDetails.tsx:649 | a disabled save button implies `submit` sends nothing; the button is enabled for a no-op submit exactly when only `updatedAt` differs |
| `LinkDetails.CollectionFromOption` | apps/web/components/LinkDetails.tsx:146-152 | the chosen collection's name and owner are kept; a newly created option loses its id; clearing the picker clears all three |
| `LinkDetails.TagsFromSelection` | apps/web/components/LinkDetails.tsx:154-157 | one id-less tag per selected label, in order |
| `LinkDetails.MergeUploadTimestamp` | apps/web/components/LinkDetails.tsx:229 | the link's own `updatedAt`, when present, wins over the server's new one |
| `LinkDetails.LinkDetailsState.constructor` | apps/web/components/LinkDetails.tsx:58-81 | the edited copy starts as the given link, the owner state empty, the popover closed |
| `LinkDetails.LinkDetailsState.SetActiveLink` | apps/web/components/LinkDetails.tsx:61-63 | a new `activeLink` resets the edited copy |
| `LinkDetails.LinkDetailsState.FetchOwner` | apps/web/components/LinkDetails.tsx:83-104 | the owner state becomes the resolved owner |
| `LinkDetails.LinkDetailsState.Submit` | apps/web/components/LinkDetails.tsx:119-144 | an update is sent iff the copy is edited; on success the copy becomes the server's link and the mode returns to view when a `setMode` was passed; on failure nothing changes |
| `LinkDetails.LinkDetailsState.SetCollection` | apps/web/components/LinkDetails.tsx:146-152 | only the collection of the copy changes |
| `LinkDetails.LinkDetailsState.SetTags` | apps/web/components/LinkDetails.tsx:154-157 | only the tags of the copy change |
| `LinkDetails.LinkDetailsState.OnBannerUploaded` | apps/web/components/LinkDetails.tsx:222-231 | a failed upload changes nothing; a successful one merges the timestamp |
| `LinkDetails.LinkDetailsState.OpenIconPopover` | apps/web/components/LinkDetails.tsx:253 | the popover opens |
| `LinkDetails.LinkDetailsState.SetColor` | apps/web/components/LinkDetails.tsx:265 | only the colour changes |
| `LinkDetails.LinkDetailsState.SetIconWeight` | apps/web/components/LinkDetails.tsx:267-269 | only the icon weight changes |
| `LinkDetails.LinkDetailsState.SetIconName` | apps/web/components/LinkDetails.tsx:271 | only the icon changes |
| `LinkDetails.LinkDetailsState.ResetIcon` | apps/web/components/LinkDetails.tsx:272-279 | colour, icon and weight become "" |
| `LinkDetails.LinkDetailsState.CloseIconPopover` | apps/web/components/LinkDetails.tsx:281-284 | the popover closes and the edited link is submitted: sent iff edited, on success the copy takes the answer and the panel returns to view mode when it can |
| `LinkDetailsApp.StatusBanner` | apps/web/components/LinkDetails.tsx:479-604 | edit mode shows no banner; in view mode "in queue" iff not ready and no format at all, "more formats coming" iff the link has a url, is not ready and has some format; a ready link shows no banner |
| `LinkDetailsApp.NoteLinkShowsNoProgress` | apps/web/components/LinkDetails.tsx:588-590 | in view mode, a url-less link with some format shows no banner even when not ready |
| `LinkDetailsApp.ScreenshotFormat` | apps/web/components/LinkDetails.tsx:534-538 | png iff the stored name ends in "png", otherwise jpeg |
| `LinkDetailsApp.WordRunLength` | apps/web/components/LinkDetails.tsx:608-610 | the `\w+` run at the start is maximal |
| `LinkDetailsApp.StripProtocol` | apps/web/components/LinkDetails.tsx:608-611 | the replacement only removes a prefix: the result is a suffix of the url |
| `LinkDetailsApp.StripRemovesProtocol` | apps/web/components/LinkDetails.tsx:606-611 | a leading `scheme://` or `//` is removed and the rest kept unchanged |
| `LinkDetailsApp.StripKeepsUnprefixed` | apps/web/components/LinkDetails.tsx:606-611 | a url without such a prefix is kept unchanged |
| `LinkDetailsApp.WaybackHref` | apps/web/components/LinkDetails.tsx:479-620 | the snapshot link exists iff the panel is in view mode and the link has a url, and points into the Wayback Machine |
| `LinkDetailsApp.WaybackDropsScheme` | apps/web/components/LinkDetails.tsx:606-611 | the snapshot link of `scheme://rest` is the Wayback prefix followed by `rest` |
| `LinkDetailsApp.ShowRefreshButton` | apps/web/components/LinkDetails.tsx:479-494 | refresh is offered iff the panel is in view mode and there is a handler, update permission, a private route and a url |
| `LinkDetailsRoot.ShowRefreshButton` | components/LinkDetails.tsx:359-374 | refresh is offered iff the panel is in view mode on a narrow window and there is a handler, a link of type "url", update permission and a private route |
| `LinkDetailsRoot.Poller.constructor` | components/LinkDetails.tsx:117 | no timer runs and nothing was refetched |
| `LinkDetailsRoot.Poller.RunEffect` | components/LinkDetails.tsx:110-136 | the link is refetched once; a new 5000 ms interval starts iff the link is not ready |
| `LinkDetailsRoot.Poller.Cleanup` | components/LinkDetails.tsx:131-135 | the cleanup clears exactly the interval the effect started |
| `LinkDetailsRoot.Poller.EffectThenCleanup` | components/LinkDetails.tsx:110-136 | an effect run followed by its cleanup leaves no timer behind |
| `LinkQuery.OrderFor` | apps/web/lib/api/controllers/links/getLinks.ts:15-19 | oldest-first is id ascending, A-Z name ascending, Z-A name descending, anything else id descending |
| `LinkQuery.PageSize` | apps/web/lib/api/controllers/links/getLinks.ts:94 | a truthy configured page size is used, otherwise 50 |
| `LinkQuery.SearchConditions` | apps/web/lib/api/controllers/links/getLinks.ts:21-69 | exactly four conditions (name, url, description, visible tag name) with a search string, none without |
| `LinkQuery.SearchGroup` | apps/web/lib/api/controllers/links/getLinks.ts:112-124 | the pinned leaf comes first and the search conditions follow it; they are joined by OR when there is a search string, by AND otherwise |
| `LinkQuery.WhereFor` | apps/web/lib/api/controllers/links/getLinks.ts:97-128 | the `where` tree is an AND of the access condition, the collection condition if any, and the OR of the tag conditions with the search group |
| `LinkQuery.GetLinks` | apps/web/lib/api/controllers/links/getLinks.ts:4-141 | the deprecation switch answers 400 and builds no query; otherwise the page size, the cursor with its skip, the `where` tree and the sort order are those of the request |
| `LinkQuery.SortOrder` | apps/web/lib/api/controllers/links/getLinks.ts:15-19 | the reassigned `order` is the order `OrderFor` gives for the requested sort |
| `LinkQuery.PushSearchConditions` | apps/web/lib/api/controllers/links/getLinks.ts:21-69 | the pushed search conditions are exactly `SearchConditions` |
| `LinkQuery.BuildFindMany` | apps/web/lib/api/controllers/links/getLinks.ts:4-138 | the step-by-step builder produces exactly the arguments `GetLinks` describes |
| `LinkQuery.ResultsAreAccessible` | apps/web/lib/api/controllers/links/getLinks.ts:97-110 | every admitted link lies in a collection the user owns or is a member of |
| `LinkQuery.ResultsInRequestedCollection` | apps/web/lib/api/controllers/links/getLinks.ts:83-111 | with a collection id, every admitted link is in that collection |
| `LinkQuery.AlternativesHold` | apps/web/lib/api/controllers/links/getLinks.ts:112-126 | an admitted link satisfies the tag-or-search alternatives |
| `LinkQuery.PinnedOnlyAdmitsPinned` | apps/web/lib/api/controllers/links/getLinks.ts:116-121 | pinned-only without search or tag admits only links the user pinned |
| `LinkQuery.SearchAdmitsOnlyMatches` | apps/web/lib/api/controllers/links/getLinks.ts:21-69 | past the pinned leaf, a search admits a link only through the tag id, its name, url, description or a tag visible to the user |
| `LinkQuery.SearchGroupMatches` | apps/web/lib/api/controllers/links/getLinks.ts:21-69 | a search group whose pinned leaf fails holds only through the name, url, description or a visible tag's name |
| `RssModal.InitialFormIncomplete` | apps/web/components/ModalContent/NewRssSubscriptionModal.tsx:20-36 | the initial form never passes the submit guard |
| `RssModal.WithCollection` | apps/web/components/ModalContent/NewRssSubscriptionModal.tsx:97-104 | the picker sets the collection name; a new collection gets no id; clearing unsets both |
| `RssModal.NewCollectionSatisfiesGuard` | apps/web/components/ModalContent/NewRssSubscriptionModal.tsx:30-34 | a named new collection satisfies the collection part of the guard |
| `RssModal.NewRssSubscriptionModal.constructor` | apps/web/components/ModalContent/NewRssSubscriptionModal.tsx:18-25 | an empty form with collection id 0 and no submit in flight |
| `RssModal.NewRssSubscriptionModal.SetUrl` | apps/web/components/ModalContent/NewRssSubscriptionModal.tsx:78 | only the url changes |
| `RssModal.NewRssSubscriptionModal.SetName` | apps/web/components/ModalContent/NewRssSubscriptionModal.tsx:90 | only the name changes |
| `RssModal.NewRssSubscriptionModal.OnCollectionChange` | apps/web/components/ModalContent/NewRssSubscriptionModal.tsx:97-104 | the form takes the picker's collection |
| `RssModal.NewRssSubscriptionModal.Submit` | apps/web/components/ModalContent/NewRssSubscriptionModal.tsx:27-42 | ignored while a submit is in flight; an incomplete form shows an error; otherwise the flag is set and the form sent |
| `RssModal.NewRssSubscriptionModal.Settle` | apps/web/components/ModalContent/NewRssSubscriptionModal.tsx:43-53 | the flag drops either way; an error is shown on failure, the dialog closes on success |
| `RssModal.NewRssSubscriptionModal.DoubleSubmit` | apps/web/components/ModalContent/NewRssSubscriptionModal.tsx:27-38 | a second press while the first is in flight sends nothing |
| `UpdateUser.ValidationMessage` | apps/web/lib/api/controllers/users/userId/updateUserById.ts:16-25 | the 400 answer is "Error: ", the first issue's message, and its path joined with ", " in brackets |
| `UpdateUser.Join` | apps/web/lib/api/controllers/users/userId/updateUserById.ts:22 | no parts join to "", one part to itself, and the result starts with the first part |
| `UpdateUser.JoinAppend` | apps/web/lib/api/controllers/users/userId/updateUserById.ts:22 | joining one more part appends the separator and that part |
| `UpdateUser.ConflictLookup` | apps/web/lib/api/controllers/users/userId/updateUserById.ts:29-47 | another user with the lower-cased username, or also the lower-cased email when email is configured |
| `UpdateUser.LookupExcludesRequester` | apps/web/lib/api/controllers/users/userId/updateUserById.ts:31 | the requesting user never conflicts with itself |
| `UpdateUser.LookupByUsernameOnly` | apps/web/lib/api/controllers/users/userId/updateUserById.ts:32-45 | without email configured, a conflict is exactly another user holding the lower-cased username |
| `UpdateUser.LookupFindsEmail` | apps/web/lib/api/controllers/users/userId/updateUserById.ts:32-42 | with email configured, another user holding the lower-cased email conflicts |
| `UpdateUser.ConflictMessage` | apps/web/lib/api/controllers/users/userId/updateUserById.ts:49-67 | "Email is taken." iff the trimmed emails match, else "Username is taken." iff the trimmed usernames match, else the combined message |
| `UpdateUser.AbsentEmailsReportEmailTaken` | apps/web/lib/api/controllers/users/userId/updateUserById.ts:50 | two absent emails compare equal, so such a conflict names the email |
| `UpdateUser.AvatarActionFor` | apps/web/lib/api/controllers/users/userId/updateUserById.ts:71-96 | a jpeg data url under 1572864 UTF-16 code units is saved without its prefix, any image of that length or more is refused, an empty image removes the file |
| `UpdateUser.AvatarPath` | apps/web/lib/api/controllers/users/userId/updateUserById.ts:81 | the avatar file lies under `uploads/avatar/` and ends in `.jpg` |
| `UpdateUser.AvatarPathsDistinct` | apps/web/lib/api/controllers/users/userId/updateUserById.ts:81 | different users never share an avatar file |
| `UpdateUser.ApplyAvatar` | apps/web/lib/api/controllers/users/userId/updateUserById.ts:78-95 | saving writes `uploads/avatar/<id>.jpg`, removing deletes it, otherwise files are unchanged |
| `UpdateUser.EmailStepFor` | apps/web/lib/api/controllers/users/userId/updateUserById.ts:100-135 | an email change is checked iff both emails are set and differ; it is refused for a missing password, a user without password or a wrong password, in that order, and verified when the password matches; the mail greets the trimmed new name, else the stored name, else "Linkwarden User" |
| `UpdateUser.PasswordError` | apps/web/lib/api/controllers/users/userId/updateUserById.ts:139-166 | no password fields means no error; otherwise the first failing check answers: both fields, a stored password, the old password matching, at least 8 UTF-16 code units, a new password different from the old; passing them all means no error |
| `UpdateUser.InvitedCannotChangePassword` | apps/web/lib/api/controllers/users/userId/updateUserById.ts:145-150 | an invited user has no stored password, so a password change is refused with the no-password message |
| `UpdateUser.StoredImage` | apps/web/lib/api/controllers/users/userId/updateUserById.ts:193-198 | a remote url is kept, another image becomes the avatar path, no image becomes "" |
| `UpdateUser.LocaleFor` | apps/web/lib/api/controllers/users/userId/updateUserById.ts:205 | a supported locale is kept, anything else falls back to "en" |
| `UpdateUser.ReferredByWrite` | apps/web/lib/api/controllers/users/userId/updateUserById.ts:213-214 | the referral is written iff none is stored and one is given |
| `UpdateUser.PasswordWrite` | apps/web/lib/api/controllers/users/userId/updateUserById.ts:179-183 | a hash is written iff the user is invited or gives a new password, of the new password when there is one |
| `UpdateUser.IndexOf` | apps/web/lib/api/controllers/users/userId/updateUserById.ts:199-201 | the first position of the value, or -1 when absent |
| `UpdateUser.KeepFirstFrom` | apps/web/lib/api/controllers/users/userId/updateUserById.ts:199-201 | a value kept from position `k` on occurs there and not before `k` |
| `UpdateUser.DedupCollectionOrder` | apps/web/lib/api/controllers/users/userId/updateUserById.ts:199-201 | the de-duplicated order keeps each id at its first occurrence, in order, has no repeats and holds the same ids |
| `UpdateUser.CollectionOrderDeduplicated` | apps/web/lib/api/controllers/users/userId/updateUserById.ts:199-201 | filtering from the start is the walk that keeps first occurrences, has no repeats and keeps the same ids |
| `UpdateUser.InvitedWithoutPasswordStoresEmptyHash` | apps/web/lib/api/controllers/users/userId/updateUserById.ts:170-183 | an invited user sending no password gets the hash of "" stored |
| `UpdateUser.BuildUpdate` | apps/web/lib/api/controllers/users/userId/updateUserById.ts:185-219 | the written fields are the derived image, de-duplicated order, locale, referral and password; name, username, privacy and archive preferences are copied from the request |
| `UpdateUser.ApplyUpdate` | apps/web/lib/api/controllers/users/userId/updateUserById.ts:185-219 | username and image are written; name, privacy, collection order, locale, referral and password change when given and keep their stored value otherwise; the archive preferences go through `ApplyPrefs`; id, email and subscription stay |
| `UpdateUser.ApplyPrefs` | apps/web/lib/api/controllers/users/userId/updateUserById.ts:206-210 | each given archive flag replaces the stored one, each absent flag leaves it |
| `UpdateUser.ApplyUpdateIdempotent` | apps/web/lib/api/controllers/users/userId/updateUserById.ts:185-219 | applying the same update twice changes nothing more |
| `UpdateUser.ReferralWrittenOnce` | apps/web/lib/api/controllers/users/userId/updateUserById.ts:213-214 | a stored referral is never overwritten |
| `UpdateUser.Decide` | apps/web/lib/api/controllers/users/userId/updateUserById.ts:16-219 | the checks run in source order and the first failure answers: validation, conflict, avatar size, email password, password change, invited password; the avatar action and the email request of the checks already passed stay; passing all writes the built update, or finds no user |
| `UpdateUser.AvatarSavedDespiteLaterRefusal` | apps/web/lib/api/controllers/users/userId/updateUserById.ts:71-166 | a saved avatar stays saved when a later email or password check refuses |
| `UpdateUser.NamesToDelete` | apps/web/lib/api/controllers/users/userId/updateUserById.ts:250-252 | the current names that are not requested |
| `UpdateUser.NamesToCreate` | apps/web/lib/api/controllers/users/userId/updateUserById.ts:255-258 | the requested names that are new and not blank |
| `UpdateUser.RowsFor` | apps/web/lib/api/controllers/users/userId/updateUserById.ts:271-278 | one row per name for this user, in order |
| `UpdateUser.DeleteRowsNames` | apps/web/lib/api/controllers/users/userId/updateUserById.ts:261-268 | deletion removes exactly the listed names of this user and no other user's row |
| `UpdateUser.SyncedRows` | apps/web/lib/api/controllers/users/userId/updateUserById.ts:241-278 | afterwards the user's whitelist holds exactly the requested names that were stored or are not blank; other users' rows are untouched |
| `UpdateUser.SyncedIsRequestedWithoutBlanks` | apps/web/lib/api/controllers/users/userId/updateUserById.ts:241-278 | with no blank name stored, the result is the requested list without blank names |
| `UpdateUser.ResponseImage` | apps/web/lib/api/controllers/users/userId/updateUserById.ts:283 | a stored image gets `?` and the digits of the clock reading appended; no image gives "" |
| `UpdateUser.AccountView` | apps/web/lib/api/controllers/users/userId/updateUserById.ts:232-239 | the answer drops the password and cache-busts the image, every other column as stored |
| `UpdateUser.AccountStore.SyncWhitelist` | apps/web/lib/api/controllers/users/userId/updateUserById.ts:241-278 | the delete-then-create loop ends at the synced rows, with the whitelist property above |
| `UpdateUser.AccountStore.ActOnAvatar` | apps/web/lib/api/controllers/users/userId/updateUserById.ts:71-96 | the upload folder changes as `ApplyAvatar` says: the avatar file is written, removed or left |
| `UpdateUser.AccountStore.Commit` | apps/web/lib/api/controllers/users/userId/updateUserById.ts:185-283 | the user row takes the update, the whitelist is synchronised, and the 200 answer shows the stored user with the requested whitelist |
| `UpdateUser.AccountStore.UpdateUserById` | apps/web/lib/api/controllers/users/userId/updateUserById.ts:12-298 | files, mail, users and whitelist change as `Decide` says; a refusal answers 400, a missing user throws, a write answers 200 with the stored user and the requested whitelist |

## Left out

- Rendering, translations, toasts, tooltips, CSS classes and the date formatting of "saved at" are not modelled. They decide nothing the model states.
- The name, url and description text inputs of the panel (`setLink({...link, name})` and the like) are plain field updates and are not modelled separately.
- The older panel's popover geometry (`iconPopoverPosition`) and window width are layout. The `Preservation` component it renders is not part of this model.
- `formatAvailable`, `atLeastOneFormatAvailable`, `getPublicUserData` and `usePermissions` are not part of this model. Their answers are parameters.
- The option object's mutation (`e.value = null` / `undefined`) is modelled by its effect on the stored collection, not as aliasing of the caller's object.
- `setInterval` timing is not modelled; only the start and clear decisions are. The model does not capture repeated refetches or the effect re-running on `link.monolith`. `mutateAsync` settlement is a parameter, and the interleaving of concurrent settlements is not modelled.
- `JSON.stringify` comparison is modelled as structural equality. Key order and values that serialise alike (`undefined` keys) are not distinguished.
- Prisma execution is not modelled; only the arguments built for it are. The `pinnedBy: undefined` leaf is an opaque boolean (`undefinedLeaf`), whose ORM meaning is not asserted.
- `LinkQuery.TextMatches`: case-insensitive matching lower-cases ASCII only. It does not model PostgreSQL's collation or Unicode.
- `Js.Lower`, `Js.Trim`: ASCII letters only, and the ASCII, no-break and byte-order-mark spaces only. Unicode case mapping and other white space are not modelled.
- `LinkDetailsApp.ScreenshotFormat`: only the format of the screenshot row is stated. Whether the row appears (view mode and `formatAvailable`) is not modelled.
- `LinkQuery.PageSize`: `Number(PAGINATION_TAKE_COUNT)` is an integer or NaN (`None`). Fractional and negative strings are not modelled.
- bcrypt hashing and comparison, the zod schema, `sendChangeEmailVerificationRequest` and the filesystem calls are not part of this model. They are parameters, or recorded effects (`files`, `emailRequests`).
- The avatar write's `try`/`catch` (a failed write is only logged) and `createFolder` are not modelled: the write is assumed to succeed.
- The AI-tagging, `linksRouteTo` and `preventDuplicateLinks` columns pass through the update unchanged and are left out of `UserUpdate`. So are the `subscription`, `parentSubscription` and `dashboardSections` parts of the answer.
- The `Date.now()` reading behind the answer's image is a parameter `now` of `UpdateUser.ResponseImage`.
- `pages/settings/worker.tsx` renders a settings page and holds no decision logic; it is not part of this model.
