# Banana Splits front-end stores, in Dafny

This project models the state logic of the Banana Splits web front end. The
centre is the revenue-split store, `useSplitStore`, which holds three things:

- the "Create Split" form: a name, a start date, the creator's percentage and
  a list of members;
- the list of committed splits;
- the detail drawer, with an edit draft forked from the selected split.

The model also covers the three components that drive that store and supply
the allocation rule the store never checks itself (a split adds up to 100%,
every percentage lies in [0, 100], a split has a name):

- the "Create Split" modal;
- the split detail drawer;
- the "My Splits" page.

Five smaller stores are modelled with it:

- the team member list;
- the wallet cards, with their rotating colours;
- the transaction filter;
- the admin user filter (search, status and role);
- the signup step counter.

Each zustand store is a Dafny `class` with one field per store field. Each
action is a method whose `modifies` clause names exactly the fields the
action's `set` call writes, so every contract also says what does not change.

Derived values are pure functions, and the properties are lemmas about them:

- totals;
- `filter` and `map` over the member lists;
- the "+k more" preview and the counters;
- the percentage-text normalisation;
- `getInitials`.

The split store's class carries `Sound()`, the allocation rule as the
components maintain it. Each store method states under which condition on
its arguments it keeps `Sound()`. Each component handler states that it
keeps `Sound()` unconditionally, because it supplies that condition itself.

Modules, one per source file plus shared pieces:

| module | file | models |
|---|---|---|
| `Wrappers` | wrappers.dfy | `Option` |
| `Seqs` | seqs.dfy | `Array.prototype.filter` and order-preserving subsequences |
| `Text` | text.dfy | ASCII `toLowerCase`/`toUpperCase`, `trim`, `includes` |
| `Types` | types.dfy | `User`, `Transaction`, `Split`, `SplitMember` and their enums from `src/types/types.ts` |
| `Ints` | ints.dfy | `Math.min` and `Math.max` |
| `Percent` | percent.dfy | the percentage input normalisation both components share |
| `SplitStore` | split_store.dfy | `src/features/user/stores/splitStore.ts` |
| `CreateSplitModal` | create_split_modal.dfy | `src/features/user/components/CreateSplitModal.tsx` |
| `SplitDetailDrawer` | split_detail_drawer.dfy | `src/features/user/components/SplitDetailDrawer.tsx` |
| `UserSplits` | user_splits.dfy | `src/features/user/pages/UserSplits.tsx` |
| `TeamStore` | team_store.dfy | `src/features/user/stores/teamStore.ts` |
| `WalletStore` | wallet_store.dfy | `src/features/user/stores/walletStore.ts` |
| `TransactionStore` | transaction_store.dfy | `src/features/user/stores/transactionStore.ts` |
| `AdminUsersStore` | admin_users_store.dfy | `src/features/admin/stores/adminUsersStore.ts` |
| `SignupStore` | signup_store.dfy | `src/features/auth/stores/signupStore.ts` |

Ids made from `Date.now()` and today's date are method parameters. Ids are
never assumed to be unique: two `addMember` calls in the same millisecond
give two members with one id, and `removeMember` then removes both
(`SplitStore.AddThenRemoveCollision`).

Cancelling an edit in the drawer only calls `setEditMode(false)`. The edit
draft is kept, and pressing "Edit split" again shows it as it was left
(`SplitDetailDrawer.Cancel`, `SplitDetailDrawer.StartEdit`).

## Model

| member | source | states |
|---|---|---|
| `Seqs.Filter` | src/features/user/stores/teamStore.ts:22 | `filter` never lengthens a list, and every element it keeps passes the test |
| `Seqs.FilterIsSubsequence` | src/features/user/stores/teamStore.ts:22 | `filter` keeps the surviving elements in their original order |
| `Seqs.FilterMembership` | src/features/user/stores/teamStore.ts:22 | an element is in the filtered list exactly when it is in the list and passes the test |
| `Seqs.FilterAppend` | src/features/user/stores/splitStore.ts:73 | filtering a concatenation is the concatenation of the filtered parts |
| `Seqs.FilterKeepsAll` | src/features/user/stores/splitStore.ts:73 | a test every element passes returns the list unchanged |
| `Seqs.FilterDropsAll` | src/features/admin/stores/adminUsersStore.ts:38-50 | a test no element passes returns the empty list |
| `Seqs.FilterDisjoint` | src/features/user/stores/teamStore.ts:42-48 | two tests that never both hold select at most the list's length between them |
| `Seqs.FilterPartition` | src/features/user/pages/UserSplits.tsx:41-53 | two tests of which exactly one holds for each element select exactly the list's length between them |
| `Seqs.FilterMultiplicity` | src/features/admin/stores/adminUsersStore.ts:38-50 | a filter keeps every copy of an element that passes and no copy of one that fails |
| `Seqs.IsSubsequenceReflexive` | src/features/user/stores/transactionStore.ts:27 | a list is an order-preserving subsequence of itself |
| `Seqs.WithoutKey` | src/features/user/stores/teamStore.ts:20-24 | removal by id (`filter((x) => x.id !== id)`, shared by the team and wallet stores) leaves nothing with the id and never lengthens the list |
| `Seqs.WithoutKeyKeepsOthers` | src/features/user/stores/walletStore.ts:52-56 | removal by id keeps every other element, in order, and an id nothing carries changes nothing |
| `Text.ToLower` | src/features/admin/stores/adminUsersStore.ts:40-42 | `toLowerCase` keeps the length and lower-cases each character (ASCII) |
| `Text.ToUpper` | src/features/user/components/SplitDetailDrawer.tsx:50 | `toUpperCase` keeps the length and upper-cases each character (ASCII) |
| `Text.TrimStart` | src/features/user/components/CreateSplitModal.tsx:28 | the result is a suffix starting at a non-whitespace character, and everything dropped is whitespace |
| `Text.TrimEnd` | src/features/user/components/CreateSplitModal.tsx:28 | the result is a prefix ending at a non-whitespace character, and everything dropped is whitespace |
| `Text.TrimEmptyIff` | src/features/user/components/CreateSplitModal.tsx:28 | `trim()` is non-empty exactly when the text has a non-whitespace character |
| `Text.Trim` | src/features/user/components/CreateSplitModal.tsx:28 | `trim()` gives a contiguous block of the string, starting where the leading white space ends, that neither starts nor ends with white space, and everything after the block is white space |
| `Text.Contains` | src/features/admin/stores/adminUsersStore.ts:40-42 | `includes` finds the needle as a contiguous block, so a found needle is never longer than the string |
| `Text.ContainsInfix` | src/features/admin/stores/adminUsersStore.ts:40-42 | a needle placed anywhere inside a string is found by `includes` |
| `Text.LowerFoundIsBlock` | src/features/admin/stores/adminUsersStore.ts:40-42 | a term found in the lower-cased string is, in some case, a block of the original string |
| `Text.LowerIgnoresCase` | src/features/admin/stores/adminUsersStore.ts:40-42 | lower-casing after upper-casing or lower-casing gives the same as lower-casing once |
| `Text.LowerConcat` | src/features/admin/stores/adminUsersStore.ts:40-42 | lower-casing distributes over concatenation |
| `Text.ContainsEmpty` | src/features/admin/stores/adminUsersStore.ts:40 | every string `includes` the empty string |
| `Ints.Min` | src/features/user/components/CreateSplitModal.tsx:115 | `Math.min` is one of its arguments and no larger than either |
| `Ints.Max` | src/features/user/components/CreateSplitModal.tsx:115 | `Math.max` is one of its arguments and no smaller than either |
| `Percent.Digits` | src/features/user/components/CreateSplitModal.tsx:111 | `replace(/[^0-9]/g, "")` leaves only digits |
| `Percent.Render` | src/features/user/components/CreateSplitModal.tsx:109 | a number shown in the field is a non-empty string of digits |
| `Percent.Normalize` | src/features/user/components/CreateSplitModal.tsx:110-117 | the result always lies in [0, 100]; no digits gives 0; digits worth n ≤ 100 give n; anything larger gives 100 |
| `Percent.NoDigitsGivesZero` | src/features/user/components/CreateSplitModal.tsx:111-114 | text without a digit normalises to 0 |
| `Percent.NonDigitIgnored` | src/features/user/components/CreateSplitModal.tsx:156-162 | inserting a non-digit character anywhere in the text changes nothing |
| `Percent.OnlyDigitsMatter` | src/features/user/components/CreateSplitModal.tsx:156-162 | the text normalises like its digits alone |
| `Percent.DecimalValueOfRender` | src/features/user/components/CreateSplitModal.tsx:109-115 | reading back the digits of a shown number gives that number |
| `Percent.NormalizeRender` | src/features/user/components/CreateSplitModal.tsx:109-117 | a percentage in [0, 100] shown in the field normalises back to itself |
| `Percent.NormalizeStable` | src/features/user/components/CreateSplitModal.tsx:109-117 | normalising the shown result of a normalisation gives the same value, so re-rendering the field is stable |
| `SplitStore.MemberTotal` | src/features/user/stores/splitStore.ts:93-96 | with every member percentage in [0, 100], the member sum lies in [0, 100 × members] |
| `SplitStore.Total` | src/features/user/stores/splitStore.ts:91-98 | with in-range percentages, creator plus members lies in [0, 100 × (members + 1)] |
| `SplitStore.MemberTotalAppend` | src/features/user/stores/splitStore.ts:91-98 | the member sum of a concatenation is the sum of the parts' sums |
| `SplitStore.NewMember` | src/features/user/stores/splitStore.ts:62-67 | the member `addMember` makes has the given id, no name and an empty email, adds 0 to the total and is in range |
| `SplitStore.WithoutMember` | src/features/user/stores/splitStore.ts:71-75 | after removal no member has the id, and the list is no longer |
| `SplitStore.RemoveMemberKeepsOthers` | src/features/user/stores/splitStore.ts:71-75 | removal keeps the other members in order, and a member survives exactly when its id differs |
| `SplitStore.RemoveMemberTotal` | src/features/user/stores/splitStore.ts:71-75 | removal lowers the total by exactly the percentages of the removed members |
| `SplitStore.AddThenRemove` | src/features/user/stores/splitStore.ts:62-75 | adding a member with a fresh id and removing that id restores the list |
| `SplitStore.AddThenRemoveCollision` | src/features/user/stores/splitStore.ts:62-75 | when the new id collides with an earlier member, removing it also removes the earlier member |
| `SplitStore.WithEmail` | src/features/user/stores/splitStore.ts:77-81 | keeps the length; only the email of members with that id changes, to the given one |
| `SplitStore.WithPercentage` | src/features/user/stores/splitStore.ts:83-89 | keeps the length; only the percentage of members with that id changes, to the given one |
| `SplitStore.SamePercentagesSameTotal` | src/features/user/stores/splitStore.ts:93-96 | lists whose percentages agree position by position have the same total |
| `SplitStore.EmailUpdateKeepsTotal` | src/features/user/stores/splitStore.ts:77-81 | editing an email never changes the total |
| `SplitStore.PercentageUpdateTotal` | src/features/user/stores/splitStore.ts:83-98 | setting the percentage of the members with an id to p replaces their share of the total by p once per such member |
| `SplitStore.RemoveMemberInRange` | src/features/user/stores/splitStore.ts:71-75 | removal keeps every percentage in [0, 100] |
| `SplitStore.PercentageUpdateInRange` | src/features/user/stores/splitStore.ts:83-89 | setting an in-range percentage keeps every percentage in [0, 100] |
| `SplitStore.Toggled` | src/features/user/stores/splitStore.ts:198 | the toggled split has the other status and every other field unchanged |
| `SplitStore.ToggleById` | src/features/user/stores/splitStore.ts:196-200 | keeps the length; splits with the id have their status flipped, all others are unchanged |
| `SplitStore.ToggleSelected` | src/features/user/stores/splitStore.ts:201-208 | the selected split changes only in its status, and that changes exactly when its id matches |
| `SplitStore.ToggleTwice` | src/features/user/stores/splitStore.ts:194-200 | toggling the same id twice restores the split list |
| `SplitStore.ToggleSelectedTwice` | src/features/user/stores/splitStore.ts:201-208 | toggling the same id twice restores the selected split |
| `SplitStore.ToggleUnknownId` | src/features/user/stores/splitStore.ts:194-200 | an id no split carries changes nothing |
| `SplitStore.ReplaceById` | src/features/user/stores/splitStore.ts:185-188 | keeps the length; splits with the updated split's id are replaced by it, all others are unchanged |
| `SplitStore.NewSplit` | src/features/user/stores/splitStore.ts:100-112 | the created split carries the form's id, name, date, percentages and members, is active and owned by the creator; it adds up to 100 exactly when the form's total is 100, and is committable exactly when the form is also in range and named; `createSplit` checks neither |
| `SplitStore.EditedSplit` | src/features/user/stores/splitStore.ts:178-183 | the saved split is the selected split with the draft's percentages and members and nothing else changed except the total; it adds up to 100 exactly when the draft's total is 100 |
| `SplitStore.ToggleKeepsCommittable` | src/features/user/stores/splitStore.ts:194-200 | toggling status keeps every committed split named, in range and adding up to 100 |
| `SplitStore.ReplaceKeepsCommittable` | src/features/user/stores/splitStore.ts:185-188 | saving a valid split over valid splits keeps them all valid |
| `SplitStore.Store.constructor` | src/features/user/stores/splitStore.ts:42-55 | the initial store: closed empty form with creator 50% and today's date, no splits, closed drawer, empty draft; the allocation rule holds |
| `SplitStore.Store.TotalPercentage` | src/features/user/stores/splitStore.ts:91-98 | `getTotalPercentage`: with the allocation rule holding, the form total lies in [0, 100 × (members + 1)] |
| `SplitStore.Store.EditTotalPercentage` | src/features/user/stores/splitStore.ts:165-172 | `getEditTotalPercentage`: the same over the edit draft |
| `SplitStore.Store.SetCreateSplitOpen` | src/features/user/stores/splitStore.ts:57 | sets only `isCreateSplitOpen` |
| `SplitStore.Store.SetSplitName` | src/features/user/stores/splitStore.ts:58 | sets only `splitName` |
| `SplitStore.Store.SetSplitStartDate` | src/features/user/stores/splitStore.ts:59 | sets only `splitStartDate` |
| `SplitStore.Store.SetCreatorPercentage` | src/features/user/stores/splitStore.ts:60 | sets only `creatorPercentage`; an in-range value keeps the allocation rule |
| `SplitStore.Store.AddMember` | src/features/user/stores/splitStore.ts:62-69 | appends exactly one member at the end, with the given id, email "" and 0%, so the total is unchanged |
| `SplitStore.Store.RemoveMember` | src/features/user/stores/splitStore.ts:71-75 | sets only `members`, to the list without that id |
| `SplitStore.Store.UpdateMemberEmail` | src/features/user/stores/splitStore.ts:77-81 | sets only `members`, changing only the matching members' email; the total is unchanged |
| `SplitStore.Store.UpdateMemberPercentage` | src/features/user/stores/splitStore.ts:83-89 | sets only `members`, changing only the matching members' percentage |
| `SplitStore.Store.CreateSplit` | src/features/user/stores/splitStore.ts:100-119 | appends one active split built from the form with the form's total, then resets the form; the allocation rule is kept when the total is 100 and the name is not blank |
| `SplitStore.Store.ResetForm` | src/features/user/stores/splitStore.ts:121-129 | closes the form and resets name, date, creator percentage 50 and members; nothing else changes |
| `SplitStore.Store.OpenDetailDrawer` | src/features/user/stores/splitStore.ts:132-140 | opens the drawer on the split, out of edit mode, with the split's percentages and members copied into the draft |
| `SplitStore.Store.CloseDetailDrawer` | src/features/user/stores/splitStore.ts:142-150 | closes the drawer, clears the selection, leaves edit mode and empties the draft |
| `SplitStore.Store.SetEditMode` | src/features/user/stores/splitStore.ts:152 | sets only `isEditMode`; the draft is not touched |
| `SplitStore.Store.SetEditCreatorPercentage` | src/features/user/stores/splitStore.ts:154-155 | sets only the draft's creator percentage; splits and selection are untouched |
| `SplitStore.Store.UpdateEditMemberPercentage` | src/features/user/stores/splitStore.ts:157-163 | changes only the matching draft members' percentage; splits and selection are untouched |
| `SplitStore.Store.SaveEditChanges` | src/features/user/stores/splitStore.ts:174-192 | does nothing without a selected split; otherwise replaces the splits with that id by the draft (total = draft total), selects it and leaves edit mode |
| `SplitStore.Store.ToggleSplitStatus` | src/features/user/stores/splitStore.ts:194-210 | flips the status of the matching splits and of the selected split if its id matches; nothing else changes |
| `CreateSplitModal.IsValid` | src/features/user/components/CreateSplitModal.tsx:27-28 | the form is valid exactly when the total is 100 and the name has a non-whitespace character |
| `CreateSplitModal.WarningShown` | src/features/user/components/CreateSplitModal.tsx:80-84 | the "must add up to 100%" warning shows exactly when no name could make the form valid |
| `CreateSplitModal.SubmitDisabled` | src/features/user/components/CreateSplitModal.tsx:195 | "Create Split" is disabled whenever the warning shows, and enabled only for a total of 100 and a non-blank name |
| `CreateSplitModal.HandleSubmit` | src/features/user/components/CreateSplitModal.tsx:30-35 | a valid form appends its split and resets the form, writing only the splits and the five form fields; an invalid form leaves the whole store unchanged; the allocation rule is kept |
| `CreateSplitModal.Dismiss` | src/features/user/components/CreateSplitModal.tsx:40-43 | closing or cancelling resets and closes the form; only the five form fields are written, so splits, drawer and draft are untouched |
| `CreateSplitModal.EnterCreatorPercentage` | src/features/user/components/CreateSplitModal.tsx:110-117 | the creator field stores the normalised text, writes no other field, and keeps the allocation rule |
| `CreateSplitModal.EnterMemberPercentage` | src/features/user/components/CreateSplitModal.tsx:156-162 | a member field stores the normalised text on the matching members, writes no other field, and keeps the allocation rule |
| `CreateSplitModal.ValidFormCommitsBalanced` | src/features/user/components/CreateSplitModal.tsx:27-35 | a valid form filled in through the inputs commits a named split that adds up to 100 with every percentage in range |
| `SplitDetailDrawer.Renders` | src/features/user/components/SplitDetailDrawer.tsx:56 | the drawer's content renders only while it is open on a selected split |
| `SplitDetailDrawer.SaveEnabledIffBalanced` | src/features/user/components/SplitDetailDrawer.tsx:33-34 | `isValidEdit` holds exactly when saving the draft would give a split that adds up to 100 |
| `SplitDetailDrawer.ShownCreatorPercentage` | src/features/user/components/SplitDetailDrawer.tsx:28-30 | the drawer shows the draft's creator percentage in edit mode and the committed one otherwise; with the allocation rule holding it lies in [0, 100] |
| `SplitDetailDrawer.ShownMembers` | src/features/user/components/SplitDetailDrawer.tsx:217 | the drawer lists the draft's members in edit mode and the committed ones otherwise; with the allocation rule holding every percentage shown is in [0, 100] |
| `SplitDetailDrawer.CommittedViewAddsUp` | src/features/user/components/SplitDetailDrawer.tsx:28-30 | outside edit mode the creator and member percentages on display add up to 100 |
| `SplitDetailDrawer.ValidEditSavesCommittable` | src/features/user/components/SplitDetailDrawer.tsx:33-34 | a draft passing `isValidEdit` saved over a valid split gives a valid split that differs only in its percentages and members |
| `SplitDetailDrawer.StartEdit` | src/features/user/components/SplitDetailDrawer.tsx:301 | offered only outside edit mode, "Edit split" writes only `isEditMode`: it enters edit mode on the draft as it stands, which the drawer then shows |
| `SplitDetailDrawer.Cancel` | src/features/user/components/SplitDetailDrawer.tsx:285-290 | Cancel writes only `isEditMode`: it leaves edit mode and never saves, so splits, selection and draft are untouched, and the committed values are shown |
| `SplitDetailDrawer.Save` | src/features/user/components/SplitDetailDrawer.tsx:286-296 | offered only in edit mode; without a draft total of 100, or without a selected split, the whole store is unchanged; otherwise the draft replaces the splits with that id, becomes the selection and is shown with a total of 100, and edit mode ends; only splits, selection and edit mode are written |
| `SplitDetailDrawer.Close` | src/features/user/components/SplitDetailDrawer.tsx:59-66 | the backdrop and the close button close the drawer, clear the selection and the draft, and leave the splits and the form alone; the drawer then does not render |
| `SplitDetailDrawer.EnterCreatorPercentage` | src/features/user/components/SplitDetailDrawer.tsx:194-203 | the draft's creator percentage becomes the normalised text, in [0, 100]; no other field is written |
| `SplitDetailDrawer.EnterMemberPercentage` | src/features/user/components/SplitDetailDrawer.tsx:246-258 | the matching draft members get the normalised text, and the draft stays in range; no other field is written |
| `SplitDetailDrawer.SplitOnSpace` | src/features/user/components/SplitDetailDrawer.tsx:47 | `split(" ")` always gives at least one word |
| `SplitDetailDrawer.SplitOnSpaceRoundTrip` | src/features/user/components/SplitDetailDrawer.tsx:47 | `split(" ")` loses nothing: joining the words with single spaces gives the name back, and no word contains a space |
| `SplitDetailDrawer.FirstLettersAreWordStarts` | src/features/user/components/SplitDetailDrawer.tsx:45-49 | the first letters of the space-separated words are exactly the characters that begin a word, in order |
| `SplitDetailDrawer.GetInitials` | src/features/user/components/SplitDetailDrawer.tsx:45-52 | at most two characters: the upper-cased first letters of the first words, in order |
| `SplitDetailDrawer.MemberAvatarAsWritten` | src/features/user/components/SplitDetailDrawer.tsx:225-227 | the member avatar as written fails exactly for a member with no name and an empty email |
| `SplitDetailDrawer.MemberAvatar` | src/features/user/components/SplitDetailDrawer.tsx:225-227 | the corrected avatar never fails, has at most two characters and agrees with the code wherever the code does not fail |
| `SplitDetailDrawer.AddedMemberAvatarThrows` | src/features/user/components/SplitDetailDrawer.tsx:225-227 | a valid split with creator 50%, two members with emails at 20% and, third, a member as `addMember` made it at 10%: the first two drawer avatars succeed and the third throws |
| `UserSplits.ActiveCount` | src/features/user/pages/UserSplits.tsx:41 | the "Active" card counts at most every split |
| `UserSplits.InactiveCount` | src/features/user/pages/UserSplits.tsx:53 | the "Inactive" card counts at most every split |
| `UserSplits.ActivePlusInactive` | src/features/user/pages/UserSplits.tsx:41-53 | the active count plus the inactive count is the number of splits |
| `UserSplits.TotalMembers` | src/features/user/pages/UserSplits.tsx:65 | "Total Members" is 0 without splits, and appending a split to the list adds that split's member count |
| `UserSplits.TotalMembersAppend` | src/features/user/pages/UserSplits.tsx:65 | "Total Members" of a concatenation is the sum over the parts |
| `UserSplits.CreateAddsMembers` | src/features/user/pages/UserSplits.tsx:65 | a new split adds its member count to "Total Members" |
| `UserSplits.ToggleKeepsTotalMembers` | src/features/user/pages/UserSplits.tsx:65 | toggling a status leaves "Total Members" unchanged |
| `UserSplits.MemberCount` | src/features/user/pages/UserSplits.tsx:120 | a row's "N members" counts the members plus the creator |
| `UserSplits.MemberCountsSum` | src/features/user/pages/UserSplits.tsx:120 | the row counts add up to "Total Members" plus one creator per split |
| `UserSplits.Preview` | src/features/user/pages/UserSplits.tsx:147 | the preview is a prefix of at most two members: all of them when there are two or fewer, exactly two otherwise |
| `UserSplits.MoreLabel` | src/features/user/pages/UserSplits.tsx:167-171 | "+k more" appears exactly for more than two members, and preview plus k accounts for every member |
| `UserSplits.DeactivateShown` | src/features/user/pages/UserSplits.tsx:183 | "Deactivate" is offered exactly on the splits that toggling makes inactive |
| `UserSplits.ClickViewDetails` | src/features/user/pages/UserSplits.tsx:177-182 | the drawer opens on that row's split, rendered and out of edit mode, with the draft forked from it and that split's members shown; only the drawer fields are written, and the session stays sound |
| `UserSplits.ClickDeactivate` | src/features/user/pages/UserSplits.tsx:183-190 | an inactive row offers nothing and the store is unchanged; on an active row the splits with that id are toggled, the split becomes inactive, and the selected split is toggled the same way if its id matches; only splits and selection are written |
| `UserSplits.DeactivateLowersActiveCount` | src/features/user/pages/UserSplits.tsx:183-190 | with unique ids, deactivating an active split lowers the active count by exactly one |
| `UserSplits.PreviewAvatarAsWritten` | src/features/user/pages/UserSplits.tsx:154-155 | the preview avatar as written fails exactly for a member with no name and an empty email |
| `UserSplits.PreviewAvatar` | src/features/user/pages/UserSplits.tsx:154-155 | the corrected preview avatar never fails, has at most one character, and agrees with the code wherever the code does not fail |
| `UserSplits.CommittedSplitPreviewThrows` | src/features/user/pages/UserSplits.tsx:154-155 | a valid split holding a member as `addMember` made it shows that member in the preview, whose avatar fails |
| `UserSplits.ViewDetailsReachesDrawerCrash` | src/features/user/pages/UserSplits.tsx:147-181 | the split with the unnamed member third is valid, its row's preview avatars all succeed, and the drawer's avatar for that member throws |
| `TeamStore.WithStatus` | src/features/user/stores/teamStore.ts:32-36 | keeps length and order; only the status of members with the id changes |
| `TeamStore.RestatusCount` | src/features/user/stores/teamStore.ts:32-48 | changing the status of the one member with an id moves it from its old status count to its new one |
| `TeamStore.ActivateCounts` | src/features/user/stores/teamStore.ts:32-48 | activating a pending member with a unique id gives one more active and one fewer pending |
| `TeamStore.UnknownIdKeepsStatuses` | src/features/user/stores/teamStore.ts:32-36 | an unknown id changes nothing |
| `TeamStore.Store.constructor` | src/features/user/stores/teamStore.ts:17-18 | the store starts with the given members |
| `TeamStore.Store.RemoveMember` | src/features/user/stores/teamStore.ts:20-24 | replaces the list by the list without that id (`Seqs.WithoutKey`) |
| `TeamStore.Store.AddMember` | src/features/user/stores/teamStore.ts:26-30 | appends the member at the end, so the total grows by one |
| `TeamStore.Store.UpdateMemberStatus` | src/features/user/stores/teamStore.ts:32-36 | restatuses the matching members; the total is unchanged |
| `TeamStore.Store.TotalMembers` | src/features/user/stores/teamStore.ts:38-40 | the total is the number of members |
| `TeamStore.Store.ActiveMembers` | src/features/user/stores/teamStore.ts:42-44 | the active count never exceeds the total |
| `TeamStore.Store.PendingMembers` | src/features/user/stores/teamStore.ts:46-48 | the pending count never exceeds the total |
| `TeamStore.Store.CountsBounded` | src/features/user/stores/teamStore.ts:38-48 | active plus pending members never exceed the total |
| `WalletStore.InitializeWallets` | src/features/user/stores/walletStore.ts:24-29 | the card at index i keeps its wallet and gets colour `CARD_COLORS[i % 4]` |
| `WalletStore.ColorsCycle` | src/features/user/stores/walletStore.ts:7 | neighbouring indices never get the same colour, and any four consecutive indices use all four |
| `WalletStore.InitialNeighboursDiffer` | src/features/user/stores/walletStore.ts:24-29 | adjacent initial cards have different colours |
| `WalletStore.NewCard` | src/features/user/stores/walletStore.ts:43-48 | the added card keeps the wallet's details, gets id "wallet_" + the time stamp, and colour `CARD_COLORS[count % 4]` |
| `WalletStore.AddContinuesCycle` | src/features/user/stores/walletStore.ts:43-50 | adding a wallet gives the colour the initial assignment would have given it at that index |
| `WalletStore.Cycled` | src/features/user/stores/walletStore.ts:34-41 | cycling keeps the length, moves every card up one place and the first card to the end |
| `WalletStore.CycledTimesRotates` | src/features/user/stores/walletStore.ts:34-41 | k cycles, for k up to the length, rotate the list left by k |
| `WalletStore.FullCycleRestores` | src/features/user/stores/walletStore.ts:34-41 | as many cycles as there are cards restore the original order |
| `WalletStore.CycledIsPermutation` | src/features/user/stores/walletStore.ts:34-41 | cycling keeps exactly the same cards |
| `WalletStore.Store.constructor` | src/features/user/stores/walletStore.ts:31-32 | the store starts with the coloured initial wallets |
| `WalletStore.Store.CycleCards` | src/features/user/stores/walletStore.ts:34-41 | the shift and push on a copy store the cycled list; the count is unchanged |
| `WalletStore.Store.AddWallet` | src/features/user/stores/walletStore.ts:43-50 | appends one card with id "wallet_" + the time stamp and colour `CARD_COLORS[old length % 4]` |
| `WalletStore.Store.RemoveWallet` | src/features/user/stores/walletStore.ts:52-56 | replaces the list by the list without that id (`Seqs.WithoutKey`) |
| `WalletStore.Store.WalletCount` | src/features/user/stores/walletStore.ts:58-60 | the count is the number of cards |
| `TransactionStore.TypeMatchesIff` | src/features/user/stores/transactionStore.ts:29 | the case-insensitive comparison accepts exactly the transactions of the filter's own type; "all" matches no type |
| `TransactionStore.LowerTypeName` | src/features/user/stores/transactionStore.ts:29 | "INCOME" and "EXPENSE" lower-case to the filter values "income" and "expense" |
| `TransactionStore.LowerFilterName` | src/features/user/stores/transactionStore.ts:29 | the filter values are already lower case |
| `TransactionStore.FilteredTransactions` | src/features/user/stores/transactionStore.ts:25-31 | the filtered list is never longer than the list |
| `TransactionStore.FilteredIsExact` | src/features/user/stores/transactionStore.ts:25-31 | the result is an order-preserving subsequence; "all" returns the list; "income"/"expense" keep exactly the transactions of that type |
| `TransactionStore.IncomePlusExpense` | src/features/user/stores/transactionStore.ts:28-30 | the income view and the expense view together hold every transaction |
| `TransactionStore.Store.constructor` | src/features/user/stores/transactionStore.ts:19-21 | the store starts with the given transactions and the "all" filter |
| `TransactionStore.Store.SetFilter` | src/features/user/stores/transactionStore.ts:23 | sets only `filter` |
| `TransactionStore.Store.FilteredNow` | src/features/user/stores/transactionStore.ts:25-31 | `getFilteredTransactions()` is never longer than the list, and is the whole list under "all" |
| `TransactionStore.Store.TransactionCount` | src/features/user/stores/transactionStore.ts:45-47 | the count is the number of transactions |
| `AdminUsersStore.MatchesSearch` | src/features/admin/stores/adminUsersStore.ts:39-42 | a user matches a search term only if the term is no longer than the first name, the last name or the email; case is ignored (`SearchIgnoresCase`) and a user matches exactly when the term occurs, in any case, as a block of the first name, the last name or the email (`SearchFindsInfix` one way, `SearchMatchIsBlock` the other) |
| `AdminUsersStore.SearchIgnoresCase` | src/features/admin/stores/adminUsersStore.ts:39-42 | the search ignores case: a term matches exactly when its upper-cased or lower-cased form does |
| `AdminUsersStore.SearchFindsInfix` | src/features/admin/stores/adminUsersStore.ts:39-42 | a term that occurs, in any case, as a block of the first name, the last name or the email matches |
| `AdminUsersStore.SearchMatchIsBlock` | src/features/admin/stores/adminUsersStore.ts:39-42 | conversely, a matching term occurs, in some case, as a block of the first name, the last name or the email |
| `AdminUsersStore.MatchesStatus` | src/features/admin/stores/adminUsersStore.ts:44-45 | the string comparison passes a user exactly under "all" or when the user's status is the one requested |
| `AdminUsersStore.MatchesRole` | src/features/admin/stores/adminUsersStore.ts:47 | the string comparison passes a user exactly under "all" or when the user's role is the one named; no filter names administrators |
| `AdminUsersStore.FilteredUsers` | src/features/admin/stores/adminUsersStore.ts:35-51 | no more users than given, each matching the search term |
| `AdminUsersStore.FilteredUsersExact` | src/features/admin/stores/adminUsersStore.ts:38-50 | the result is an order-preserving subsequence, and a user is listed exactly when it passes search, status and role |
| `AdminUsersStore.FilteredUsersCopies` | src/features/admin/stores/adminUsersStore.ts:38-50 | a user record is listed as often as it occurs in the list when it passes all three tests, and not at all otherwise |
| `AdminUsersStore.EmptySearchMatches` | src/features/admin/stores/adminUsersStore.ts:39-42 | the empty search term matches every user |
| `AdminUsersStore.NoFilterListsEveryone` | src/features/admin/stores/adminUsersStore.ts:44-49 | an empty search with both filters on "all" lists every user |
| `AdminUsersStore.StatusFilterExact` | src/features/admin/stores/adminUsersStore.ts:44-45 | a status filter other than "all" lists only users with exactly that status |
| `AdminUsersStore.VerifiedListsNobody` | src/features/admin/stores/adminUsersStore.ts:5 | "verified" is offered as a filter but no status equals it, so it lists nobody |
| `AdminUsersStore.RoleFilterExact` | src/features/admin/stores/adminUsersStore.ts:47 | a role filter other than "all" lists only that role, so administrators appear only under "all" |
| `AdminUsersStore.Store.constructor` | src/features/admin/stores/adminUsersStore.ts:23-28 | the store starts with no search, no filters and no selection, and lists every user |
| `AdminUsersStore.Store.SetSearchTerm` | src/features/admin/stores/adminUsersStore.ts:30 | sets only `searchTerm` |
| `AdminUsersStore.Store.SetStatusFilter` | src/features/admin/stores/adminUsersStore.ts:31 | sets only `statusFilter` |
| `AdminUsersStore.Store.SetRoleFilter` | src/features/admin/stores/adminUsersStore.ts:32 | sets only `roleFilter` |
| `AdminUsersStore.Store.SetSelectedUserId` | src/features/admin/stores/adminUsersStore.ts:33 | sets only `selectedUserId` |
| `AdminUsersStore.Store.FilteredNow` | src/features/admin/stores/adminUsersStore.ts:35-51 | `getFilteredUsers()` is never longer than the list, and every user in it passes the current search, status and role |
| `SignupStore.StepAfter` | src/features/auth/stores/signupStore.ts:19 | the next step is exactly one more |
| `SignupStore.StepBefore` | src/features/auth/stores/signupStore.ts:20-21 | the previous step is one less but never below 0 |
| `SignupStore.BackUndoesNext` | src/features/auth/stores/signupStore.ts:19-21 | forward then back restores any step from 0 upwards |
| `SignupStore.BackFromNegative` | src/features/auth/stores/signupStore.ts:17-21 | from a negative step set directly, forward then back lands on 0 instead |
| `SignupStore.Store.constructor` | src/features/auth/stores/signupStore.ts:14-16 | the wizard starts at step 0 with no account type |
| `SignupStore.Store.SetCurrentStep` | src/features/auth/stores/signupStore.ts:17 | sets only `currentStep` |
| `SignupStore.Store.SetSplitType` | src/features/auth/stores/signupStore.ts:18 | sets only `splitType` |
| `SignupStore.Store.NextStep` | src/features/auth/stores/signupStore.ts:19 | moves one step forward and changes nothing else |
| `SignupStore.Store.PrevStep` | src/features/auth/stores/signupStore.ts:20-21 | moves one step back, never below 0; at step 0 it changes nothing |
| `SignupStore.Store.ResetForm` | src/features/auth/stores/signupStore.ts:22 | returns to step 0 with no account type |

## Left out

- Money is not modelled. This covers the floating-point earnings in the drawer (`balance × percentage / 100`), `getTotalIncome` and `getTotalExpense`, and all `toLocaleString`/`toFixed` formatting. `Transaction.amount` is a `real` that no operation reads.
- Percentages are unbounded integers. The inputs only ever produce whole numbers in [0, 100], and `Number` of a long digit string above 100 clamps to 100 all the same.
- `Date.now()` ids and `new Date().toISOString()` dates are method parameters, and no id is assumed unique.
- `toLowerCase` and `toUpperCase` are modelled over ASCII letters only. Other Unicode case mappings (used by the admin search, the transaction filter and `getInitials`) are not.
- `formatDate`, the drawer's tab state, and all JSX rendering, styling and animation are not modelled.
- The "45 days retroactive" sentence in the create form is text the code never enforces. The start date is stored as given.
- The `TeamMember` and `Wallet` record types and the mock lists `MOCK_TEAM_MEMBERS` and `MOCK_WALLETS` are not part of this model. Members and wallets carry an id, a status or colour, and an opaque payload of a type parameter. Each store's constructor takes its initial list as an argument.
- TeamStore.Store.UpdateMemberStatus: requires the status to be "active" or "pending", which is the parameter's declared type.
- UserSplits.ClickDeactivate: it states the result in terms of `ToggleById`. With duplicate ids, another split with the same id flips too, in whichever direction. Only `UserSplits.DeactivateLowersActiveCount` (unique ids) states that exactly one split moves from active to inactive.
- SplitStore.Store.TotalPercentage, SplitStore.Store.EditTotalPercentage: their own contracts give only the range of the total. That they equal creator plus member sum is the definition `SplitStore.Total`; the lemmas about `MemberTotal` state how each action changes it.
- SplitDetailDrawer.GetInitials, SplitDetailDrawer.FirstLetters, SplitDetailDrawer.MemberAvatarAsWritten, UserSplits.PreviewAvatarAsWritten: a character here is a Unicode code point, whereas JavaScript indexes and slices strings (`n[0]`, `.slice(0, 2)`, `email[0]`) by UTF-16 code unit. For text with characters outside the Basic Multilingual Plane the results differ: for the name "😀 Bob" the source's initials start with a lone surrogate, the model's with "😀".
- CreateSplitModal.HandleSubmit: models the handler once the browser lets the submit through. The `required` start date and the `type="email"` member fields can block the submit before it runs: a cleared date, or a non-empty malformed member email, gives no new split in the application, while the model appends one.
- The settings, admin settings, login, layout, admin and dashboard stores are plain field setters and are not part of this model.
- The admin dashboard's narrower inline search is not part of this model.

## Findings

| source | as written | input that shows it | evidently intended | confidence | as-written member | corrected member |
|---|---|---|---|---|---|---|
| src/features/user/pages/UserSplits.tsx:154-155 | the preview avatar is `member.name?.[0] \|\| member.email[0].toUpperCase()`, and `email[0]` of "" is `undefined`, so `.toUpperCase()` throws a TypeError | add a member with "Add Member", leave its email empty, give it 50% and the creator 50%, name the split "Ad Revenue": the form is valid, the split is created, and its row's preview renders that member | a member without a name or an email shows no initial | not executed | `UserSplits.PreviewAvatarAsWritten` (lemma `UserSplits.CommittedSplitPreviewThrows`) | `UserSplits.PreviewAvatar` |
| src/features/user/components/SplitDetailDrawer.tsx:225-227 | the member avatar is `member.name ? getInitials(member.name) : member.email[0].toUpperCase()`, which throws the same TypeError for an empty email | a split with creator 50%, two members with emails at 20% each and, third, a member added with "Add Member" and left without an email at 10%: the page's preview shows only the first two members, so the row renders and "View Details" opens the drawer, whose member list throws on the third | a member without a name or an email shows no initial | not executed | `SplitDetailDrawer.MemberAvatarAsWritten` (lemmas `SplitDetailDrawer.AddedMemberAvatarThrows`, `UserSplits.ViewDetailsReachesDrawerCrash`; the handler `UserSplits.ClickViewDetails` shows that drawer's members) | `SplitDetailDrawer.MemberAvatar` |
