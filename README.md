# go-dutch ledger core, modelled in Dafny

go-dutch is a bill-splitting backend. People form a group, each
member with a weight (`num`, a family size). They record the expenses
(items) they paid for, each split either by head count or by weight. Each
member sees their credit (what others owe them for the items they paid),
their debt (what they owe for items others paid) and their balance (credit
plus a manual balance minus debt). Accounts are created by phone number and
confirmed with a one-time code. Group images are uploaded through a filter
that admits only JPEG and PNG files.

The model is split into these modules:

- `GroupSchema` (`group_schema.dfy`): the group document and its schema
  defaults. It also holds the `insert` helper built on JavaScript's `substr`,
  and the default join key, which is the process start time in base 36
  with a `-` after the fourth digit.
- `Settlement` (`settlement.dfy`): `calculationOfCreditAndDebt`, plus the
  zero-sum property of the group.
- `Grouping` (`grouping.dfy`): `groupByName`. It is a function `Grouped`
  that specifies it, plus the method `GroupBy`, whose loop updates the
  accumulator item by item.
- `GroupService` (`group_service.dfy`): the read views `GetAll` and
  `GetOne`, and the split of a new group's phone numbers into known and
  unknown users. It also holds a class `GroupService` whose fields are the
  group collection and each user's `groups` array. `Create`, `AddItem`,
  `AddBalance`, `ReduceBalance` and `JoinGroup` update these fields in
  place.
- `Auth` (`auth.dfy`): a class `AuthService` over the user collection,
  which is a map from phone number to user document. It covers sign-up,
  verification, code resend, the password-reset code and token, password
  change and sign-in, each with its errors in the order the service checks
  them.
- `Upload` (`upload.dfy`): the file-type filter of the upload middleware.
- `Wrappers` (`wrappers.dfy`): `Option`, `Result` and `Outcome`.

Two places in the ledger compute something other than what they evidently
mean: the debt for a head-count item, and the key items are grouped under.
`Settlement.Reading` selects between the code as written (`AsWritten`) and
the evident intent (`Intended`). The service's own function
`Settlement.CreditAndDebt` is the as-written reading. The views `GetAll`
and `GetOne` take the reading as a parameter, so each property is proved
of the reading it holds for. See "## Findings".

For the weight split, 300 paid by A (weight 2) in a group with B (weight
1) charges B `300 - (300 / 3) * (3 - 1) = 100`, which is B's own third
(`Settlement.WeightSplitExample`). `GetOne` returns the empty object when
two groups share the id (src/services/group.ts:121), and the model does the
same.

## Model

| member | source | states |
|---|---|---|
| GroupSchema.SubstrStart | src/models/group.ts:4 | `substr`'s start is clamped into the string: a start inside is kept, a start past the end becomes the length |
| GroupSchema.Substr | src/models/group.ts:4 | `substr(start, length)` is the plain slice when in bounds, and empty for a non-positive length |
| GroupSchema.SubstrFrom | src/models/group.ts:4 | `substr(start)` is the suffix from the start, and empty past the end |
| GroupSchema.Insert | src/models/group.ts:4 | `insert` keeps the whole value and at most the whole string; for an index of 0 or more the length grows by exactly the value's length (the splice itself is `InsertSplices`) |
| GroupSchema.InsertSplices | src/models/group.ts:4 | within bounds, `insert` puts the value between the prefix and the suffix, and the length grows by exactly the value's length |
| GroupSchema.InsertThenRemove | src/models/group.ts:4 | removing the inserted text at the same index gives back the original string |
| GroupSchema.InsertAtStart | src/models/group.ts:4 | index 0 prepends |
| GroupSchema.InsertPastEnd | src/models/group.ts:4 | any index at or past the end appends, because `substr` clamps |
| GroupSchema.InsertNegativeIndex | src/models/group.ts:4 | a negative index gives the value followed by only the last `-index` characters |
| GroupSchema.ToBase36 | src/models/group.ts:20 | `toString(36)` has at least one digit |
| GroupSchema.Base36RoundTrip | src/models/group.ts:20 | reading the base-36 digits back gives the timestamp, so no information is lost |
| GroupSchema.Base36HasFourDigits | src/models/group.ts:20 | every timestamp from 36^3 ms on has at least four base-36 digits |
| GroupSchema.DefaultKey | src/models/group.ts:20 | the default key is one character longer than the base-36 timestamp (its layout is `DefaultKeyShape`) |
| GroupSchema.DefaultKeyShape | src/models/group.ts:18-21 | the default key is the base-36 timestamp with `-` at index 4: one longer, the first four digits before the dash, the rest after it |
| GroupSchema.StoredMember | src/models/group.ts:38-44 | a stored member keeps its phone and weight, and its balance defaults to 0 |
| GroupSchema.NewGroup | src/models/group.ts:6-57 | a new group keeps the given id, name, image, key and creator, has wallet 0, is not disabled, has no items and `__v` 0, and stores every submitted member with the balance default |
| Settlement.TotalWeight | src/services/group.ts:5 | the total weight is at least the number of members |
| Settlement.IndexOf | src/services/group.ts:6 | the subject is the FIRST member with that phone number; no earlier member has it |
| Settlement.CreditShare | src/services/group.ts:12-16 | the payer of an item is owed its cost less the even or weighted share they would owe themselves, so credit share plus own share is the whole cost (`UnknownStatusSplitsByWeight`, `IntendedContribution`) |
| Settlement.DebtShare | src/services/group.ts:22-27 | a foreign head-count item costs exactly 1 as written and one even share `t / n` as intended; any other status costs the weighted share `t * w / W` (`HeadCountDebtIsOne`, `IntendedHeadCountDebtIsEvenShare`, `WeightDebtIsOwnShare`) |
| Settlement.HeadCountDebtIsOne | src/services/group.ts:24-26 | as written, a head-count item paid by another member adds exactly 1 to the debt, whatever its cost |
| Settlement.IntendedHeadCountDebtIsEvenShare | src/services/group.ts:24-26 | read as intended, such an item costs one even share `t / n` |
| Settlement.WeightDebtIsOwnShare | src/services/group.ts:24-27 | any status other than head count takes the weight branch and costs `t * w / W`, under both readings |
| Settlement.CreditAndDebt | src/services/group.ts:4-32 | the service's own calculation, as written: fails exactly when no member has the subject's phone, and otherwise balance = credit + the first match's manual balance (absent = 0) - debt; its head-count debt is `HeadCountDebtIsOne` |
| Settlement.Calculate | src/services/group.ts:4-32 | fails exactly when no member has the subject's phone; otherwise credit sums over own items, debt sums over every other item, and balance = credit + manual balance (absent = 0) - debt |
| Settlement.UnknownStatusSplitsByWeight | src/models/group.ts:52 | a status outside the schema's enum is charged exactly like `number-of-members` |
| Settlement.Credit | src/services/group.ts:9-18 | the credit is 0 when the subject paid for none of the items (`NoCreditWithoutOwnItems`) |
| Settlement.Debt | src/services/group.ts:20-29 | the debt is 0 when the subject paid for every item (`HeadCountDebtCountsItems`, `DebtAgreesWithoutHeadCount`) |
| Settlement.NoCreditWithoutOwnItems | src/services/group.ts:9-18 | a member who paid for nothing has credit 0 |
| Settlement.HeadCountDebtCountsItems | src/services/group.ts:20-29 | as written, with only head-count items, the debt is the number of items others paid for |
| Settlement.DebtAgreesWithoutHeadCount | src/services/group.ts:20-29 | without head-count items, the as-written and intended debts agree |
| Settlement.CalculationsAgreeWithoutHeadCount | src/services/group.ts:4-32 | without head-count items, the service's calculation equals the intended one |
| Settlement.PaidAbsent | src/services/group.ts:9-10 | an item whose payer is not listed is credited to nobody |
| Settlement.PaidOnce | src/services/group.ts:9-10 | with unique phones, an item's cost is credited to its payer exactly once |
| Settlement.SumOfShares | src/services/group.ts:15-16 | the shares of all entries add up to the share unit times the total units |
| Settlement.IntendedContribution | src/services/group.ts:9-29 | read as intended, an item moves its payer by cost minus own share, and everyone else by minus their share |
| Settlement.SumOfBalancesFirstItem | src/services/group.ts:9-29 | the group sum splits item by item |
| Settlement.NoItemsNoBalances | src/services/group.ts:9-29 | with no items, every member's credit minus debt is 0, and so is the group's sum of them |
| Settlement.ShareUnitsCoverCost | src/services/group.ts:15-16 | the shares of the whole group make up the item's whole cost |
| Settlement.IntendedSumOfContributions | src/services/group.ts:9-29 | read as intended, one item's effects sum to what was paid minus all shares |
| Settlement.ItemContributionsCancel | src/services/group.ts:9-29 | read as intended, one item paid by a member cancels out over the group |
| Settlement.IntendedSumOfBalancesIsZero | src/services/group.ts:9-29 | read as intended, the group's credits minus debts sum to zero |
| Settlement.UniqueIndexOf | src/services/group.ts:6 | with unique phones, each member is the first match for its own phone |
| Settlement.SumOfNetsIsSumOfBalances | src/services/group.ts:4-32 | with unique phones, summing the calculation over the members equals summing with each member's own weight |
| Settlement.IntendedIsZeroSum | src/services/group.ts:4-32 | read as intended, every member's credit minus debt sums to zero over a group with unique phones whose payers are members |
| Settlement.WeightSplitIsZeroSum | src/services/group.ts:4-32 | the service's own calculation is zero-sum when no item is split by head count |
| Settlement.SameNets | src/services/group.ts:4-32 | without head-count items, the two readings give the same group sum |
| Settlement.WeightSplitExample | src/services/group.ts:4-32 | A (weight 2) pays 300 by weight: A gets credit 100 and B gets debt 100 |
| Settlement.HeadCountExample | src/services/group.ts:24-26 | the same item by head count: A gets credit 150 but B owes 1, so the group sums to 149; as intended B owes 150 |
| Grouping.Find | src/services/group.ts:37 | `groups[item.group]` finds the bucket with that key, or reports that none has it |
| Grouping.Grouped | src/services/group.ts:35-42 | the reduce opens at most one bucket per item, and the dictionary is empty exactly when there are no items (contents: `GroupedRepresents`) |
| Grouping.GroupBy | src/services/group.ts:35-42 | the reduce loop builds exactly the dictionary `Grouped` specifies |
| Grouping.SelectKeys | src/services/group.ts:36-40 | every item in a key's bucket has that key and comes from the input |
| Grouping.SelectContains | src/services/group.ts:36-40 | every input item is selected under its own key |
| Grouping.SelectEmpty | src/services/group.ts:36-40 | a key selects nothing exactly when no item has it |
| Grouping.Push | src/services/group.ts:37-39 | one reduce step opens at most one bucket, keeps the existing keys in place, and leaves a bucket for the item's key (`PushRepresents`) |
| Grouping.PushRepresents | src/services/group.ts:37-39 | one reduce step keeps the dictionary faithful to the longer input |
| Grouping.GroupedRepresents | src/services/group.ts:35-42 | the keys are distinct, each bucket is non-empty and holds exactly its key's items in order, and every item's key has a bucket |
| Grouping.TotalSizeAppend | src/services/group.ts:39 | opening a bucket adds its size to the total |
| Grouping.TotalSizeUpdate | src/services/group.ts:39 | replacing a bucket changes the total by the size difference |
| Grouping.SizesSumToLength | src/services/group.ts:35-42 | the bucket sizes sum to the number of items |
| Grouping.ExactlyOneBucket | src/services/group.ts:35-42 | every item lies in the bucket of its key and in no other |
| Grouping.KeysAreItemKeys | src/services/group.ts:35-42 | a key has a bucket iff some item has that key, and an empty input gives an empty dictionary |
| Grouping.AsWrittenSingleBucket | src/services/group.ts:37-39 | as written, every item lands in the one bucket `"undefined"`, in input order |
| Grouping.GroupedByName | src/services/group.ts:35-42 | keyed by name: distinct names, each bucket non-empty and holding only input items of that name, every name present |
| GroupService.View | src/services/group.ts:98-103 | the projection of a group fails exactly when the subject is not a member |
| GroupService.ViewIgnoresKeyAndVersion | src/services/group.ts:98 | the view does not depend on `key` or `__v` |
| GroupService.ViewContents | src/services/group.ts:98-103 | the view keeps the stored fields, carries the subject's settlement, and its items are exactly `groupByName` of the group's items, so every item is kept |
| GroupService.GetAll | src/services/group.ts:96-109 | succeeds iff the user is a member of every group; then it has one view per group, in order |
| GroupService.WithId | src/services/group.ts:113 | the filter keeps exactly the groups with that id |
| GroupService.GetOne | src/services/group.ts:111-126 | fails iff a matching group lacks the user; gives a view only when exactly one group has the id, else the empty object |
| GroupService.GetOneFindsTheGroup | src/services/group.ts:111-126 | with exactly one group of that id, and the user a member, `GetOne` returns that group's view |
| GroupService.FilterKnown | src/services/group.ts:65-66 | keeps exactly the phones that are, or are not, users |
| GroupService.FilterKnownIsSubsequence | src/services/group.ts:65-66 | the filter keeps the input order |
| GroupService.FilterKnownSplits | src/services/group.ts:65-66 | the two filters together hold every submitted phone as often as submitted |
| GroupService.Phones | src/services/group.ts:61 | the phone list lines up with the member list |
| GroupService.Partition | src/services/group.ts:61-66 | the known and unknown lists cover the submitted phones, each in order, split by membership in the user collection |
| GroupService.KnownPhonesAreUsers | src/services/group.ts:65 | a user's phone number is in the known list exactly when it was submitted |
| GroupService.PartitionDisjoint | src/services/group.ts:65-66 | no phone is in both lists |
| GroupService.IncBalance | src/services/group.ts:144-146 | `$inc` on `members.$.balance` changes only the first matching member, adding to an absent balance as 0; a non-member means no change |
| GroupService.AddThenReduceRestores | src/services/group.ts:142-164 | adding and then reducing the same amount restores the members |
| GroupService.SamePhonesSameIndex | src/services/group.ts:145 | the positional match depends only on the phone numbers |
| GroupService.SameWeightsSameTotal | src/services/group.ts:5 | the total weight depends only on the weights |
| GroupService.BalanceChangeSettles | src/services/group.ts:142-164 | a balance change moves that member's settled balance by exactly the amount, and leaves their credit and debt and every other member unchanged |
| GroupService.Stamp | src/services/group.ts:83-85 | each submitted item is kept and stamped with the creator |
| GroupService.AddToSet | src/services/group.ts:70 | `$addToSet` leaves the list alone when the id is present, and otherwise appends it at the end |
| GroupService.AddToSetIdempotent | src/services/group.ts:135 | adding the same group twice is adding it once |
| GroupService.WithIdCountsMatches | src/services/group.ts:113-121 | the filtered list has one entry per group with that id, so a length of 1 means exactly one group has it |
| GroupService.FindFirst | src/services/group.ts:86-88 | `updateOne` and `findOne` hit the first group, in collection order, that has the id (or the key) and lists the member; none matched is reported |
| GroupService.GroupService.constructor | src/models/group.ts:18-21 | empty collection; the default key is fixed once at start-up |
| GroupService.GroupService.Create | src/services/group.ts:52-79 | succeeds exactly when there is an image and the name and creator are non-empty; no image: fails before writing; empty name or creator: fails; on success appends the defaulted group, adds its id to each known member's groups, and returns the known/unknown split, which the source only logs |
| GroupService.GroupService.Store | src/services/group.ts:55-60 | `create` appends the group under the next id and changes nothing else |
| GroupService.GroupService.AddToUsers | src/services/group.ts:68-71 | adds the id to exactly the listed users' groups, and to no one else's |
| GroupService.GroupService.AddItem | src/services/group.ts:81-94 | appends the stamped items to the first matching group only when the creator is a member; otherwise nothing changes |
| GroupService.GroupService.AddBalance | src/services/group.ts:142-152 | increments the first matching member of the first matching group; nothing else changes |
| GroupService.GroupService.ReduceBalance | src/services/group.ts:154-164 | decrements it likewise |
| GroupService.GroupService.JoinGroup | src/services/group.ts:128-140 | fails with 'you cannot join this group' iff no group has both the key and the member; otherwise adds the group to the user's set; groups are untouched |
| GroupService.AddThenReduce | src/services/group.ts:142-164 | `AddBalance` then `ReduceBalance` with the same arguments leaves the store as it was: the groups, the users' group lists and the next id |
| GroupService.SameMatchesSameGroup | src/services/group.ts:145 | the group match depends only on ids and membership |
| GroupService.SharedKeyJoinsFirstGroup | src/services/group.ts:130-133 | with the shared default key, a member listed in two groups always joins the earlier one |
| GroupService.NewGroupSettlesAtBalance | src/services/group.ts:4-32 | in a new group every member has credit 0 and debt 0, and a balance equal to their stored balance |
| Auth.MessagesIdentifyErrors | src/services/auth.ts:57-153 | every error is thrown with its own message |
| Auth.Public | src/services/auth.ts:42-45 | the returned user keeps id, name, phone, role and verify, and drops password, salt and code |
| Auth.SessionFor | src/services/auth.ts:157-172 | the sign-in token carries id, role and name, and expires 60 days after issue (in seconds) |
| Auth.ResetTokenFor | src/services/auth.ts:174-185 | the reset token carries the id and expires 30 minutes after issue (in seconds) |
| Auth.ResetTokenExpiresFirst | src/services/auth.ts:157-185 | a reset token expires before a sign-in token issued at the same moment |
| Auth.AuthService.constructor | src/services/auth.ts:12-16 | empty user collection with the given hash function |
| Auth.AuthService.SignUp | src/services/auth.ts:18-52 | a taken phone fails; otherwise stores an unverified user with the hashed password, code '111111' and expiry now + 5 min, and returns it without secrets |
| Auth.AuthService.Verify | src/services/auth.ts:54-67 | errors in order: 'User not registered', 'User already verified', 'Code is not valid or expired'; on success only `verify` changes; the expiry is never read |
| Auth.AuthService.ResendCode | src/services/auth.ts:69-82 | same first two errors; on success only the expiry moves to now + 5 min |
| Auth.AuthService.ResetPasswordLinkGenerator | src/services/auth.ts:84-95 | 'User not registered', then 'User not verified'; on success only the code becomes '222222' |
| Auth.AuthService.VerifyPasswordChange | src/services/auth.ts:97-107 | 'User not found' unless phone and code match; then 'User not verified'; otherwise a reset token for that user; nothing written |
| Auth.AuthService.ChangePassword | src/services/auth.ts:109-127 | a bad token fails; then 'User not registered' unless the decoded id is a user, then 'User not verified' unless verified; on success only that user's salt and password change |
| Auth.AuthService.SignIn | src/services/auth.ts:129-155 | errors in order: not registered, not verified, 'Invalid Password'; success iff the password hashes to the stored one, giving the user without secrets and the 60-day token for that user |
| Auth.SignUpThenSignIn | src/services/auth.ts:18-155 | sign-up, verification with '111111' and sign-in with the same password succeed |
| Auth.ResetThenSignIn | src/services/auth.ts:84-155 | for a verified user, a reset, a code check with '222222' and a password change let sign-in succeed with the new password |
| Upload.ToLower | src/utils/multerUpload.ts:27 | lower-cases each ASCII letter, position by position |
| Upload.ToUpper | src/utils/multerUpload.ts:27 | upper-cases each ASCII letter, position by position |
| Upload.ContainsAt | src/utils/multerUpload.ts:26 | the regex test holds iff the pattern occurs at some position |
| Upload.MissingFirstChar | src/utils/multerUpload.ts:26 | a pattern whose first letter is absent does not match |
| Upload.FoundAt | src/utils/multerUpload.ts:26 | a pattern occurring somewhere matches |
| Upload.CheckFileType | src/utils/multerUpload.ts:25-31 | exactly one callback call; accept iff the lower-cased extension and the MIME type both contain jpeg, jpg or png; otherwise the error naming the types |
| Upload.LowerOfUpper | src/utils/multerUpload.ts:27 | upper-casing first changes nothing after lower-casing |
| Upload.ExtensionIgnoresCase | src/utils/multerUpload.ts:27 | an upper-case extension gets the same verdict |
| Upload.PngAccepted | src/utils/multerUpload.ts:25-31 | `.png` and `.PNG` with `image/png` are both accepted |
| Upload.NoImageTypeInMime | src/utils/multerUpload.ts:28 | a MIME type without `j` or `p` fails the test |
| Upload.MimeTypeIsCaseSensitive | src/utils/multerUpload.ts:28 | `image/PNG` is rejected, because the MIME type is not lower-cased |
| Upload.RejectionNamesTypes | src/utils/multerUpload.ts:30 | the rejection message names `jpeg|jpg|png` |

## Left out

- Timestamps. Both schemas set `{ timestamps: true }` (src/models/group.ts:56, src/models/user.ts:35), so Mongoose sets `createdAt` and `updatedAt` on create and moves `updatedAt` on every update. These fields are not modelled, so the records omit them.:
  - `GroupSchema.NewGroup` does not set them.
  - `GroupService.View` and `GroupService.ViewContents` do not copy them into the view.
  - `Auth.AuthService.SignUp` and `Auth.AuthService.SignIn` do not return them with the user.
  - After `GroupService.AddThenReduce`, the store equals the old one except for `updatedAt`, which is not modelled.
- `Auth.Public` leaves out the user's version key `__v`, which `toObject()` keeps (src/services/auth.ts:42-45). The version key is modelled on groups only.
- `GroupService.AddThenReduce` uses exact reals. With doubles, adding and then reducing the same amount need not restore a balance exactly.
- `GroupService.GroupService.Create` returns the known/unknown split as its result. The source only logs the two lists and returns nothing (src/services/group.ts:73-74).
- `Grouping.GroupedByName` models the dictionary with keys in insertion order. A JavaScript object lists integer-like keys first, in ascending order. A name such as `constructor` or `__proto__` makes `groups[k] || []` return a non-array, and the `push` throws. Neither case arises for the as-written key `"undefined"`.
- Logging, `console.log` and the dependency injection container. These have no effect on stored state. No SMS is sent: at src/services/group.ts:73 the message to unknown phone numbers is only a comment. The verification code `SignUp` sends through the SMS service (src/services/auth.ts:40) is left out.
- MongoDB and Mongoose. The collections are sequences and maps held in fields. Writes are atomic and run one at a time. No concurrency or interleaving of the `await`ed calls is modelled.
- The `groups` path of a user document. The user schema in src/models/user.ts declares no such path, so Mongoose strict mode would drop the `$addToSet` writes of `Create` and `JoinGroup`. The model applies the write the service asks for.
- `GroupService.GroupService.Create` does not model `JSON.parse` of the member list. It takes the parsed members. A malformed list, which throws before anything is written, is not modelled.
- Schema validation of the member and item subdocuments is not modelled. `updateOne` does not run the `status` enum validator, so an item's `status` stays a free string. Any value other than `number-of-heads` takes the weight branch (`Settlement.WeightDebtIsOwnShare`).
- `Settlement.Calculate` uses exact reals for JavaScript numbers. Doubles would round, so for example the as-written head-count debt is only close to 1. A zero total weight, and weights that are not positive integers, are outside the model (`Weight` is a positive integer). The member list must be non-empty whenever the subject is a member, and it is.
- `GroupService.GetAll` and `GroupService.GetOne` take the user's groups as group documents. No caller in the source populates `user.groups`: src/api/middlewares/attachCurrentUser.ts:17-30 loads the user with `findById` and `toObject()`, and the user schema declares no `groups` path, so as written the field is absent or holds ids and `GetAll` throws before any calculation. The model assumes the groups are already populated. A group the user is not in makes the call throw (a `TypeError` in the source), which is modelled as `Err(NotAMember)`.
- `Auth.AuthService.SignUp` models the duplicate-phone failure as `DuplicatePhone`. This stands for the unique index's E11000 error; its message text is approximate. The unreachable 'User cannot be created' branch is not modelled.
- `GroupService.Message` gives approximate texts for two errors. `MissingImage` uses the Node 15 and earlier `TypeError` wording ("Cannot read property 'filename' of undefined"); Node 16 and later say "Cannot read properties of undefined (reading 'filename')". `RequiredFieldMissing` gives only the prefix "Group validation failed" of Mongoose's `ValidationError` message.
- Password hashing (argon2) is modelled as a function `hash(password, salt)`. Verifying a password is modelled as re-hashing with the stored salt. The hash's internals are left out.
- Random salts are parameters. JWT signing, secrets and verification are left out too: `ChangePassword` receives the decoded id, or `None` when `jwt.verify` throws. Token expiry at verification time is part of `jwt.verify` and is not modelled.
- `Auth.SessionFor` models sixty days as 60 × 24 hours. The source uses `setDate(getDate() + 60)`, which can differ by an hour across a daylight-saving change.
- `Upload.CheckFileType` takes the output of `path.extname` as its input. The function `path.extname` itself is not modelled. `toLowerCase` is modelled for the ASCII letters only.
- GridFS storage, random file names, the 5 MB limit and the single-file `array('image', 1)` of the upload middleware are library configuration and are not modelled.
- The HTTP routes and their request validation are not part of this model.

## Findings

| source | as written | input that shows it | evidently intended | confidence | as-written member | corrected member |
|---|---|---|---|---|---|---|
| src/services/group.ts:26 | the head-count debt is `t - ((t / n) * n - 1)`, which is 1 for every item | A (weight 2) pays 300 split by head count in a group with B (weight 1): A gets credit 150 but B owes only 1, so the group sums to 149, not 0 | `t - (t / n) * (n - 1)`, one even share, so the group sums to zero | high; not executed | Settlement.HeadCountExample | Settlement.IntendedIsZeroSum |
| src/services/group.ts:37-39 | `groupByName` keys on `item.group`, which items do not have, so every item goes under `"undefined"` | any non-empty item list, e.g. two items named "rice" and "tea", gives one bucket `"undefined"` holding both | group by `item.name`: one bucket per distinct name, each holding exactly that name's items | high; not executed | Grouping.AsWrittenSingleBucket | Grouping.GroupedByName |
