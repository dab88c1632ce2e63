# Event programs: conflicts, readiness, sharing and scoped access

A Dafny model of the scheduling core of a Django REST service for event
programs. A *program* belongs to one user and holds time-boxed *items*. Items
must not overlap. A program that is *ready* (at least one item, every range
ending after it starts, no two items overlapping) may be *shared*: it then
receives a random, unique share token and a share instant, and anyone holding
the token may read it. Every other lookup is scoped to the owner, or to any
program for staff and superusers. A program outside the caller's scope is
reported as "not found".

Modules, one per file, following the repository's files:

- `Wrappers` (`wrappers.dfy`): `Option`, `Result` and `Outcome`.
- `Ordering` (`ordering.dfy`): an insertion sort by an integer key. It stands for the database's `order_by`.
- `Models` (`models.py`):
  - the `Item` datatype, the overlap rule and readiness as specification predicates;
  - the `Program` class, whose fields `items`, `shareToken` and `sharedAt` its methods update;
  - position assignment and token generation.
- `Serializers` (`serializers.py`):
  - item validation, with both instants given;
  - a second model of validation as written, for a request that omits an instant (see Findings);
  - `is_shared`.
- `Permissions` (`permissions.py`): the two permission classes.
- `Views` (`views.py`):
  - the request handlers' decisions over a *store*, the sequence of all programs in query order;
  - scoped lookups, listings and the dashboard, the lookup by token, sharing, and item creation and update.
- `Scenarios` (`scenarios.dfy`): the repository's tests and a few further scenarios of the code, as client methods. Each postcondition is what the test asserts or, for `AdminDashboard`, `EditAfterShare` and `FullUpdateNeedsBothInstants`, what the code promises; `ConflictAndBackToBack` proves more than its test asserts.

Instants are integers (seconds). Users are identified by number, and staff or superuser status is a flag on the actor. Errors are values of `Views.ApiError`, not HTTP responses.

Choices the code makes that another reading would make differently; the model follows the code:

- **Sibling order.** `validate` walks the siblings in the items' default ordering, which is by position. Walking them in ascending start time would report the earliest conflict; the code does not. So a rejection names the conflicting sibling with the smallest position (`Serializers.Validate`).
- **Two readings of "shared".** The share view and `generate_share_token` test the token's truthiness, so an empty token counts as unshared (`Models.Truthy`). `get_is_shared` tests `is not None` (`Serializers.IsShared`).
- **Unused error.** The "forbidden" outcome of `check_object_permissions` can never occur after a scoped lookup (`Views.ScopeIsObjectPermission`). The handlers therefore return only "unauthenticated" or "not found".

## Model

| member | source | states |
|---|---|---|
| `Ordering.SortBy` | programs/models.py:61 | the result is a permutation of the input, ordered by the key |
| `Models.Conflicts` | programs/models.py:81-91 | `_items_conflict`: two items conflict when each starts before the other ends, so touching ranges do not; its properties are the lemmas below |
| `Models.Ready` | programs/models.py:46-55 | the readiness specification: at least one item, every range ending after it starts, no two items at distinct indices conflicting |
| `Models.ConflictsSymmetric` | programs/models.py:81-91 | the overlap test gives the same answer in either argument order |
| `Models.BackToBackNeverConflict` | programs/models.py:84-91 | two items where one ends exactly when the other starts do not conflict, in either order |
| `Models.OverlapConflicts` | programs/models.py:88-91 | two strictly overlapping ranges conflict, in both orders |
| `Models.EmptyNeverReady` | programs/models.py:56-59 | a program with no items is not ready |
| `Models.InvalidItemBlocksReady` | programs/models.py:63-65 | one item with `end <= start` makes the program unready, whatever the other items are |
| `Models.BackToBackPairReady` | programs/tests/test_program_items.py:115-132 | two valid back-to-back items make a ready program, in either order |
| `Models.ConflictBlocksReady` | programs/models.py:67-69 | any two conflicting items, at any two indices, make the program unready |
| `Models.PairwiseFreePermutation` | programs/models.py:61-71 | "no pair conflicts" holds for a sequence exactly when it holds for any permutation of it |
| `Models.ReadyPermutation` | programs/models.py:56-71 | readiness is the same for any permutation of the items, so sorting by start time first does not change it |
| `Models.AppendKeepsPairwiseFree` | programs/serializers.py:35-46 | adding an item that conflicts with no existing item keeps the set conflict-free |
| `Models.ReplaceKeepsPairwiseFree` | programs/serializers.py:34-46 | replacing one item by one that conflicts with none of the others keeps the set conflict-free |
| `Models.MaxPosition` | programs/models.py:150-155 | `None` exactly for no items; otherwise a position some item has, and no item's position exceeds it |
| `Models.NextPosition` | programs/models.py:149-156 | the assigned position is 1 for an empty program; otherwise one more than an existing position, and greater than every existing position |
| `Models.FirstFreshToken` | programs/models.py:100-104 | the index of the first draw no program is using, every earlier draw being taken; `None` exactly when every draw is taken |
| `Models.Program.constructor` | programs/models.py:21-35 | a new program has its identifier and owner, no items, no token and no share instant |
| `Models.Program.IsReady` | programs/models.py:46-71 | the sort-then-scan loop returns exactly `Ready` of the program's items: non-empty, every range valid, no pair conflicting |
| `Models.Scan` | programs/models.py:63-71 | the loop over the ordered items returns exactly `Ready` of them: every range valid and no item conflicting with a later one |
| `Models.FreeAfter` | programs/models.py:67-69 | the inner loop returns true exactly when the item at `i` conflicts with none of the items after it |
| `Models.Truthy` | programs/models.py:97 | Python truthiness of the optional token, as `if self.share_token:` tests it: `None` and the empty string are false |
| `Models.Program.SharedButUnready` | programs/models.py:73-79 | true exactly when the program has a share instant and is not ready |
| `Models.Program.GenerateShareToken` | programs/models.py:93-104 | a truthy token is kept; otherwise the token becomes the first draw not among the existing tokens (43 characters, so truthy), or stays unchanged when every draw collides |
| `Models.Program.SaveNewItem` | programs/models.py:143-158 | the item is appended with its requested position, or `NextPosition` of the existing items when none is given |
| `Models.Clean` | programs/models.py:136-141 | with both instants present, accepted exactly when the range is valid; with either missing, accepted; `Serializers.CleanIsRangeCheck` ties it to the serializer's range check |
| `Serializers.CleanIsRangeCheck` | programs/serializers.py:23-32 | `clean` accepts exactly what `validate` accepts without a program in its context, and `validate` refuses everything else under `end_time` |
| `Models.ThreeDefaultPositions` | programs/models.py:149-156 | three items saved without positions into an empty program get 1, 2 and 3 |
| `Serializers.CheckConflict` | programs/serializers.py:48-51 | `_check_conflict` on bare instants: strict overlap of the two ranges |
| `Serializers.CheckConflictIsItemsConflict` | programs/serializers.py:48-51 | the serializer's overlap test and the model's are the same rule |
| `Serializers.CheckConflictSymmetric` | programs/serializers.py:49-51 | the serializer's overlap test is symmetric in its two ranges |
| `Serializers.TouchingAccepted` | programs/serializers.py:49-51 | ranges that only touch are not a conflict |
| `Serializers.Exclude` | programs/serializers.py:35-37 | exactly the items other than the one being updated; all items when creating |
| `Serializers.Siblings` | programs/serializers.py:34-37 | the same items as `Exclude`, ordered by position |
| `Serializers.Validate` | programs/serializers.py:14-46 | an inverted range fails under `end_time`; without a program, the range check alone decides; otherwise it passes exactly when no sibling conflicts; a conflict failure names a conflicting sibling, the one with the smallest position |
| `Serializers.ResaveOwnTimesNoConflict` | programs/serializers.py:35-37 | in a conflict-free program, an item re-saved with its own times conflicts with none of its siblings |
| `Serializers.CheckConflictAsWritten` | programs/serializers.py:48-51 | `_check_conflict` on instants that may be missing: `None` stands for the `TypeError` of comparing `None` with a stored instant, and `and` short-circuits |
| `Serializers.ScanAsWritten` | programs/serializers.py:39-44 | the sibling loop as written: stops at the first conflict or error |
| `Serializers.ValidateAsWritten` | programs/serializers.py:14-46 | `validate` as written, on the instants the request carries: range check only when both are present, siblings compared with the request's instants |
| `Serializers.ScanWithBothInstants` | programs/serializers.py:39-44 | with both instants present, the sibling loop as written never raises, and accepts exactly when no sibling conflicts |
| `Serializers.ValidateAsWrittenWithBothInstants` | programs/serializers.py:20-46 | with both instants present, `validate` as written never raises, and accepts exactly what `Validate` passes |
| `Serializers.PartialUpdateAcceptsInvertedRange` | programs/serializers.py:20-32 | a partial update sending only an end time before the stored start is accepted, although the resulting range is invalid |
| `Serializers.PartialUpdateWithSiblingRaises` | programs/serializers.py:40-51 | for example, 10:00-11:00 PATCHed with only start 09:30 beside 09:00-10:00 raises `TypeError` |
| `Serializers.ScanStartOnly` | programs/serializers.py:39-51 | with only a start time, the loop as written raises `TypeError` exactly when some sibling ends after that start, and accepts otherwise |
| `Serializers.PartialUpdateEarlyStartRaises` | programs/serializers.py:20-51 | a partial update sending only a start time raises `TypeError` whenever a sibling ends after that start |
| `Serializers.ScanStartAfterAll` | programs/serializers.py:39-44 | a start time no earlier than every sibling's end passes the loop as written, even without an end time |
| `Serializers.PartialUpdateWithoutStartRaises` | programs/serializers.py:40-51 | a PATCH without `start_time` raises `TypeError` on every item that has a sibling, whatever else it changes |
| `Serializers.PartialUpdateLateStartAccepted` | programs/serializers.py:20-44 | a PATCH with only a start time no earlier than every sibling's end is accepted, whatever the stored end |
| `Serializers.PartialUpdateLateStartInvertsRange` | programs/serializers.py:20-44 | 09:00-10:00 with a sibling 10:00-11:00, PATCHed with start 11:30 alone, is accepted and becomes the inverted 11:30-10:00 |
| `Serializers.IsShared` | programs/serializers.py:72-74 | true exactly when a token is present; every truthy token counts |
| `Serializers.SharedReadingsAgree` | programs/serializers.py:72-74 | for every token a program holds here (none, or a generated 43-character one), `is_shared` equals the truthiness test of the share view |
| `Serializers.SharedReadingsDiffer` | programs/serializers.py:72-74 | the two readings of "shared" disagree exactly on the empty token |
| `Permissions.HasObjectPermission` | programs/permissions.py:11-17 | `IsOwnerOrAdmin.has_object_permission`: admins, then the owner |
| `Permissions.HasPermission` | programs/permissions.py:27-37 | `IsAuthenticatedOrReadOnlyShared.has_permission`: signed-in callers, then safe methods |
| `Permissions.AdminGranted` | programs/permissions.py:11-14 | staff and superusers have object permission on every program |
| `Permissions.NonAdminGrantedIffOwner` | programs/permissions.py:11-17 | a non-admin actor has object permission exactly when they are the owner |
| `Permissions.AnonymousNeverHasObjectPermission` | programs/permissions.py:11-17 | an anonymous caller has no object permission on any program |
| `Permissions.AuthenticatedAlwaysPasses` | programs/permissions.py:27-30 | a signed-in actor passes the view-level check for every method |
| `Permissions.AnonymousReadOnly` | programs/permissions.py:27-37 | an anonymous caller passes exactly for GET, HEAD and OPTIONS |
| `Views.InScope` | programs/views.py:50-54 | the filter of the scoped lookups (also lines 142-144 and 173-176): every program for staff or a superuser, the user's own otherwise |
| `Views.ScopeIsObjectPermission` | programs/views.py:50-59 | the handlers' lookup scope is exactly the object permission, so a program found in scope always passes the permission check |
| `Views.ScopedProgram` | programs/views.py:50-54 | a found program is in the store, has the identifier and is in scope; not found exactly when no program with that identifier is in scope |
| `Views.ScopedProgramFinds` | programs/views.py:140-144 | with unique identifiers, the lookup returns program `p` when it is in scope, and "not found" otherwise |
| `Views.RetrieveProgram` | programs/views.py:50-61 | anonymous callers are refused; a signed-in caller fails exactly when no program with that identifier is one they have object permission on, and then only with "not found", never "forbidden"; with unique identifiers, the program with that identifier is returned exactly when the caller has object permission on it |
| `Views.FindItem` | programs/views.py:178 | the index of the first item with that identifier; `None` exactly when no item has it |
| `Views.ProgramAndItem` | programs/views.py:171-179 | an item is found only among the scoped program's own items; not found when the program is out of scope or lacks the item |
| `Views.ListItems` | programs/views.py:146-151 | the scoped program's items, all of them, ordered by position; "not found" out of scope |
| `Views.Visible` | programs/views.py:22-28 | exactly the programs in the user's scope, each as often as in the store; the whole store for an admin |
| `Views.ListPrograms` | programs/views.py:22-31 | a signed-in caller gets exactly the programs they may act on, with their multiplicity |
| `Views.Dashboard` | programs/views.py:218-232 | exactly the caller's programs (all of them for an admin), and `total_count` is the number returned |
| `Views.FindByToken` | programs/views.py:243 | a program holding the token, or `None` exactly when no program holds it |
| `Views.FindByTokenFinds` | programs/views.py:241-245 | with unique tokens, a program's token leads to that program |
| `Views.SharedProgram` | programs/views.py:235-245 | anyone, signed in or not, gets the program holding the token; "not found" exactly when none holds it |
| `Views.ShareProgram` | programs/views.py:97-130 | the share state machine. Already shared (truthy token): old token and instant returned, marked "already shared", nothing changes. Unshared and not ready: `NotReady`, nothing changes. Unshared and ready: a token unused by every program, the share instant `now`, and the program reads as shared. Token uniqueness across the store is preserved. Items never change |
| `Views.CreateItem` | programs/views.py:153-160 | succeeds exactly when the range is valid and conflicts with no existing item; the item is appended with its requested or next position; a failure changes nothing and names a conflicting item; a ready-compatible program stays ready |
| `Views.Missing` | programs/views.py:187-191 | the instants a request leaves out |
| `Views.UpdateItem` | programs/views.py:187-203 | a full update (PUT) that leaves out an instant is refused under the missing fields and changes nothing; in a partial update (PATCH) omitted instants are taken from the stored item; an omitted position is the stored one; succeeds exactly when the resulting range is valid and conflicts with no other item; a valid range that fails is refused as a time conflict naming another item of the program it overlaps; the item is replaced in place; a failure changes nothing; readiness is preserved |
| `Scenarios.ShareGatingAndIdempotence` | programs/tests/test_sharing.py:25-67 | sharing an empty program fails; after one item it yields a token; sharing again returns the same token and instant, marked "already shared" |
| `Scenarios.ConflictAndBackToBack` | programs/tests/test_program_items.py:73-94 | with 09:00-10:30 present, 10:00-11:00 is refused as a conflict with it (what the test asserts); beyond the test, 10:30-11:30 is then accepted and the program is ready |
| `Scenarios.InvertedRangeRefused` | programs/tests/test_program_items.py:24-54 | an inverted range is refused under `end_time`, both on creation and on a PATCH carrying both instants |
| `Scenarios.FullUpdateNeedsBothInstants` | programs/views.py:187-194 | a PUT that leaves out `end_time` is refused for that field |
| `Scenarios.PrivateById` | programs/tests/test_programs.py:46-57 | another user's program is "not found" by identifier |
| `Scenarios.PublicByToken` | programs/tests/test_public_access.py:34-47 | a shared program's token lets an anonymous caller read it, with its one item; an unknown token is "not found" |
| `Scenarios.OwnDashboard` | programs/tests/test_dashboard.py:20-32 | a user owning two of three programs sees two programs and a count of two |
| `Scenarios.AdminDashboard` | programs/views.py:222-223 | beyond the tests: an administrator sees every program |
| `Scenarios.EditAfterShare` | programs/models.py:73-79 | beyond the tests: a shared program edited into an overlap keeps its token and is reported as shared but unready |

## Left out

- HTTP and REST framework plumbing is not modelled: response bodies, status codes, serializer field lists, messages, `share_url` and `build_absolute_uri`. Outcomes are `Result` values.
- Routing (`programs/urls.py`) and the admin registration (`programs/admin.py`) are configuration only.
- `secrets.token_urlsafe(32)` is a parameter: `draws`, the generator's successive outputs, each 43 characters long.
- The `while True` retry loop has no bound in the source. Here it tries the finite `draws` in order, and running out of draws is a model-only outcome (`TokenSpaceExhausted`) that leaves the program unchanged.
- `timezone.now()` is the parameter `now`.
- Storage behaviour is not modelled:
  - enforcement of `unique_together` on (program, position) and of `unique=True` on the token, so a duplicate position is not refused;
  - concurrent requests;
  - cascade deletes;
  - `save()` persistence.
  Token uniqueness is instead kept as an invariant (`Views.DistinctTokens`) that `Views.ShareProgram` preserves.
- `Views.ShareProgram`: token uniqueness is proved only for a store whose program identifiers are unique. That is what primary keys guarantee.
- `Views.UpdateItem`: readiness is preserved only when the item identifiers of the program are unique. That is what primary keys guarantee.
- `Serializers.Validate`: both instants are integers. The path where a request omits one is modelled separately as `Serializers.ValidateAsWritten` (see Findings).
- Query order is not modelled. The store's sequence order stands for `ordering = ['-created_at']`, and the listings keep it.
- Program creation (`ProgramView.post`) is only its authentication and the new program's initial state (`Models.Program.constructor`): it does no lookup. Program update and delete (`ProgramDetailView.put/patch/delete`) and item delete (`ProgramItemDetailView.delete`) are only their lookup and permission decisions (`Views.RetrieveProgram`, `Views.ProgramAndItem`). Their field updates and deletions carry no scheduling logic.
- `Views.RetrieveProgram`: which program is returned is stated only for unique program identifiers (primary keys); with duplicates the contract says only that the result carries the identifier and is in scope.
- `Views.UpdateItem`: of the fields a full update (PUT) requires, only the two instants are modelled; a PUT without `title` is not refused here.
- An explicit `null` position in an update is not modelled; `save` would replace it with the next position. An omitted position keeps the stored one.
- Display-only fields (`title`, `description`, `date`, `capacity`, `created_at`, `updated_at`) and `item_count` carry no logic.

## Findings

| source | as written | input that shows it | evidently intended | confidence | as-written member | corrected member |
|---|---|---|---|---|---|---|
| programs/serializers.py:20-44 | a partial update (PATCH) reads only the instants present in the request. The range check runs only when both are present. The siblings are compared with the missing instant (`None`) instead of the stored one. | One item 09:00-10:00 alone in its program, PATCHed with only `end_time` 08:00: accepted, leaving range 09:00-08:00. Items 09:00-10:00 and 10:00-11:00, the first PATCHed with only `start_time` 11:30: accepted, leaving 11:30-10:00 (any start no earlier than every sibling's end is). On any item with a sibling, every PATCH without `start_time`, even one that changes only the title, raises `TypeError` (a server error, not a validation error); so does every PATCH with only a `start_time` earlier than some sibling's end, such as 10:00-11:00 PATCHed with only `start_time` 09:30 beside 09:00-10:00. | merge the omitted instants from the stored item, then check the merged range and its conflicts | not executed | `Serializers.PartialUpdateAcceptsInvertedRange`, `Serializers.PartialUpdateLateStartInvertsRange`, `Serializers.PartialUpdateLateStartAccepted`, `Serializers.PartialUpdateWithoutStartRaises`, `Serializers.PartialUpdateEarlyStartRaises`, `Serializers.PartialUpdateWithSiblingRaises` (about `Serializers.ValidateAsWritten`) | `Views.UpdateItem` |
