# Household registry: a Dafny model

This project models the core of a social-register web service. Case workers
register households and their members there, keep them up to date and search
them. The model covers the three tables of the database (users, households,
household members) and the constraints the database enforces. It also covers
every operation of the user and household endpoints. Each operation is one
transaction against that database.

- `common.dfy` (module `Common`): optional values, the request outcomes
  (`BadRequest`, `Forbidden`, `NotFound`, `StoreError`) and the HTTP codes they
  are reported with. It also defines a table with an auto-increment key
  (`Rows`: rows by key, keys in store order, next key) and the query building
  blocks `Listing` (store order), `Page` (`OFFSET`/`LIMIT`) and `Select`
  (`WHERE`).
- `models.dfy` (module `Models`): the rows of `users`, `households` and
  `household_members`, and the column defaults.
  - The constraints checked when a transaction commits (`Consistent`): unique
    username, email, household national id and member national id; members
    point at existing households; households point at existing users.
  - The committed state (`Store`) adds well-formed tables and rows stored
    under their own keys.
  - It also requires the derived-income invariant: every household's
    `total_monthly_income` is the exact sum of its members' incomes, a missing
    income counting as zero. Amounts are whole hundredths, so `Numeric(10,2)`
    arithmetic is exact.
- `households.dfy` (module `Households`): the registration input, the rows a
  registration inserts (`Registered`: one insertion per member, in input
  order), the partial updates of a household and of a member, the role gate,
  and the search predicate (`ILIKE '%pattern%'` with ASCII case folding, the
  filters combined with AND).
- `users.dfy` (module `Users`): the user patch (fields may be absent or
  explicitly null), the admin and ownership gates, and the row a sign-up
  inserts.
- `registry.dfy` (module `Registry`): class `Registry`, whose fields are the
  three tables. It has one method per endpoint, and every method keeps
  `Valid()`: the store is always a committed state.
  - A failed gate, lookup or commit leaves every field unchanged.
  - A successful call states the new tables exactly.
  - Registration inserts the household and its members and accumulates the
    total in one loop (`InsertMembers`), then commits everything at once or
    nothing.
  - A member update recomputes the household total with a second loop
    (`SumIncomes`).

Behaviours of the code worth knowing, all modelled as the code has them:

- Only a taken username is pre-checked on sign-up, and only a taken household
  national id on registration.
- A taken email, a duplicate or taken member national id, or an update that
  creates a duplicate is not pre-checked. The database refuses the commit,
  the exception is not handled, and the request fails with a 500
  (`StoreError`), not with a conflict error.
- The ownership gate of a user update does not look at what is changed, and no
  constraint looks at the role. A caller of any role may therefore give
  themselves any role, and such an update always succeeds (`SelfRoleChange`
  with the success clause of `UpdateUser`).
- A patch that writes NULL into a NOT NULL column (a user's email or role, a
  household's address, a member's names or date of birth) is refused by the
  database at commit, with a 500.
- Amounts are exact, so the total of 100.00, none and 50.50 is 150.50
  (`RegistrationIncomeExample`).

The hash function, the current date and the calling user are parameters of
the operations.

## Model

| member | source | states |
|---|---|---|
| Common.StatusCode | app/routers/households.py:18-33 | every failure is reported with a 4xx or 5xx code, and with 500 exactly when the database refused the commit |
| Common.TableInsert | app/models.py:23 | inserting under the next key keeps a table well formed: keys unique in store order, every key listed, next key above all |
| Common.InsertedTable | app/models.py:47 | the same for a `Rows` table: `Inserted` keeps its shape |
| Common.TableUpdate | app/routers/households.py:106-107 | rewriting a stored row in place keeps the table's shape |
| Common.Listing | app/routers/households.py:82 | a query without ORDER BY returns one record per key, in store order |
| Common.Page | app/routers/households.py:82 | `OFFSET skip LIMIT limit`: at most `limit` records, exactly `Min(n - skip, limit)` of them, the i-th being record `skip + i` |
| Common.Select | app/routers/households.py:164-181 | a WHERE clause keeps exactly the records satisfying it, in order |
| Common.SelectSelect | app/routers/households.py:166-179 | two filters applied in turn select exactly what their conjunction selects, in the same order |
| Common.SelectAppend | app/routers/households.py:164-181 | filtering distributes over concatenation |
| Common.SelectExt | app/routers/households.py:164-181 | filters that agree on every record select the same records |
| Common.SelectAll | app/routers/households.py:164 | the unfiltered query returns every household |
| Common.ListingValues | app/routers/households.py:164 | a listing over all keys contains exactly the stored records |
| Models.MembersOf | app/models.py:41 | the `members` relationship finds no more rows than the table has |
| Models.MembersOfListed | app/models.py:41 | the `members` relationship of a household lists exactly the stored rows, among those in store order, whose household key is that household |
| Models.Incomes | app/routers/households.py:144-147 | the incomes summed are those of the members, one per member, in order |
| Models.TotalAppend | app/routers/households.py:144-147 | the total of a concatenation is the sum of the totals |
| Models.TotalOfNothing | app/routers/households.py:145 | amounts that are all missing or zero total zero |
| Models.MembersOfSnoc | app/routers/households.py:140-142 | scanning one more row finds one more member exactly when that row belongs to the household |
| Models.HouseholdIncomeLast | app/routers/households.py:144-147 | a household's income is that of all rows but the last plus what the last row adds: its income, or zero when missing, when it belongs to the household |
| Models.HouseholdIncomeStep | app/routers/households.py:144-147 | scanning one more row adds its income, or zero when missing, exactly when it belongs to the household |
| Models.MembersOfNone | app/routers/households.py:140-142 | a household none of whose rows is listed has no members |
| Models.MembersOfFresh | app/models.py:47 | a row under a key the store order does not list changes no household's members |
| Models.MembersOfInsert | app/routers/households.py:52 | appending a fresh row adds it to its own household's members, at the end, and to no other household's |
| Models.MembersOfAppend | app/routers/households.py:140-142 | the members found in two stretches of store order are those of the first followed by those of the second |
| Models.MembersOfExtend | app/models.py:47 | rows under keys the store order does not list change no household's members |
| Models.MembersOfOther | app/routers/households.py:136-142 | rewriting a member of one household leaves every other household's members as they were |
| Models.IncomeUntouched | app/routers/households.py:139-149 | a member rewrite that keeps the household and the income changes no household's recomputed income |
| Models.ConsistentIgnoresTotal | app/models.py:36 | no constraint looks at a household's total: changing it cannot make a commit fail or succeed |
| Models.RecomputedIncome | app/routers/households.py:139-149 | after a member rewrite, setting its household's total to the recomputed sum restores the income invariant for every household |
| Models.RecomputeKeepsTotal | app/routers/households.py:139-149 | when the rewrite keeps the member's household and income, the recomputed total is the stored one |
| Households.NewIds | app/models.py:47 | rows inserted one after another take consecutive keys from the next one on |
| Households.MemberRows | app/routers/households.py:45-49 | one member row per submitted member, in input order, with consecutive ids and the new household's id |
| Households.NewMembers | app/routers/households.py:45-52 | the rows a registration inserts are stored exactly under the consecutive new keys, each holding its submitted member |
| Households.MembersOfNewRows | app/routers/households.py:45-52 | scanning the new keys finds exactly the submitted members, in input order |
| Households.MembersOfNewRowsOther | app/routers/households.py:45-52 | the new rows belong to no other household |
| Households.RegisteredMembers | app/routers/households.py:45-52 | after a registration the new household's members are the existing ones followed by its submitted rows; every other household keeps its members |
| Households.RegisteredTable | app/models.py:47 | a registration's insertions keep the member table well formed |
| Households.RegisteredKeyed | app/models.py:47 | a registration's rows are stored under their own ids |
| Households.InputIncomes | app/routers/households.py:50-51 | the submitted incomes, one per member, in input order |
| Households.RegisteredNext | app/models.py:47 | the member key sequence moves on by one per submitted member |
| Households.RegisteredOrder | app/routers/households.py:45-52 | the new rows come after the existing ones in store order, in input order |
| Households.RegisteredById | app/routers/households.py:45-52 | after a registration the member table holds the old rows and the new rows under the new keys |
| Households.RegistrationStep | app/routers/households.py:45-52 | each further member inserts one more row under the next key and adds its income, or zero, to the total |
| Households.RegistrationIncome | app/routers/households.py:44-55 | the incomes of the inserted rows total exactly the submitted incomes |
| Households.RegistrationIncomeExample | app/routers/households.py:44-55 | incomes 100.00, none and 50.50 total exactly 150.50 |
| Households.DuplicateInputRefused | app/models.py:49 | two submitted members with the same national id make the registration's commit fail |
| Households.TakenMemberIdRefused | app/models.py:49 | a submitted member whose national id is already stored makes the commit fail |
| Households.ApplyHouseholdPatch | app/routers/households.py:105-107 | refused exactly when the patch nulls the NOT NULL address; otherwise every column the patch sets takes its value and every other column keeps its own; id, registration date, registrant and total never change |
| Households.ApplyMemberPatch | app/routers/households.py:135-137 | refused exactly when the patch nulls a name or the date of birth, NOT NULL columns; otherwise the same per-column rule, and the member keeps its id and its household |
| Households.Fold | app/routers/households.py:167 | case folding keeps the length and lowers each character |
| Households.Contains | app/routers/households.py:167 | `%pattern%` matches exactly when the pattern occurs at some position of the text |
| Households.SearchIsConjunction | app/routers/households.py:164-181 | narrowing by each supplied filter in turn returns, in store order, exactly the households satisfying all supplied filters |
| Households.ILikeIgnoresCase | app/routers/households.py:177-178 | matching does not depend on the case of the value or of the pattern |
| Households.FoldTwice | app/routers/households.py:167 | folding is idempotent |
| Households.MemberNameExample | app/routers/households.py:177-178 | the name "Joanna" matches the pattern "ANN" |
| Users.PatchUser | app/routers/users.py:58-59 | a patch writes exactly the fields it sets and leaves id, username and password hash alone; it is refused exactly when it nulls email or role, NOT NULL columns |
| Users.SelfRoleChange | app/routers/users.py:51-61 | any stored caller passes the gate for their own record, a role-only patch gives them the role they ask for, and the result still satisfies every constraint, so the update commits |
| Registry.Registry.constructor | app/models.py:7-64 | the empty database is a committed state |
| Registry.Registry.CreateUser | app/routers/users.py:10-26 | a taken username gives 400 and a taken email the refused commit, both leaving the store unchanged; it succeeds exactly when both are free, inserting under the next key a row with the hash of the password, never the password, and the default activity flag |
| Registry.Registry.ReadUsersMe | app/routers/users.py:28-30 | returns the caller's own record |
| Registry.Registry.ReadUsers | app/routers/users.py:32-42 | 403 exactly when the caller is not an admin; otherwise the requested page of users in store order, by default the first 100 |
| Registry.Registry.UpdateUser | app/routers/users.py:44-63 | 403 when a non-admin names someone else, even a missing user; otherwise 404 when absent; a refused commit leaves the store unchanged. It succeeds exactly when the gate passes, the user exists and the patched row commits, and then only that user's row changes, to the patched row |
| Registry.Registry.CreateHousehold | app/routers/households.py:12-59 | 403 unless admin or case worker, then 400 when the national id is taken, then all or nothing. It succeeds exactly when the gate and the pre-check pass and the new rows commit. The household, with today's date, the caller as registrant and the submitted total, and its members are then inserted, and listing its members gives back the submitted rows |
| Registry.Registry.Commit | app/routers/households.py:57 | committing a state that satisfies the constraints makes it the store's |
| Registry.Registry.InsertMembers | app/routers/households.py:44-52 | the loop inserts the registration's rows and its running total is the exact sum of the submitted incomes, missing or zero adding nothing |
| Registry.Registry.GetHousehold | app/routers/households.py:61-73 | the household with that id, or 404 exactly when there is none |
| Registry.Registry.ListHouseholds | app/routers/households.py:75-83 | the requested page of households in store order, by default the first 100 |
| Registry.Registry.UpdateHousehold | app/routers/households.py:85-111 | 403, then 404, then all or nothing. It succeeds exactly when the gate passes, the household exists and the patched row commits; only that household's row changes, to the patched row, and its members and total are untouched |
| Registry.Registry.UpdateHouseholdMember | app/routers/households.py:113-153 | 403; 404 unless the member exists under that household; then all or nothing. It succeeds exactly when those checks pass and the patched row commits. Only that member's row changes, and only its household's total changes, to the recomputed sum; that total is unchanged when the patch does not touch the income |
| Registry.Registry.SumIncomes | app/routers/households.py:140-147 | the recalculation loop yields exactly the household's income |
| Registry.Registry.SearchHouseholds | app/routers/households.py:156-181 | the households in store order that satisfy every supplied filter; a household is found exactly when it is stored and matches |
| Registry.NoMembersYet | app/routers/households.py:40-41 | the id a new household receives has no members yet |
| Registry.RegistrationListing | app/routers/households.py:45-52 | after a registration, listing the new household's members finds exactly its submitted rows, in input order |
| Registry.UserInsertKeepsStore | app/routers/users.py:23-24 | a sign-up whose commit the database accepts leaves a committed state |
| Registry.UserUpdateKeepsStore | app/routers/users.py:58-61 | so does an accepted user update |
| Registry.HouseholdUpdateKeepsStore | app/routers/households.py:105-109 | so does an accepted household update, which keeps the total |
| Registry.RegistrationKeepsStore | app/routers/households.py:35-57 | so does an accepted registration: the new total is its members' income and no other household gains a member |
| Registry.RegisteredIncome | app/routers/households.py:44-57 | after a registration every household's total, the new one included, is the sum of its members' incomes |
| Registry.MemberUpdateKeepsStore | app/routers/households.py:135-151 | so does an accepted member update with the total recomputed |

## Left out

- HTTP, authentication and bearer tokens are not modelled: the calling user is a parameter, assumed authenticated and active. Token issuing and the 401 path belong to code that is not part of this model.
- Password hashing is a parameter (`hash`), not an algorithm.
- `created_at`, `last_login` and `updated_at` timestamps are not modelled. The registration date is a parameter (`today`), not a clock read.
- Request validation, such as e-mail syntax, required fields and type errors (422 responses), is not modelled. The request shapes are taken as already validated.
- Nullable columns held as always present: `household_national_id` and `status` of a household, and `national_id` and `is_household_head` of a member. A NULL in any of them is not modelled. A patch can change them but cannot null them. Uniqueness treats every national id as a value, whereas the database lets several NULLs coexist.
- Commit failures other than constraint violations, such as a lost connection or a store fault, are not modelled: `StoreError` arises exactly when a constraint is violated.
- A patch that nulls `is_active` is committed, as in the code. A response that then carries that user cannot be serialised, because the response schema requires a boolean. The code thus answers 500 after the write has been committed, while the model returns the updated row.
- Column widths (`String(n)`) and the range of `Numeric(10,2)` and `Integer` are not modelled. Amounts are unbounded whole hundredths, so a total that would overflow the column is not refused.
- `ILIKE` treats `%` and `_` inside the pattern as wildcards. The model treats them as ordinary characters and folds ASCII letters only, not the database's locale-aware folding.
- A failed commit does not consume sequence values in the model. In the database the flushed household and members may have drawn ids that are then skipped.
- `skip` and `limit` are natural numbers, defaulting to 0 and 100 as the query parameters do. Negative values have database-dependent meaning and are not modelled.
- app/schemas.py defines none of `HouseholdCreate`, `HouseholdMemberCreate`, `HouseholdUpdate`, `HouseholdMemberUpdate`, `HouseholdInDB` and `HouseholdMemberInDB`. The model assumes request shapes over the columns of app/models.py. The patches cover every column except keys, registration date, registrant and total.
- The registration input is assumed to carry neither a household `status` nor a member `is_household_head`, so their column defaults always apply (app/models.py:38 and :60). A request that submits them stores the submitted values in the code, which `NewHousehold` and `NewMember` do not capture.
- Concurrent requests, isolation levels and autoflush ordering are not modelled; each operation runs alone.
- The join of a member-name search may match several members of one household. The model returns each household once, as the ORM's de-duplication of single-entity results does.
- Row order without ORDER BY is not modelled. Queries without ORDER BY are modelled as returning rows in store order, the order of insertion. This affects `ListHouseholds`, `ReadUsers` and `SearchHouseholds`, which rows land on each page, and the `members` relationship. The database promises no order without ORDER BY.
