# organize-me: accounts and households

A model of the account store behind the organize-me household backend
(`app/core/models.py`). The database is three tables:

- households, each with a unique name and two many-to-many grocery lists
  (the grocery list and the shopping list);
- users, keyed by a unique e-mail, with a display name, the active, staff and
  superuser flags, a stored password and an optional household;
- groceries, each with a name, an integer quantity and one owning household.

`UserManager.create_user` checks the e-mail and normalises it. It sets the
given password, or a generated one when none is given. When a household name
is given, it fetches or creates that household and links the user to it, then
saves the user. `create_superuser` does the same and then sets the staff and
superuser flags. A grocery displays as `name: quantity`. Deleting a household
cascades to its users and its groceries.

Files:

- `results.dfy`: `Option` and `Result`.
- `text.dfy`: the e-mail normalisation, which splits at the last `@` and
  lower-cases the domain part. Also the decimal rendering of an integer and
  the parser that reads it back.
- `models.dfy`: the rows and the tables as values. `Valid` holds the rules
  the tables obey: the database's own constraints (unique household names,
  unique e-mails, foreign keys that point at stored rows) and two invariants
  that the manager's operations keep (every stored e-mail is non-empty and
  already normalised). It also holds one function per operation giving
  the tables it leaves and what it returns or raises, and lemmas relating
  several calls.
- `store.dfy`: class `Database`. Its map fields are the tables. Its methods
  change them step by step, as the manager does, and each is proved to keep
  `Valid` and to end in the state the matching function of `models.dfy`
  gives.

Two operations the manager relies on are abstract here:

- Password hashing is `MakePassword`/`CheckPassword`. A credential checks
  against the text it was made from and against no other text.
- `make_random_password` is the parameter `generated`.

## Model

| member | source | states |
|---|---|---|
| `Models.CreateUser` | app/core/models.py:16-30 | An empty e-mail raises `EmptyEmail`. An e-mail whose normalised form is already stored raises `DuplicateEmail`. Either failure leaves the tables unchanged. On success the stored user is keyed by the normalised e-mail and added with nothing else of users or groceries changed; it is active, not staff, not superuser and has the given name; its credential checks against the given password, or against the generated one when the password is missing or empty. With an empty household name the user has no household and the household tables are unchanged. With a non-empty name the user's household has that name, and the household tables and the user's household are exactly what get-or-create of that name gives: an existing household of that name is reused without touching the household tables, and otherwise exactly one new empty household is added. The integrity rules hold afterwards |
| `Models.CreateSuperuser` | app/core/models.py:32-40 | Succeeds exactly when `create_user` with an empty display name does, and fails with the same result and tables. On success the user is `create_user`'s user with `is_staff` and `is_superuser` set, stored under the same e-mail in `create_user`'s tables. The integrity rules hold afterwards |
| `Models.GetOrCreateHousehold` | app/core/models.py:25 | Returns a stored household with the given name. If the name was stored, it returns that household and the tables are unchanged. Otherwise exactly one new empty household with a fresh key is added to the rows and to the name index. The integrity rules hold afterwards |
| `Models.GetOrCreateHouseholdIdempotent` | app/core/models.py:25 | A second get-or-create of the same name returns the same household and changes nothing |
| `Models.CreateUserSharesHousehold` | app/core/models.py:24-27 | Two users created in turn with the same household name are linked to the same household, and the second creation adds no household |
| `Models.ValidHouseholdNamesUnique` | app/core/models.py:9 | In tables that obey the integrity rules, no two households share a name |
| `Models.GroceryDisplay` | app/core/models.py:68-69 | The display string starts with the grocery's name, followed by `": "`. The rest parses back as the quantity in decimal |
| `Models.DeleteHousehold` | app/core/models.py:51-52 | Deleting a household removes it from the rows and from the name index. It removes exactly the users and the groceries that refer to it, and keeps every other row unchanged. Each remaining household keeps its name and loses from its lists exactly the deleted groceries |
| `Models.DeleteHouseholdPreservesValid` | app/core/models.py:65-66 | After the cascade, no user, grocery or list entry refers to a deleted row, and the other integrity rules still hold |
| `Models.DeleteMissingHouseholdIsNoop` | app/core/models.py:51-52 | Deleting a household that is not stored leaves the tables unchanged |
| `Models.CreateUserAsWritten` | app/core/models.py:24-28 | Creation that gets or creates and saves the household and then saves the user raises exactly for an empty or already stored e-mail, and the integrity rules hold afterwards |
| `Models.AsWrittenDiffersOnlyOnDuplicateWithNewHousehold` | app/core/models.py:24-28 | Saving the household before the user and checking the e-mail first give different results exactly when a non-empty, already stored e-mail comes with a household name that is not stored yet |
| `Models.DuplicateEmailLeavesHousehold` | app/core/models.py:25-28 | Take a store holding user `a@b`. Creating `a@b` again with household `Home`, saving the household before the user, raises `DuplicateEmail`, and a household `Home` that was not there before is now stored |
| `Models.MakePassword` | app/core/models.py:23 | A freshly set credential is never the unset one and checks against the password it was set from |
| `Models.CheckPassword` | app/core/tests/test_models.py:22 | An unset credential checks against no password |
| `Models.PasswordChecksOnlyItsOwnText` | app/core/models.py:23 | A credential set from one password checks against that password and against no other |
| `Models.EffectivePassword` | app/core/models.py:21-22 | The given password is used when it is present and non-empty, and the generated one otherwise; when the generator gives a non-empty password, the password set is never empty |
| `Text.NormalizeEmail` | app/core/models.py:20 | The normalised address has the same length as the given one, each character is either kept or lower-cased, and an address without `@` is kept as given |
| `Text.NormalizeEmailSplits` | app/core/models.py:20 | For `local@domain` with no `@` in the domain part, normalisation keeps the local part as given and lower-cases the domain part |
| `Text.NormalizeEmailWithoutAt` | app/core/models.py:20 | An address without `@` is stored as given |
| `Text.NormalizeEmailIdempotent` | app/core/models.py:20 | Normalising an already normalised address changes nothing. This is why every stored e-mail is in normal form |
| `Text.NormalizeEmailExample` | app/core/tests/test_models.py:24-33 | `test@TEST.com` is stored as `test@test.com` |
| `Text.IntToDecimal` | app/core/models.py:69 | The rendering of a non-negative integer is a non-empty run of digits without a leading zero, except `0` itself; a negative integer renders as `-` followed by such a run that does not start with `0` |
| `Text.IntToDecimalRoundTrip` | app/core/models.py:69 | Parsing the decimal rendering of any integer, negative ones included, gives that integer back |
| `Text.ParseIntOnlyAcceptsRenderings` | app/core/models.py:69 | Any string the parser accepts is exactly the rendering of the integer it reads, so the rendering is one-to-one |
| `Store.Database.GetOrCreateHousehold` | app/core/models.py:25 | Keeps the integrity rules. Leaves the tables and returns the key exactly as `Models.GetOrCreateHousehold` says |
| `Store.Database.CreateUser` | app/core/models.py:16-30 | Keeps the integrity rules. Leaves the tables and returns the user or error exactly as `Models.CreateUser` says |
| `Store.Database.CreateSuperuser` | app/core/models.py:32-40 | Keeps the integrity rules. Leaves the tables and returns the user or error exactly as `Models.CreateSuperuser` says |
| `Store.Database.DeleteHousehold` | app/core/models.py:51-52 | Keeps the integrity rules. Leaves the tables exactly as `Models.DeleteHousehold` says |

## Findings

| source | as written | input that shows it | evidently intended | confidence | as-written member | corrected member |
|---|---|---|---|---|---|---|
| app/core/models.py:24-28 | The household is fetched or created and saved before the user row is saved. A duplicate e-mail raises only at that save (the unique constraint on `email`), so a household created by the failed call stays in the table | A store holding user `a@b`; `create_user('a@b', 'pw', household='Home')` raises, and household `Home` now exists | A call that raises adds no row | medium, not executed: it depends on the call not running inside a transaction that is rolled back | `Models.CreateUserAsWritten`, `Models.DuplicateEmailLeavesHousehold` | `Models.CreateUser` |

Whether the user-creation endpoint rejects a duplicate e-mail before it
calls `create_user` is not established here: its serializer is not part of
this model. A check that compares the raw text would let `test@TEST.com`
through when `test@test.com` is stored, and the call would then raise after
the household was saved. `Store.Database.CreateUser` and
`Models.CreateSuperuser` use the corrected order.

## Left out

- Password hashing and `make_random_password` are not modelled. A credential is a value that checks against exactly the text it was made from. The generated password is the caller-supplied `generated`, and its length and alphabet are not modelled.
- Text.NormalizeEmailSplits: Django's `normalize_email` also strips surrounding whitespace when the address contains `@`. That step is not modelled, and its lower-casing covers only the ASCII letters A-Z, not all of Unicode.
- The `max_length` limits on the `CharField` and `EmailField` columns are not modelled. These are 255 for a household name, 100 for an e-mail and 100 for a grocery name.
- `**other_fields` beyond the display name are not modelled. Neither are the permission groups that `PermissionsMixin` adds.
- No operation creates, updates or files a grocery, because the core's code defines none. Groceries and the two list sets appear only in the tables, in the integrity rules and in the deletion cascade.
- Store.Database.CreateUser: follows the corrected order from "## Findings"; saving the household before the user is `Models.CreateUserAsWritten`.
- A grocery's `quantity` is an `IntegerField`, a 32-bit column, while the model's quantity is an unbounded integer. No operation here writes a grocery, so the range check on save is not modelled.
- The household, grocery and list views, serializers and URL routes are not part of this model. Neither are token authentication, the admin site, the `wait_for_db` command and the migrations. These are web-framework wiring, and the household views refer to fields the models do not have.
- Concurrency and transactions are not modelled. Each operation runs alone.
