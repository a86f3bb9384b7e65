# pgsh `knex force-down` / `knex force-up`, modelled in Dafny

pgsh keeps the `knex_migrations` table (the migration ledger: one row per
applied migration, with its file name, its time and its batch) and offers two
commands that rewrite it by hand, each guarded by a typed confirmation:

- `knex force-down <ver>` selects the ledger rows whose name prefix (the text
  before the first `_`, cast to `int` by PostgreSQL) is greater than `ver`.
  It exits 1 when there are none. Otherwise it asks the operator to type
  `ver` again, exits 2 on any other answer, and on the right answer deletes
  the rows with the same filter and exits 0.
- `knex force-up` exits 1 when the migrations folder is missing. Otherwise it
  takes the highest migration number, or 0 when there is none, and asks the
  operator to type it; any other answer exits 2. On the right answer it sorts
  the migrations by number in place, empties the ledger, inserts one row per
  migration in batch 1 and exits 0.

The model:

- `Numerals` covers JavaScript's `${n}` rendering of an integer and
  PostgreSQL's `::int` cast. Reading back the rendered text gives the number
  again.
- `Confirm` holds the confirmation token.
- `Process` holds how a handler ends: an exit code, or a rejected promise
  when the database raises.
- `KnexTable` holds the ledger row, `split_part(name, '_', 1)::int`, the two
  filters, and the class `MigrationsTable`. Its `rows` field is the table,
  and its methods are the select, the two deletes and the insert the handlers
  issue.
- `ForceDown.Handler` and `ForceUp.Handler` are the two command handlers as
  methods over that table. Each is specified outcome by outcome.
- `ForceUp.SortById` is the in-place array sort.
- `Scenarios` works small example ledgers and folders through the two
  handlers and the definitions they are specified by.

Inputs that the source reads from its environment are parameters here:

- the operator's typed answer;
- whether the migrations folder exists (`fs.existsSync`);
- the list that `readMigrations` returns;
- the value of the database's `now()`.

Some choices that follow the code as written:

- The force-down select has no `ORDER BY`, so the preview's order is
  whatever the database returns. The model keeps table order and claims no
  ordering of the preview.
- force-up issues `del()` and `insert()` as two separate statements, not as
  one transaction. The model performs them as two steps.
- force-up does not check for duplicate or malformed migration numbers. The
  model accepts any list, and states its ordering lemmas under the condition
  that the numbers are distinct.
- force-down does not check that `ver` is non-negative. The model accepts
  any version that fits in 32 bits, negative ones included.
- `ver` is sent as a bound parameter of `split_part(name, '_', 1)::int > ?`.
  PostgreSQL gives it the type of the other operand, `int`, so a version
  outside the 32-bit range makes the select raise. Force-down then ends with
  `Rejected` before any prompt, with the ledger unchanged.
- When a name's prefix is not a 32-bit integer, the cast raises. This
  includes knex's default 14-digit timestamp prefixes. The first query then
  fails, and force-down ends with a rejected promise (`Rejected`) before any
  prompt, with the ledger unchanged.

## Model

| member | source | states |
|---|---|---|
| `Numerals.NatToString` | src/cmd/knex/force-up.js:38 | the rendering of a non-negative number is non-empty, all digits, and has no leading zero except for "0" itself |
| `Numerals.IntToString` | src/cmd/knex/force-down.js:58 | the rendering of an integer starts with `-` exactly when the integer is negative |
| `Numerals.ParseInt4` | src/cmd/knex/force-down.js:37 | the `::int` cast succeeds exactly when the text reads as an integer within the 32-bit range, and then yields that integer |
| `Numerals.NatToStringRoundTrip` | src/cmd/knex/force-up.js:38 | the digits written for a non-negative number read back as that number |
| `Numerals.IntToStringRoundTrip` | src/cmd/knex/force-down.js:58 | `${n}` reads back as n, and the `::int` cast accepts it exactly when n fits in 32 bits |
| `Numerals.IntToStringInjective` | src/cmd/knex/force-up.js:38 | two numbers have the same text exactly when they are equal, so a token names one number |
| `Confirm.Token` | src/cmd/knex/force-down.js:58 | the text the operator must type reads back as the number being confirmed |
| `KnexTable.FirstField` | src/cmd/knex/force-down.js:37 | `split_part(s, '_', 1)` is a prefix of s, contains no `_`, and is followed by `_` whenever it is shorter than s |
| `KnexTable.Version` | src/cmd/knex/force-down.js:37 | `split_part(name, '_', 1)::int` succeeds exactly when the prefix reads as a 32-bit integer, and then is that integer |
| `KnexTable.VersionOfNumberedName` | src/cmd/knex/force-down.js:37 | a name of the form `<digits>_<rest>` has those digits as its version when they fit in 32 bits |
| `KnexTable.Newer` | src/cmd/knex/force-down.js:37 | the filter holds only for a row whose prefix casts to a value above the version, so no row is newer than the largest 32-bit version |
| `KnexTable.NewerThan` | src/cmd/knex/force-down.js:32-38 | the select returns at most as many rows as the ledger holds; which rows is stated by `FilterMembers` and `NewerKeptPartition` |
| `KnexTable.Kept` | src/cmd/knex/force-down.js:66-69 | the delete leaves at most as many rows as the ledger held; which rows is stated by `FilterMembers`, `KeptIsSubsequence` and `NewerKeptPartition` |
| `KnexTable.FilterMembers` | src/cmd/knex/force-down.js:32-38 | a row is selected exactly when it is in the ledger and its prefix is greater than the version, and it survives the delete exactly when it is in the ledger and its prefix is not greater |
| `KnexTable.NewerKeptPartition` | src/cmd/knex/force-down.js:66-69 | selected and kept rows together are the old ledger, as a multiset |
| `KnexTable.NewerKeptCounts` | src/cmd/knex/force-down.js:66-69 | every copy of a matching row is selected, and every copy of any other row survives the delete |
| `KnexTable.KeptIsSubsequence` | src/cmd/knex/force-down.js:66-69 | the surviving rows keep their fields and their relative order |
| `KnexTable.KeptHasNothingNewer` | src/cmd/knex/force-down.js:66-69 | after the delete every row's version is at most the target, the filter selects nothing, and a second delete changes nothing |
| `KnexTable.NoneNewer` | src/cmd/knex/force-down.js:40-43 | when no row is past the version, the select is empty and the delete keeps every row |
| `KnexTable.MigrationsTable.SelectNewer` | src/cmd/knex/force-down.js:32-38 | the select raises exactly when the version or some prefix is not a 32-bit integer, and otherwise returns the matching rows |
| `KnexTable.MigrationsTable.DeleteNewer` | src/cmd/knex/force-down.js:66-69 | the delete raises, changing nothing, for the same ledgers and versions as the select, and otherwise leaves exactly the non-matching rows |
| `KnexTable.MigrationsTable.DeleteAll` | src/cmd/knex/force-up.js:48 | `del()` leaves the table empty |
| `KnexTable.MigrationsTable.Insert` | src/cmd/knex/force-up.js:49-54 | `insert` appends the given rows after the existing ones |
| `ForceDown.Handler` | src/cmd/knex/force-down.js:20-76 | a version or prefix outside 32 bits means a rejection with no prompt and no change; an empty selection means exit 1 with no prompt and no change; otherwise the prompt asks for `${ver}`, a wrong answer means exit 2 with no change, and the right answer means exactly the selected rows are deleted and the exit code is 0 |
| `ForceUp.Max` | src/cmd/knex/force-up.js:30 | `Math.max(a, b)` is at least both arguments and is one of them |
| `ForceUp.HighestNumber` | src/cmd/knex/force-up.js:28-30 | the highest number is at least 0 and at least every id, and is either 0 or the id of some migration (so 0 when there are none) |
| `ForceUp.SortById` | src/cmd/knex/force-up.js:46 | after the in-place sort the array is in ascending id order and is a permutation of what it held |
| `ForceUp.InsertAt` | src/cmd/knex/force-up.js:46 | one insertion step extends the sorted prefix by one entry and keeps the array's contents |
| `ForceUp.Handler` | src/cmd/knex/force-up.js:15-60 | a missing folder means exit 1 with no prompt and no change; otherwise the prompt asks for `${highestNumber}`, and a wrong answer means exit 2 with no change; the right answer means the ledger becomes one batch-1 row per migration, taken from a sorted permutation of the listing, and the exit code is 0 |
| `ForceUp.LedgerRows` | src/cmd/knex/force-up.js:50-54 | the inserted rows are one per migration, with the migrations' names in the same order, each in batch 1 and stamped `now` |
| `ForceUp.HighestNumberOfPermutation` | src/cmd/knex/force-up.js:28-30 | the token does not depend on the order in which the folder was read |
| `ForceUp.TokenIsLastInserted` | src/cmd/knex/force-up.js:28-54 | after a rebuild, the confirmed number is the id of the last inserted row, or 0 when all ids are negative |
| `ForceUp.MigrationNamesOfPermutation` | src/cmd/knex/force-up.js:46-50 | sorting changes only the order of the migration names, not their multiset |
| `ForceUp.RebuildContents` | src/cmd/knex/force-up.js:48-54 | the rows built from the sorted migrations are one per migration, and their names are exactly the folder's names with multiplicity; every row is batch 1 and stamped `now` |
| `ForceUp.DistinctIdsOfPermutation` | src/cmd/knex/force-up.js:46 | sorting keeps ids distinct when they were distinct |
| `ForceUp.SortedPermutationUnique` | src/cmd/knex/force-up.js:46 | with distinct ids, any two sorted permutations of the same migrations are equal |
| `ForceUp.RebuildIsIdempotent` | src/cmd/knex/force-up.js:46-54 | two rebuilds from the same folder give the same row names in the same order; only the timestamps differ |
| `ForceUp.RebuildAscending` | src/cmd/knex/force-up.js:46-54 | when each file name starts with its own distinct number, every rebuilt row has a version, and the versions strictly increase down the ledger |
| `Scenarios.AddIndexVersion` | src/cmd/knex/force-down.js:37 | the name `003_add_index` has version 3 |
| `Scenarios.DowngradeToOne` | src/cmd/knex/force-down.js:32-69 | for the ledger `001_init`, `002_add_users`, `003_add_index`, `force-down 1` selects the last two rows, asks for "1" and keeps only `001_init` |
| `Scenarios.NothingToDowngrade` | src/cmd/knex/force-down.js:40-43 | for the ledger `001_init`, `force-down 5` selects nothing |
| `Scenarios.ForceDownToOne` | src/cmd/knex/force-down.js:20-76 | the handler, run on that three-row ledger with version 1 and the answer "1", asks for "1", exits 0 and leaves only `001_init` |
| `Scenarios.ForceDownPastInt4` | src/cmd/knex/force-down.js:32-38 | the handler, run with version 2147483648, is rejected with no prompt and leaves the ledger as it was |
| `Scenarios.HighestOfThree` | src/cmd/knex/force-up.js:28-30 | for migrations numbered 1, 2 and 5 the highest number is 5 |
| `Scenarios.RebuildFromThree` | src/cmd/knex/force-up.js:28-54 | for the folder `001_init.sql`, `002_add_users.sql`, `005_cleanup.sql`, the token is "5", "4" is refused, and the rebuilt ledger is the three names in batch 1 in that order |
| `Scenarios.ForceUpFromThree` | src/cmd/knex/force-up.js:15-60 | the handler, given those three migrations in another order and the answer "5", asks for "5", exits 0 and replaces any old ledger with the three rows in batch 1, by number |

## Left out

- `src/cmd/dump.js` is not part of this model. It only starts `pg_dump` as a
  child process with inherited streams and forwards that process's exit code.
- Terminal output is not modelled: the console messages, the `chalk`
  colouring, `printTable`, and `printLatest` after a successful run.
- Time formatting with `moment` is not modelled. `migration_time` is carried
  as opaque text (`Timestamp`).
- Connecting to the database (`db.connectAsSuper`), the SQL text, and the
  schema and table name defaults are not modelled. The table is the `rows`
  field, and each query is its filter.
- Database failures other than the failing `::int` cast are not modelled:
  connection loss, a failed insert, and concurrent writers.
- force-up's delete and insert are two separate steps, with no transaction
  between them. A crash between the two would leave an empty ledger, and the
  model makes no atomicity claim.
- `readMigrations`, `fs.existsSync` and the migrations path are not part of
  this model. Their results are inputs (`listing`, `dirExists`).
- `util/confirm-prompt` is not part of this model. The operator's reply is
  one string, accepted exactly when it equals the token. A cancelled prompt
  counts as a non-matching reply.
- Non-integer values of `ver` are not modelled. yargs parses it as a
  JavaScript number, so it could also be a fraction or NaN.
- The process exit status after a rejected handler promise is decided
  outside the handlers, so it is not modelled.
- `Numerals.ParseInt4` does not accept everything PostgreSQL's integer input
  accepts: surrounding whitespace, and, from PostgreSQL 16, `_` digit
  separators and `0x`/`0o`/`0b` prefixes. Names written that way are treated
  as failing the cast.
- `Numerals.IntToString`, `Numerals.NatToString` and `Confirm.Token` write
  plain decimal digits for every integer. JavaScript numbers are doubles, and
  `${n}` switches to exponent form from 1e21 on (`${1e21}` is `1e+21`), and
  integers above 2^53 are not exact. The rendering, and so the force-up and
  force-down tokens, matches the source only for integers below 1e21 in
  magnitude. Ids and versions are treated as exact integers, not doubles.
- `KnexTable.NewerThan` and `KnexTable.Kept` bound only their length in
  their own contracts. Which rows each holds is stated once, by the lemmas
  `KnexTable.FilterMembers`, `KnexTable.NewerKeptPartition` and
  `KnexTable.KeptIsSubsequence`.
- `ForceUp.SortById` does not state that the sort is stable, although
  JavaScript's `Array.prototype.sort` is. It states only sorted order and
  permutation. With duplicate ids, the model therefore does not fix the
  order of rows that share a number.
- The ledger is a sequence in insertion order. SQL tables are unordered, so
  "relative order" holds for the model's table, not for an unordered query.
