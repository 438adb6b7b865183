# inQuery query layer in Dafny

This project models the core of inQuery, a PHP query-construction layer, and proves properties of that model. Callers build a `Query` with chained calls. The query keeps one segment per table: the table name, the selected fields, the where conditions, a join descriptor and the sort order. A cursor, `querySet`, picks the segment that the chained calls write. The SQL backend's condition encoder, `MySqlHelper::buildWhere`, turns one condition into a where-clause fragment and a parameter name. Small string helpers and two immutable command records complete the core.

Files:

- `php.dfy` (module `Php`): the PHP runtime pieces the core relies on. It defines loosely typed values and ordered arrays, plus `trim` over PHP's default trim set (space, `\t`, `\n`, `\r`, `\0`, `\x0B`), `strtolower` (ASCII), `substr` and `implode`. It also proves facts about them.
- `string_helper.dfy` (module `StringHelper`): `isEmpty` and `joinLines`.
- `query.dfy` (module `Queries`): the operator, direction and join-type constants. It also holds validation, the field-set algebra behind `select`, the class `Query`, and the two source defects as written.
- `mysql_helper.dfy` (module `MySqlHelper`): `buildWhere`.
- `commands.dfy` (module `Commands`): `MySqlCommand` and `MockCommand`.

Modelling decisions:

- `StringHelper::hashString` is md5 in the source. The model passes it to `BuildWhere` as a parameter `hash: string -> string`. A Dafny function is deterministic, so equal inputs always hash equally, and nothing depends on how md5 works inside.
- Exceptions become values. `Where`, `Order` and `Join` return `Option<QueryError>`, with the variants `InvalidConditional`, `InvalidOrder` and `InvalidJoin` and the source's messages. A rejected call leaves the query unchanged.
- PHP creates an array slot the first time code writes to it. So `where`, `order`, a non-empty `select` or `join` issued before `table` creates the slot under the cursor. The model reads a missing slot as `EMPTY_SEGMENT`, whose table is `None`.
- When a builtin is called with the wrong arguments, the model follows PHP 7: a warning, and the builtin returns NULL. This decides what `select` does before `table` (it appends) and what the defective `validJoin` does (it rejects everything).

Where the code and its documentation or tests disagree, the model follows the code:

- `table()` called again without a `join` overwrites the segment under the cursor (src/InQuery/Query.php:121-129). It does not open a new segment.
- `buildWhere` renders the operators in upper case: `IN`, `NOT IN`, `IS NULL`. The unit tests expect lower case.
- `buildWhere` always writes `:` in front of the parameter name. An explicit placeholder `:x` therefore appears as `::x`, and a hashed name comes back without a colon. The tests expect `:` + hash.
- Operators are matched case-sensitively in `buildWhere`, but `where` accepts any casing and stores the caller's spelling. So an upper-case `IN` falls into the generic branch.
- The join unit test expects the undeclared constant `Query::JOIN_TYPE_INNER` (tests/InQuery/QueryTests.php:101). `Queries.JoinScenario` uses the declared default `JOIN_INNER`.

## Model

| member | source | states |
|---|---|---|
| `StringHelper.IsEmpty` | src/InQuery/Helpers/StringHelper.php:25-28 | a string is empty after trimming exactly when every character is in PHP's trim set, so `""` and all-whitespace strings are empty and anything with another character is not |
| `StringHelper.JoinLinesTrimmed` | src/InQuery/Helpers/StringHelper.php:36-40 | the joined result never starts or ends with a trim character, for every line list and glue |
| `StringHelper.JoinLinesEmpty` | src/InQuery/Helpers/StringHelper.php:36-40 | an empty line list joins to the empty string |
| `StringHelper.JoinLinesSingle` | src/InQuery/Helpers/StringHelper.php:36-40 | a single line joins to that line trimmed (the second trim changes nothing) |
| `StringHelper.JoinLinesPlain` | src/InQuery/Helpers/StringHelper.php:36-40 | lines that are already trimmed, with non-empty first and last lines, join to their plain implosion with the glue |
| `StringHelper.JoinLinesDefaultPlain` | src/InQuery/Helpers/StringHelper.php:36-40 | with the default glue, such lines are joined by single spaces |
| `Php.TrimEmptyIff` | src/InQuery/Helpers/StringHelper.php:27 | `trim(s) === ''` holds exactly when all of `s` is trim characters |
| `Php.TrimIdempotent` | src/InQuery/Helpers/StringHelper.php:38-39 | trimming an already trimmed line changes nothing |
| `MySqlHelper.PlaceholderIff` | src/InQuery/Helpers/MySqlHelper.php:24-25 | a value is an explicit placeholder exactly when it is a string whose first character is `:`; a leading space, the empty string and non-strings do not qualify |
| `MySqlHelper.ParamName` | src/InQuery/Helpers/MySqlHelper.php:24-27 | a string value whose first character is `:` is itself the parameter name; every other value (another string, the empty string, a non-string) gets the hash of table followed by field |
| `MySqlHelper.BuildWhere` | src/InQuery/Helpers/MySqlHelper.php:21-44 | returns the pair (fragment, parameter name); the fragment always starts with `table.field `; `in` and `not in` render `IN (:name)` and `NOT IN (:name)`, `is null` renders `IS NULL` with no parameter, any other operator renders `op :name`; a missing operator means `=` |
| `MySqlHelper.MissingConditionIsEq` | src/InQuery/Helpers/MySqlHelper.php:28 | a condition given as null renders exactly as `=` |
| `MySqlHelper.AutoNamesCollide` | src/InQuery/Helpers/MySqlHelper.php:25-27 | two auto-named conditions on the same table and field get the same parameter name, hash(table ++ field), whatever their values and operators |
| `MySqlHelper.IsNullIgnoresValue` | src/InQuery/Helpers/MySqlHelper.php:36-38 | the `is null` fragment is the same for every value, but a parameter name is still returned |
| `MySqlHelper.PlaceholderDoubleColon` | src/InQuery/Helpers/MySqlHelper.php:24-40 | the placeholder `:column1` is returned verbatim as the name and shows as `::column1` in the fragment |
| `MySqlHelper.UpperCaseInIsGeneric` | src/InQuery/Helpers/MySqlHelper.php:29-41 | operators match case-sensitively: `IN` takes the generic branch and renders `IN :name` |
| `Queries.ValidConditionalOperators` | src/InQuery/Query.php:44-68 | each of the nine declared operators is a valid conditional, `=` included |
| `Queries.ValidConditionalIgnoresCase` | src/InQuery/Query.php:212-215 | a conditional is valid exactly when its lower-case form is valid |
| `Queries.ValidConditionalExamples` | src/InQuery/Query.php:212-215 | upper-case `IN`, `NOT IN` and `IS NULL` are accepted; `==` and `like` are rejected |
| `Queries.ValidJoinIgnoresCase` | src/InQuery/Query.php:222-224 | a join type is valid exactly when its lower-case form is valid |
| `Queries.ValidJoinExamples` | src/InQuery/Query.php:74-79 | the four declared types inner, left, right and outer are accepted, and so are the spellings `INNER` and `Left`; `cross` and the empty string are rejected (acceptance in every casing is `Queries.ValidJoinIgnoresCase`) |
| `Queries.ConditionalsAsWrittenUndefined` | src/InQuery/Query.php:58-68 | as written, the list of valid conditionals refers to the undeclared `self::EQUAL` and cannot be resolved |
| `Queries.ValidJoinAsWrittenRejectsAll` | src/InQuery/Query.php:222-224 | as written, `validJoin` is false for every type, the default `inner` included, while the intended check accepts `inner` |
| `Queries.AddFieldsKeepsPrefix` | src/InQuery/Query.php:136-144 | `select` keeps the fields already selected in front, unchanged |
| `Queries.AddFieldsContents` | src/InQuery/Query.php:136-144 | after `select`, a field is present exactly when it was present before or was passed in |
| `Queries.AddFieldsNoDuplicates` | src/InQuery/Query.php:136-144 | `select` never introduces a duplicate field |
| `Queries.AddFieldsPresent` | src/InQuery/Query.php:139-141 | selecting only fields that are already present changes nothing |
| `Queries.AddFieldsIdempotent` | src/InQuery/Query.php:136-144 | repeating the same `select` is a no-op |
| `Queries.AddFieldsFirstSeenOrder` | src/InQuery/Query.php:136-144 | the appended fields are new ones taken from the arguments, in the order of their first occurrence there |
| `Queries.Query.constructor` | src/InQuery/Query.php:85-91 | a new query has no segments and cursor 0 |
| `Queries.Query.Table` | src/InQuery/Query.php:121-129 | the segment under the cursor becomes the table with empty fields, where, join and order; the cursor and every other segment are unchanged; afterwards #segments = cursor + 1 |
| `Queries.Query.Select` | src/InQuery/Query.php:136-144 | the current segment's fields become AddFields(old fields, arguments); the rest is unchanged; with no arguments nothing is written; fields stay duplicate-free |
| `Queries.Query.Where` | src/InQuery/Query.php:154-161 | a condition whose lower-case form is not one of the nine operators gives InvalidConditional and changes nothing; otherwise exactly (field, value, condition) is appended to the current segment, with the condition in the caller's casing and null left as null |
| `Queries.Query.Order` | src/InQuery/Query.php:170-178 | a direction that is neither asc nor desc once lower-cased gives InvalidOrder and changes nothing; otherwise (field, lower-cased direction) is appended to the current segment |
| `Queries.Query.Join` | src/InQuery/Query.php:188-196 | an invalid type gives InvalidJoin before anything changes; otherwise the current segment gets the join (table, on, type), the cursor goes up by exactly one, and a new segment for the table opens there |
| `Queries.Query.GetQueryData` | src/InQuery/Query.php:202-205 | returns the segment list and changes nothing |
| `Commands.MySqlCommandGetters` | src/InQuery/Commands/MySqlCommand.php:36-68 | `getType`, `getCommand` and `getParams` return exactly what the constructor was given |
| `Commands.MySqlCommandDefaultParams` | src/InQuery/Commands/MySqlCommand.php:36-41 | params default to the empty array |
| `Commands.MySqlCommandDeterminedByGetters` | src/InQuery/Commands/MySqlCommand.php:43-68 | the three getters determine the command: nothing else is stored |
| `Commands.MockCommandGetters` | src/InQuery/Commands/MockCommand.php:36-68 | `getType`, `getCommand` and `getParams` return exactly what the constructor was given |
| `Commands.MockCommandDefaultParams` | src/InQuery/Commands/MockCommand.php:36-41 | params default to the empty array |
| `Commands.MockCommandDeterminedByGetters` | src/InQuery/Commands/MockCommand.php:43-68 | the three getters determine the command: nothing else is stored |

Every `Query` method also keeps the class invariant `Valid()`. It says that the cursor names the last segment or the slot just past it, so chained calls only ever touch the last segment. It also says that no segment lists a field twice. Every state-changing method states that the segments before the cursor are unchanged. The cursor never decreases, and only `Join` increases it.

## Findings

| source | as written | input that shows it | evidently intended | confidence | as-written member | corrected member |
|---|---|---|---|---|---|---|
| src/InQuery/Query.php:59 | the list of valid conditionals names `self::EQUAL`, which the class does not declare, so evaluating the property raises an Error | `new Query($driver, $builder)` | `self::EQ`, the `=` operator declared at line 44 | not executed | `Queries.ConditionalsAsWrittenUndefined` | `Queries.ValidConditionalOperators` |
| src/InQuery/Query.php:223 | `in_array(strtolower($type, $this->joins))` passes the array to `strtolower` and one argument to `in_array`, so the test is never true | `join('joinTable', ['column1' => 'column1_fk'])` with the default type `inner` | `in_array(strtolower($type), $this->joins)` | not executed | `Queries.ValidJoinAsWrittenRejectsAll` | `Queries.ValidJoinExamples` |

The rest of the model uses the corrected definitions (`CONDITIONALS` and `ValidJoin`). Under PHP 8, the wrong argument counts at line 223 raise `ArgumentCountError` rather than returning NULL. Either way, no join is ever accepted.

## Left out

- `Query::get` (src/InQuery/Query.php:234-238) only hands the query to the builder and the driver, so it is not modelled. It also passes `$limit` and `$offset` to `exec` in swapped order.
- The `Query` constructor's driver and builder arguments are not modelled, because the model never executes anything.
- Query builders are not modelled: src/InQuery/QueryBuilders/*.php are empty stubs. The rendering of select, insert, update and delete statements exists only in tests and documentation.
- Drivers, query results, `Engine`, `InQuery` and `Connection` are not modelled. They cover connections, network I/O, result sets and bootstrap.
- Exception classes carry no logic, so they are represented only as `QueryError` variants.
- md5 inside `hashString` is not modelled. It is the parameter `hash` of `BuildWhere`.
- `in_array` in `select` uses PHP's loose comparison, under which numeric strings such as "1" and "01" are equal. The model compares fields exactly.
- A slot that PHP creates by writing one key holds only that key, for example `where` before `table`. The model represents such a slot as a full segment with empty fields, conditions and order and no table.
- Under PHP 8, `select` before `table` raises a `TypeError` from `in_array(..., null)`. The model follows PHP 7, where the field is appended.
- Tables and fields are modelled as strings, and a condition as a string or null. Interpolating a non-string table or field, and a non-string condition, are not modelled.
- `strtolower` is modelled on ASCII letters under the default locale, and strings are sequences of characters rather than bytes.
- Objects are not modelled as values. A float is carried as a real number, with no float arithmetic. Like any non-string value, either would get a hashed parameter name in `buildWhere`.
- Queries.StrToLowerCall: only the calls `validJoin` makes are modelled, a wrong argument count (NULL) and one string. For one argument of another type PHP 7 converts a scalar to a string, which the model does not capture.
- Queries.InArrayCall: only the one-argument call (NULL) that `validJoin` makes is stated. With a needle and an array the model compares strictly, not loosely as PHP does.
- `MockCommand`'s command is modelled as a string, as its constructor's documentation says. A structured (array) command is not modelled.
