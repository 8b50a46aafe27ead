# AndroidQuery SQL compiler, modelled in Dafny

AndroidQuery turns typed query objects into parameterised SQLite text.
This project models the core of that process and proves its properties:

- **Clause compiler** (`ClauseHelper`, in the `net.frju.androidquery` version and the older `com.memtrip.sqlking` client version). It turns a tree of filter clauses (`Where`, `In`, `On`, `And`, `Or`) into text with `?` placeholders, and the same tree into the list of arguments bound to them.
- **ORDER BY and LIMIT** parts.
- **Join compiler.** It walks singly linked join chains, gives the aliased join column list, and assembles the full SELECT of `buildJoinQuery`.
- **`Select.Builder`.** A mutable object whose `query`/`querySingle` produce a `Select` descriptor.
- **Two pieces of the annotation preprocessor:** the unique-table-name validator and the CREATE TABLE statement builder.

Modules:

| file | module | what |
|---|---|---|
| `wrappers.dfy` | `Wrappers` | `Option`, for Java's null |
| `text.dfy` | `Text` | joining, the "append item then separator" buffer, `StringBuilder.delete`, placeholder counting and binding, the decimal text of an int |
| `clauses.dfy` | `Clauses` | the clause tree and the parts both compilers share: leaf texts, the `Where` argument, the argument list |
| `clause_helper.dfy` | `ClauseHelper` | clause rendering of the current compiler, and the lock-step between placeholders and arguments |
| `keywords.dfy` | `Keywords` | ORDER BY and LIMIT |
| `legacy_clause_helper.dfy` | `LegacyClauseHelper` | the client compiler, related to the current one |
| `join_query.dfy` | `JoinQuery` | join keyword, join text, join columns, the whole SELECT |
| `select_builder.dfy` | `SelectBuilder` | the `Select.Builder` class |
| `table_names.dfy` | `TableNames` | duplicate table name detection |
| `create_table.dfy` | `CreateTable` | the CREATE TABLE literal |

Each Java method that builds its result in a loop is an imperative Dafny method. It is proved equal to a reference function that says what the text is: for example, the children joined by ` AND ` and wrapped in brackets, rather than appended one by one with the last separator deleted. The properties are proved about those reference functions.

The central property is **lock-step**. `ClauseHelper.LockStep` proves that a rendered clause has exactly as many `?` as it has arguments. It also proves that substituting the arguments into the placeholders from left to right gives the clause with each value written in place (`Inline`), so the arguments are in placeholder order. This needs column names and operator tokens to contain no `?` (`NoMarks`).

Conventions:

- Values are modelled as their `String.valueOf` text.
- `Where` operator tokens are opaque strings.
- `OrderBy.Order` tokens are the enum constant names `ASC`, `DESC` and `RANDOM`.
- The resolver is a total function from an entity to its real table name and its table-prefixed columns.
- `StringUtils.columnToSql` is a function parameter that returns an optional string.
- Java `int`s are unbounded integers. The only arithmetic on them is printing in decimal, which the model writes out (`Text.IntText`, including the minus sign).

## Model

| member | source | states |
|---|---|---|
| Clauses.WhereArg | android-query/src/main/java/net/frju/androidquery/database/ClauseHelper.java:191-201 | the bound argument of a `Where` is `1` for `true`, `0` for `false`, and otherwise the value itself; it is never the text `true` or `false`; the client version (client/src/main/java/com/memtrip/sqlking/database/ClauseHelper.java:202-212) has the same code |
| Clauses.BuildInCondition | android-query/src/main/java/net/frju/androidquery/database/ClauseHelper.java:116-141 | the append-then-delete loop gives `col IN (` + n placeholders separated by commas + `)`, which is `col IN ()` for no value; the client version (client/src/main/java/com/memtrip/sqlking/database/ClauseHelper.java:126-151) has the same code |
| Clauses.BuildInArgs | android-query/src/main/java/net/frju/androidquery/database/ClauseHelper.java:203-211 | an `In` yields one argument per value, in value order; the client version (client/src/main/java/com/memtrip/sqlking/database/ClauseHelper.java:219-227) has the same code |
| Clauses.GetClauseArgsItem | android-query/src/main/java/net/frju/androidquery/database/ClauseHelper.java:169-189 | the argument list of one clause equals the pre-order reference list `Args`: Where one, In its values, And/Or their children's in order, On and anything else none; the client version (client/src/main/java/com/memtrip/sqlking/database/ClauseHelper.java:175-195) has the same code |
| Clauses.GetGroupArgs | android-query/src/main/java/net/frju/androidquery/database/ClauseHelper.java:176-186 | the arguments of a group are its children's arguments concatenated in order |
| Clauses.GetClauseArgs | android-query/src/main/java/net/frju/androidquery/database/ClauseHelper.java:157-167 | the arguments of a forest are those of each top-level clause in turn; null gives none |
| ClauseHelper.GetClauseItem | android-query/src/main/java/net/frju/androidquery/database/ClauseHelper.java:64-102 | for well-formed clauses the text equals the reference rendering: Where `col op ?`, In as above, On `ON c1 = c2`, And/Or the children joined by the connective in brackets, anything else "" |
| ClauseHelper.GetGroup | android-query/src/main/java/net/frju/androidquery/database/ClauseHelper.java:73-98 | for k ≥ 1 children, appending each child and ` AND `/` OR ` and then deleting the last separator gives `(` + children joined by the connective + `)` |
| ClauseHelper.TruncationInBoundsIffNonEmpty | android-query/src/main/java/net/frju/androidquery/database/ClauseHelper.java:84 | the buffer is long enough for the separator deletion exactly when the group has a child; an empty group leaves only `(`, and the deletion throws |
| ClauseHelper.GetClause | android-query/src/main/java/net/frju/androidquery/database/ClauseHelper.java:52-62 | a forest renders as its clauses concatenated with no separator; null gives "" |
| ClauseHelper.LockStep | android-query/src/main/java/net/frju/androidquery/database/ClauseHelper.java:64-211 | placeholders and arguments of a clause agree in number, and binding the arguments in order puts each value in its own place |
| ClauseHelper.WhereLockStep | android-query/src/main/java/net/frju/androidquery/database/ClauseHelper.java:104-114 | a `Where` leaf `col op ?` has exactly one placeholder, and binding its argument gives `col op value` |
| ClauseHelper.InLockStep | android-query/src/main/java/net/frju/androidquery/database/ClauseHelper.java:116-141 | an `In` leaf has one placeholder per value, and binding the values gives `col IN (v1,v2,...)` in value order |
| ClauseHelper.OnLockStep | android-query/src/main/java/net/frju/androidquery/database/ClauseHelper.java:143-155 | an `On` leaf `ON c1 = c2` has no placeholder and takes no argument |
| ClauseHelper.LockStepList | android-query/src/main/java/net/frju/androidquery/database/ClauseHelper.java:73-98 | lock-step carries over to siblings joined by a separator without placeholders |
| ClauseHelper.ForestLockStep | android-query/src/main/java/net/frju/androidquery/database/ClauseHelper.java:52-62 | lock-step for the forest that `getClause(Clause[])` and `getClauseArgs(Clause[])` both receive, null included |
| Keywords.EntryText | android-query/src/main/java/net/frju/androidquery/database/ClauseHelper.java:222-228 | the text of an ordering entry is never empty, so a comma is written between every two entries |
| Keywords.GetOrderBy | android-query/src/main/java/net/frju/androidquery/database/ClauseHelper.java:213-233 | the loop that puts a comma before every entry except the first gives the entries joined by commas |
| Keywords.OrderByTextEmptyIff | android-query/src/main/java/net/frju/androidquery/database/ClauseHelper.java:216 | the ORDER BY part is empty exactly when the array is null or empty |
| Keywords.LimitRoundTrip | android-query/src/main/java/net/frju/androidquery/database/ClauseHelper.java:235-245 | `start,end` gives back both ints when read back, and the LIMIT part is empty exactly when there is no limit; the client version (client/src/main/java/com/memtrip/sqlking/database/ClauseHelper.java:251-261) has the same code |
| LegacyClauseHelper.GetClauseItem | client/src/main/java/com/memtrip/sqlking/database/ClauseHelper.java:66-102 | for well-formed clauses the client's text equals its reference rendering, in which any kind other than Where/In/And/Or is "" |
| LegacyClauseHelper.GetGroup | client/src/main/java/com/memtrip/sqlking/database/ClauseHelper.java:73-98 | the client's And/Or loop equals the children joined by the connective in brackets |
| LegacyClauseHelper.GetClause | client/src/main/java/com/memtrip/sqlking/database/ClauseHelper.java:49-59 | the client renders a forest by concatenation, null giving ""; for a forest this is the current compiler's text with On nodes erased |
| LegacyClauseHelper.RendersAsCurrentWithOnErased | client/src/main/java/com/memtrip/sqlking/database/ClauseHelper.java:66-102 | the client renders every clause as the current compiler renders it with its On nodes replaced by an unknown clause |
| LegacyClauseHelper.ArgsIgnoreOn | client/src/main/java/com/memtrip/sqlking/database/ClauseHelper.java:175-195 | the client's argument list, which has no On case, is unchanged by erasing On nodes |
| LegacyClauseHelper.EraseOnKeepsOnFree | client/src/main/java/com/memtrip/sqlking/database/ClauseHelper.java:66-102 | erasing leaves a clause without On nodes unchanged |
| LegacyClauseHelper.AgreesWithCurrentWithoutOn | client/src/main/java/com/memtrip/sqlking/database/ClauseHelper.java:66-102 | on clauses without On nodes the two compilers produce the same text |
| LegacyClauseHelper.LockStep | client/src/main/java/com/memtrip/sqlking/database/ClauseHelper.java:66-227 | lock-step holds for the client too, unknown clause kinds included |
| LegacyClauseHelper.OrderByAgreesExceptRandom | client/src/main/java/com/memtrip/sqlking/database/ClauseHelper.java:234-244 | the client's single `field order` equals the current compiler's text for a one-entry list exactly when the order is not random |
| JoinQuery.JoinType | android-query/src/main/java/net/frju/androidquery/database/ClauseHelper.java:343-357 | the keyword is `INNER JOIN` exactly for an inner join and for any unrecognised kind, and every keyword ends in `JOIN` |
| JoinQuery.JoinTypeDistinguishesKinds | android-query/src/main/java/net/frju/androidquery/database/ClauseHelper.java:343-357 | the five recognised kinds map to five different keywords |
| JoinQuery.GetJoinStatement | android-query/src/main/java/net/frju/androidquery/database/ClauseHelper.java:247-269 | the join text is, for each join, ` TYPE realName clause` followed by a space and the text of its chained join |
| JoinQuery.ChainTextIsJoinedSegments | android-query/src/main/java/net/frju/androidquery/database/ClauseHelper.java:254-265 | the text of a chain is the segments of its joins, head first, separated by single spaces |
| JoinQuery.JoinTextDepthFirst | android-query/src/main/java/net/frju/androidquery/database/ClauseHelper.java:247-269 | the join text follows declaration order, and depth first through chained joins |
| JoinQuery.GetJoinColumns | android-query/src/main/java/net/frju/androidquery/database/ClauseHelper.java:324-341 | the join columns are each join's prefixed columns followed by those of its chained join |
| JoinQuery.JoinColumnsDepthFirst | android-query/src/main/java/net/frju/androidquery/database/ClauseHelper.java:324-341 | the join columns are the prefixed columns of every joined table, in declaration order, depth first |
| JoinQuery.BuildColumnList | android-query/src/main/java/net/frju/androidquery/database/ClauseHelper.java:278-293 | `SELECT ` then the table columns and the joined columns as `col as col_with_dots_replaced`, comma separated; with no column at all the deletion leaves `SELEC` |
| JoinQuery.ColumnListTrailingComma | android-query/src/main/java/net/frju/androidquery/database/ClauseHelper.java:292-293 | deleting the last two characters of the column buffer removes exactly the `, ` after the last column, and leaves `SELEC` when there is no column |
| JoinQuery.BuildJoinQuery | android-query/src/main/java/net/frju/androidquery/database/ClauseHelper.java:271-322 | the statement is the column list, ` FROM table `, the join text, and the WHERE, ORDER BY and LIMIT parts, each separated by a space and keyworded only when non-empty |
| JoinQuery.OptionalKeywords | android-query/src/main/java/net/frju/androidquery/database/ClauseHelper.java:300-308 | `ORDER BY` appears exactly when there is an ordering entry, and `LIMIT start,end` exactly when there is a limit |
| SelectBuilder.Builder.constructor | android-query/src/main/java/net/frju/androidquery/operation/function/Select.java:71-82 | a new builder holds no condition, joins, ordering or limit |
| SelectBuilder.Builder.Where | android-query/src/main/java/net/frju/androidquery/operation/function/Select.java:89-92 | replaces the condition and leaves the other fields |
| SelectBuilder.Builder.SetJoin | android-query/src/main/java/net/frju/androidquery/operation/function/Select.java:94-99 | replaces the joins and leaves the other fields |
| SelectBuilder.Builder.OrderByColumn | android-query/src/main/java/net/frju/androidquery/operation/function/Select.java:107-117 | the ordering becomes a fresh array: `[entry]` when there was none, otherwise the previous entries in order with the new entry last; the previous array and the other fields are unchanged |
| SelectBuilder.Builder.OrderByAll | android-query/src/main/java/net/frju/androidquery/operation/function/Select.java:125-130 | the builder refers to the caller's array itself; the other fields are unchanged |
| SelectBuilder.Builder.LimitCount | android-query/src/main/java/net/frju/androidquery/operation/function/Select.java:137-142 | the limit becomes `Limit(0, n)`; the other fields are unchanged |
| SelectBuilder.Builder.LimitRange | android-query/src/main/java/net/frju/androidquery/operation/function/Select.java:150-155 | the limit becomes `Limit(start, end)`; the other fields are unchanged |
| SelectBuilder.Builder.Query | android-query/src/main/java/net/frju/androidquery/operation/function/Select.java:163-169 | the descriptor holds exactly the builder's condition, joins, ordering and limit |
| SelectBuilder.Builder.QuerySingle | android-query/src/main/java/net/frju/androidquery/operation/function/Select.java:175-182 | the descriptor holds the builder's fields, but its limit is `Limit(0, 1)` whatever the builder holds, so its LIMIT part is `0,1`; the builder is not changed |
| SelectBuilder.OrderByTextAppend | android-query/src/main/java/net/frju/androidquery/operation/function/Select.java:107-117 | appending an ordering entry appends its text to the ORDER BY part, after a comma when there was an entry before |
| TableNames.GetDuplicateTable | android-query-preprocessor/src/main/java/net/frju/androidquery/preprocessor/processor/data/validator/TableNamesMustBeUniqueValidator.java:28-37 | the result is null exactly when fewer than two tables carry `check`'s name; otherwise it is the table at which the count reaches two, the second such table in list order |
| TableNames.DistinctIffNoneTwice | android-query-preprocessor/src/main/java/net/frju/androidquery/preprocessor/processor/data/validator/TableNamesMustBeUniqueValidator.java:17-37 | all names are distinct exactly when no table's name occurs twice, which links the per-table count to distinctness |
| TableNames.FindDuplicateTable | android-query-preprocessor/src/main/java/net/frju/androidquery/preprocessor/processor/data/validator/TableNamesMustBeUniqueValidator.java:17-26 | the result is null exactly when all table names are distinct; otherwise it is the reported table: take the first table, in list order, whose name occurs at least twice, and the result is the second table in the list carrying that name (exactly one earlier table has it) |
| TableNames.Validate | android-query-preprocessor/src/main/java/net/frju/androidquery/preprocessor/processor/data/validator/TableNamesMustBeUniqueValidator.java:39-45 | there is an error exactly when two tables share a name; the error points at the reported table, the second table carrying the name of the first table in list order whose name occurs twice, and carries that name's message |
| TableNames.ReportedUnique | android-query-preprocessor/src/main/java/net/frju/androidquery/preprocessor/processor/data/validator/TableNamesMustBeUniqueValidator.java:17-37 | the reported table is determined by the list: at most one table is the second one carrying the first duplicated name, so `Validate`'s error names one table |
| TableNames.DuplicateMessage | android-query-preprocessor/src/main/java/net/frju/androidquery/preprocessor/processor/data/validator/TableNamesMustBeUniqueValidator.java:43 | the message holds the duplicated name right after ``[The @Table: ` `` |
| CreateTable.BuildCreateTableStatement | android-query-preprocessor/src/main/java/net/frju/androidquery/preprocessor/processor/freemarker/method/AssembleCreateTableMethod.java:38-71 | the literal is `"CREATE TABLE name (` + the column SQLs, then one `FOREIGN KEY(this) REFERENCES table(foreign)` per foreign key in order (lines 55-62), all joined by single commas + `);";` |
| CreateTable.ColumnTextsKeepOrder | android-query-preprocessor/src/main/java/net/frju/androidquery/preprocessor/processor/freemarker/method/AssembleCreateTableMethod.java:45-53 | every column that has SQL contributes it, in column order: column i's SQL sits after the SQL of the earlier columns that have one |
| CreateTable.ColumnTextsSkipNone | android-query-preprocessor/src/main/java/net/frju/androidquery/preprocessor/processor/freemarker/method/AssembleCreateTableMethod.java:49-52 | a column without SQL contributes nothing |
| CreateTable.TrailingCommaDeleted | android-query-preprocessor/src/main/java/net/frju/androidquery/preprocessor/processor/freemarker/method/AssembleCreateTableMethod.java:64-66 | deleting the last character only when it is a comma removes exactly the separator after the last entry, and nothing when there is no entry |
| CreateTable.StatementFrame | android-query-preprocessor/src/main/java/net/frju/androidquery/preprocessor/processor/freemarker/method/AssembleCreateTableMethod.java:41-43 | the statement begins with `"CREATE TABLE name (` and ends with `);";` |
| CreateTable.NoTrailingSeparator | android-query-preprocessor/src/main/java/net/frju/androidquery/preprocessor/processor/freemarker/method/AssembleCreateTableMethod.java:64-70 | no comma is left before `);` unless the last entry itself ends with one |

## Left out

- `Query.java`, the `rx` methods of `Select` and the execution behind `select`/`selectSingle` are left out. They are I/O and asynchronous plumbing around a `DatabaseProvider`. `Query` and `QuerySingle` return the `Select` descriptor instead.
- `Insert`, `Count` and `Delete` are thin builders that hand over to a provider, so they are not part of this model.
- `JoinReferencesMethod` depends on column metadata outside this model, and `AssembleCreateTableMethod.exec` unwraps FreeMarker arguments. Neither is modelled.
- Clause texts rely on the `toString()` of `Where`'s operator. The model treats it as an opaque token, and lock-step assumes it contains no `?`, as it does for column names.
- `OrderBy.Order` tokens are taken to be the enum constant names. The client's `Order` enum is not part of this model, so whether it has a `RANDOM` constant is not known here.
- The resolver is a total, pure function. Its internals and its behaviour for unknown entities are not modelled.
- Exceptions are not modelled as outcomes. `ClauseHelper.GetGroup` and `LegacyClauseHelper.GetGroup` require at least one child, the case in which Java's `delete` does not throw. `TruncationInBoundsIffNonEmpty` states what happens otherwise. A null join array (which throws in `getJoinStatement`) and a null entry inside the ordering array are outside the datatypes.
- The `Condition[]` that `Select.Builder.where` takes is modelled as a `seq<Clause>`, the same clause tree `ClauseHelper` compiles from its `Clause[]`. Null array arguments to `where` and `join` are modelled as `None`. Aliasing is modelled only where the builder holds an array: `orderBy(varargs)` keeps the caller's array, and `Query` reads its current contents. The `Condition[]` and `Join[]` arrays are modelled as values, so a caller's later writes to them are not captured.
- `Keywords.LimitRoundTrip` covers the client's `getLimit` as well, because the two methods build the same text.
- The client's `getClauseArgs` has the same text as the current version, so `Clauses.GetClauseArgs` models both. The client has no `On` class, which is why `LegacyClauseHelper` treats an `On` node as an unknown clause.
- `TableNames` models a table by its name and the source element an error points at. The `ValidatorException` becomes a returned `ValidatorError`.
- `CreateTable.BuildCreateTableStatement` takes `columnToSql` as a parameter. Its closure over the data and the table list stands for `StringUtils.columnToSql(mData, tables, column)`, whose body is not part of this model.
