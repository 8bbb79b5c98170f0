# Arulu ORM query builder and entry, in Dafny

This project models the two coupled classes at the heart of the Arulu ORM, a small
PHP active-record library:

- `ORM` (module `Orm`, class `ORM`) is a fluent SQL query builder. It holds these
  ordered clause lists:
  - result columns, with a "still the default `*`" flag;
  - joins;
  - WHERE conditions, each a fragment with its bound values;
  - GROUP BY and ORDER BY;
  - the optional LIMIT and OFFSET;
  - a raw-query override;
  - the single-shot `finalState` flag.

  Chain methods append to these lists or overwrite them. The compilers then turn
  them into a placeholder SQL string plus a positional list of bound values. The
  terminal operations are fetchOne, fetchOneForce, fetchAll, count, save, delete
  and deleteWhereIdIs. Each decides which statement to issue and interprets the
  database's answer.
- `Entry` (module `OrmEntry`, class `Entry`) is a dirty-tracking record. It holds
  the row's fields and the fields changed since the last save, each with its
  value, plus a "not yet inserted" flag.

The database is a `Driver` value.
- `query` maps a statement to rows or to a driver error.
- `execute` maps a statement to `execute`'s boolean or to a driver error.
- `lastInsertId` is an input value.
- Every statement the builder hands to the driver is recorded in the ghost field
  `issued`.

The supporting modules:
- `PhpStrings` models the PHP string functions the compilers use. They are `join`,
  `explode` on one character, `trim`, `empty` on a string, integer-to-string
  interpolation and the `(int)` cast of a string.
- `PhpArrays` models PHP's ordered string-keyed arrays as association lists with
  distinct keys, in insertion order (`$a[$k] = $v`, `unset`,
  `array_intersect_key`, `isset`). The order matters because save's SQL follows
  the dirty map's iteration order.
- `SqlPieces` models `_joinIfNotEmtpy`'s dropping of empty pieces and proves how
  trimming and joining keep the `?` placeholders.
- `Sql` holds the pure statement text.
- `SqlBindings` shows which `?` of save's statement each bound value fills. PDO
  binds positional parameters in order, so the value at index n goes to the `?`
  with n placeholders in front of it.

The configured identifier quote defaults to PHP `null`, which concatenates as the
empty string. It is modelled as `""`, so a fresh builder compiles to
`SELECT * FROM table` without quotes.

### Where the model follows the code over the documented behaviour

- Driver exceptions are not wrapped. `_run`, `save` and `_buildDeleteQuery` catch
  `Exception` inside namespace `Arulu\ORM`, and that name does not resolve to the
  global `\Exception`. So the driver's own error propagates without the
  "Executed query was" suffix, modelled as `DriverError(message)`.
- `save` applies its post-state whenever `execute` returns, even when it returns
  `false`. That post-state is: not new, the id filled in, the dirty map emptied.
- `_buildWhere` appends to the bound values without clearing them. Only
  `_buildDeleteQuery` clears them first.
- `count` adds its `COUNT(*) AS count` column before `fetchOne` checks the
  finalized flag. So a count on a finalized builder still changes the result
  columns.
- `set(k, null)` records `k` in the dirty map, but `isDirty(k)` is false because
  `isset` treats null as absent.
- `inTable` clones the whole builder, including its WHERE conditions and its
  finalized flag. The clone then gets the new table, and the instance primary key
  is replaced only when a key is given; otherwise the clone keeps this builder's.

## Model

| member | source | states |
|---|---|---|
| OrmEntry.Entry.constructor | src/Arulu/ORM/Entry.php:53-66 | a new entry has every initial field dirty; a loaded entry starts with no dirty field and not new; the dirty keys are within the row's keys |
| OrmEntry.Entry.Set | src/Arulu/ORM/Entry.php:86-90 | the value is stored under the key in both the row and the dirty map (existing keys keep their position, new keys go last); every other key reads as before; isDirty(key) holds exactly when the value is not null; dirty keys stay within the row's keys |
| OrmEntry.Entry.SetField | src/Arulu/ORM/Entry.php:188-191 | only the row changes, the dirty map is untouched; every other key reads as before; dirty keys stay within the row's keys |
| OrmEntry.Entry.UnsetDirty | src/Arulu/ORM/Entry.php:97-100 | only the key leaves the dirty map, every other dirty value is kept, the row is untouched, and afterwards the key is not dirty |
| OrmEntry.Entry.ResetDirty | src/Arulu/ORM/Entry.php:206-209 | the dirty map is empty and no key is dirty; the row is untouched |
| OrmEntry.Entry.ForceAllDirty | src/Arulu/ORM/Entry.php:268-273 | the dirty map becomes the row, so its key set equals the row's key set |
| OrmEntry.Entry.UpdateNewStatus | src/Arulu/ORM/Entry.php:234-237 | the new flag is negated (not cleared), so two calls restore it |
| OrmEntry.Entry.IsDirty | src/Arulu/ORM/Entry.php:110-113 | true exactly when the key is in the dirty map with a non-null value |
| OrmEntry.Entry.Get | src/Arulu/ORM/Entry.php:122-125 | the row's value under the key, null for a missing key |
| OrmEntry.Entry.Has | src/Arulu/ORM/Entry.php:145-148 | isset: true exactly when the stored value exists and is not null |
| OrmEntry.Entry.GetID | src/Arulu/ORM/Entry.php:226-229 | the value under the primary-key field; null exactly when that field is missing or null |
| OrmEntry.Entry.AsArray | src/Arulu/ORM/Entry.php:250-260 | with no keys the whole row; with keys the row's pairs whose key is requested, in the row's order, absent keys omitted |
| PhpArrays.Put | src/Arulu/ORM/Entry.php:86-90 | the key now maps to the value, every other key maps as before, an existing key keeps its position and a new key is appended |
| PhpArrays.Remove | src/Arulu/ORM/Entry.php:97-100 | the key is gone, every other key maps as before, and the remaining keys keep their order |
| PhpArrays.IntersectKeys | src/Arulu/ORM/Entry.php:250-260 | the result's keys are the row's keys that are requested, each mapping as in the row, pairs drawn from the row |
| PhpArrays.IntersectKeysOrder | src/Arulu/ORM/Entry.php:250-260 | the kept keys come in the row's order: the result's keys are the row's keys filtered by the requested set |
| PhpArrays.Lookup | src/Arulu/ORM/Entry.php:122-125 | absent exactly when the key is not in the array; otherwise the value paired with the key |
| PhpStrings.JoinSplit | src/Arulu/ORM/ORM.php:1261-1266 | joining the parts `explode` produces with the same separator gives back the string |
| PhpStrings.SplitJoin | src/Arulu/ORM/ORM.php:1261-1266 | exploding a join of separator-free parts gives back the parts |
| PhpStrings.TrimLeft | src/Arulu/ORM/ORM.php:1240-1244 | the result is a suffix of the input, everything removed is blank, and the result does not start with a blank |
| PhpStrings.TrimRight | src/Arulu/ORM/ORM.php:1240-1244 | the result is a prefix of the input, everything removed is blank, and the result does not end with a blank |
| PhpStrings.TrimLeftAppend | src/Arulu/ORM/ORM.php:1240-1244 | left-trimming a concatenation trims into the second part only when the first part is all blank |
| PhpStrings.IntToStringRoundTrip | src/Arulu/ORM/ORM.php:1202-1223 | the `(int)` cast of an interpolated integer is that integer, so LIMIT and OFFSET render their values faithfully |
| PhpStrings.NatToStringDigits | src/Arulu/ORM/ORM.php:1202-1223 | a natural number's decimal text is non-empty, all digits, and denotes the number |
| Sql.QuoteIdentifierParts | src/Arulu/ORM/ORM.php:1261-1286 | splitting a quoted identifier on `.` gives, one for one, the original parts each wrapped in the quote, except a bare `*` which is left alone |
| Sql.UnquotedIdentifier | src/Arulu/ORM/ORM.php:75 | with the default (null) quote an identifier is emitted unchanged |
| Sql.QuoteIdentifierNoPlaceholder | src/Arulu/ORM/ORM.php:1261-1286 | quoting never introduces a `?` |
| Sql.PlaceholdersLayout | src/Arulu/ORM/ORM.php:784-787 | the placeholder list for n values is `?, ?, …, ?`: length 3n-2 (0 for none), a `?` at every third position, each but the last followed by `, ` |
| Sql.PlaceholdersCount | src/Arulu/ORM/ORM.php:784-787 | the placeholder list for n values holds exactly n placeholders |
| Sql.WhereClause | src/Arulu/ORM/ORM.php:1150-1167 | the WHERE text is empty exactly when no condition is registered |
| Sql.WhereValuesAppend | src/Arulu/ORM/ORM.php:1150-1167 | the bound values of two condition lists one after the other are the first list's followed by the second's |
| Sql.WhereBalanced | src/Arulu/ORM/ORM.php:1150-1167 | when every condition has as many placeholders as values, the WHERE text has exactly as many placeholders as the values it binds |
| Sql.SimpleWhereBalanced | src/Arulu/ORM/ORM.php:769-774 | a `column separator ?` condition is balanced when the separator holds no `?` |
| Sql.InWhereBalanced | src/Arulu/ORM/ORM.php:930-935 | an IN / NOT IN condition holds one placeholder per value it binds |
| Sql.BetweenWhereBalanced | src/Arulu/ORM/ORM.php:937-942 | a BETWEEN condition holds two placeholders for its two bounds |
| Sql.NullWhereBalanced | src/Arulu/ORM/ORM.php:966-983 | an IS NULL / IS NOT NULL condition has no placeholder and no value |
| Sql.SelectStartPrefix | src/Arulu/ORM/ORM.php:1112-1127 | the start of every SELECT is `SELECT ` |
| Sql.JoinKeyword | src/Arulu/ORM/ORM.php:620 | the join keyword is `JOIN` for a blank operator, and the left-trimmed operator followed by ` JOIN` otherwise |
| Sql.GroupByClause | src/Arulu/ORM/ORM.php:1174-1181 | empty exactly when there is no group column |
| Sql.GroupByPrefix | src/Arulu/ORM/ORM.php:1174-1181 | with group columns the clause starts with `GROUP BY ` |
| Sql.OrderByClause | src/Arulu/ORM/ORM.php:1188-1195 | empty exactly when there is no ordering |
| Sql.OrderByPrefix | src/Arulu/ORM/ORM.php:1188-1195 | with orderings the clause starts with `ORDER BY ` |
| Sql.LimitClause | src/Arulu/ORM/ORM.php:1202-1209 | empty exactly when there is no limit |
| Sql.LimitClauseValue | src/Arulu/ORM/ORM.php:1202-1209 | a limit renders as `LIMIT ` followed by text whose integer value is the limit |
| Sql.OffsetClause | src/Arulu/ORM/ORM.php:1216-1223 | empty exactly when there is no offset |
| Sql.OffsetClauseValue | src/Arulu/ORM/ORM.php:1216-1223 | an offset renders as `OFFSET ` followed by text whose integer value is the offset |
| SqlPieces.NonEmptyPieces | src/Arulu/ORM/ORM.php:1233-1251 | no kept piece is empty in PHP's sense, and no more pieces are kept than given |
| SqlPieces.NonEmptyPiecesKeep | src/Arulu/ORM/ORM.php:1233-1251 | pieces that are already trimmed and non-empty are all kept, in order |
| SqlPieces.NonEmptyPiecesDrop | src/Arulu/ORM/ORM.php:1233-1251 | pieces that are empty after trimming all vanish |
| Sql.UpdateBalanced | src/Arulu/ORM/ORM.php:1464-1482 | the UPDATE holds one placeholder per dirty field plus one for the id |
| Sql.InsertBalanced | src/Arulu/ORM/ORM.php:1491-1504 | the INSERT / REPLACE holds one placeholder per dirty field |
| SqlBindings.SaveBindings | src/Arulu/ORM/ORM.php:1464-1504 | each value save binds fills the placeholder of its own column: for an UPDATE the i-th value is the i-th dirty value and fills the `?` right after the i-th dirty key's `quoted key = `, and the last value is the id and fills the `?` after `WHERE quoted id =`; for an INSERT/REPLACE the i-th value is the i-th dirty value and fills the i-th `?` of the VALUES list, whose column in the column list is the i-th dirty key |
| Sql.SaveBalanced | src/Arulu/ORM/ORM.php:1411-1427 | the statement save issues has exactly as many placeholders as values it binds |
| Sql.DeleteWithoutWhere | src/Arulu/ORM/ORM.php:1547-1554 | without conditions the DELETE is `DELETE FROM` followed by a space and the trimmed table name, or by nothing when that name is empty in PHP's sense |
| Sql.DeleteWithWhere | src/Arulu/ORM/ORM.php:1547-1554 | with conditions the DELETE is the condition-free one, a space, and the trimmed WHERE clause, which starts with `WHERE` |
| Sql.DeleteBalanced | src/Arulu/ORM/ORM.php:1547-1554 | the DELETE has exactly as many placeholders as the WHERE values it binds |
| Sql.SelectPlaceholders | src/Arulu/ORM/ORM.php:1084-1105 | the only placeholders of a compiled SELECT are those of its WHERE clause |
| Sql.BareSelect | src/Arulu/ORM/ORM.php:1096-1104 | with no clause registered a SELECT is its trimmed start |
| Sql.DefaultSelectStart | src/Arulu/ORM/ORM.php:1112-1127 | with the default quote, all columns and no alias, the start is `SELECT * FROM table` |
| Sql.DefaultBareSelect | tests/Arulu/ORM/Tests/ORMTest.php:98 | a fresh builder on a table compiles to exactly `SELECT * FROM table` |
| Sql.LimitOne | src/Arulu/ORM/ORM.php:370 | the limit fetchOne forces renders as `LIMIT 1` |
| Orm.ORM.constructor | src/Arulu/ORM/ORM.php:106-153 | a builder with the given configuration, no table, the default `*` columns and no clause |
| Orm.ORM.Default | src/Arulu/ORM/ORM.php:67-78 | the shipped configuration: null quote, primary key `ID`, no overrides |
| Orm.ORM.Clone | src/Arulu/ORM/ORM.php:198 | every field of the other builder is copied |
| Orm.ORM.Init | src/Arulu/ORM/ORM.php:218-228 | sets the table; a given key becomes the instance's primary key, otherwise it is kept |
| Orm.ORM.InTable | src/Arulu/ORM/ORM.php:196-202 | a fresh builder equal to this one but for the table and, when one is given, the primary key; this builder is left alone; the new builder's id column is the given key, or, when none is given and no instance key was set, the table's override or the default |
| Orm.ORM.SetPrimaryKey | src/Arulu/ORM/ORM.php:337-341 | later operations use the given primary-key column |
| Orm.ORM.IdAgreesWithGetID | src/Arulu/ORM/ORM.php:1641-1644 | the builder's `id(data)` on an entry's row equals the entry's own `getID()`, and is null exactly when the entry has no set primary key |
| Orm.ORM.Create | src/Arulu/ORM/ORM.php:321-324 | a fresh new entry with the given data (none: empty), every field dirty |
| Orm.ORM.RawQuery | src/Arulu/ORM/ORM.php:499-506 | raw mode with the given text and parameters |
| Orm.ORM.TableAlias | src/Arulu/ORM/ORM.php:515-520 | the alias is recorded |
| Orm.ORM.AddResultColumn | src/Arulu/ORM/ORM.php:532-550 | the first column replaces the default `*`, later ones are appended; an alias adds ` AS ` and the quoted alias |
| Orm.ORM.Select | src/Arulu/ORM/ORM.php:562-566 | as AddResultColumn, with the column quoted |
| Orm.ORM.SelectExpr | src/Arulu/ORM/ORM.php:578-581 | as AddResultColumn, with the expression as written |
| Orm.ORM.Distinct | src/Arulu/ORM/ORM.php:589-593 | the SELECT becomes DISTINCT |
| Orm.ORM.AddJoinSource | src/Arulu/ORM/ORM.php:618-641 | the join text is appended after the earlier joins |
| Orm.ORM.Join | src/Arulu/ORM/ORM.php:657-660 | a plain `JOIN` is appended |
| Orm.ORM.InnerJoin | src/Arulu/ORM/ORM.php:675-678 | an `INNER JOIN` is appended |
| Orm.ORM.LeftOuterJoin | src/Arulu/ORM/ORM.php:693-696 | a `LEFT OUTER JOIN` is appended |
| Orm.ORM.RightOuterJoin | src/Arulu/ORM/ORM.php:711-714 | a `RIGHT OUTER JOIN` is appended |
| Orm.ORM.FullOuterJoin | src/Arulu/ORM/ORM.php:729-732 | a `FULL OUTER JOIN` is appended |
| Orm.ORM.AddWhere | src/Arulu/ORM/ORM.php:742-755 | the condition is appended after the earlier ones; a scalar is bound as a one-element list |
| Orm.ORM.AddSimpleWhere | src/Arulu/ORM/ORM.php:769-774 | appends `quoted column separator ?` bound to the value |
| Orm.ORM.Where | src/Arulu/ORM/ORM.php:800-803 | appends an `=` condition |
| Orm.ORM.WhereEqual | src/Arulu/ORM/ORM.php:813-816 | appends an `=` condition |
| Orm.ORM.WhereNotEqual | src/Arulu/ORM/ORM.php:826-829 | appends a `!=` condition |
| Orm.ORM.WhereIdIs | src/Arulu/ORM/ORM.php:838-841 | appends equality on the primary-key column |
| Orm.ORM.WhereLike | src/Arulu/ORM/ORM.php:851-854 | appends a `LIKE` condition |
| Orm.ORM.WhereNotLike | src/Arulu/ORM/ORM.php:864-867 | appends a `NOT LIKE` condition |
| Orm.ORM.WhereGt | src/Arulu/ORM/ORM.php:877-880 | appends a `>` condition |
| Orm.ORM.WhereLt | src/Arulu/ORM/ORM.php:890-893 | appends a `<` condition |
| Orm.ORM.WhereGte | src/Arulu/ORM/ORM.php:903-906 | appends a `>=` condition |
| Orm.ORM.WhereLte | src/Arulu/ORM/ORM.php:916-919 | appends a `<=` condition |
| Orm.ORM.WhereIn | src/Arulu/ORM/ORM.php:930-935 | appends `column IN (…)` with one placeholder per value, the values bound in the given order |
| Orm.ORM.WhereNotIn | src/Arulu/ORM/ORM.php:952-957 | appends `column NOT IN (…)` with one placeholder per value, the values bound in the given order |
| Orm.ORM.WhereBetween | src/Arulu/ORM/ORM.php:937-942 | appends a BETWEEN condition binding the lower then the upper bound |
| Orm.ORM.WhereNull | src/Arulu/ORM/ORM.php:966-970 | appends `IS NULL`, binding nothing |
| Orm.ORM.WhereNotNull | src/Arulu/ORM/ORM.php:979-983 | appends `IS NOT NULL`, binding nothing |
| Orm.ORM.WhereRaw | src/Arulu/ORM/ORM.php:995-998 | appends the clause as written with its parameters |
| Orm.ORM.Limit | src/Arulu/ORM/ORM.php:1007-1011 | the limit is overwritten; a null argument removes it, so no LIMIT clause is emitted |
| Orm.ORM.Offset | src/Arulu/ORM/ORM.php:1018-1022 | the offset is overwritten; a null argument removes it, so no OFFSET clause is emitted |
| Orm.ORM.AddOrderBy | src/Arulu/ORM/ORM.php:1032-1038 | `quoted column ordering` is appended after the earlier orderings |
| Orm.ORM.OrderByDesc | src/Arulu/ORM/ORM.php:1047-1050 | a descending ordering is appended |
| Orm.ORM.OrderByAsc | src/Arulu/ORM/ORM.php:1059-1062 | an ascending ordering is appended |
| Orm.ORM.GroupBy | src/Arulu/ORM/ORM.php:1071-1076 | the quoted column is appended after the earlier group columns |
| Orm.ORM.BuildWhere | src/Arulu/ORM/ORM.php:1150-1167 | the clause is the WHERE text of the registered conditions in order, and their values are appended to the already bound values |
| Orm.ORM.JoinIfNotEmpty | src/Arulu/ORM/ORM.php:1233-1251 | the loop keeps exactly the trimmed pieces PHP does not consider empty, in order, and joins them |
| Orm.ORM.BuildSelect | src/Arulu/ORM/ORM.php:1084-1105 | raw mode gives the raw text with the raw parameters as bound values; otherwise the seven clauses in their fixed order, with the WHERE values appended |
| Orm.ORM.Run | src/Arulu/ORM/ORM.php:1355-1395 | the compiled SELECT and the bound values are handed to the database, and its rows or error are returned |
| Orm.ORM.FetchOne | src/Arulu/ORM/ORM.php:358-379 | fails on a finalized builder, changing nothing; otherwise finalizes, adds the id condition when an id is given, forces limit 1, issues one SELECT, and, from the database's answer, passes a failure through, returns no entry for no rows, or a fresh loaded entry for the first row |
| Orm.ORM.PrepareFetchOne | src/Arulu/ORM/ORM.php:363-370 | the builder is finalized, the id condition follows the earlier conditions when an id is given, and the limit is 1 |
| Orm.ORM.FirstEntry | src/Arulu/ORM/ORM.php:373-378 | a failure passes through; no row gives no entry; otherwise a fresh, clean, not-new entry holding the first row |
| Orm.ORM.FetchOneForce | src/Arulu/ORM/ORM.php:388-396 | as FetchOne, with a fresh empty new entry when no row comes back; the bound values are then the raw parameters in raw mode, and otherwise the earlier values followed by the WHERE values |
| Orm.ORM.FetchAll | src/Arulu/ORM/ORM.php:406-415 | fails on a finalized builder, changing nothing; otherwise finalizes, runs once and returns one distinct fresh loaded entry per row, in order |
| Orm.ORM.LoadEntries | src/Arulu/ORM/ORM.php:465-468 | one distinct fresh loaded entry per row, in order, each clean and not new |
| Orm.ORM.Count | src/Arulu/ORM/ORM.php:477-484 | adds `COUNT(*) AS count` even on a finalized builder; a finalized builder then fails with limit, bound values and issued statements unchanged; otherwise the builder is finalized with limit 1, binds the raw parameters in raw mode or the earlier values followed by the WHERE values, issues exactly the compiled SELECT, passes a driver error through, and from the answer's first row returns 0 when there is no row or its `count` is unset, the integer cast of `count` without GROUP BY, and the whole row with GROUP BY |
| Orm.ORM.Save | src/Arulu/ORM/ORM.php:1408-1455 | no statement and true for a clean stored entry; otherwise the UPDATE or INSERT/REPLACE is issued; once it has run a new entry stops being new and gets the inserted id if it had none, and the dirty map is emptied; a driver error leaves the entry alone |
| Orm.ORM.BuildDeleteQuery | src/Arulu/ORM/ORM.php:1547-1565 | the bound values are reset to the WHERE values and `DELETE FROM table` with the accumulated WHERE is issued |
| Orm.ORM.DeleteWhereIdIs | src/Arulu/ORM/ORM.php:1535-1538 | the id condition is added after the others, then the delete is issued |
| Orm.ORM.Delete | src/Arulu/ORM/ORM.php:1516-1525 | an entry without id fails and nothing changes; an entry with id is deleted by it; no entry deletes every row the accumulated WHERE matches |
| Orm.ORM.SelectBalanced | src/Arulu/ORM/ORM.php:1084-1105 | a non-raw SELECT built from balanced conditions has exactly one placeholder per value its WHERE binds |
| Orm.ORM.BareBuilderSelect | src/Arulu/ORM/ORM.php:1096-1104 | a builder with no clause compiles to its trimmed SELECT start |
| Orm.FreshSelectExample | tests/Arulu/ORM/Tests/ORMTest.php:98 | a fresh builder on `stupidorm_apellidos` compiles to `SELECT * FROM stupidorm_apellidos` with nothing bound |

`Entry.IsNew`, `Entry.GetData` and `Entry.GetDirtyFields` (src/Arulu/ORM/Entry.php:167-219)
are plain field reads.

The following are specification functions. They spell out the statement text,
the bound values or the database's answer that the contracts above refer to,
and the rows above state what is proved about them:
- in `Orm`: `ORM.CompiledSelect`, `ORM.SelectStartText`, `ORM.IdCondition`,
  `ORM.Answer` (the database's answer to the compiled SELECT), `ORM.GetIDColumn`
  (src/Arulu/ORM/ORM.php:1574-1590) and `ORM.Id` (src/Arulu/ORM/ORM.php:1641-1644);
  their properties are in `InTable` and `IdAgreesWithGetID`;
- in `Sql`: `QuoteIdentifier`, `CreatePlaceholders`, `SelectStart`, `JoinSource`,
  `JoinClause`, `UpdateSql`, `InsertSql`, `DeleteSql`, `SaveStatement`,
  `WhereValues`, `Fragments` and the WHERE fragments `SimpleFragment`,
  `InFragment`, `BetweenFragment` and `NullFragment`; their properties are in the
  `*Balanced`, `*Prefix`, `QuoteIdentifier*`, `Placeholders*`, `Delete*`,
  `*Select*` and `JoinKeyword` lemmas, and in `SqlBindings.SaveBindings`;
- in `SqlBindings`: `BindsAfter` (the `?` right after a given text is the one
  that takes the value at a given index), `UpdateBefore`, `UpdateIdBefore` and
  `InsertBefore` (the statement text in front of each bound `?`);
- in `PhpArrays`: `FilterKeys`, the reference for the order of kept keys.

## Left out

- The PDO connection, `SET NAMES`, `getDb` and `forDatabase`: these are driver
  configuration. The database is an abstract `Driver`.
- Fetching rows from a PDO statement inside `_run`: this is driver I/O. The model
  keeps only the statement and the values handed over, and the rows handed back.
- `setConfig` and the `logging`, `caching`, `username`, `password` and connection
  options: the quote, the default id column and the per-table overrides are fixed
  when a builder is constructed.
- The query log (`_logQuery`, `getLastQuery`, `getQueryLog`, `clearLog`) and the
  query cache (`_createCacheKey`, `_checkQueryCache`, `_cacheQueryResult`,
  `clearCache`): these are process-wide statics built on `sha1`, `PDO::quote` and
  `vsprintf`. The model behaves as if logging and caching are both off, their
  defaults.
- `_setupQuoteCharacter` and `_detectQuoteCharacter`: nothing calls them. The
  quote is a construction parameter.
- `Entry::now`: it reads the wall clock.
- `Entry::save` and `Entry::delete`: each is a one-line delegation to the owning
  builder's `save` / `delete`. The entry keeps only the primary-key column it got
  from its builder, not the builder itself.
- PHP's magic `__get` and `__set`: modelled as the explicit `Get` and `Set`.
- The `MainException` type: the two messages it carries are in `ErrorMessage`.
- Values are null, booleans, integers and strings. Floats are left out, and so
  are arrays passed as the value of a simple `where*` helper.
- `Orm.ORM.AddJoinSource`: its contract names the join text through
  `Sql.JoinSource` and proves nothing about that text beyond the operator keyword
  (`Sql.JoinKeyword`).
- `PhpStrings.StringToInt`: it models `(int)` on decimal text with an optional sign
  and leading blanks. Exponents, hexadecimal and integer overflow are left out.
- `OrmEntry.Entry.Set`: it requires the dirty-subset invariant the entry keeps,
  which PHP cannot break from outside.
- `Orm.ORM.Create`: `create()` without data builds the entry with PHP `null` as
  its row and dirty map, so `getData` and `asArray` then return `null` and `save`
  calls `array_values(null)`; the model starts such an entry from the empty row
  instead, because the value domain has no null array.
- Integer widths: `limit`, `offset` and counts are unbounded integers. PHP's
  64-bit integer overflow is not modelled. `limit` and `offset` take an integer
  or null, as their `is_null` checks expect; other PHP values are left out.
- `Orm.ORM.RawQuery`: only positional (`?`) parameters are modelled. The raw
  parameters are a sequence of values bound in order, so a named-placeholder
  array such as `[':id' => 5]`, which PHP hands to PDO with its keys, cannot be
  expressed.
- `Orm.ORM.WhereRaw` and `Orm.ORM.BuildWhere`: a condition's parameters are a
  sequence and `_buildWhere` concatenates them. String-keyed parameter arrays
  are left out, and with them `array_merge`'s overwriting of an earlier value
  that has the same string key.
