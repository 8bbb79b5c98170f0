/** The query builder: a table, its clause lists and the single-shot flag, the
    chain methods that append to or overwrite them, the compilers that turn them
    into a statement, and the terminal operations that hand a statement to the
    database and interpret its answer. */
module Orm {
  import opened Wrappers
  import opened PhpStrings
  import opened PhpArrays
  import opened Sql
  import opened SqlPieces
  import opened OrmEntry

  /** How the database answers a query: the fetched rows, or the driver's error. */
  datatype QueryOutcome = Rows(rows: seq<Dict<Value>>) | QueryFailed(message: string)

  /** How the database answers a write: `execute`'s boolean, or the driver's error. */
  datatype ExecOutcome = Executed(success: bool) | ExecFailed(message: string)

  /** The database connection, seen only through its answers to statements and
      the id it reports for the last insert. */
  datatype Driver = Driver(query: Statement -> QueryOutcome, execute: Statement -> ExecOutcome, lastInsertId: Value)

  /** The failures of the terminal operations. */
  datatype Error =
    | Finalized             // a fetch or count on an instance that already ran one
    | NoPrimaryKey          // deleting an entry whose id is not set
    | DriverError(message: string)

  function ErrorMessage(e: Error): string {
    match e
    case Finalized => "Cannot execute a fetch when already fetched/counted an statement"
    case NoPrimaryKey => "Impossible deletion. No primary key setted for entry."
    case DriverError(m) => m
  }

  /** The values argument of `_addWhere`/`whereRaw`: a scalar or a list. */
  datatype Binding = Scalar(value: Value) | List(values: seq<Value>)

  /** A scalar is bound as a one-element list, a list as itself. */
  function BoundValues(b: Binding): seq<Value> {
    match b
    case Scalar(v) => [v]
    case List(vs) => vs
  }

  /** The three shapes `count()` returns: 0 when nothing came back, the count
      cast to an integer without GROUP BY, and the whole first row with it. */
  datatype CountResult = Total(n: int) | GroupRow(row: Dict<Value>)

  function Fetched(o: QueryOutcome): Result<seq<Dict<Value>>, Error> {
    match o
    case Rows(rows) => Ok(rows)
    case QueryFailed(m) => Err(DriverError(m))
  }

  function Written(o: ExecOutcome): Result<bool, Error> {
    match o
    case Executed(b) => Ok(b)
    case ExecFailed(m) => Err(DriverError(m))
  }

  class ORM {
    /** The identifier quote; "" is the configured default (null). */
    const quoteChar: string
    /** The default primary-key column. */
    const idColumn: string
    /** Per-table primary-key columns. */
    const idColumnOverrides: map<string, string>

    var tableName: string
    var tableAlias: Option<string>
    var resultColumns: seq<string>
    var usingDefaultResultColumns: bool
    /** The values bound to the statement being built. */
    var values: seq<Value>
    var joinSources: seq<string>
    var distinct: bool
    var isRawQuery: bool
    var rawQuery: string
    var rawParameters: seq<Value>
    var whereConditions: seq<WhereCondition>
    var limit: Option<int>
    var offset: Option<int>
    var orderBy: seq<string>
    var groupBy: seq<string>
    var instanceIdColumn: Option<string>
    /** Set by the first fetch or count; a second one fails. */
    var finalState: bool
    /** The statements this instance handed to the database, oldest first. */
    ghost var issued: seq<Statement>

    /** The default result column list stays `*` until a column is selected. */
    ghost predicate Valid()
      reads this`resultColumns, this`usingDefaultResultColumns
    {
      |resultColumns| >= 1 && (usingDefaultResultColumns ==> resultColumns == ["*"])
    }

    /** No clause registered, nothing bound, nothing run. */
    ghost predicate Blank()
      reads this
    {
      && tableAlias == None && resultColumns == ["*"] && usingDefaultResultColumns
      && values == [] && joinSources == [] && !distinct
      && !isRawQuery && rawQuery == "" && rawParameters == []
      && whereConditions == [] && limit == None && offset == None
      && orderBy == [] && groupBy == [] && instanceIdColumn == None && !finalState
    }

    /** A builder with the given identifier quote and primary-key configuration. */
    constructor (quoteChar: string, idColumn: string, idColumnOverrides: map<string, string>)
      ensures this.quoteChar == quoteChar && this.idColumn == idColumn && this.idColumnOverrides == idColumnOverrides
      ensures tableName == "" && Blank() && issued == []
      ensures Valid()
    {
      this.quoteChar := quoteChar;
      this.idColumn := idColumn;
      this.idColumnOverrides := idColumnOverrides;
      tableName := "";
      tableAlias := None;
      resultColumns := ["*"];
      usingDefaultResultColumns := true;
      values := [];
      joinSources := [];
      distinct := false;
      isRawQuery := false;
      rawQuery := "";
      rawParameters := [];
      whereConditions := [];
      limit := None;
      offset := None;
      orderBy := [];
      groupBy := [];
      instanceIdColumn := None;
      finalState := false;
      issued := [];
    }

    /** The shipped configuration: no quote character, primary key `ID`, no overrides. */
    constructor Default()
      ensures quoteChar == "" && idColumn == "ID" && idColumnOverrides == map[]
      ensures tableName == "" && Blank() && issued == []
      ensures Valid()
    {
      quoteChar := "";
      idColumn := "ID";
      idColumnOverrides := map[];
      tableName := "";
      tableAlias := None;
      resultColumns := ["*"];
      usingDefaultResultColumns := true;
      values := [];
      joinSources := [];
      distinct := false;
      isRawQuery := false;
      rawQuery := "";
      rawParameters := [];
      whereConditions := [];
      limit := None;
      offset := None;
      orderBy := [];
      groupBy := [];
      instanceIdColumn := None;
      finalState := false;
      issued := [];
    }

    /** `clone`: a field-by-field copy of another builder, clauses and flag included. */
    constructor Clone(other: ORM)
      ensures quoteChar == other.quoteChar && idColumn == other.idColumn && idColumnOverrides == other.idColumnOverrides
      ensures tableName == other.tableName && tableAlias == other.tableAlias
      ensures resultColumns == other.resultColumns && usingDefaultResultColumns == other.usingDefaultResultColumns
      ensures values == other.values && joinSources == other.joinSources && distinct == other.distinct
      ensures isRawQuery == other.isRawQuery && rawQuery == other.rawQuery && rawParameters == other.rawParameters
      ensures whereConditions == other.whereConditions && limit == other.limit && offset == other.offset
      ensures orderBy == other.orderBy && groupBy == other.groupBy
      ensures instanceIdColumn == other.instanceIdColumn && finalState == other.finalState
      ensures issued == []
    {
      quoteChar := other.quoteChar;
      idColumn := other.idColumn;
      idColumnOverrides := other.idColumnOverrides;
      tableName := other.tableName;
      tableAlias := other.tableAlias;
      resultColumns := other.resultColumns;
      usingDefaultResultColumns := other.usingDefaultResultColumns;
      values := other.values;
      joinSources := other.joinSources;
      distinct := other.distinct;
      isRawQuery := other.isRawQuery;
      rawQuery := other.rawQuery;
      rawParameters := other.rawParameters;
      whereConditions := other.whereConditions;
      limit := other.limit;
      offset := other.offset;
      orderBy := other.orderBy;
      groupBy := other.groupBy;
      instanceIdColumn := other.instanceIdColumn;
      finalState := other.finalState;
      issued := [];
    }

    // -------------------------------------------------------------------------
    // Table and primary key
    // -------------------------------------------------------------------------

    /** `init(table, idKey)`: sets the table; a given key becomes the instance's primary key. */
    method Init(table: string, idKey: Option<string>)
      modifies this`tableName, this`instanceIdColumn
      ensures tableName == table
      ensures instanceIdColumn == if idKey.Some? then idKey else old(instanceIdColumn)
    {
      tableName := table;
      if idKey.Some? {
        instanceIdColumn := idKey;
      }
    }

    /** `inTable(table, idKey)`: a fresh copy of this builder working on `table`;
        this builder is left as it was. */
    method InTable(table: string, idKey: Option<string>) returns (o: ORM)
      ensures fresh(o)
      ensures o.quoteChar == quoteChar && o.idColumn == idColumn && o.idColumnOverrides == idColumnOverrides
      ensures o.tableName == table
      ensures o.instanceIdColumn == if idKey.Some? then idKey else instanceIdColumn
      ensures idKey.Some? ==> o.GetIDColumn() == idKey.value
      ensures idKey.None? && instanceIdColumn.None? ==>
        o.GetIDColumn() == if table in idColumnOverrides then idColumnOverrides[table] else idColumn
      ensures o.tableAlias == tableAlias && o.resultColumns == resultColumns
      ensures o.usingDefaultResultColumns == usingDefaultResultColumns && o.values == values
      ensures o.joinSources == joinSources && o.distinct == distinct && o.isRawQuery == isRawQuery
      ensures o.rawQuery == rawQuery && o.rawParameters == rawParameters
      ensures o.whereConditions == whereConditions && o.limit == limit && o.offset == offset
      ensures o.orderBy == orderBy && o.groupBy == groupBy && o.finalState == finalState
      ensures o.issued == []
    {
      o := new ORM.Clone(this);
      o.Init(table, idKey);
    }

    /** `getIDColumn()`: the instance's key wins, then the table's override, then the default. */
    function GetIDColumn(): (r: string)
      reads this`instanceIdColumn, this`tableName
      ensures instanceIdColumn.Some? ==> r == instanceIdColumn.value
      ensures instanceIdColumn.None? && tableName in idColumnOverrides ==> r == idColumnOverrides[tableName]
      ensures instanceIdColumn.None? && tableName !in idColumnOverrides ==> r == idColumn
    {
      if instanceIdColumn.Some? then instanceIdColumn.value
      else if tableName in idColumnOverrides then idColumnOverrides[tableName]
      else idColumn
    }

    /** `setPrimaryKey(id)`: later operations use `id` as the primary key. */
    method SetPrimaryKey(id: string)
      modifies this`instanceIdColumn
      ensures instanceIdColumn == Some(id)
      ensures GetIDColumn() == id
    {
      instanceIdColumn := Some(id);
    }

    /** `id(data)`: the row's value under the primary-key column, null when absent. */
    function Id(data: Dict<Value>): (r: Value)
      reads this`instanceIdColumn, this`tableName
      ensures Lookup(data, GetIDColumn()) == Some(r) || (r == Null && GetIDColumn() !in KeySet(data))
    {
      match Lookup(data, GetIDColumn())
      case Some(v) => v
      case None => Null
    }

    /** `id(data)` of an entry's row and the entry's own `getID()` agree: a missing
        key and a key set to null both read as null. */
    lemma IdAgreesWithGetID(e: Entry)
      requires e.idField == GetIDColumn()
      ensures Id(e.data) == e.GetID()
      ensures Id(e.data) == Null <==> !e.Has(e.idField)
    {
    }

    /** `create(data)`: a new entry whose every field is dirty (`create()` starts empty). */
    method Create(data: Option<Dict<Value>>) returns (e: Entry)
      ensures fresh(e) && e.Valid()
      ensures e.data == (if data.Some? then data.value else [])
      ensures e.dirtyFields == e.data && e.newEntry && e.idField == GetIDColumn()
    {
      e := new Entry(if data.Some? then data.value else [], GetIDColumn(), true);
    }

    // -------------------------------------------------------------------------
    // Result columns, raw query, alias
    // -------------------------------------------------------------------------

    /** `rawQuery(query, parameters)`: every other clause is ignored from now on. */
    method RawQuery(query: string, parameters: seq<Value>)
      modifies this`isRawQuery, this`rawQuery, this`rawParameters
      ensures isRawQuery && rawQuery == query && rawParameters == parameters
    {
      isRawQuery := true;
      rawQuery := query;
      rawParameters := parameters;
    }

    /** `tableAlias(alias)`. */
    method TableAlias(alias: string)
      modifies this`tableAlias
      ensures tableAlias == Some(alias)
    {
      tableAlias := Some(alias);
    }

    /** `_addResultColumn(expr, alias)`: the first call replaces the default `*`,
        later calls append; an alias is added as ` AS ` and the quoted alias. */
    method AddResultColumn(expr: string, alias: Option<string>)
      requires Valid()
      modifies this`resultColumns, this`usingDefaultResultColumns
      ensures var column := if alias.Some? then expr + " AS " + QuoteIdentifier(quoteChar, alias.value) else expr;
        resultColumns == (if old(usingDefaultResultColumns) then [column] else old(resultColumns) + [column])
      ensures !usingDefaultResultColumns && Valid()
    {
      var column := expr;
      if alias.Some? {
        column := column + " AS " + QuoteIdentifier(quoteChar, alias.value);
      }
      if usingDefaultResultColumns {
        resultColumns := [column];
        usingDefaultResultColumns := false;
      } else {
        resultColumns := resultColumns + [column];
      }
    }

    /** `select(column, alias)`: a quoted column. */
    method Select(column: string, alias: Option<string>)
      requires Valid()
      modifies this`resultColumns, this`usingDefaultResultColumns
      ensures var c := QuoteIdentifier(quoteChar, column);
        var c' := if alias.Some? then c + " AS " + QuoteIdentifier(quoteChar, alias.value) else c;
        resultColumns == (if old(usingDefaultResultColumns) then [c'] else old(resultColumns) + [c'])
      ensures !usingDefaultResultColumns && Valid()
    {
      AddResultColumn(QuoteIdentifier(quoteChar, column), alias);
    }

    /** `select_expr(expr, alias)`: an unquoted expression. */
    method SelectExpr(expr: string, alias: Option<string>)
      requires Valid()
      modifies this`resultColumns, this`usingDefaultResultColumns
      ensures var e := if alias.Some? then expr + " AS " + QuoteIdentifier(quoteChar, alias.value) else expr;
        resultColumns == (if old(usingDefaultResultColumns) then [e] else old(resultColumns) + [e])
      ensures !usingDefaultResultColumns && Valid()
    {
      AddResultColumn(expr, alias);
    }

    /** `distinct()`. */
    method Distinct()
      modifies this`distinct
      ensures distinct
    {
      distinct := true;
    }

    // -------------------------------------------------------------------------
    // Joins
    // -------------------------------------------------------------------------

    /** `_addJoinSource(operator, table, constraint, alias)`: one more join, after the others. */
    method AddJoinSource(operator: string, table: string, constraint: Constraint, alias: Option<string>)
      modifies this`joinSources
      ensures joinSources == old(joinSources) + [JoinSource(quoteChar, operator, table, constraint, alias)]
    {
      joinSources := joinSources + [JoinSource(quoteChar, operator, table, constraint, alias)];
    }

    method Join(table: string, constraint: Constraint, alias: Option<string>)
      modifies this`joinSources
      ensures joinSources == old(joinSources) + [JoinSource(quoteChar, "", table, constraint, alias)]
    {
      AddJoinSource("", table, constraint, alias);
    }

    method InnerJoin(table: string, constraint: Constraint, alias: Option<string>)
      modifies this`joinSources
      ensures joinSources == old(joinSources) + [JoinSource(quoteChar, "INNER", table, constraint, alias)]
    {
      AddJoinSource("INNER", table, constraint, alias);
    }

    method LeftOuterJoin(table: string, constraint: Constraint, alias: Option<string>)
      modifies this`joinSources
      ensures joinSources == old(joinSources) + [JoinSource(quoteChar, "LEFT OUTER", table, constraint, alias)]
    {
      AddJoinSource("LEFT OUTER", table, constraint, alias);
    }

    method RightOuterJoin(table: string, constraint: Constraint, alias: Option<string>)
      modifies this`joinSources
      ensures joinSources == old(joinSources) + [JoinSource(quoteChar, "RIGHT OUTER", table, constraint, alias)]
    {
      AddJoinSource("RIGHT OUTER", table, constraint, alias);
    }

    method FullOuterJoin(table: string, constraint: Constraint, alias: Option<string>)
      modifies this`joinSources
      ensures joinSources == old(joinSources) + [JoinSource(quoteChar, "FULL OUTER", table, constraint, alias)]
    {
      AddJoinSource("FULL OUTER", table, constraint, alias);
    }

    // -------------------------------------------------------------------------
    // WHERE conditions
    // -------------------------------------------------------------------------

    /** `_addWhere(fragment, values)`: one more condition, after the others; a
        scalar value is bound as a one-element list. */
    method AddWhere(fragment: string, values: Binding)
      modifies this`whereConditions
      ensures whereConditions == old(whereConditions) + [WhereCondition(fragment, BoundValues(values))]
      ensures values.Scalar? ==> whereConditions[|whereConditions| - 1].values == [values.value]
    {
      whereConditions := whereConditions + [WhereCondition(fragment, BoundValues(values))];
    }

    /** `_addSimpleWhere(column, separator, value)`: `column separator ?` bound to the value. */
    method AddSimpleWhere(column: string, separator: string, value: Value)
      modifies this`whereConditions
      ensures whereConditions == old(whereConditions) + [WhereCondition(SimpleFragment(quoteChar, column, separator), [value])]
    {
      AddWhere(SimpleFragment(quoteChar, column, separator), Scalar(value));
    }

    /** The condition `where_id_is(id)` registers. */
    function IdCondition(id: Value): WhereCondition
      reads this`instanceIdColumn, this`tableName
    {
      WhereCondition(SimpleFragment(quoteChar, GetIDColumn(), "="), [id])
    }

    method Where(column: string, value: Value)
      modifies this`whereConditions
      ensures whereConditions == old(whereConditions) + [WhereCondition(SimpleFragment(quoteChar, column, "="), [value])]
    {
      WhereEqual(column, value);
    }

    method WhereEqual(column: string, value: Value)
      modifies this`whereConditions
      ensures whereConditions == old(whereConditions) + [WhereCondition(SimpleFragment(quoteChar, column, "="), [value])]
    {
      AddSimpleWhere(column, "=", value);
    }

    method WhereNotEqual(column: string, value: Value)
      modifies this`whereConditions
      ensures whereConditions == old(whereConditions) + [WhereCondition(SimpleFragment(quoteChar, column, "!="), [value])]
    {
      AddSimpleWhere(column, "!=", value);
    }

    /** `where_id_is(id)`: equality on the primary-key column. */
    method WhereIdIs(id: Value)
      modifies this`whereConditions
      ensures whereConditions == old(whereConditions) + [IdCondition(id)]
    {
      Where(GetIDColumn(), id);
    }

    method WhereLike(column: string, value: Value)
      modifies this`whereConditions
      ensures whereConditions == old(whereConditions) + [WhereCondition(SimpleFragment(quoteChar, column, "LIKE"), [value])]
    {
      AddSimpleWhere(column, "LIKE", value);
    }

    method WhereNotLike(column: string, value: Value)
      modifies this`whereConditions
      ensures whereConditions == old(whereConditions) + [WhereCondition(SimpleFragment(quoteChar, column, "NOT LIKE"), [value])]
    {
      AddSimpleWhere(column, "NOT LIKE", value);
    }

    method WhereGt(column: string, value: Value)
      modifies this`whereConditions
      ensures whereConditions == old(whereConditions) + [WhereCondition(SimpleFragment(quoteChar, column, ">"), [value])]
    {
      AddSimpleWhere(column, ">", value);
    }

    method WhereLt(column: string, value: Value)
      modifies this`whereConditions
      ensures whereConditions == old(whereConditions) + [WhereCondition(SimpleFragment(quoteChar, column, "<"), [value])]
    {
      AddSimpleWhere(column, "<", value);
    }

    method WhereGte(column: string, value: Value)
      modifies this`whereConditions
      ensures whereConditions == old(whereConditions) + [WhereCondition(SimpleFragment(quoteChar, column, ">="), [value])]
    {
      AddSimpleWhere(column, ">=", value);
    }

    method WhereLte(column: string, value: Value)
      modifies this`whereConditions
      ensures whereConditions == old(whereConditions) + [WhereCondition(SimpleFragment(quoteChar, column, "<="), [value])]
    {
      AddSimpleWhere(column, "<=", value);
    }

    /** `whereIn(column, values)`: one placeholder per value, the values bound in order. */
    method WhereIn(column: string, values: seq<Value>)
      modifies this`whereConditions
      ensures whereConditions == old(whereConditions) + [WhereCondition(InFragment(quoteChar, column, false, |values|), values)]
    {
      AddWhere(InFragment(quoteChar, column, false, |values|), List(values));
    }

    /** `whereNotIn(column, values)`. */
    method WhereNotIn(column: string, values: seq<Value>)
      modifies this`whereConditions
      ensures whereConditions == old(whereConditions) + [WhereCondition(InFragment(quoteChar, column, true, |values|), values)]
    {
      AddWhere(InFragment(quoteChar, column, true, |values|), List(values));
    }

    /** `whereBetween(column, from, to)`: the two bounds in order. */
    method WhereBetween(column: string, from: Value, to: Value)
      modifies this`whereConditions
      ensures whereConditions == old(whereConditions) + [WhereCondition(BetweenFragment(quoteChar, column), [from, to])]
    {
      AddWhere(BetweenFragment(quoteChar, column), List([from, to]));
    }

    method WhereNull(column: string)
      modifies this`whereConditions
      ensures whereConditions == old(whereConditions) + [WhereCondition(NullFragment(quoteChar, column, false), [])]
    {
      AddWhere(NullFragment(quoteChar, column, false), List([]));
    }

    method WhereNotNull(column: string)
      modifies this`whereConditions
      ensures whereConditions == old(whereConditions) + [WhereCondition(NullFragment(quoteChar, column, true), [])]
    {
      AddWhere(NullFragment(quoteChar, column, true), List([]));
    }

    /** `whereRaw(clause, parameters)`: the clause as written. */
    method WhereRaw(clause: string, parameters: Binding)
      modifies this`whereConditions
      ensures whereConditions == old(whereConditions) + [WhereCondition(clause, BoundValues(parameters))]
    {
      AddWhere(clause, parameters);
    }

    // -------------------------------------------------------------------------
    // LIMIT, OFFSET, ORDER BY, GROUP BY
    // -------------------------------------------------------------------------

    /** `limit($limit)`: the limit is overwritten; `limit(null)` removes it again. */
    method Limit(n: Option<int>)
      modifies this`limit
      ensures limit == n
    {
      limit := n;
    }

    /** `offset($offset)`: the offset is overwritten; `offset(null)` removes it again. */
    method Offset(n: Option<int>)
      modifies this`offset
      ensures offset == n
    {
      offset := n;
    }

    /** `_addOrderBy(column, ordering)`: one more ordering, after the others. */
    method AddOrderBy(column: string, ordering: string)
      modifies this`orderBy
      ensures orderBy == old(orderBy) + [QuoteIdentifier(quoteChar, column) + " " + ordering]
    {
      orderBy := orderBy + [QuoteIdentifier(quoteChar, column) + " " + ordering];
    }

    method OrderByDesc(column: string)
      modifies this`orderBy
      ensures orderBy == old(orderBy) + [QuoteIdentifier(quoteChar, column) + " DESC"]
    {
      AddOrderBy(column, "DESC");
      assert QuoteIdentifier(quoteChar, column) + " " + "DESC" == QuoteIdentifier(quoteChar, column) + " DESC";
    }

    method OrderByAsc(column: string)
      modifies this`orderBy
      ensures orderBy == old(orderBy) + [QuoteIdentifier(quoteChar, column) + " ASC"]
    {
      AddOrderBy(column, "ASC");
      assert QuoteIdentifier(quoteChar, column) + " " + "ASC" == QuoteIdentifier(quoteChar, column) + " ASC";
    }

    method GroupBy(column: string)
      modifies this`groupBy
      ensures groupBy == old(groupBy) + [QuoteIdentifier(quoteChar, column)]
    {
      groupBy := groupBy + [QuoteIdentifier(quoteChar, column)];
    }

    // -------------------------------------------------------------------------
    // Compilers
    // -------------------------------------------------------------------------

    /** `_buildSelectStart()`. */
    function SelectStartText(): string
      reads this`resultColumns, this`distinct, this`tableName, this`tableAlias
    {
      SelectStart(quoteChar, resultColumns, distinct, tableName, tableAlias)
    }

    /** The SELECT text `_buildSelect` produces in the current state. */
    function CompiledSelect(): string
      reads this`isRawQuery, this`rawQuery, this`resultColumns, this`distinct, this`tableName, this`tableAlias
      reads this`joinSources, this`whereConditions, this`groupBy, this`orderBy, this`limit, this`offset
    {
      if isRawQuery then rawQuery
      else SelectSql(SelectStartText(), joinSources, whereConditions, groupBy, orderBy, limit, offset)
    }

    /** `_buildWhere()`: the WHERE clause, and the conditions' values appended to
        the bound values (which are not cleared first). */
    method BuildWhere() returns (clause: string)
      modifies this`values
      ensures clause == WhereClause(whereConditions)
      ensures values == old(values) + WhereValues(whereConditions)
    {
      var conds := whereConditions;
      if |conds| == 0 {
        return "";
      }
      var fragments: seq<string> := [];
      var i := 0;
      while i < |conds|
        invariant 0 <= i <= |conds|
        invariant fragments == Fragments(conds[..i])
        invariant values == old(values) + WhereValues(conds[..i])
      {
        assert conds[..i + 1][..i] == conds[..i];
        fragments := fragments + [conds[i].fragment];
        values := values + conds[i].values;
        i := i + 1;
      }
      assert conds[..i] == conds;
      clause := "WHERE " + PhpStrings.Join(" AND ", fragments);
    }

    /** `_joinIfNotEmtpy(glue, pieces)`: the trimmed pieces PHP does not consider
        empty, joined in order. */
    static method JoinIfNotEmpty(glue: string, pieces: seq<string>) returns (r: string)
      ensures r == JoinNonEmpty(glue, pieces)
    {
      var filtered: seq<string> := [];
      var i := 0;
      while i < |pieces|
        invariant 0 <= i <= |pieces|
        invariant filtered == NonEmptyPieces(pieces[..i])
      {
        assert pieces[..i + 1][..i] == pieces[..i];
        var piece := Trim(pieces[i]);
        if !IsEmptyString(piece) {
          filtered := filtered + [piece];
        }
        i := i + 1;
      }
      assert pieces[..i] == pieces;
      r := PhpStrings.Join(glue, filtered);
    }

    /** `_buildSelect()`: in raw mode the raw text, with the raw parameters as the
        bound values; otherwise the seven clauses in their fixed order, the WHERE
        values appended to the bound values. */
    method BuildSelect() returns (sql: string)
      modifies this`values
      ensures sql == CompiledSelect()
      ensures values == if isRawQuery then rawParameters else old(values) + WhereValues(whereConditions)
    {
      if isRawQuery {
        values := rawParameters;
        return rawQuery;
      }
      var start := SelectStartText();
      var joins := JoinClause(joinSources);
      var where := BuildWhere();
      var pieces := [start, joins, where, GroupByClause(groupBy), OrderByClause(orderBy),
                     LimitClause(limit), OffsetClause(offset)];
      sql := JoinIfNotEmpty(" ", pieces);
    }

    /** The database's answer to the SELECT compiled in the current state, with the
        current bound values. */
    ghost function Answer(db: Driver): Result<seq<Dict<Value>>, Error>
      reads this`isRawQuery, this`rawQuery, this`resultColumns, this`distinct, this`tableName, this`tableAlias
      reads this`joinSources, this`whereConditions, this`groupBy, this`orderBy, this`limit, this`offset, this`values
    {
      Fetched(db.query(Statement(CompiledSelect(), values)))
    }

    /** `_run()`: compiles the SELECT and hands it, with the bound values, to the database. */
    method Run(db: Driver) returns (r: Result<seq<Dict<Value>>, Error>)
      modifies this`values, this`issued
      ensures values == if isRawQuery then rawParameters else old(values) + WhereValues(whereConditions)
      ensures issued == old(issued) + [Statement(CompiledSelect(), values)]
      ensures r == Answer(db)
    {
      var sql := BuildSelect();
      var st := Statement(sql, values);
      ghost var answer := Answer(db);
      issued := issued + [st];
      // The log is not part of what the answer depends on.
      assert Answer(db) == answer;
      r := Fetched(db.query(st));
    }

    // -------------------------------------------------------------------------
    // Terminal operations
    // -------------------------------------------------------------------------

    /** `fetchOne(id)`: fails on a finalized builder and changes nothing; otherwise
        finalizes, adds the id condition when an id is given, forces `LIMIT 1`, runs,
        and wraps the first row (if any) in a loaded entry. */
    method FetchOne(id: Value, db: Driver) returns (r: Result<Option<Entry>, Error>)
      modifies this`finalState, this`whereConditions, this`limit, this`values, this`issued
      ensures old(finalState) ==> r == Err(Finalized) && unchanged(this)
      ensures !old(finalState) ==> finalState && limit == Some(1)
      ensures !old(finalState) ==> whereConditions == old(whereConditions) + (if id == Null then [] else [IdCondition(id)])
      ensures !old(finalState) ==>
        values == (if isRawQuery then rawParameters else old(values) + WhereValues(whereConditions))
      ensures !old(finalState) ==> issued == old(issued) + [Statement(CompiledSelect(), values)]
      ensures !old(finalState) && Answer(db).Err? ==> r == Err(Answer(db).error)
      ensures !old(finalState) && Answer(db).Ok? && |Answer(db).value| == 0 ==> r == Ok(None)
      ensures !old(finalState) && Answer(db).Ok? && |Answer(db).value| > 0 ==>
        r.Ok? && r.value.Some? && fresh(r.value.value) && r.value.value.Valid() &&
        r.value.value.data == Answer(db).value[0] && r.value.value.dirtyFields == [] &&
        !r.value.value.newEntry && r.value.value.idField == GetIDColumn()
    {
      if finalState {
        return Err(Finalized);
      }
      PrepareFetchOne(id);
      var fetched := Run(db);
      r := FirstEntry(fetched, GetIDColumn());
    }

    /** What `fetchOne` does before running: finalize, add the id condition when an
        id is given, and force `LIMIT 1`. */
    method PrepareFetchOne(id: Value)
      modifies this`finalState, this`whereConditions, this`limit
      ensures finalState && limit == Some(1)
      ensures whereConditions == old(whereConditions) + (if id == Null then [] else [IdCondition(id)])
    {
      finalState := true;
      if id != Null {
        WhereIdIs(id);
      }
      Limit(Some(1));
    }

    /** `fetchOne`'s handling of the answer: a failure passes through, no row gives
        nothing, otherwise the first row becomes a loaded entry. */
    static method FirstEntry(fetched: Result<seq<Dict<Value>>, Error>, idField: string) returns (r: Result<Option<Entry>, Error>)
      ensures fetched.Err? ==> r == Err(fetched.error)
      ensures fetched.Ok? && |fetched.value| == 0 ==> r == Ok(None)
      ensures fetched.Ok? && |fetched.value| > 0 ==>
        r.Ok? && r.value.Some? && fresh(r.value.value) && r.value.value.Valid() &&
        r.value.value.data == fetched.value[0] && r.value.value.dirtyFields == [] &&
        !r.value.value.newEntry && r.value.value.idField == idField
    {
      var rows :- fetched;
      if |rows| == 0 {
        return Ok(None);
      }
      var e := new Entry(rows[0], idField, false);
      r := Ok(Some(e));
    }

    /** `fetchOneForce(id)`: `fetchOne`, with an empty new entry instead of no row. */
    method FetchOneForce(id: Value, db: Driver) returns (r: Result<Entry, Error>)
      modifies this`finalState, this`whereConditions, this`limit, this`values, this`issued
      ensures old(finalState) ==> r == Err(Finalized) && unchanged(this)
      ensures !old(finalState) ==> finalState && limit == Some(1)
      ensures !old(finalState) ==> whereConditions == old(whereConditions) + (if id == Null then [] else [IdCondition(id)])
      ensures !old(finalState) ==>
        values == (if isRawQuery then rawParameters else old(values) + WhereValues(whereConditions))
      ensures !old(finalState) ==> issued == old(issued) + [Statement(CompiledSelect(), values)]
      ensures !old(finalState) && Answer(db).Err? ==> r == Err(Answer(db).error)
      ensures !old(finalState) && Answer(db).Ok? ==>
        r.Ok? && fresh(r.value) && r.value.Valid() && r.value.idField == GetIDColumn()
      ensures !old(finalState) && Answer(db).Ok? && |Answer(db).value| == 0 ==>
        r.Ok? && r.value.data == [] && r.value.dirtyFields == [] && r.value.newEntry
      ensures !old(finalState) && Answer(db).Ok? && |Answer(db).value| > 0 ==>
        r.Ok? && r.value.data == Answer(db).value[0] && r.value.dirtyFields == [] && !r.value.newEntry
    {
      var found := FetchOne(id, db);
      match found
      case Err(e) =>
        r := Err(e);
      case Ok(None) =>
        var e := Create(None);
        r := Ok(e);
      case Ok(Some(e)) =>
        r := Ok(e);
    }

    /** `fetchAll()`: fails on a finalized builder and changes nothing; otherwise
        finalizes, runs, and wraps every row, in order, in its own loaded entry. */
    method FetchAll(db: Driver) returns (r: Result<seq<Entry>, Error>)
      modifies this`finalState, this`values, this`issued
      ensures old(finalState) ==> r == Err(Finalized) && unchanged(this)
      ensures !old(finalState) ==> finalState
      ensures !old(finalState) ==>
        values == (if isRawQuery then rawParameters else old(values) + WhereValues(whereConditions))
      ensures !old(finalState) ==> issued == old(issued) + [Statement(CompiledSelect(), values)]
      ensures !old(finalState) && Answer(db).Err? ==> r == Err(Answer(db).error)
      ensures !old(finalState) && Answer(db).Ok? ==>
        var rows := Answer(db).value;
        && r.Ok? && |r.value| == |rows|
        && (forall i :: 0 <= i < |rows| ==> fresh(r.value[i]) && r.value[i].Valid())
        && (forall i :: 0 <= i < |rows| ==> r.value[i].data == rows[i] && r.value[i].dirtyFields == [])
        && (forall i :: 0 <= i < |rows| ==> !r.value[i].newEntry && r.value[i].idField == GetIDColumn())
        && (forall i, j :: 0 <= i < j < |rows| ==> r.value[i] != r.value[j])
    {
      if finalState {
        return Err(Finalized);
      }
      finalState := true;
      var rows :- Run(db);
      var entries := LoadEntries(rows, GetIDColumn());
      r := Ok(entries);
    }

    /** `_createResultInstance` for every row, in order: one distinct loaded entry per row. */
    static method LoadEntries(rows: seq<Dict<Value>>, idField: string) returns (entries: seq<Entry>)
      ensures |entries| == |rows|
      ensures forall i :: 0 <= i < |rows| ==> fresh(entries[i]) && entries[i].Valid()
      ensures forall i :: 0 <= i < |rows| ==> entries[i].data == rows[i] && entries[i].dirtyFields == []
      ensures forall i :: 0 <= i < |rows| ==> !entries[i].newEntry && entries[i].idField == idField
      ensures forall i, j :: 0 <= i < j < |rows| ==> entries[i] != entries[j]
    {
      entries := [];
      for i := 0 to |rows|
        invariant |entries| == i
        invariant forall k :: 0 <= k < i ==> fresh(entries[k]) && entries[k].Valid()
        invariant forall k :: 0 <= k < i ==> entries[k].data == rows[k] && entries[k].dirtyFields == []
        invariant forall k :: 0 <= k < i ==> !entries[k].newEntry && entries[k].idField == idField
        invariant forall k, l :: 0 <= k < l < i ==> entries[k] != entries[l]
      {
        var e := new Entry(rows[i], idField, false);
        entries := entries + [e];
      }
    }

    /** `count()`: adds the `COUNT(*) AS count` column, then fetches one row (so a
        finalized builder fails, with the column already added), and reads the
        count from it. */
    method Count(db: Driver) returns (r: Result<CountResult, Error>)
      requires Valid()
      modifies this`resultColumns, this`usingDefaultResultColumns, this`finalState, this`whereConditions
      modifies this`limit, this`values, this`issued
      ensures var column := "COUNT(*) AS " + QuoteIdentifier(quoteChar, "count");
        resultColumns == (if old(usingDefaultResultColumns) then [column] else old(resultColumns) + [column])
      ensures !usingDefaultResultColumns && Valid()
      ensures whereConditions == old(whereConditions)
      ensures old(finalState) ==> r == Err(Finalized)
      ensures old(finalState) ==> finalState && limit == old(limit) && values == old(values) && issued == old(issued)
      ensures !old(finalState) ==> finalState && limit == Some(1)
      ensures !old(finalState) ==>
        values == (if isRawQuery then rawParameters else old(values) + WhereValues(whereConditions))
      ensures !old(finalState) ==> issued == old(issued) + [Statement(CompiledSelect(), values)]
      ensures !old(finalState) && Answer(db).Err? ==> r == Err(Answer(db).error)
      ensures !old(finalState) && Answer(db).Ok? ==>
        var rows := Answer(db).value;
        && ((|rows| == 0 || !IsSet(rows[0], "count")) ==> r == Ok(Total(0)))
        && (|rows| > 0 && IsSet(rows[0], "count") && |groupBy| == 0 ==>
              r == Ok(Total(IntCast(Lookup(rows[0], "count").value))))
        && (|rows| > 0 && IsSet(rows[0], "count") && |groupBy| > 0 ==> r == Ok(GroupRow(rows[0])))
    {
      SelectExpr("COUNT(*)", Some("count"));
      assert "COUNT(*)" + " AS " + QuoteIdentifier(quoteChar, "count") == "COUNT(*) AS " + QuoteIdentifier(quoteChar, "count");
      var found := FetchOne(Null, db);
      match found
      case Err(e) =>
        r := Err(e);
      case Ok(None) =>
        r := Ok(Total(0));
      case Ok(Some(e)) =>
        if e.Has("count") {
          if |groupBy| == 0 {
            r := Ok(Total(IntCast(e.Get("count"))));
          } else {
            r := Ok(GroupRow(e.AsArray([])));
          }
        } else {
          r := Ok(Total(0));
        }
    }

    /** `save(entry, force)`: nothing to do for a stored entry without dirty fields;
        otherwise issues the UPDATE (stored entry) or INSERT/REPLACE (new entry). Once
        the database answers, a new entry stops being new and gets the inserted id
        if it had none, and the dirty map is emptied. */
    method Save(entry: Entry, force: bool, db: Driver) returns (r: Result<bool, Error>)
      requires entry.Valid()
      modifies entry, this`issued
      ensures entry.Valid()
      ensures !old(entry.newEntry) && |old(entry.dirtyFields)| == 0 ==>
        r == Ok(true) && issued == old(issued) && unchanged(entry)
      ensures old(entry.newEntry) || |old(entry.dirtyFields)| > 0 ==>
        var st := SaveStatement(quoteChar, tableName, GetIDColumn(), old(entry.dirtyFields), old(entry.newEntry),
                                old(entry.GetID()), force);
        issued == old(issued) + [st] &&
        match db.execute(st)
        case ExecFailed(m) => r == Err(DriverError(m)) && unchanged(entry)
        case Executed(ok) =>
          r == Ok(ok) && !entry.newEntry && entry.dirtyFields == [] &&
          entry.data == if old(entry.newEntry) && old(entry.GetID()) == Null
                        then Put(old(entry.data), GetIDColumn(), db.lastInsertId)
                        else old(entry.data)
    {
      var dirty := entry.dirtyFields;
      if !entry.newEntry && |dirty| == 0 {
        return Ok(true);
      }
      var st := SaveStatement(quoteChar, tableName, GetIDColumn(), dirty, entry.newEntry, entry.GetID(), force);
      issued := issued + [st];
      var outcome := db.execute(st);
      if outcome.ExecFailed? {
        return Err(DriverError(outcome.message));
      }
      if entry.newEntry {
        entry.UpdateNewStatus();
        if entry.GetID() == Null {
          entry.SetField(GetIDColumn(), db.lastInsertId);
        }
      }
      entry.ResetDirty();
      r := Ok(outcome.success);
    }

    /** `_buildDeleteQuery()`: clears the bound values, rebuilds them from the WHERE
        conditions and issues `DELETE FROM table` with the accumulated WHERE. */
    method BuildDeleteQuery(db: Driver) returns (r: Result<bool, Error>)
      modifies this`values, this`issued
      ensures values == WhereValues(whereConditions)
      ensures issued == old(issued) + [Statement(DeleteSql(quoteChar, tableName, whereConditions), values)]
      ensures r == Written(db.execute(Statement(DeleteSql(quoteChar, tableName, whereConditions), values)))
    {
      values := [];
      var where := BuildWhere();
      var sql := JoinIfNotEmpty(" ", ["DELETE FROM", QuoteIdentifier(quoteChar, tableName), where]);
      var st := Statement(sql, values);
      issued := issued + [st];
      r := Written(db.execute(st));
    }

    /** `deleteWhereIdIs(id)`: adds the id condition, then deletes. */
    method DeleteWhereIdIs(id: Value, db: Driver) returns (r: Result<bool, Error>)
      modifies this`whereConditions, this`values, this`issued
      ensures whereConditions == old(whereConditions) + [IdCondition(id)]
      ensures values == WhereValues(whereConditions)
      ensures issued == old(issued) + [Statement(DeleteSql(quoteChar, tableName, whereConditions), values)]
      ensures r == Written(db.execute(Statement(DeleteSql(quoteChar, tableName, whereConditions), values)))
    {
      WhereIdIs(id);
      r := BuildDeleteQuery(db);
    }

    /** `delete(entry)`: an entry without id is refused and nothing changes; an
        entry with id is deleted by it; without an entry every row matching the
        accumulated WHERE (all rows, when there is none) is deleted. */
    method Delete(entry: Entry?, db: Driver) returns (r: Result<bool, Error>)
      modifies this`whereConditions, this`values, this`issued
      ensures entry != null && entry.GetID() == Null ==> r == Err(NoPrimaryKey) && unchanged(this)
      ensures entry != null && entry.GetID() != Null ==>
        whereConditions == old(whereConditions) + [IdCondition(entry.GetID())]
      ensures entry == null ==> whereConditions == old(whereConditions)
      ensures entry == null || entry.GetID() != Null ==>
        values == WhereValues(whereConditions) &&
        issued == old(issued) + [Statement(DeleteSql(quoteChar, tableName, whereConditions), values)] &&
        r == Written(db.execute(Statement(DeleteSql(quoteChar, tableName, whereConditions), values)))
    {
      if entry != null {
        if entry.GetID() == Null {
          return Err(NoPrimaryKey);
        }
        r := DeleteWhereIdIs(entry.GetID(), db);
      } else {
        r := BuildDeleteQuery(db);
      }
    }

    // -------------------------------------------------------------------------
    // Properties of the compiled statements
    // -------------------------------------------------------------------------

    /** No name that goes into the SELECT text holds a `?`. */
    ghost predicate NamesFree()
      reads this`tableName, this`tableAlias, this`resultColumns, this`joinSources, this`groupBy, this`orderBy
    {
      && '?' !in quoteChar && '?' !in tableName && (tableAlias.Some? ==> '?' !in tableAlias.value)
      && (forall i :: 0 <= i < |resultColumns| ==> '?' !in resultColumns[i])
      && (forall i :: 0 <= i < |joinSources| ==> '?' !in joinSources[i])
      && (forall i :: 0 <= i < |groupBy| ==> '?' !in groupBy[i])
      && (forall i :: 0 <= i < |orderBy| ==> '?' !in orderBy[i])
    }

    /** A non-raw SELECT whose conditions are balanced has exactly one placeholder
        per value its WHERE binds, so starting from no bound values they line up. */
    lemma SelectBalanced()
      requires !isRawQuery && NamesFree()
      requires forall i :: 0 <= i < |whereConditions| ==> Balanced(whereConditions[i])
      ensures Placeholders(CompiledSelect()) == |WhereValues(whereConditions)|
    {
      SelectStartPlaceholders(quoteChar, resultColumns, distinct, tableName, tableAlias);
      SelectPlaceholders(SelectStartText(), joinSources, whereConditions, groupBy, orderBy, limit, offset);
      WhereBalanced(whereConditions);
    }

    /** A builder with no clause compiles to its trimmed `SELECT columns FROM table`. */
    lemma BareBuilderSelect()
      requires !isRawQuery && joinSources == [] && whereConditions == [] && groupBy == [] && orderBy == []
      requires limit == None && offset == None
      ensures CompiledSelect() == Trim(SelectStartText())
    {
      SelectStartPrefix(quoteChar, resultColumns, distinct, tableName, tableAlias);
      BareSelect(SelectStartText());
    }
  }

  /** The text the SELECT test expects spelled as the default start plus the table. */
  lemma ApellidosText()
    ensures "SELECT * FROM " + "stupidorm_apellidos" == "SELECT * FROM stupidorm_apellidos"
  {
    var expected := "SELECT * FROM stupidorm_apellidos";
    forall i | 0 <= i < |expected| ensures ("SELECT * FROM " + "stupidorm_apellidos")[i] == expected[i] {
    }
  }

  /** A fresh builder on a table compiles to `SELECT * FROM table` with nothing bound. */
  method FreshSelectExample() returns (sql: string, bound: seq<Value>)
    ensures sql == "SELECT * FROM stupidorm_apellidos" && bound == []
  {
    var table := "stupidorm_apellidos";
    var base := new ORM.Default();
    var orm := base.InTable(table, None);
    sql := orm.BuildSelect();
    bound := orm.values;
    DefaultBareSelect(table);
    ApellidosText();
  }
}
