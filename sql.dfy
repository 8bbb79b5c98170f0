/** The string builders of the query builder: identifier quoting, placeholder
    lists, the clauses of a SELECT, the WHERE clause with its bound values, and
    the UPDATE, INSERT/REPLACE and DELETE statements. They only read the
    builder's state, so they are functions of it here. */
module Sql {
  import opened Wrappers
  import opened PhpStrings
  import opened PhpArrays
  import opened SqlPieces

  /** One registered WHERE condition: its SQL fragment and the values bound to
      its placeholders, in order. */
  datatype WhereCondition = WhereCondition(fragment: string, values: seq<Value>)

  /** A statement as it is handed to the driver: SQL text with `?` placeholders
      and the positional values bound to them. */
  datatype Statement = Statement(sql: string, values: seq<Value>)

  /** The constraint of a JOIN: raw SQL compiled as-is, or a
      (first column, operator, second column) triple. */
  datatype Constraint = RawOn(text: string) | ColumnsOn(first: string, operator: string, second: string)

  // ---------------------------------------------------------------------------
  // Identifier quoting
  // ---------------------------------------------------------------------------

  /** One `.`-separated part: `*` is left alone, anything else is wrapped in the quote. */
  function QuoteIdentifierPart(quote: string, part: string): string {
    if part == "*" then part else quote + part + quote
  }

  function QuoteParts(quote: string, parts: seq<string>): (r: seq<string>)
    ensures |r| == |parts|
    ensures forall i :: 0 <= i < |parts| ==> r[i] == QuoteIdentifierPart(quote, parts[i])
  {
    seq(|parts|, i requires 0 <= i < |parts| => QuoteIdentifierPart(quote, parts[i]))
  }

  /** Quote a (possibly `table.column`) identifier part by part. */
  function QuoteIdentifier(quote: string, identifier: string): string {
    Join(".", QuoteParts(quote, Split(identifier, '.')))
  }

  /** Splitting a quoted identifier on `.` gives the original parts, each wrapped in
      the quote except a bare `*` (when the quote itself holds no `.`). */
  lemma QuoteIdentifierParts(quote: string, identifier: string)
    requires '.' !in quote
    ensures Split(QuoteIdentifier(quote, identifier), '.') == QuoteParts(quote, Split(identifier, '.'))
    ensures |Split(QuoteIdentifier(quote, identifier), '.')| == |Split(identifier, '.')|
  {
    var parts := Split(identifier, '.');
    var quoted := QuoteParts(quote, parts);
    SplitPartsFree(identifier, '.');
    forall i | 0 <= i < |quoted| ensures '.' !in quoted[i] {
      assert '.' !in parts[i];
    }
    assert "." == ['.'];
    SplitJoin(quoted, '.');
  }

  /** With an empty quote (the configured default, PHP null) quoting changes nothing. */
  lemma UnquotedIdentifier(identifier: string)
    ensures QuoteIdentifier("", identifier) == identifier
  {
    var parts := Split(identifier, '.');
    forall i | 0 <= i < |parts| ensures QuoteParts("", parts)[i] == parts[i] {
      assert "" + parts[i] + "" == parts[i];
    }
    assert QuoteParts("", parts) == parts;
    assert "." == ['.'];
    JoinSplit(identifier, '.');
  }

  /** Quoting introduces no placeholder unless the quote or the name has one. */
  lemma QuoteIdentifierNoPlaceholder(quote: string, identifier: string)
    requires '?' !in quote && '?' !in identifier
    ensures '?' !in QuoteIdentifier(quote, identifier)
  {
    var parts := Split(identifier, '.');
    SplitPartsChars(identifier, '.', '?');
    var quoted := QuoteParts(quote, parts);
    forall i | 0 <= i < |quoted| ensures '?' !in quoted[i] {
      assert '?' !in parts[i];
    }
    JoinChars(".", quoted, '?');
  }

  // ---------------------------------------------------------------------------
  // Placeholders
  // ---------------------------------------------------------------------------

  /** `n` question marks separated by ", ". */
  function CreatePlaceholders(n: nat): string {
    Join(", ", Fill(n, "?"))
  }

  /** The placeholder list is `?, ?, …, ?`: a `?` at every third position, each
      followed by ", " except the last. */
  lemma {:induction false} PlaceholdersLayout(n: nat)
    ensures |CreatePlaceholders(n)| == if n == 0 then 0 else 3 * n - 2
    ensures forall i :: 0 <= i < |CreatePlaceholders(n)| ==>
      CreatePlaceholders(n)[i] == if i % 3 == 0 then '?' else if i % 3 == 1 then ',' else ' '
  {
    if n > 1 {
      PlaceholdersLayout(n - 1);
      assert Fill(n, "?")[..n - 1] == Fill(n - 1, "?");
      assert CreatePlaceholders(n) == CreatePlaceholders(n - 1) + ", " + "?";
    }
  }

  lemma {:induction false} FillSum(n: nat)
    ensures PlaceholderSum(Fill(n, "?")) == n
  {
    if n > 0 {
      assert Fill(n, "?")[..n - 1] == Fill(n - 1, "?");
      FillSum(n - 1);
    }
  }

  /** The placeholder list for `n` values holds exactly `n` placeholders. */
  lemma PlaceholdersCount(n: nat)
    ensures Placeholders(CreatePlaceholders(n)) == n
  {
    JoinPlaceholders(", ", Fill(n, "?"));
    FillSum(n);
  }

  // ---------------------------------------------------------------------------
  // WHERE
  // ---------------------------------------------------------------------------

  function Fragments(conds: seq<WhereCondition>): (r: seq<string>)
    ensures |r| == |conds| && forall i :: 0 <= i < |conds| ==> r[i] == conds[i].fragment
  {
    seq(|conds|, i requires 0 <= i < |conds| => conds[i].fragment)
  }

  /** The values of all conditions, concatenated in registration order. */
  function WhereValues(conds: seq<WhereCondition>): seq<Value>
    decreases |conds|
  {
    if |conds| == 0 then [] else WhereValues(conds[..|conds| - 1]) + conds[|conds| - 1].values
  }

  /** The WHERE clause: empty without conditions, otherwise the fragments ANDed
      in registration order. */
  function WhereClause(conds: seq<WhereCondition>): (r: string)
    ensures r == "" <==> |conds| == 0
  {
    if |conds| == 0 then "" else "WHERE " + Join(" AND ", Fragments(conds))
  }

  /** Values registered by later conditions follow those of earlier ones. */
  lemma {:induction false} WhereValuesAppend(a: seq<WhereCondition>, b: seq<WhereCondition>)
    ensures WhereValues(a + b) == WhereValues(a) + WhereValues(b)
    decreases |b|
  {
    if |b| > 0 {
      var ab := a + b;
      assert ab[..|ab| - 1] == a + b[..|b| - 1];
      WhereValuesAppend(a, b[..|b| - 1]);
    } else {
      assert a + b == a;
    }
  }

  /** A condition whose fragment holds one placeholder per bound value. */
  predicate Balanced(c: WhereCondition) {
    Placeholders(c.fragment) == |c.values|
  }

  lemma {:induction false} FragmentsSum(conds: seq<WhereCondition>)
    requires forall i :: 0 <= i < |conds| ==> Balanced(conds[i])
    ensures PlaceholderSum(Fragments(conds)) == |WhereValues(conds)|
    decreases |conds|
  {
    if |conds| > 0 {
      assert Fragments(conds)[..|conds| - 1] == Fragments(conds[..|conds| - 1]);
      FragmentsSum(conds[..|conds| - 1]);
    }
  }

  /** When every condition is balanced, the WHERE clause has exactly as many
      placeholders as there are bound values, so the values line up. */
  lemma WhereBalanced(conds: seq<WhereCondition>)
    requires forall i :: 0 <= i < |conds| ==> Balanced(conds[i])
    ensures Placeholders(WhereClause(conds)) == |WhereValues(conds)|
  {
    if |conds| > 0 {
      JoinPlaceholders(" AND ", Fragments(conds));
      FragmentsSum(conds);
      NoPlaceholders("WHERE ");
    }
  }

  // ---------------------------------------------------------------------------
  // SELECT clauses
  // ---------------------------------------------------------------------------

  /** `SELECT [DISTINCT] columns FROM table [alias]`. */
  function SelectStart(quote: string, columns: seq<string>, distinct: bool, table: string, alias: Option<string>): string
  {
    var cols := Join(", ", columns);
    var cols' := if distinct then "DISTINCT " + cols else cols;
    var fragment := "SELECT " + cols' + " FROM " + QuoteIdentifier(quote, table);
    if alias.Some? then fragment + " " + QuoteIdentifier(quote, alias.value) else fragment
  }

  /** Every SELECT starts with `SELECT `. */
  lemma SelectStartPrefix(quote: string, columns: seq<string>, distinct: bool, table: string, alias: Option<string>)
    ensures var r := SelectStart(quote, columns, distinct, table, alias); |r| >= 7 && r[..7] == "SELECT "
  {
  }

  /** The text one join registers: `[op] JOIN table [alias] ON constraint`. */
  function JoinSource(quote: string, operator: string, table: string, constraint: Constraint, alias: Option<string>): string
  {
    var op := Trim(operator + " JOIN");
    var target := QuoteIdentifier(quote, table);
    var target' := if alias.Some? then target + " " + QuoteIdentifier(quote, alias.value) else target;
    var on := match constraint
      case RawOn(text) => text
      case ColumnsOn(first, comparison, second) =>
        QuoteIdentifier(quote, first) + " " + comparison + " " + QuoteIdentifier(quote, second);
    op + " " + target' + " ON " + on
  }

  /** The join keyword: the operator's leading blanks are dropped and ` JOIN`
      follows it, so the plain join (empty operator) is just `JOIN`. */
  lemma JoinKeyword(operator: string)
    ensures Trim(operator + " JOIN") == if TrimLeft(operator) == "" then "JOIN" else TrimLeft(operator) + " JOIN"
  {
    TrimLeftAppend(operator, " JOIN");
    JoinWord();
    if TrimLeft(operator) == "" {
      TrimRightKeeps("JOIN");
    } else {
      EndsInJoin(TrimLeft(operator));
    }
  }

  lemma JoinWord()
    ensures TrimLeft(" JOIN") == "JOIN"
  {
    var w := " JOIN";
    assert w[0] == ' ' && w[1..] == "JOIN";
    assert TrimLeft(w) == TrimLeft("JOIN");
    assert "JOIN"[0] == 'J';
  }

  lemma EndsInJoin(x: string)
    ensures TrimRight(x + " JOIN") == x + " JOIN"
  {
    var r := x + " JOIN";
    assert r[|r| - 1] == 'N';
    TrimRightKeeps(r);
  }

  /** The JOIN sources, space separated, in registration order. */
  function JoinClause(joins: seq<string>): (r: string)
    ensures |joins| == 0 ==> r == ""
  {
    if |joins| == 0 then "" else Join(" ", joins)
  }

  /** `GROUP BY c1, c2, …`; nothing without group columns. */
  function GroupByClause(groups: seq<string>): (r: string)
    ensures r == "" <==> |groups| == 0
  {
    if |groups| == 0 then "" else "GROUP BY " + Join(", ", groups)
  }

  /** Group columns render after `GROUP BY `. */
  lemma GroupByPrefix(groups: seq<string>)
    requires |groups| > 0
    ensures var r := GroupByClause(groups); |r| >= 9 && r[..9] == "GROUP BY "
  {
  }

  /** `ORDER BY o1, o2, …`; nothing without orderings. */
  function OrderByClause(orders: seq<string>): (r: string)
    ensures r == "" <==> |orders| == 0
  {
    if |orders| == 0 then "" else "ORDER BY " + Join(", ", orders)
  }

  /** Orderings render after `ORDER BY `. */
  lemma OrderByPrefix(orders: seq<string>)
    requires |orders| > 0
    ensures var r := OrderByClause(orders); |r| >= 9 && r[..9] == "ORDER BY "
  {
  }

  /** `LIMIT n`; nothing without a limit. */
  function LimitClause(limit: Option<int>): (r: string)
    ensures r == "" <==> limit.None?
  {
    if limit.Some? then "LIMIT " + IntToString(limit.value) else ""
  }

  /** A limit renders as `LIMIT ` followed by text whose integer value is the limit. */
  lemma LimitClauseValue(n: int)
    ensures var r := LimitClause(Some(n)); |r| >= 6 && r[..6] == "LIMIT " && StringToInt(r[6..]) == n
  {
    var r := LimitClause(Some(n));
    assert r[6..] == IntToString(n);
    IntToStringRoundTrip(n);
  }

  /** `OFFSET n`; nothing without an offset. */
  function OffsetClause(offset: Option<int>): (r: string)
    ensures r == "" <==> offset.None?
  {
    if offset.Some? then "OFFSET " + IntToString(offset.value) else ""
  }

  /** An offset renders as `OFFSET ` followed by text whose integer value is the offset. */
  lemma OffsetClauseValue(n: int)
    ensures var r := OffsetClause(Some(n)); |r| >= 7 && r[..7] == "OFFSET " && StringToInt(r[7..]) == n
  {
    var r := OffsetClause(Some(n));
    assert r[7..] == IntToString(n);
    IntToStringRoundTrip(n);
  }

  // ---------------------------------------------------------------------------
  // UPDATE, INSERT/REPLACE and DELETE
  // ---------------------------------------------------------------------------

  function Assignments(quote: string, keys: seq<string>): (r: seq<string>)
    ensures |r| == |keys| && forall i :: 0 <= i < |keys| ==> r[i] == QuoteIdentifier(quote, keys[i]) + " = ?"
  {
    seq(|keys|, i requires 0 <= i < |keys| => QuoteIdentifier(quote, keys[i]) + " = ?")
  }

  function QuotedKeys(quote: string, keys: seq<string>): (r: seq<string>)
    ensures |r| == |keys| && forall i :: 0 <= i < |keys| ==> r[i] == QuoteIdentifier(quote, keys[i])
  {
    seq(|keys|, i requires 0 <= i < |keys| => QuoteIdentifier(quote, keys[i]))
  }

  /** `UPDATE table SET k1 = ?, k2 = ? WHERE id = ?` over the dirty keys, in order. */
  function UpdateSql(quote: string, table: string, idColumn: string, keys: seq<string>): string {
    Join(" ", ["UPDATE " + QuoteIdentifier(quote, table) + " SET",
               Join(", ", Assignments(quote, keys)),
               "WHERE",
               QuoteIdentifier(quote, idColumn),
               "= ?"])
  }

  /** `INSERT INTO`, or `REPLACE INTO` when the save is forced. */
  function InsertVerb(force: bool): string {
    (if force then "REPLACE" else "INSERT") + " INTO"
  }

  /** `INSERT INTO table (k1, k2) VALUES (?, ?)`, or `REPLACE INTO` when forced. */
  function InsertSql(quote: string, table: string, keys: seq<string>, force: bool): string {
    Join(" ", [InsertVerb(force),
               QuoteIdentifier(quote, table),
               "(" + Join(", ", QuotedKeys(quote, keys)) + ")",
               "VALUES",
               "(" + CreatePlaceholders(|keys|) + ")"])
  }

  /** `DELETE FROM table` followed by whatever WHERE has accumulated. */
  function DeleteSql(quote: string, table: string, conds: seq<WhereCondition>): string {
    JoinNonEmpty(" ", ["DELETE FROM", QuoteIdentifier(quote, table), WhereClause(conds)])
  }

  predicate NoPlaceholderIn(quote: string, names: seq<string>) {
    '?' !in quote && forall i :: 0 <= i < |names| ==> '?' !in names[i]
  }

  lemma AssignmentsPlaceholders(quote: string, keys: seq<string>)
    requires NoPlaceholderIn(quote, keys)
    ensures Placeholders(Join(", ", Assignments(quote, keys))) == |keys|
  {
    var assigns := Assignments(quote, keys);
    forall i | 0 <= i < |keys| ensures Placeholders(assigns[i]) == 1 {
      QuoteIdentifierNoPlaceholder(quote, keys[i]);
      NoPlaceholders(QuoteIdentifier(quote, keys[i]));
      PlaceholdersAppend(QuoteIdentifier(quote, keys[i]), " = ?");
      assert Placeholders(" = ?") == 1;
    }
    PlaceholderSumConst(assigns, 1);
    JoinPlaceholders(", ", assigns);
  }

  lemma QuotedKeysPlaceholders(quote: string, keys: seq<string>)
    requires NoPlaceholderIn(quote, keys)
    ensures Placeholders("(" + Join(", ", QuotedKeys(quote, keys)) + ")") == 0
  {
    var names := QuotedKeys(quote, keys);
    forall i | 0 <= i < |keys| ensures Placeholders(names[i]) == 0 {
      QuoteIdentifierNoPlaceholder(quote, keys[i]);
      NoPlaceholders(QuoteIdentifier(quote, keys[i]));
    }
    PlaceholderSumConst(names, 0);
    JoinPlaceholders(", ", names);
    NoPlaceholders("(");
    NoPlaceholders(")");
    PlaceholdersAppend("(", Join(", ", names));
    PlaceholdersAppend("(" + Join(", ", names), ")");
  }

  lemma NamePlaceholders(quote: string, name: string)
    requires '?' !in quote && '?' !in name
    ensures Placeholders(QuoteIdentifier(quote, name)) == 0
  {
    QuoteIdentifierNoPlaceholder(quote, name);
    NoPlaceholders(QuoteIdentifier(quote, name));
  }

  lemma UpdateHeadPlaceholders(quote: string, table: string)
    requires '?' !in quote && '?' !in table
    ensures Placeholders("UPDATE " + QuoteIdentifier(quote, table) + " SET") == 0
  {
    var t := QuoteIdentifier(quote, table);
    NamePlaceholders(quote, table);
    PlaceholdersAppend("UPDATE ", t);
    PlaceholdersAppend("UPDATE " + t, " SET");
    UpdateKeywordFree();
    SetKeywordFree();
  }

  lemma VerbPlaceholders(force: bool)
    ensures Placeholders(InsertVerb(force)) == 0
  {
    if force {
      assert InsertVerb(force) == "REPLACE INTO";
      NoPlaceholders("REPLACE INTO");
    } else {
      assert InsertVerb(force) == "INSERT INTO";
      NoPlaceholders("INSERT INTO");
    }
  }

  lemma ValuesListPlaceholders(n: nat)
    ensures Placeholders("(" + CreatePlaceholders(n) + ")") == n
  {
    PlaceholdersCount(n);
    NoPlaceholders("(");
    NoPlaceholders(")");
    PlaceholdersAppend("(", CreatePlaceholders(n));
    PlaceholdersAppend("(" + CreatePlaceholders(n), ")");
  }

  /** An UPDATE binds one value per dirty key plus the id: its placeholders match. */
  lemma UpdateBalanced(quote: string, table: string, idColumn: string, keys: seq<string>)
    requires NoPlaceholderIn(quote, keys) && '?' !in table && '?' !in idColumn
    ensures Placeholders(UpdateSql(quote, table, idColumn, keys)) == |keys| + 1
  {
    UpdateHeadPlaceholders(quote, table);
    AssignmentsPlaceholders(quote, keys);
    NamePlaceholders(quote, idColumn);
    EqualsPlaceholder();
    WhereKeywordFree();
    SpaceFree();
    PlaceholdersFive(" ", "UPDATE " + QuoteIdentifier(quote, table) + " SET", Join(", ", Assignments(quote, keys)),
      "WHERE", QuoteIdentifier(quote, idColumn), "= ?");
  }

  lemma InsertPiecesPlaceholders(quote: string, table: string, keys: seq<string>, force: bool)
    requires NoPlaceholderIn(quote, keys) && '?' !in table
    ensures Placeholders(InsertVerb(force)) == 0 && Placeholders("VALUES") == 0
    ensures Placeholders(QuoteIdentifier(quote, table)) == 0
    ensures Placeholders("(" + Join(", ", QuotedKeys(quote, keys)) + ")") == 0
    ensures Placeholders("(" + CreatePlaceholders(|keys|) + ")") == |keys|
  {
    ValuesKeywordFree();
    VerbPlaceholders(force);
    NamePlaceholders(quote, table);
    QuotedKeysPlaceholders(quote, keys);
    ValuesListPlaceholders(|keys|);
  }

  /** An INSERT/REPLACE binds one value per dirty key: its placeholders match. */
  lemma InsertBalanced(quote: string, table: string, keys: seq<string>, force: bool)
    requires NoPlaceholderIn(quote, keys) && '?' !in table
    ensures Placeholders(InsertSql(quote, table, keys, force)) == |keys|
  {
    var a, b, c, d, e := InsertVerb(force), QuoteIdentifier(quote, table),
      "(" + Join(", ", QuotedKeys(quote, keys)) + ")", "VALUES", "(" + CreatePlaceholders(|keys|) + ")";
    assert Placeholders(a) + Placeholders(b) + Placeholders(c) + Placeholders(d) + Placeholders(e) == |keys| by {
      InsertPiecesPlaceholders(quote, table, keys, force);
    }
    assert InsertSql(quote, table, keys, force) == Join(" ", [a, b, c, d, e]);
    PlaceholdersFive(" ", a, b, c, d, e);
  }

  // ---------------------------------------------------------------------------
  // Shapes of the assembled statements
  // ---------------------------------------------------------------------------

  /** A non-empty WHERE clause still starts with `WHERE` once trimmed. */
  lemma WhereTrimmed(conds: seq<WhereCondition>)
    requires |conds| > 0
    ensures |Trim(WhereClause(conds))| >= 5 && Trim(WhereClause(conds))[..5] == "WHERE"
  {
    var w := WhereClause(conds);
    assert w == "WHERE" + w[5..];
    TrimKeepsPrefix("WHERE", w[5..]);
  }

  /** The three pieces of an unconditional DELETE. */
  lemma DeleteUnfoldEmpty(quote: string, table: string)
    ensures DeleteSql(quote, table, []) == JoinNonEmpty(" ", ["DELETE FROM", QuoteIdentifier(quote, table), ""])
  {
    assert WhereClause([]) == "";
  }

  /** The keyword is kept and the table follows it when it is non-empty. */
  lemma DeleteHead(q: string)
    ensures var t := Trim(q);
      JoinNonEmpty(" ", ["DELETE FROM", q, ""]) == "DELETE FROM" + (if IsEmptyString(t) then "" else " " + t)
  {
    KeywordKept("DELETE FROM");
    KeptHeadShape("DELETE FROM", q, "");
  }

  /** A non-empty WHERE is joined after the keyword and table with one space. */
  lemma DeleteTail(q: string, w: string)
    requires !IsEmptyString(Trim(w))
    ensures JoinNonEmpty(" ", ["DELETE FROM", q, w]) == JoinNonEmpty(" ", ["DELETE FROM", q, ""]) + " " + Trim(w)
  {
    KeywordKept("DELETE FROM");
    KeptHeadShape("DELETE FROM", q, w);
  }

  /** Without conditions `delete()` removes every row: `DELETE FROM` and the
      (trimmed) table, with no WHERE part. */
  lemma DeleteWithoutWhere(quote: string, table: string)
    ensures var t := Trim(QuoteIdentifier(quote, table));
      DeleteSql(quote, table, []) == "DELETE FROM" + (if IsEmptyString(t) then "" else " " + t)
  {
    DeleteUnfoldEmpty(quote, table);
    DeleteHead(QuoteIdentifier(quote, table));
  }

  /** With conditions, the trimmed WHERE clause follows the unconditional DELETE after one space. */
  lemma DeleteWithWhere(quote: string, table: string, conds: seq<WhereCondition>)
    requires |conds| > 0
    ensures DeleteSql(quote, table, conds) == DeleteSql(quote, table, []) + " " + Trim(WhereClause(conds))
    ensures |Trim(WhereClause(conds))| >= 5 && Trim(WhereClause(conds))[..5] == "WHERE"
  {
    WhereTrimmed(conds);
    DeleteUnfoldEmpty(quote, table);
    DeleteTail(QuoteIdentifier(quote, table), WhereClause(conds));
  }

  // ---------------------------------------------------------------------------
  // WHERE fragments registered by the chain methods
  // ---------------------------------------------------------------------------

  /** `column op ?`, as `_addSimpleWhere` registers it. */
  function SimpleFragment(quote: string, column: string, separator: string): string {
    QuoteIdentifier(quote, column) + " " + separator + " ?"
  }

  /** `column IN (?, …)` or `column NOT IN (?, …)` with one placeholder per value. */
  function InFragment(quote: string, column: string, negated: bool, count: nat): string {
    QuoteIdentifier(quote, column) + (if negated then " NOT IN (" else " IN (") + CreatePlaceholders(count) + ")"
  }

  /** `(column BETWEEN ? AND ?)`. */
  function BetweenFragment(quote: string, column: string): string {
    "(" + QuoteIdentifier(quote, column) + " BETWEEN ? AND ?)"
  }

  /** `column IS NULL` or `column IS NOT NULL`. */
  function NullFragment(quote: string, column: string, negated: bool): string {
    QuoteIdentifier(quote, column) + (if negated then " IS NOT NULL" else " IS NULL")
  }

  /** A simple comparison binds its one value to its one placeholder. */
  lemma SimpleWhereBalanced(quote: string, column: string, separator: string, value: Value)
    requires '?' !in quote && '?' !in column && '?' !in separator
    ensures Balanced(WhereCondition(SimpleFragment(quote, column, separator), [value]))
  {
    NamePlaceholders(quote, column);
    NoPlaceholders(separator);
    NoPlaceholders(" ");
    assert Placeholders(" ?") == 1;
    PlaceholdersAppend(QuoteIdentifier(quote, column), " ");
    PlaceholdersAppend(QuoteIdentifier(quote, column) + " ", separator);
    PlaceholdersAppend(QuoteIdentifier(quote, column) + " " + separator, " ?");
  }

  /** `IN`/`NOT IN` binds every value, in the given order, to its own placeholder. */
  lemma InWhereBalanced(quote: string, column: string, negated: bool, values: seq<Value>)
    requires '?' !in quote && '?' !in column
    ensures Balanced(WhereCondition(InFragment(quote, column, negated, |values|), values))
  {
    var opening := if negated then " NOT IN (" else " IN (";
    var head := QuoteIdentifier(quote, column) + opening;
    assert Placeholders(head) == 0 by {
      NamePlaceholders(quote, column);
      InOpening(negated);
      PlaceholdersAppend(QuoteIdentifier(quote, column), opening);
    }
    assert Placeholders(CreatePlaceholders(|values|)) == |values| by {
      PlaceholdersCount(|values|);
    }
    assert Placeholders(")") == 0;
    ThreePlaceholders(head, CreatePlaceholders(|values|), ")");
  }

  /** `BETWEEN` binds its two bounds to its two placeholders. */
  lemma BetweenWhereBalanced(quote: string, column: string, from: Value, to: Value)
    requires '?' !in quote && '?' !in column
    ensures Balanced(WhereCondition(BetweenFragment(quote, column), [from, to]))
  {
    NamePlaceholders(quote, column);
    BetweenShape(QuoteIdentifier(quote, column));
  }

  lemma BetweenShape(name: string)
    requires Placeholders(name) == 0
    ensures Placeholders("(" + name + " BETWEEN ? AND ?)") == 2
  {
    BetweenTail();
    OpenParenFree();
    ThreePlaceholders("(", name, " BETWEEN ? AND ?)");
  }

  /** `IS [NOT] NULL` binds nothing. */
  lemma NullWhereBalanced(quote: string, column: string, negated: bool)
    requires '?' !in quote && '?' !in column
    ensures Balanced(WhereCondition(NullFragment(quote, column, negated), []))
  {
    assert Placeholders(QuoteIdentifier(quote, column)) == 0 by {
      NamePlaceholders(quote, column);
    }
    NullTail(negated);
    PlaceholdersAppend(QuoteIdentifier(quote, column), if negated then " IS NOT NULL" else " IS NULL");
  }

  // ---------------------------------------------------------------------------
  // The assembled SELECT
  // ---------------------------------------------------------------------------

  /** The seven pieces `_buildSelect` joins, in their fixed order: start, JOIN,
      WHERE, GROUP BY, ORDER BY, LIMIT, OFFSET. */
  function SelectPieces(start: string, joins: seq<string>, conds: seq<WhereCondition>, groups: seq<string>,
                        orders: seq<string>, limit: Option<int>, offset: Option<int>): seq<string>
  {
    [start, JoinClause(joins), WhereClause(conds), GroupByClause(groups), OrderByClause(orders),
     LimitClause(limit), OffsetClause(offset)]
  }

  /** The statement text of a non-raw SELECT. */
  function SelectSql(start: string, joins: seq<string>, conds: seq<WhereCondition>, groups: seq<string>,
                     orders: seq<string>, limit: Option<int>, offset: Option<int>): string
  {
    JoinNonEmpty(" ", SelectPieces(start, joins, conds, groups, orders, limit, offset))
  }

  lemma ListClausePlaceholders(joins: seq<string>, groups: seq<string>, orders: seq<string>)
    requires forall i :: 0 <= i < |joins| ==> '?' !in joins[i]
    requires forall i :: 0 <= i < |groups| ==> '?' !in groups[i]
    requires forall i :: 0 <= i < |orders| ==> '?' !in orders[i]
    ensures Placeholders(JoinClause(joins)) == 0
    ensures Placeholders(GroupByClause(groups)) == 0
    ensures Placeholders(OrderByClause(orders)) == 0
  {
    JoinChars(" ", joins, '?');
    JoinChars(", ", groups, '?');
    JoinChars(", ", orders, '?');
    NoPlaceholders(JoinClause(joins));
    NoPlaceholders(GroupByClause(groups));
    NoPlaceholders(OrderByClause(orders));
  }

  lemma NumberClausePlaceholders(limit: Option<int>, offset: Option<int>)
    ensures Placeholders(LimitClause(limit)) == 0 && Placeholders(OffsetClause(offset)) == 0
  {
    LimitPlaceholders(limit);
    OffsetPlaceholders(offset);
  }

  lemma LimitPlaceholders(limit: Option<int>)
    ensures Placeholders(LimitClause(limit)) == 0
  {
    if limit.Some? {
      LimitKeywordFree();
      IntToStringFree(limit.value);
      PlaceholdersAppend("LIMIT ", IntToString(limit.value));
    }
  }

  lemma OffsetPlaceholders(offset: Option<int>)
    ensures Placeholders(OffsetClause(offset)) == 0
  {
    if offset.Some? {
      OffsetKeywordFree();
      IntToStringFree(offset.value);
      PlaceholdersAppend("OFFSET ", IntToString(offset.value));
    }
  }

  /** A SELECT whose start, joins, groupings and orderings hold no `?` has exactly
      the WHERE clause's placeholders. */
  lemma SelectPlaceholders(start: string, joins: seq<string>, conds: seq<WhereCondition>, groups: seq<string>,
                           orders: seq<string>, limit: Option<int>, offset: Option<int>)
    requires '?' !in start
    requires forall i :: 0 <= i < |joins| ==> '?' !in joins[i]
    requires forall i :: 0 <= i < |groups| ==> '?' !in groups[i]
    requires forall i :: 0 <= i < |orders| ==> '?' !in orders[i]
    ensures Placeholders(SelectSql(start, joins, conds, groups, orders, limit, offset)) == Placeholders(WhereClause(conds))
  {
    NoPlaceholders(start);
    ListClausePlaceholders(joins, groups, orders);
    NumberClausePlaceholders(limit, offset);
    SpaceFree();
    JoinSevenOnlyThird(" ", start, JoinClause(joins), WhereClause(conds), GroupByClause(groups), OrderByClause(orders),
      LimitClause(limit), OffsetClause(offset));
  }

  /** The start of a SELECT has no placeholder when none of its names has one. */
  lemma SelectStartPlaceholders(quote: string, columns: seq<string>, distinct: bool, table: string, alias: Option<string>)
    requires '?' !in quote && '?' !in table && (alias.Some? ==> '?' !in alias.value)
    requires forall i :: 0 <= i < |columns| ==> '?' !in columns[i]
    ensures '?' !in SelectStart(quote, columns, distinct, table, alias)
  {
    JoinChars(", ", columns, '?');
    QuoteIdentifierNoPlaceholder(quote, table);
    if alias.Some? {
      QuoteIdentifierNoPlaceholder(quote, alias.value);
    }
  }

  lemma SelectStartKept(start: string)
    requires |start| >= 7 && start[..7] == "SELECT "
    ensures NonEmptyPieces([start]) == [Trim(start)]
  {
    assert start == "SELECT" + start[6..];
    TrimKeepsPrefix("SELECT", start[6..]);
    assert [start][..0] == [];
  }

  /** With no clause registered a SELECT is just its (trimmed) start. */
  lemma BareSelect(start: string)
    requires |start| >= 7 && start[..7] == "SELECT "
    ensures SelectSql(start, [], [], [], [], None, None) == Trim(start)
  {
    var empties := ["", "", "", "", "", ""];
    assert SelectPieces(start, [], [], [], [], None, None) == [start] + empties;
    forall i | 0 <= i < |empties| ensures IsEmptyString(Trim(empties[i])) {
      assert Trim("") == "";
    }
    NonEmptyPiecesAppendEmpty([start], empties);
    SelectStartKept(start);
  }

  /** With the default quote, all columns and no alias, a SELECT starts `SELECT * FROM table`. */
  lemma DefaultSelectStart(table: string)
    ensures SelectStart("", ["*"], false, table, None) == "SELECT * FROM " + table
  {
    UnquotedIdentifier(table);
  }

  /** A builder on `table` with nothing registered selects `SELECT * FROM table`
      (a table name that does not end in blank space). */
  lemma DefaultBareSelect(table: string)
    requires |table| > 0 && !IsTrimChar(table[|table| - 1])
    ensures SelectSql(SelectStart("", ["*"], false, table, None), [], [], [], [], None, None) == "SELECT * FROM " + table
  {
    var start := SelectStart("", ["*"], false, table, None);
    DefaultSelectStart(table);
    SelectStartPrefix("", ["*"], false, table, None);
    BareSelect(start);
    var s := "SELECT * FROM " + table;
    assert s[0] == 'S';
    assert s[|s| - 1] == table[|table| - 1];
    TrimKeeps(s);
  }

  /** `fetchOne`'s forced limit renders as `LIMIT 1`. */
  lemma LimitOne()
    ensures LimitClause(Some(1)) == "LIMIT 1"
  {
  }

  // ---------------------------------------------------------------------------
  // The statement `save` issues
  // ---------------------------------------------------------------------------

  /** What `save` sends for an entry with the given dirty fields: an UPDATE keyed
      by the id for a stored entry, an INSERT (or REPLACE) for a new one. */
  function SaveStatement(quote: string, table: string, idColumn: string, dirty: Dict<Value>,
                         isNew: bool, id: Value, force: bool): (st: Statement)
    ensures !isNew ==> st.values == ValuesOf(dirty) + [id]
    ensures isNew ==> st.values == ValuesOf(dirty)
  {
    if !isNew then Statement(UpdateSql(quote, table, idColumn, KeysOf(dirty)), ValuesOf(dirty) + [id])
    else Statement(InsertSql(quote, table, KeysOf(dirty), force), ValuesOf(dirty))
  }

  /** The statement `save` issues binds exactly one value per placeholder: the
      dirty values in the dirty map's order (then the id, for an UPDATE). */
  lemma SaveBalanced(quote: string, table: string, idColumn: string, dirty: Dict<Value>,
                     isNew: bool, id: Value, force: bool)
    requires NoPlaceholderIn(quote, KeysOf(dirty)) && '?' !in table && '?' !in idColumn
    ensures var st := SaveStatement(quote, table, idColumn, dirty, isNew, id, force);
      Placeholders(st.sql) == |st.values|
  {
    if isNew {
      InsertBalanced(quote, table, KeysOf(dirty), force);
    } else {
      UpdateBalanced(quote, table, idColumn, KeysOf(dirty));
    }
  }

  /** The DELETE that `_buildDeleteQuery` issues binds exactly one value per
      placeholder when every registered condition is balanced. */
  lemma DeleteBalanced(quote: string, table: string, conds: seq<WhereCondition>)
    requires '?' !in quote && '?' !in table
    requires forall i :: 0 <= i < |conds| ==> Balanced(conds[i])
    ensures Placeholders(DeleteSql(quote, table, conds)) == |WhereValues(conds)|
  {
    NamePlaceholders(quote, table);
    DeletePiecesPlaceholders(QuoteIdentifier(quote, table), WhereClause(conds));
    WhereBalanced(conds);
  }

  /** Only the WHERE piece of a DELETE can hold placeholders. */
  lemma DeletePiecesPlaceholders(q: string, w: string)
    requires Placeholders(q) == 0
    ensures Placeholders(JoinNonEmpty(" ", ["DELETE FROM", q, w])) == Placeholders(w)
  {
    DeleteKeywordFree();
    SpaceFree();
    ThirdPiecePlaceholders(" ", "DELETE FROM", q, w);
  }

}
