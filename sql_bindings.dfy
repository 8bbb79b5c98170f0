/** Which placeholder of the statement `save` issues each bound value fills.
    PDO binds positional parameters in order: the value at index `n` goes to
    the `?` that has `n` placeholders in front of it. */
module SqlBindings {
  import opened PhpStrings
  import opened PhpArrays
  import opened SqlPieces
  import opened Sql

  /** `s` takes its value at index `n` in the `?` right after `before`: `s`
      starts with `before` and that `?`, and `before` holds `n` placeholders. */
  predicate BindsAfter(s: string, n: nat, before: string) {
    before + "?" <= s && Placeholders(before) == n
  }

  /** The joined text in front of piece `i`: the earlier pieces and their glue. */
  function JoinBefore(glue: string, ps: seq<string>, i: nat): string
    requires i < |ps|
  {
    if i == 0 then "" else Join(glue, ps[..i]) + glue
  }

  /** Joining the first `m` pieces gives a prefix of joining them all. */
  lemma {:induction false} JoinPrefix(glue: string, ps: seq<string>, m: nat)
    requires 1 <= m <= |ps|
    ensures Join(glue, ps[..m]) <= Join(glue, ps)
    decreases |ps|
  {
    if m == |ps| {
      assert ps[..m] == ps;
    } else {
      var front := ps[..|ps| - 1];
      JoinPrefix(glue, front, m);
      assert front[..m] == ps[..m];
      var whole := Join(glue, front) + glue + ps[|ps| - 1];
      assert whole[..|Join(glue, front)|] == Join(glue, front);
    }
  }

  /** The pieces up to `i` join to the text before piece `i` and the piece. */
  lemma JoinUpTo(glue: string, ps: seq<string>, i: nat)
    requires i < |ps|
    ensures JoinBefore(glue, ps, i) + ps[i] == Join(glue, ps[..i + 1])
  {
    var q := ps[..i + 1];
    if i == 0 {
      assert q == [ps[0]];
    } else {
      assert q[..|q| - 1] == ps[..i];
    }
  }

  /** Piece `i` of a join comes right after the text of the pieces before it. */
  lemma JoinAt(glue: string, ps: seq<string>, i: nat)
    requires i < |ps|
    ensures JoinBefore(glue, ps, i) + ps[i] <= Join(glue, ps)
  {
    JoinUpTo(glue, ps, i);
    JoinPrefix(glue, ps, i + 1);
  }

  lemma CommaFree()
    ensures Placeholders(", ") == 0
  {
    NoPlaceholders(", ");
  }

  lemma EqualsFree()
    ensures Placeholders(" = ") == 0
  {
    NoPlaceholders(" = ");
  }

  lemma SpacePlaceholders()
    ensures Placeholders(" ") == 0
  {
    NoPlaceholders(" ");
  }

  lemma EqualsSplit()
    ensures "= ?" == "= " + "?"
  {
  }

  lemma AssignmentTailSplit()
    ensures " = ?" == " = " + "?"
  {
  }

  /** Text placed after a common head keeps a prefix a prefix. */
  lemma PrefixBehind(h: string, sp: string, w: string, k: string, eq: string, qm: string, j: string,
                     x: string, eqq: string, wh: string, q: string, tail: string)
    requires w + x <= j && x == k + eqq && eqq == eq + qm
    ensures h + sp + w + k + eq + qm <= h + sp + j + sp + wh + sp + q + sp + tail
  {
    var rest := sp + wh + sp + q + sp + tail;
    assert h + sp + w + k + eq + qm == (h + sp) + (w + x);
    assert h + sp + j + sp + wh + sp + q + sp + tail == (h + sp) + j + rest;
    assert ((h + sp) + j + rest)[..|(h + sp) + (w + x)|] == (h + sp) + (w + x);
  }

  lemma CountBehind(a: string, b: string, c: string, n: nat)
    requires Placeholders(a) == 0 && Placeholders(b) == 0 && Placeholders(c) == n
    ensures Placeholders(a + b + c) == n
  {
    PlaceholdersAppend(a, b);
    PlaceholdersAppend(a + b, c);
  }

  lemma CountFive(a: string, b: string, c: string, d: string, e: string)
    ensures Placeholders(a + b + c + d + e)
      == Placeholders(a) + Placeholders(b) + Placeholders(c) + Placeholders(d) + Placeholders(e)
  {
    PlaceholdersAppend(a, b);
    PlaceholdersAppend(a + b, c);
    PlaceholdersAppend(a + b + c, d);
    PlaceholdersAppend(a + b + c + d, e);
  }

  lemma CountGlued(x: string, g: string)
    requires Placeholders(g) == 0
    ensures Placeholders(x + g) == Placeholders(x)
  {
    PlaceholdersAppend(x, g);
  }

  // ---------------------------------------------------------------------------
  // UPDATE
  // ---------------------------------------------------------------------------

  /** The UPDATE in front of the `?` of dirty key `i`: the text up to `SET`, the
      assignments of the earlier keys, then the quoted key and ` = `. */
  function UpdateBefore(quote: string, table: string, keys: seq<string>, i: nat): string
    requires i < |keys|
  {
    "UPDATE " + QuoteIdentifier(quote, table) + " SET" + " "
      + JoinBefore(", ", Assignments(quote, keys), i) + QuoteIdentifier(quote, keys[i]) + " = "
  }

  /** The UPDATE in front of the id's `?`: the text up to `WHERE` and the quoted
      primary-key column, then ` = `. */
  function UpdateIdBefore(quote: string, table: string, idColumn: string, keys: seq<string>): string {
    Join(" ", ["UPDATE " + QuoteIdentifier(quote, table) + " SET", Join(", ", Assignments(quote, keys)),
               "WHERE", QuoteIdentifier(quote, idColumn)]) + " " + "= "
  }

  lemma UpdateKeyText(quote: string, table: string, idColumn: string, keys: seq<string>, i: nat)
    requires i < |keys|
    ensures UpdateBefore(quote, table, keys, i) + "?" <= UpdateSql(quote, table, idColumn, keys)
  {
    var h := "UPDATE " + QuoteIdentifier(quote, table) + " SET";
    var a := Assignments(quote, keys);
    var j := Join(", ", a);
    var k := QuoteIdentifier(quote, keys[i]);
    var q := QuoteIdentifier(quote, idColumn);
    JoinFive(" ", h, j, "WHERE", q, "= ?");
    JoinAt(", ", a, i);
    AssignmentTailSplit();
    PrefixBehind(h, " ", JoinBefore(", ", a, i), k, " = ", "?", j, a[i], " = ?", "WHERE", q, "= ?");
  }

  /** The assignments of the first `i` keys hold `i` placeholders. */
  lemma AssignmentsBefore(quote: string, keys: seq<string>, i: nat)
    requires NoPlaceholderIn(quote, keys)
    requires i < |keys|
    ensures Placeholders(JoinBefore(", ", Assignments(quote, keys), i)) == i
  {
    if i > 0 {
      var a := Assignments(quote, keys);
      assert Assignments(quote, keys[..i]) == a[..i];
      AssignmentsPlaceholders(quote, keys[..i]);
      CommaFree();
      CountGlued(Join(", ", a[..i]), ", ");
    }
  }

  lemma UpdateKeyCount(quote: string, table: string, keys: seq<string>, i: nat)
    requires NoPlaceholderIn(quote, keys) && '?' !in table
    requires i < |keys|
    ensures Placeholders(UpdateBefore(quote, table, keys, i)) == i
  {
    AssignmentsBefore(quote, keys, i);
    UpdateHeadPlaceholders(quote, table);
    NamePlaceholders(quote, keys[i]);
    SpacePlaceholders();
    EqualsFree();
    CountFive("UPDATE " + QuoteIdentifier(quote, table) + " SET", " ",
              JoinBefore(", ", Assignments(quote, keys), i), QuoteIdentifier(quote, keys[i]), " = ");
  }

  /** In an UPDATE the value at index `i` fills the `?` of dirty key `i`. */
  lemma UpdateKeyBinding(quote: string, table: string, idColumn: string, keys: seq<string>, i: nat)
    requires NoPlaceholderIn(quote, keys) && '?' !in table
    requires i < |keys|
    ensures BindsAfter(UpdateSql(quote, table, idColumn, keys), i, UpdateBefore(quote, table, keys, i))
  {
    UpdateKeyText(quote, table, idColumn, keys, i);
    UpdateKeyCount(quote, table, keys, i);
  }

  lemma LastPieceSplit(p: string, tail: string, t: string, qm: string)
    requires tail == t + qm
    ensures p + tail == p + t + qm
  {
  }

  /** In an UPDATE the value after the dirty values fills the id's `?`. */
  lemma UpdateIdBinding(quote: string, table: string, idColumn: string, keys: seq<string>)
    requires NoPlaceholderIn(quote, keys) && '?' !in table && '?' !in idColumn
    ensures BindsAfter(UpdateSql(quote, table, idColumn, keys), |keys|, UpdateIdBefore(quote, table, idColumn, keys))
  {
    var h := "UPDATE " + QuoteIdentifier(quote, table) + " SET";
    var j := Join(", ", Assignments(quote, keys));
    var q := QuoteIdentifier(quote, idColumn);
    var five := [h, j, "WHERE", q, "= ?"];
    assert five[..4] == [h, j, "WHERE", q];
    EqualsSplit();
    LastPieceSplit(Join(" ", five[..4]) + " ", "= ?", "= ", "?");
    UpdateBalanced(quote, table, idColumn, keys);
    PlaceholdersAppend(UpdateIdBefore(quote, table, idColumn, keys), "?");
  }

  // ---------------------------------------------------------------------------
  // INSERT / REPLACE
  // ---------------------------------------------------------------------------

  /** The column list `(k1, k2)` of an INSERT. */
  function ColumnList(quote: string, keys: seq<string>): string {
    "(" + Join(", ", QuotedKeys(quote, keys)) + ")"
  }

  /** The INSERT in front of the `?` of dirty key `i`: the text up to `VALUES`,
      then `(` and the earlier placeholders of the list. Position `i` of that
      list is position `i` of the column list, which names dirty key `i`. */
  function InsertBefore(quote: string, table: string, keys: seq<string>, force: bool, i: nat): string
    requires i < |keys|
  {
    InsertVerb(force) + " " + QuoteIdentifier(quote, table) + " " + ColumnList(quote, keys) + " " + "VALUES"
      + " " + "(" + JoinBefore(", ", Fill(|keys|, "?"), i)
  }

  /** A prefix of the placeholder list stays a prefix once the list is wrapped
      and put at the end of the statement. */
  lemma PrefixInList(front: string, open: string, w: string, qm: string, list: string, close: string)
    requires w + qm <= list
    ensures front + open + w + qm <= front + (open + list + close)
  {
    assert front + open + w + qm == (front + open) + (w + qm);
    assert front + (open + list + close) == (front + open) + list + close;
    assert ((front + open) + list + close)[..|(front + open) + (w + qm)|] == (front + open) + (w + qm);
  }

  lemma InsertKeyText(quote: string, table: string, keys: seq<string>, force: bool, i: nat)
    requires i < |keys|
    ensures InsertBefore(quote, table, keys, force, i) + "?" <= InsertSql(quote, table, keys, force)
  {
    var n := |keys|;
    var v := InsertVerb(force);
    var t := QuoteIdentifier(quote, table);
    var c := ColumnList(quote, keys);
    JoinFive(" ", v, t, c, "VALUES", "(" + CreatePlaceholders(n) + ")");
    var marks := Fill(n, "?");
    JoinAt(", ", marks, i);
    PrefixInList(v + " " + t + " " + c + " " + "VALUES" + " ", "(", JoinBefore(", ", marks, i), "?",
                 CreatePlaceholders(n), ")");
  }

  /** The first `i` items of the placeholder list hold `i` placeholders. */
  lemma MarksBefore(n: nat, i: nat)
    requires i < n
    ensures Placeholders(JoinBefore(", ", Fill(n, "?"), i)) == i
  {
    if i > 0 {
      assert Fill(n, "?")[..i] == Fill(i, "?");
      PlaceholdersCount(i);
      CommaFree();
      CountGlued(CreatePlaceholders(i), ", ");
    }
  }

  lemma InsertHeadCount(quote: string, table: string, keys: seq<string>, force: bool)
    requires NoPlaceholderIn(quote, keys) && '?' !in table
    ensures Placeholders(InsertVerb(force) + " " + QuoteIdentifier(quote, table) + " " + ColumnList(quote, keys)
                         + " " + "VALUES" + " ") == 0
  {
    var n := |keys|;
    var v := InsertVerb(force);
    var t := QuoteIdentifier(quote, table);
    var c := ColumnList(quote, keys);
    var p := "(" + CreatePlaceholders(n) + ")";
    JoinFive(" ", v, t, c, "VALUES", p);
    InsertBalanced(quote, table, keys, force);
    ValuesListPlaceholders(n);
    PlaceholdersAppend(v + " " + t + " " + c + " " + "VALUES" + " ", p);
  }

  lemma InsertKeyCount(quote: string, table: string, keys: seq<string>, force: bool, i: nat)
    requires NoPlaceholderIn(quote, keys) && '?' !in table
    requires i < |keys|
    ensures Placeholders(InsertBefore(quote, table, keys, force, i)) == i
  {
    InsertHeadCount(quote, table, keys, force);
    MarksBefore(|keys|, i);
    OpenParenFree();
    CountBehind(InsertVerb(force) + " " + QuoteIdentifier(quote, table) + " " + ColumnList(quote, keys)
                + " " + "VALUES" + " ", "(", JoinBefore(", ", Fill(|keys|, "?"), i), i);
  }

  /** In an INSERT/REPLACE the value at index `i` fills the `?` at position `i`
      of the VALUES list. */
  lemma InsertKeyBinding(quote: string, table: string, keys: seq<string>, force: bool, i: nat)
    requires NoPlaceholderIn(quote, keys) && '?' !in table
    requires i < |keys|
    ensures BindsAfter(InsertSql(quote, table, keys, force), i, InsertBefore(quote, table, keys, force, i))
  {
    InsertKeyText(quote, table, keys, force, i);
    InsertKeyCount(quote, table, keys, force, i);
  }

  // ---------------------------------------------------------------------------
  // The statement `save` issues
  // ---------------------------------------------------------------------------

  lemma UpdateBindings(quote: string, table: string, idColumn: string, keys: seq<string>)
    requires NoPlaceholderIn(quote, keys) && '?' !in table
    ensures forall i :: 0 <= i < |keys| ==>
      BindsAfter(UpdateSql(quote, table, idColumn, keys), i, UpdateBefore(quote, table, keys, i))
  {
    forall i | 0 <= i < |keys|
      ensures BindsAfter(UpdateSql(quote, table, idColumn, keys), i, UpdateBefore(quote, table, keys, i))
    {
      UpdateKeyBinding(quote, table, idColumn, keys, i);
    }
  }

  lemma InsertBindings(quote: string, table: string, keys: seq<string>, force: bool)
    requires NoPlaceholderIn(quote, keys) && '?' !in table
    ensures forall i :: 0 <= i < |keys| ==>
      BindsAfter(InsertSql(quote, table, keys, force), i, InsertBefore(quote, table, keys, force, i))
  {
    forall i | 0 <= i < |keys|
      ensures BindsAfter(InsertSql(quote, table, keys, force), i, InsertBefore(quote, table, keys, force, i))
    {
      InsertKeyBinding(quote, table, keys, force, i);
    }
  }

  lemma SaveUpdateBindings(quote: string, table: string, idColumn: string, dirty: Dict<Value>, id: Value)
    requires NoPlaceholderIn(quote, KeysOf(dirty)) && '?' !in table
    ensures forall i :: 0 <= i < |dirty| ==>
      BindsAfter(UpdateSql(quote, table, idColumn, KeysOf(dirty)), i, UpdateBefore(quote, table, KeysOf(dirty), i))
      && (ValuesOf(dirty) + [id])[i] == dirty[i].1
  {
    UpdateBindings(quote, table, idColumn, KeysOf(dirty));
  }

  lemma SaveInsertBindings(quote: string, table: string, dirty: Dict<Value>, force: bool)
    requires NoPlaceholderIn(quote, KeysOf(dirty)) && '?' !in table
    ensures forall i :: 0 <= i < |dirty| ==>
      BindsAfter(InsertSql(quote, table, KeysOf(dirty), force), i, InsertBefore(quote, table, KeysOf(dirty), force, i))
      && ValuesOf(dirty)[i] == dirty[i].1
      && QuotedKeys(quote, KeysOf(dirty))[i] == QuoteIdentifier(quote, dirty[i].0)
  {
    InsertBindings(quote, table, KeysOf(dirty), force);
  }

  /** Every value `save` binds lands on the placeholder of its own column: dirty
      value `i` on dirty key `i` (in the SET list of an UPDATE, at position `i` of
      the VALUES list of an INSERT, whose column `i` is that key), and for an
      UPDATE the id on the primary-key column of the WHERE. */
  lemma SaveBindings(quote: string, table: string, idColumn: string, dirty: Dict<Value>,
                     isNew: bool, id: Value, force: bool)
    requires NoPlaceholderIn(quote, KeysOf(dirty)) && '?' !in table && '?' !in idColumn
    ensures var st := SaveStatement(quote, table, idColumn, dirty, isNew, id, force);
      !isNew ==> forall i :: 0 <= i < |dirty| ==>
        BindsAfter(st.sql, i, UpdateBefore(quote, table, KeysOf(dirty), i)) && st.values[i] == dirty[i].1
    ensures var st := SaveStatement(quote, table, idColumn, dirty, isNew, id, force);
      !isNew ==> (BindsAfter(st.sql, |dirty|, UpdateIdBefore(quote, table, idColumn, KeysOf(dirty)))
                  && st.values[|dirty|] == id)
    ensures var st := SaveStatement(quote, table, idColumn, dirty, isNew, id, force);
      isNew ==> forall i :: 0 <= i < |dirty| ==>
        BindsAfter(st.sql, i, InsertBefore(quote, table, KeysOf(dirty), force, i)) && st.values[i] == dirty[i].1
        && QuotedKeys(quote, KeysOf(dirty))[i] == QuoteIdentifier(quote, dirty[i].0)
  {
    if isNew {
      SaveInsertBindings(quote, table, dirty, force);
    } else {
      SaveUpdateBindings(quote, table, idColumn, dirty, id);
      UpdateIdBinding(quote, table, idColumn, KeysOf(dirty));
    }
  }
}
