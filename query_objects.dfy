/** The accumulator threading of que/query.py: `Expression.to_sql` and `Expressions.to_sql`
    append to the Arguments object their caller hands them (or to a new one), and UPDATE hands
    the one accumulator from its SET items on to its WHERE clause. Each method is proved to
    compute what the corresponding function of Query computes. The legacy Fields and Arguments
    behave like those of que/structure.py for everything the legacy code calls on them, so the
    classes of StructureObjects are used. */
module QueryObjects {
  import opened Common
  import opened Text
  import opened OrderedDict
  import opened Style
  import opened Structure
  import opened StructureObjects
  import opened Query

  /** Rendering one more member continues the (Field, fragment) list by that member's pair,
      numbered after the members before it. */
  lemma IterSqlSnoc(es: seq<Expression>, e: Expression, style: Style, offset: int)
    ensures IterSql(es + [e], style, offset) == IterSql(es, style, offset) + [ExpressionToSql(e, style, offset + |es|)]
  {
    var p := IterSql(es + [e], style, offset);
    var q := IterSql(es, style, offset);
    var x := ExpressionToSql(e, style, offset + |es|);
    assert |p| == |q + [x]|;
    forall k | 0 <= k < |p| ensures p[k] == (q + [x])[k] {
      IterSqlSnocAt(es, e, style, offset, k);
    }
  }

  /** IterSqlSnoc at one position: the members before `e` keep their pairs, and `e` comes last. */
  lemma IterSqlSnocAt(es: seq<Expression>, e: Expression, style: Style, offset: int, k: nat)
    requires k <= |es|
    ensures IterSql(es + [e], style, offset)[k]
         == (IterSql(es, style, offset) + [ExpressionToSql(e, style, offset + |es|)])[k]
  {
    var p := IterSql(es + [e], style, offset);
    if k < |es| {
      assert (es + [e])[k] == es[k];
      assert p[k] == ExpressionToSql(es[k], style, offset + k);
      assert IterSql(es, style, offset)[k] == ExpressionToSql(es[k], style, offset + k);
    } else {
      assert (es + [e])[k] == e;
      assert p[k] == ExpressionToSql(e, style, offset + |es|);
    }
  }

  /** IterSqlSnoc for the prefixes of one list: the member at `i` is numbered `offset + i`,
      and its Field goes after those already in an accumulator holding `start`. */
  lemma IterSqlPrefix(es: seq<Expression>, i: nat, style: Style, offset: int, start: seq<Field>, x: (Field, string))
    requires i < |es| && x == ExpressionToSql(es[i], style, offset + i)
    ensures start + Keys(IterSql(es[..i + 1], style, offset)) == start + Keys(IterSql(es[..i], style, offset)) + [x.0]
    ensures Values(IterSql(es[..i + 1], style, offset)) == Values(IterSql(es[..i], style, offset)) + [x.1]
  {
    SliceSnoc(es, i);
    IterSqlStep(es[..i + 1], es[..i], es[i], style, offset, i);
    AppendAssoc(start, Keys(IterSql(es[..i], style, offset)), [x.0]);
  }

  /** The keys and the values of the pairs of a list grown by one member. */
  lemma IterSqlStep(p: seq<Expression>, before: seq<Expression>, e: Expression, style: Style, offset: int, n: nat)
    requires p == before + [e] && n == |before|
    ensures Keys(IterSql(p, style, offset)) == Keys(IterSql(before, style, offset)) + [ExpressionToSql(e, style, offset + n).0]
    ensures Values(IterSql(p, style, offset)) == Values(IterSql(before, style, offset)) + [ExpressionToSql(e, style, offset + n).1]
  {
    var q := IterSql(before, style, offset);
    var x := ExpressionToSql(e, style, offset + n);
    IterSqlSnoc(before, e, style, offset);
    assert IterSql(p, style, offset) == q + [x];
    PairsSnoc(q, x);
  }

  /** The keys and the values of a list of pairs grown by one pair. */
  lemma PairsSnoc<K, V>(q: seq<(K, V)>, x: (K, V))
    ensures Keys(q + [x]) == Keys(q) + [x.0]
    ensures Values(q + [x]) == Values(q) + [x.1]
  {
    assert Keys(q + [x]) == Keys(q) + [x.0];
    assert Values(q + [x]) == Values(q) + [x.1];
  }

  /** A prefix one longer is the prefix and the next element. */
  lemma SliceSnoc<T>(s: seq<T>, i: nat)
    requires i < |s|
    ensures s[..i + 1] == s[..i] + [s[i]]
  {
  }

  /** `Expression.to_sql(args, style, offset)`: appends the Field to `args`, or to a new
      Arguments when none is given, and returns that same Arguments with the fragment. */
  method ExpressionToSqlInto(e: Expression, args: Arguments?, style: Style, offset: int)
    returns (text: string, out: Arguments)
    modifies args
    ensures args != null ==> out == args
    ensures args == null ==> fresh(out)
    ensures args != null ==> out.fields.fields == old(args.fields.fields) + [ExpressionToSql(e, style, offset).0]
    ensures args == null ==> out.fields.fields == [ExpressionToSql(e, style, offset).0]
    ensures text == ExpressionToSql(e, style, offset).1
  {
    if args == null {
      out := new Arguments.Empty();
    } else {
      out := args;
    }
    var name := e.prefix + e.field.left.value;
    var field := e.field;
    if FamilyOf(style) == Named {
      field := Field(Some(name), field.right);
    }
    var fmt := Placeholder(style, offset, name);
    out.Append(field);
    text := e.field.left.value + " " + OpText(e.opcode) + " " + fmt;
  }

  /** `Expressions.iter_sql(args, style, offset)`: every member is rendered into the one
      accumulator, at `offset, offset + 1, ...`, so equal Fields are each appended; the
      fragments come out in member order. */
  method IterSqlInto(es: seq<Expression>, args: Arguments, style: Style, offset: int) returns (frags: seq<string>)
    modifies args
    ensures args.fields.fields == old(args.fields.fields) + LegacyExpressionsArgs(es, style, offset)
    ensures frags == Values(IterSql(es, style, offset))
  {
    ghost var start := args.fields.fields;
    frags := [];
    var i := 0;
    while i < |es|
      invariant 0 <= i <= |es|
      invariant args.fields.fields == start + Keys(IterSql(es[..i], style, offset))
      invariant frags == Values(IterSql(es[..i], style, offset))
    {
      ghost var before := args.fields.fields;
      var sql, out := ExpressionToSqlInto(es[i], args, style, offset + i);
      IterSqlInvariant(es, i, style, offset, start, before, args.fields.fields, frags, sql);
      frags := frags + [sql];
      i := i + 1;
    }
    assert es[..i] == es;
  }

  /** The invariant of IterSqlInto carried from `i` members to `i + 1`. */
  lemma IterSqlInvariant(es: seq<Expression>, i: nat, style: Style, offset: int, start: seq<Field>,
                         before: seq<Field>, after: seq<Field>, frags: seq<string>, sql: string)
    requires i < |es|
    requires before == start + Keys(IterSql(es[..i], style, offset))
    requires after == before + [ExpressionToSql(es[i], style, offset + i).0]
    requires frags == Values(IterSql(es[..i], style, offset)) && sql == ExpressionToSql(es[i], style, offset + i).1
    ensures after == start + Keys(IterSql(es[..i + 1], style, offset))
    ensures frags + [sql] == Values(IterSql(es[..i + 1], style, offset))
  {
    IterSqlPrefix(es, i, style, offset, start, ExpressionToSql(es[i], style, offset + i));
  }

  /** `Expressions.to_sql(args, style, lead, offset)`: renders into `args`, or into a new
      Arguments when none is given, and returns that same Arguments with the clause. */
  method ExpressionsToSqlInto(es: seq<Expression>, args: Arguments?, style: Style, lead: string, offset: int)
    returns (text: string, out: Arguments)
    modifies args
    ensures args != null ==> out == args
    ensures args == null ==> fresh(out)
    ensures args != null ==> out.fields.fields == old(args.fields.fields) + LegacyExpressionsArgs(es, style, offset)
    ensures args == null ==> out.fields.fields == LegacyExpressionsArgs(es, style, offset)
    ensures text == LegacyExpressionsText(es, style, offset, lead)
  {
    if args == null {
      out := new Arguments.Empty();
    } else {
      out := args;
    }
    ghost var start := out.fields.fields;
    var frags := IterSqlInto(es, out, style, offset);
    ghost var bound := LegacyExpressionsArgs(es, style, offset);
    assert out.fields.fields == start + bound;
    if args == null {
      assert start == [] && start + bound == bound;
    }
    var where := JoinStr("AND\n  ", frags);
    text := if where != "" then lead + "\n  " + where else "";
  }

  /** `Update.build_update` with `iter_columns`: each field becomes `Expression(field,
      prefix="col")` rendered into one new Arguments at `offset, offset + 1, ...`; a field
      without a name raises SQLSyntaxError when its turn comes. */
  method BuildUpdateInto(t: Table, style: Style, offset: int) returns (r: Result<string>, args: Arguments)
    ensures fresh(args)
    ensures r.Ok? <==> LegacyBuildUpdate(t, style, offset).Ok?
    ensures r.Err? ==> r.error == SQLSyntaxError
    ensures r.Ok? ==> r.value == LegacyBuildUpdate(t, style, offset).value.0
    ensures r.Ok? ==> args.fields.fields == LegacyBuildUpdate(t, style, offset).value.1
  {
    args := new Arguments.Empty();
    ghost var items: seq<Expression> := [];
    var updates: seq<string> := [];
    var i := 0;
    while i < |t.fields|
      invariant 0 <= i <= |t.fields|
      invariant fresh(args)
      invariant |items| == i
      invariant forall k :: 0 <= k < i ==> t.fields[k].left.Some? && items[k] == Expression(t.fields[k], EQ, "col")
      invariant args.fields.fields == Keys(IterSql(items, style, offset))
      invariant updates == Values(IterSql(items, style, offset))
    {
      var e := NewExpression(t.fields[i], EQ, "col");
      if e.Err? {
        r := Err(e.error);
        return;
      }
      var stmnt;
      stmnt, args := ExpressionToSqlInto(e.value, args, style, offset + i);
      IterSqlStep(items + [e.value], items, e.value, style, offset, i);
      ItemsSnoc(t.fields, items, e.value, i);
      items := items + [e.value];
      updates := updates + [stmnt];
      assert args.fields.fields == Keys(IterSql(items, style, offset));
      assert updates == Values(IterSql(items, style, offset));
      i := i + 1;
    }
    assert SetExpressions(t.fields).value == items;
    r := Ok("UPDATE\n  " + QualifiedName(t.schema, t.table) + "\nSET\n  " + JoinStr(",\n  ", updates));
  }

  /** One more SET item: the items so far are those of the first `i` fields, so with the
      item of field `i` they are those of the first `i + 1`. */
  lemma ItemsSnoc(fs: seq<Field>, items: seq<Expression>, e: Expression, i: nat)
    requires i < |fs| && |items| == i && fs[i].left.Some? && e == Expression(fs[i], EQ, "col")
    requires forall k :: 0 <= k < i ==> fs[k].left.Some? && items[k] == Expression(fs[k], EQ, "col")
    ensures forall k :: 0 <= k < i + 1 ==> fs[k].left.Some? && (items + [e])[k] == Expression(fs[k], EQ, "col")
  {
  }

  /** `Update.to_sql(style, offset)`: the SET accumulator is handed on to WHERE, numbered
      after it, and what the driver gets is `for_sql` of the whole. */
  method UpdateToSqlInto(t: Table, returning: Option<Field>, style: Style, offset: int)
    returns (r: Result<string>, out: SqlArgs)
    ensures r.Ok? <==> LegacyUpdate(t, returning, style, offset).Ok?
    ensures r.Err? ==> r.error == SQLSyntaxError
    ensures r.Ok? ==> r.value == LegacyUpdate(t, returning, style, offset).value.0
    ensures r.Ok? ==> out == ForSql(LegacyUpdate(t, returning, style, offset).value.1, style)
  {
    var update, args := BuildUpdateInto(t, style, offset);
    if update.Err? {
      r := Err(update.error);
      out := ValueList([]);
      return;
    }
    var n := GetOffset(args.fields.fields, offset);
    var where;
    where, args := ExpressionsToSqlInto(t.filters, args, style, "WHERE", n);
    out := args.ForSqlArgs(Some(style), style);
    r := Ok(update.value + "\n" + JoinStr("\n,  ", t.joins) + "\n" + where + "\n" + LegacyReturning(returning));
  }

  /** `Select.to_sql(style, offset)`: WHERE renders into a new accumulator. */
  method SelectToSqlInto(t: Table, style: Style, offset: int) returns (r: Result<string>, out: SqlArgs)
    ensures r.Ok? <==> LegacySelect(t, style, offset).Ok?
    ensures r.Err? ==> r.error == TypeError
    ensures r.Ok? ==> r.value == LegacySelect(t, style, offset).value.0
    ensures r.Ok? ==> out == ForSql(LegacySelect(t, style, offset).value.1, style)
  {
    var select := LegacyBuildSelect(t);
    if select.Err? {
      r := Err(select.error);
      out := ValueList([]);
      return;
    }
    var where, args := ExpressionsToSqlInto(t.filters, null, style, "WHERE", offset);
    var joins := JoinStr("\n", t.joins);
    if joins != "" {
      joins := joins + "\n";
    }
    out := args.ForSqlArgs(Some(style), style);
    r := Ok(select.value + "\n" + joins + where);
  }

  /** `Delete.to_sql(style, offset)`: WHERE renders into a new accumulator, in the given style. */
  method DeleteToSqlInto(t: Table, returning: Option<Field>, style: Style, offset: int) returns (text: string, out: SqlArgs)
    ensures text == LegacyDelete(t, returning, style, offset).0
    ensures out == ForSql(LegacyDelete(t, returning, style, offset).1, style)
  {
    var where, args := ExpressionsToSqlInto(t.filters, null, style, "WHERE", offset);
    var joins := JoinStr("\n,  ", t.joins);
    out := args.ForSqlArgs(Some(style), style);
    text := "DELETE FROM\n  " + QualifiedName(t.schema, t.table) + "\n" + joins + "\n" + where + "\n" + LegacyReturning(returning);
  }

  /** `Insert.to_sql(style, inject_columns, offset)` with `build_insert`: the column and value
      Fields each get an Arguments; injecting binds the values' alone, otherwise `colargs.add`
      binds the columns and then the values. */
  method InsertToSqlInto(t: Table, returning: Option<Field>, style: Style, offset: int, inject: bool)
    returns (r: Result<string>, out: SqlArgs)
    ensures r.Ok? <==> LegacyInsert(t, returning, style, offset, inject).Ok?
    ensures r.Err? ==> r.error == TypeError
    ensures r.Ok? ==> r.value == LegacyInsert(t, returning, style, offset, inject).value.0
    ensures r.Ok? ==> out == ForSql(LegacyInsert(t, returning, style, offset, inject).value.1, style)
  {
    var columns := new Fields(LegacyColumnFields(t.fields));
    var colargs := new Arguments(columns);
    var values := new Fields(LegacyValueFields(t.fields));
    var valargs := new Arguments(values);
    var insertSql := FieldsToSql(columns.fields, style, offset, inject);
    if insertSql.Err? {
      r := Err(insertSql.error);
      out := ValueList([]);
      return;
    }
    var valuesSql := ParamList(values.fields, style, GetOffset(colargs.fields.fields, offset));
    var args: Arguments;
    if inject {
      args := valargs;
    } else {
      args := colargs.Add(valargs);
    }
    out := args.ForSqlArgs(Some(style), style);
    r := Ok("INSERT INTO\n  " + QualifiedName(t.schema, t.table) + " " + insertSql.value + "\n"
            + "VALUES\n  " + valuesSql + "\n" + LegacyReturning(returning));
  }
}
