/** The Fields and Arguments objects of que/structure.py and the statement methods that
    thread them, with the in-place updates the source performs on them.

    `Arguments += other` extends the Fields object the Arguments holds, so every Arguments
    sharing that Fields object sees the change; `append` instead rebinds the Arguments to a
    new Fields object. Each statement method is proved to compute what the corresponding
    function of Structure computes. */
module StructureObjects {
  import opened Common
  import opened OrderedDict
  import opened Style
  import opened Util
  import opened Structure
  import opened StatementProps

  /** `Fields`: a tuple of Field that `+=` extends in place. */
  class Fields {
    var fields: seq<Field>

    constructor (fs: seq<Field>)
      ensures fields == fs
    {
      fields := fs;
    }

    /** `len(fields)`. */
    function Length(): nat
      reads this
    {
      |fields|
    }

    /** `Fields.right`: the values, in order. The cached copy is dropped by `+=`, so it always
        agrees with the current Fields. */
    function Right(): seq<Option<Value>>
      reads this
    {
      Rights(fields)
    }

    /** `Fields.mapping`: the named Fields as a dict, later names overwriting earlier ones. */
    function Mapping(): Dict<string, Option<Value>>
      reads this
    {
      FieldsMapping(fields)
    }

    /** `Fields.add`: a new Fields object holding both sequences. */
    method Add(other: Fields) returns (r: Fields)
      ensures fresh(r)
      ensures r.fields == fields + other.fields
    {
      r := new Fields(fields + other.fields);
    }

    /** `Fields.iadd`: extends this object; when `other` is this object, its Fields are doubled. */
    method Iadd(other: Fields)
      modifies this
      ensures fields == old(fields) + old(other.fields)
    {
      fields := fields + other.fields;
    }
  }

  /** `Arguments`: a holder of one Fields object. */
  class Arguments {
    var fields: Fields

    /** `Arguments(fields)`: `fields or Fields()`, so an empty Fields object is replaced by a
        new one, and a non-empty one is shared with the caller. */
    constructor (given: Fields?)
      ensures given != null && |given.fields| > 0 ==> fields == given
      ensures given == null || |given.fields| == 0 ==> fresh(fields) && fields.fields == []
    {
      if given != null && |given.fields| > 0 {
        fields := given;
      } else {
        fields := new Fields([]);
      }
    }

    /** `Arguments()`: over a new, empty Fields object. */
    constructor Empty()
      ensures fresh(fields) && fields.fields == []
    {
      fields := new Fields([]);
    }

    function Contents(): seq<Field>
      reads this, fields
    {
      fields.fields
    }

    /** `Arguments.append`: rebinds this Arguments to a new Fields object with `f` added, so a
        Fields object shared with others is left as it was. */
    method Append(f: Field)
      modifies this
      ensures fresh(fields)
      ensures fields.fields == old(fields.fields) + [f]
    {
      fields := new Fields(fields.fields + [f]);
    }

    /** `Arguments.add`: a new Arguments over a new Fields object. */
    method Add(other: Arguments) returns (r: Arguments)
      ensures fresh(r) && fresh(r.fields)
      ensures r.fields.fields == fields.fields + other.fields.fields
    {
      var both := fields.Add(other.fields);
      r := new Arguments(both);
    }

    /** `Arguments.iadd`: extends the Fields object this Arguments holds, in place. */
    method Iadd(other: Arguments)
      modifies fields
      ensures fields.fields == old(fields.fields) + old(other.fields.fields)
    {
      fields.Iadd(other.fields);
    }

    /** `Arguments.for_sql(style)`: what the driver is handed, in the given or the default style. */
    method ForSqlArgs(style: Option<Style>, dflt: Style) returns (r: SqlArgs)
      ensures r == ForSql(fields.fields, Resolve(style, dflt))
    {
      var s := Resolve(style, dflt);
      if FamilyOf(s) == Named {
        r := NameMapping(fields.Mapping());
      } else {
        r := ValueList(fields.Right());
      }
    }
  }

  /** `Expressions.to_sql`: the clause and a new Arguments over a new Fields object. */
  method ExpressionsToSqlObject(es: seq<Expression>, style: Style, offset: int, lead: string)
    returns (text: string, args: Arguments)
    ensures fresh(args) && fresh(args.fields)
    ensures (text, args.fields.fields) == ExpressionsToSql(es, style, offset, lead)
  {
    var r := ExpressionsToSql(es, style, offset, lead);
    var fs := new Fields(r.1);
    args := new Arguments(fs);
    text := r.0;
  }

  /** `Join.to_sql(style, offset)`: a Select target's Arguments (when there is one) are
      extended in place with the filters'. */
  method JoinToSql(j: Join, style: Style, dflt: Style, offset: int) returns (r: Result<string>, args: Arguments)
    decreases j, 2
    ensures fresh(args) && fresh(args.fields)
    ensures r.Err? <==> JoinFails(j)
    ensures r.Err? ==> r.error == TypeError
    ensures r.Ok? ==> r.value == JoinText(j, dflt, offset)
    ensures r.Ok? ==> args.fields.fields == JoinArgs(j, style, dflt, offset)
  {
    args := new Arguments.Empty();
    if JoinsSelectObject(j) {
      var selected, selargs := SelectToSql(j.target.select.base, Some(style), dflt, offset);
      if selected.Err? {
        r := Err(selected.error);
        SelectSqlFailsIff(j.target.select.base, Some(style), dflt, offset);
        return;
      }
      SelectSqlFailsIff(j.target.select.base, Some(style), dflt, offset);
      args := selargs;
    }
    var filters := "";
    var filtargs := new Arguments.Empty();
    if j.filters.Some? {
      filters, filtargs := ExpressionsToSqlObject(j.filters.value, dflt, offset, "AND");
    }
    args.Iadd(filtargs);
    var alias := if Present(j.alias) then " AS " + j.alias.value else "";
    var how := if j.how.Some? then JoinTypeText(j.how.value) else "";
    var text := how + " JOIN " + JoinTableText(j) + " " + alias + "\n  ON " + j.lkey + "\n  " + filters;
    r := Ok(text);
  }

  /** Select.to_sql fails exactly when SelectFails says so, and then binds SelectArgs. */
  lemma SelectSqlFailsIff(b: Base, style: Option<Style>, dflt: Style, offset: int)
    ensures SelectSql(b, style, dflt, offset).Err? <==> SelectFails(b)
    ensures SelectSql(b, style, dflt, offset).Err? ==> SelectSql(b, style, dflt, offset).error == TypeError
    ensures SelectSql(b, style, dflt, offset).Ok? ==> SelectSql(b, style, dflt, offset).value.1 == SelectArgs(b, style, dflt, offset)
  {
  }

  /** `BaseSQLStatement.build_joins(style, offset, args)`: renders the joins one after the other,
      extending the caller's Arguments in place and advancing the offset by each join's count.
      When a join raises, the Arguments keep what the joins before it added. */
  method BuildJoins(js: seq<Join>, style: Style, dflt: Style, offset: int, args: Arguments) returns (r: Result<string>)
    modifies args.fields
    decreases js, 1
    ensures r.Ok? <==> !JoinsFail(js)
    ensures r.Ok? ==> r.value == JoinsText(js, style, dflt, offset)
    ensures r.Ok? ==> args.fields.fields == old(args.fields.fields) + JoinsArgs(js, style, dflt, offset)
    ensures r.Err? ==> r.error == TypeError
    ensures r.Err? ==> exists k :: 0 <= k < |js| && !JoinsFail(js[..k]) && JoinFails(js[k])
                                   && args.fields.fields == old(args.fields.fields) + JoinsArgs(js[..k], style, dflt, offset)
  {
    var joins := "";
    var n := offset;
    var i := 0;
    while i < |js|
      invariant 0 <= i <= |js|
      invariant !JoinsFail(js[..i])
      invariant joins == JoinsText(js[..i], style, dflt, offset)
      invariant args.fields.fields == old(args.fields.fields) + JoinsArgs(js[..i], style, dflt, offset)
      invariant n == GetOffset(JoinsArgs(js[..i], style, dflt, offset), offset)
    {
      ghost var before := args.fields.fields;
      var line, added := AddJoin(js[i], style, dflt, n, args);
      if line.Err? {
        JoinsStepAt(js, i, n, style, dflt, offset);
        JoinsFailPrefix(js, i + 1);
        r := Err(line.error);
        return;
      }
      JoinsInvariant(js, i, n, style, dflt, offset, old(args.fields.fields), before, args.fields.fields, joins, line.value, added);
      joins := joins + line.value + "\n";
      n := n + added;
      i := i + 1;
    }
    assert js[..i] == js;
    r := Ok(joins);
  }

  /** One round of build_joins: renders `j` from `n` and extends `args` in place with its
      Arguments, returning how many Fields it added (`offset += len(jargs)`). */
  method AddJoin(j: Join, style: Style, dflt: Style, n: int, args: Arguments) returns (r: Result<string>, added: nat)
    modifies args.fields
    decreases j, 3
    ensures r.Ok? <==> !JoinFails(j)
    ensures r.Ok? ==> r.value == JoinText(j, dflt, n)
    ensures r.Ok? ==> args.fields.fields == old(args.fields.fields) + JoinArgs(j, style, dflt, n)
    ensures r.Ok? ==> added == |JoinArgs(j, style, dflt, n)|
    ensures r.Err? ==> r.error == TypeError && args.fields.fields == old(args.fields.fields)
  {
    var stmt, jargs := JoinToSql(j, style, dflt, n);
    added := 0;
    if stmt.Err? {
      r := Err(stmt.error);
      return;
    }
    args.Iadd(jargs);
    added := |jargs.fields.fields|;
    r := Ok(stmt.value);
  }

  lemma AppendAssoc<T>(a: seq<T>, b: seq<T>, c: seq<T>)
    ensures a + b + c == a + (b + c)
  {
  }

  /** Once a prefix of the joins fails, build_joins fails. */
  lemma {:induction false} JoinsFailPrefix(js: seq<Join>, k: nat)
    requires k <= |js| && JoinsFail(js[..k])
    ensures JoinsFail(js)
    decreases |js| - k
  {
    if k < |js| {
      var p := js[..k + 1];
      assert p[..|p| - 1] == js[..k];
      JoinsFailSnoc(p);
      JoinsFailPrefix(js, k + 1);
    } else {
      assert js[..k] == js;
    }
  }

  /** The `i`-th step of build_joins, which starts the join at `n`. */
  lemma JoinsStepAt(js: seq<Join>, i: nat, n: int, style: Style, dflt: Style, offset: int)
    requires i < |js| && n == GetOffset(JoinsArgs(js[..i], style, dflt, offset), offset)
    ensures JoinsFail(js[..i + 1]) <==> JoinsFail(js[..i]) || JoinFails(js[i])
    ensures JoinsText(js[..i + 1], style, dflt, offset) == JoinsText(js[..i], style, dflt, offset) + JoinText(js[i], dflt, n) + "\n"
    ensures JoinsArgs(js[..i + 1], style, dflt, offset) == JoinsArgs(js[..i], style, dflt, offset) + JoinArgs(js[i], style, dflt, n)
    ensures GetOffset(JoinsArgs(js[..i + 1], style, dflt, offset), offset) == n + |JoinArgs(js[i], style, dflt, n)|
  {
    assert js[..i + 1][..i] == js[..i];
    JoinsStep(js[..i + 1], js[..i], js[i], style, dflt, offset);
  }

  /** The invariant of BuildJoins carried from `i` joins to `i + 1`. */
  lemma JoinsInvariant(js: seq<Join>, i: nat, n: int, style: Style, dflt: Style, offset: int, start: seq<Field>,
                       before: seq<Field>, after: seq<Field>, joins: string, line: string, added: nat)
    requires i < |js| && n == GetOffset(JoinsArgs(js[..i], style, dflt, offset), offset)
    requires !JoinsFail(js[..i]) && !JoinFails(js[i])
    requires before == start + JoinsArgs(js[..i], style, dflt, offset) && after == before + JoinArgs(js[i], style, dflt, n)
    requires joins == JoinsText(js[..i], style, dflt, offset) && line == JoinText(js[i], dflt, n)
    requires added == |JoinArgs(js[i], style, dflt, n)|
    ensures !JoinsFail(js[..i + 1])
    ensures joins + line + "\n" == JoinsText(js[..i + 1], style, dflt, offset)
    ensures after == start + JoinsArgs(js[..i + 1], style, dflt, offset)
    ensures n + added == GetOffset(JoinsArgs(js[..i + 1], style, dflt, offset), offset)
  {
    JoinsStepAt(js, i, n, style, dflt, offset);
    AppendAssoc(start, JoinsArgs(js[..i], style, dflt, offset), JoinArgs(js[i], style, dflt, n));
  }

  /** One step of build_joins: `p` is the joins visited so far, `before`, then one more, `j`. */
  lemma JoinsStep(p: seq<Join>, before: seq<Join>, j: Join, style: Style, dflt: Style, offset: int)
    requires |p| > 0 && p[..|p| - 1] == before && p[|p| - 1] == j
    ensures JoinsFail(p) <==> JoinsFail(before) || JoinFails(j)
    ensures var n := GetOffset(JoinsArgs(before, style, dflt, offset), offset);
            JoinsArgs(p, style, dflt, offset) == JoinsArgs(before, style, dflt, offset) + JoinArgs(j, style, dflt, n)
    ensures var n := GetOffset(JoinsArgs(before, style, dflt, offset), offset);
            JoinsText(p, style, dflt, offset) == JoinsText(before, style, dflt, offset) + JoinText(j, dflt, n) + "\n"
  {
    JoinsFailSnoc(p);
    JoinsArgsSnoc(p, style, dflt, offset);
    JoinsTextSnoc(p, style, dflt, offset);
  }

  /** `Select.to_sql(style, offset)`: WHERE's Arguments, extended in place by build_joins. */
  method SelectToSql(b: Base, style: Option<Style>, dflt: Style, offset: int) returns (r: Result<string>, args: Arguments)
    decreases b, 3
    ensures fresh(args) && fresh(args.fields)
    ensures r.Ok? <==> SelectSql(b, style, dflt, offset).Ok?
    ensures r.Err? ==> r.error == SelectSql(b, style, dflt, offset).error
    ensures r.Ok? ==> r.value == SelectSql(b, style, dflt, offset).value.0
    ensures r.Ok? ==> args.fields.fields == SelectSql(b, style, dflt, offset).value.1
  {
    var s := Resolve(style, dflt);
    args := new Arguments.Empty();
    var select := BuildSelect(b);
    if select.Err? {
      r := Err(select.error);
      return;
    }
    var where;
    where, args := ExpressionsToSqlObject(b.filters, s, offset, "WHERE");
    var n := GetOffset(args.fields.fields, offset);
    var joins := BuildJoins(b.joins, s, dflt, n, args);
    if joins.Err? {
      r := Err(joins.error);
      return;
    }
    r := Ok(select.value + "\n" + joins.value + where);
  }

  /** `Update.to_sql(style, offset)`: the SET Arguments are extended in place by WHERE's and
      then by build_joins, which starts from `get_offset` of all of them taken from the offset
      WHERE started at. */
  method UpdateToSql(b: Base, returning: Option<Field>, style: Option<Style>, dflt: Style, offset: int)
    returns (r: Result<string>, args: Arguments)
    ensures fresh(args) && fresh(args.fields)
    ensures r.Ok? <==> UpdateSql(b, returning, style, dflt, offset).Ok?
    ensures r.Err? ==> r.error == UpdateSql(b, returning, style, dflt, offset).error
    ensures r.Ok? ==> r.value == UpdateSql(b, returning, style, dflt, offset).value.0
    ensures r.Ok? ==> args.fields.fields == UpdateSql(b, returning, style, dflt, offset).value.1
  {
    ghost var expected := UpdateSql(b, returning, style, dflt, offset);
    var s := Resolve(style, dflt);
    args := new Arguments.Empty();
    var update := BuildUpdate(b, s, offset);
    if update.Err? {
      assert expected == Err(update.error);
      r := Err(update.error);
      return;
    }
    var setFields := new Fields(update.value.1);
    args := new Arguments(setFields);
    var n := GetOffset(args.fields.fields, offset);
    var where, whargs := ExpressionsToSqlObject(b.filters, s, n, "WHERE");
    args.Iadd(whargs);
    ghost var bound := update.value.1 + whargs.fields.fields;
    assert args.fields.fields == bound;
    n := GetOffset(args.fields.fields, n);
    var joins := BuildJoins(b.joins, s, dflt, n, args);
    if joins.Err? {
      assert expected == Err(TypeError);
      r := Err(joins.error);
      return;
    }
    r := Ok(update.value.0 + "\n" + joins.value + "\n" + where + "\n" + Returning(returning));
    assert expected == Ok((r.value, bound + JoinsArgs(b.joins, s, dflt, n)));
  }

  /** `Insert.build_insert(style, offset, inject_columns=...)`: without injection the columns
      Fields object is extended in place by the values and becomes the Arguments. */
  method InsertToSql(b: Base, returning: Option<Field>, style: Option<Style>, dflt: Style, offset: int, inject: bool)
    returns (r: Result<string>, args: Arguments)
    ensures fresh(args) && fresh(args.fields)
    ensures r.Ok? <==> InsertSql(b, returning, style, dflt, offset, inject).Ok?
    ensures r.Err? ==> r.error == InsertSql(b, returning, style, dflt, offset, inject).error
    ensures r.Ok? ==> r.value == InsertSql(b, returning, style, dflt, offset, inject).value.0
    ensures r.Ok? ==> args.fields.fields == InsertSql(b, returning, style, dflt, offset, inject).value.1
  {
    var s := Resolve(style, dflt);
    var columns := new Fields(ColumnFields(b.fields));
    var values := new Fields(ValueFields(b.fields));
    args := new Arguments.Empty();
    var insert := FieldsToSql(columns.fields, s, offset, inject);
    if insert.Err? {
      r := Err(insert.error);
      return;
    }
    var n := offset;
    if !inject {
      n := GetOffset(columns.fields, offset);
    }
    var valuesSql := ParamList(values.fields, s, n);
    var retvals := values;
    if !inject {
      retvals := columns;
      retvals.Iadd(values);
    }
    args := new Arguments(retvals);
    assert args.fields.fields == if inject then ValueFields(b.fields) else ColumnFields(b.fields) + ValueFields(b.fields);
    r := Ok("INSERT INTO\n  " + QualifiedName(b.schema, b.table) + " " + insert.value + "\n"
            + "VALUES\n  " + valuesSql + "\n" + Returning(returning));
  }

  /** `Delete.to_sql(style, offset)`: renders in the current default style, whatever `style` says. */
  method DeleteToSql(b: Base, returning: Option<Field>, style: Option<Style>, dflt: Style, offset: int)
    returns (r: Result<string>, args: Arguments)
    ensures fresh(args) && fresh(args.fields)
    ensures r.Ok? <==> DeleteSql(b, returning, style, dflt, offset).Ok?
    ensures r.Err? ==> r.error == DeleteSql(b, returning, style, dflt, offset).error
    ensures r.Ok? ==> r.value == DeleteSql(b, returning, style, dflt, offset).value.0
    ensures r.Ok? ==> args.fields.fields == DeleteSql(b, returning, style, dflt, offset).value.1
  {
    var s := dflt;
    var where;
    where, args := ExpressionsToSqlObject(b.filters, s, offset, "WHERE");
    var n := GetOffset(args.fields.fields, offset);
    var joins := BuildJoins(b.joins, s, dflt, n, args);
    if joins.Err? {
      r := Err(joins.error);
      return;
    }
    r := Ok("DELETE FROM " + QualifiedName(b.schema, b.table) + "\n" + joins.value + "\n" + where + "\n" + Returning(returning));
  }

  /** `to_sql` of any statement; a common table expression extends its body's Arguments in
      place with its statement's. */
  method StatementToSql(st: Statement, style: Option<Style>, dflt: Style, offset: int) returns (r: Result<string>, args: Arguments)
    decreases st
    ensures fresh(args) && fresh(args.fields)
    ensures r.Ok? <==> StatementSql(st, style, dflt, offset).Ok?
    ensures r.Err? ==> r.error == StatementSql(st, style, dflt, offset).error
    ensures r.Ok? ==> r.value == StatementSql(st, style, dflt, offset).value.0
    ensures r.Ok? ==> args.fields.fields == StatementSql(st, style, dflt, offset).value.1
  {
    match st
    case Select(b) => r, args := SelectToSql(b, style, dflt, offset);
    case Update(b, ret) => r, args := UpdateToSql(b, ret, style, dflt, offset);
    case Insert(b, ret) => r, args := InsertToSql(b, ret, style, dflt, offset, true);
    case Delete(b, ret) => r, args := DeleteToSql(b, ret, style, dflt, offset);
    case Cte(e, t, alias) =>
      var s := Resolve(style, dflt);
      var cte, exprargs := StatementToSql(e, Some(s), dflt, offset);
      args := exprargs;
      if cte.Err? {
        r := Err(cte.error);
        return;
      }
      var stmt, stmtargs := StatementToSql(t, Some(s), dflt, GetOffset(exprargs.fields.fields, offset));
      if stmt.Err? {
        r := Err(stmt.error);
        return;
      }
      exprargs.Iadd(stmtargs);
      r := Ok("WITH " + alias + " AS (\n" + cte.value + "\n)\n" + stmt.value);
  }
}
