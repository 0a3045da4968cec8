/** The statement builder of que/structure.py, as functions on values.

    Every rendering function returns the SQL text together with the list of
    Fields that become the statement's Arguments, or the error the source
    raises. The in-place updates the source performs on its Arguments
    accumulators are modelled separately, in StructureObjects, and proved to
    compute what these functions compute. */
module Structure {
  import opened Common
  import opened Text
  import opened OrderedDict
  import opened Style
  import opened Util

  /** `get_offset(col, cur)`: the number the next placeholder gets once the items of `col`
      have been bound, counting on from `cur`. */
  function GetOffset<T>(col: seq<T>, cur: int): int
  {
    |col| + cur
  }

  // ---------------------------------------------------------------- Field

  /** A (column name, value) pair; either side may be unset. */
  datatype Field = Field(left: Option<string>, right: Option<Value>)

  /** What Field.__post_init__ guarantees of every Field it lets through: a side is set. */
  predicate ValidField(f: Field)
  {
    f.left.Some? || f.right.Some?
  }

  /** A Field with a column name, as every Expression holds. */
  type NamedField = f: Field | f.left.Some? witness Field(Some(""), None)

  /** `Field(left, right)`: SQLSyntaxError exactly when both sides are unset. */
  function NewField(left: Option<string>, right: Option<Value>): (r: Result<Field>)
    ensures r.Err? <==> left.None? && right.None?
    ensures r.Err? ==> r.error == SQLSyntaxError
    ensures r.Ok? ==> r.value.left == left && r.value.right == right && ValidField(r.value)
  {
    if left.None? && right.None? then Err(SQLSyntaxError) else Ok(Field(left, right))
  }

  /** `Field.fetch_sql`: "left AS right" when both are set, the bare name when only the name
      is set, and the value itself (not necessarily a str) when only the value is set. A Field
      with neither side cannot be constructed; for it the function gives `None`, so that the
      renderings need no precondition. */
  function FetchSql(f: Field): Value
  {
    if f.left.Some? then
      if f.right.Some? then Str(f.left.value + " AS " + Render(f.right.value)) else Str(f.left.value)
    else if f.right.Some? then f.right.value
    else NoneValue
  }

  /** `f"{x}"` of a Field side that may be the `...` marker. */
  function NameText(left: Option<string>): string
  {
    if left.Some? then left.value else "Ellipsis"
  }

  // ----------------------------------------------------------- Expression

  /** The comparison operators (CmpOps). */
  datatype CmpOp = EQ | GT | GE | LT | LE | NE

  function OpText(op: CmpOp): string
  {
    match op
    case EQ => "="
    case GT => ">"
    case GE => ">="
    case LT => "<"
    case LE => "<="
    case NE => "<>"
  }

  /** A single condition `<column> <opcode> <placeholder>`; Expression.__post_init__ admits
      only a Field with a name. */
  datatype Expression = Expression(field: NamedField, opcode: CmpOp, prefix: string)

  /** `Expression(field, opcode, prefix)`: SQLSyntaxError exactly when the field has no name. */
  function NewExpression(field: Field, opcode: CmpOp, prefix: string): (r: Result<Expression>)
    ensures r.Err? <==> field.left.None?
    ensures r.Err? ==> r.error == SQLSyntaxError
    ensures r.Ok? ==> r.value.field == field && r.value.opcode == opcode && r.value.prefix == prefix
  {
    if field.left.None? then Err(SQLSyntaxError) else Ok(Expression(field, opcode, prefix))
  }

  /** `Expression.to_sql(style, offset)`: the Field to bind and the fragment. */
  function ExpressionToSql(e: Expression, style: Style, offset: int): (Field, string)
  {
    var left := e.field.left.value;
    var name := e.prefix + left;
    var field := if FamilyOf(style) == Named then Field(Some(name), e.field.right) else e.field;
    (field, left + " " + OpText(e.opcode) + " " + Placeholder(style, offset, name))
  }

  /** The placeholder by style family: a named style binds the Field renamed to prefix + name and
      fills the template with that name, a numbered style binds the Field as it is and fills the
      template with the number, a positional style uses the template verbatim; the fragment
      always shows the Field's own name. */
  lemma ExpressionToSqlFamilies(e: Expression, style: Style, offset: int)
    ensures var r := ExpressionToSql(e, style, offset);
            FamilyOf(style) == Named ==>
      && r.0 == Field(Some(e.prefix + e.field.left.value), e.field.right)
      && r.1 == e.field.left.value + " " + OpText(e.opcode) + " " + (Before(style) + e.prefix + e.field.left.value + After(style))
    ensures var r := ExpressionToSql(e, style, offset);
            FamilyOf(style) == Numbered ==>
      && r.0 == e.field
      && r.1 == e.field.left.value + " " + OpText(e.opcode) + " " + (Before(style) + IntToString(offset) + After(style))
    ensures var r := ExpressionToSql(e, style, offset);
            FamilyOf(style) == Positional ==>
      && r.0 == e.field
      && r.1 == e.field.left.value + " " + OpText(e.opcode) + " " + Template(style)
  {
  }

  /** `Expressions.iter_sql`: the members rendered one after the other, the one at position
      `k` numbered `offset + k`. */
  function IterSql(es: seq<Expression>, style: Style, offset: int): (r: seq<(Field, string)>)
    ensures |r| == |es|
    ensures forall k :: 0 <= k < |es| ==> r[k] == ExpressionToSql(es[k], style, offset + k)
  {
    seq(|es|, k requires 0 <= k < |es| => ExpressionToSql(es[k], style, offset + k))
  }

  /** `Expressions.to_sql(style, offset, lead=...)`. The rendered (Field, fragment) pairs are
      collected in a dict keyed by Field, so equal Fields collapse into one entry. */
  function ExpressionsToSql(es: seq<Expression>, style: Style, offset: int, lead: string): (r: (string, seq<Field>))
  {
    var d := FromPairs(IterSql(es, style, offset));
    var where := JoinStr("AND\n  ", Values(d));
    (if where != "" then lead + "\n  " + where else "", Keys(d))
  }

  // ------------------------------------------------------------ Arguments

  /** What `Arguments.for_sql` hands to the driver. */
  datatype SqlArgs = ValueList(values: seq<Option<Value>>) | NameMapping(entries: Dict<string, Option<Value>>)

  /** `Fields.right`: the values in Field order. */
  function Rights(fs: seq<Field>): (r: seq<Option<Value>>)
    ensures |r| == |fs| && forall i :: 0 <= i < |fs| ==> r[i] == fs[i].right
  {
    seq(|fs|, i requires 0 <= i < |fs| => fs[i].right)
  }

  /** The (name, value) pairs of the Fields that have a name, in Field order. */
  function NamedPairs(fs: seq<Field>): (r: seq<(string, Option<Value>)>)
    ensures forall p :: p in r <==> Field(Some(p.0), p.1) in fs
    decreases |fs|
  {
    if |fs| == 0 then []
    else
      var f := fs[|fs| - 1];
      NamedPairs(fs[..|fs| - 1]) + (if f.left.Some? then [(f.left.value, f.right)] else [])
  }

  /** `Fields.mapping`: name -> value, skipping Fields without a name. */
  function FieldsMapping(fs: seq<Field>): Dict<string, Option<Value>>
  {
    FromPairs(NamedPairs(fs))
  }

  /** `Arguments.for_sql(style)`: a mapping in a named style, the ordered values otherwise. */
  function ForSql(fs: seq<Field>, style: Style): (r: SqlArgs)
    ensures r.NameMapping? <==> FamilyOf(style) == Named
    ensures r.ValueList? ==> |r.values| == |fs| && forall i :: 0 <= i < |fs| ==> r.values[i] == fs[i].right
  {
    if FamilyOf(style) == Named then NameMapping(FieldsMapping(fs)) else ValueList(Rights(fs))
  }

  // ----------------------------------------------------------- Statements

  /** JoinType. */
  datatype JoinType = RightJoin | LeftJoin | InnerJoin | OuterJoin

  function JoinTypeText(t: JoinType): string
  {
    match t
    case RightJoin => "RIGHT"
    case LeftJoin => "LEFT"
    case InnerJoin => "INNER"
    case OuterJoin => "OUTER"
  }

  /** The fields every statement shares (BaseSQLStatement). */
  datatype Base = Base(table: string, schema: Option<string>, filters: seq<Expression>,
                       fields: seq<Field>, joins: seq<Join>)

  /** The four statements, and a common table expression over two of them. The three write
      statements carry the optional RETURNING field. */
  datatype Statement =
    | Select(base: Base)
    | Update(base: Base, returning: Option<Field>)
    | Insert(base: Base, returning: Option<Field>)
    | Delete(base: Base, returning: Option<Field>)
    | Cte(expression: Statement, statement: Statement, alias: string)

  /** What a Join is joined to: a table name, or a statement object. `repr` is the text that
      Python's `str()` of that object yields, which the join interpolates into its SQL. */
  datatype JoinTarget = TableName(name: string) | Subquery(select: Statement, repr: string)

  datatype Join = Join(target: JoinTarget, lkey: string, rkey: string, schema: Option<string>,
                       alias: Option<string>, how: Option<JoinType>, filters: Option<seq<Expression>>)

  /** Truthiness of an optional string: `None` and `""` are both false. */
  predicate Present(o: Option<string>)
  {
    o.Some? && o.value != ""
  }

  /** `table_name`: "schema.table" when a schema is given. */
  function QualifiedName(schema: Option<string>, table: string): string
  {
    if Present(schema) then schema.value + "." + table else table
  }

  /** The SQL text and the Fields a statement binds. */
  type Rendered = (string, seq<Field>)

  /** Renders every column of a SELECT; `str.join` raises TypeError on a value that is not a str. */
  function FetchColumns(fs: seq<Field>): (r: Result<seq<string>>)
    ensures r.Ok? <==> forall i :: 0 <= i < |fs| ==> FetchSql(fs[i]).Str?
    ensures r.Ok? ==> |r.value| == |fs| && forall i :: 0 <= i < |fs| ==> r.value[i] == FetchSql(fs[i]).s
    ensures r.Err? ==> r.error == TypeError
    decreases |fs|
  {
    if |fs| == 0 then Ok([])
    else
      var v := FetchSql(fs[0]);
      match FetchColumns(fs[1..])
      case Err(e) => Err(e)
      case Ok(rest) => if v.Str? then Ok([v.s] + rest) else Err(TypeError)
  }

  /** `Select.build_select`. */
  function BuildSelect(b: Base): Result<string>
  {
    match FetchColumns(b.fields)
    case Err(e) => Err(e)
    case Ok(columns) => Ok("SELECT\n  " + JoinStr(",\n  ", columns) + "\nFROM\n  " + QualifiedName(b.schema, b.table))
  }

  /** `_BaseWriteStatement.returning`. */
  function Returning(returning: Option<Field>): string
  {
    if returning.Some? then "RETURNING " + Render(FetchSql(returning.value)) else ""
  }

  /** The text a join puts after JOIN: `table_name`, where a statement object shows as its repr. */
  function JoinTableText(j: Join): string
  {
    QualifiedName(j.schema, match j.target case TableName(n) => n case Subquery(_, r) => r)
  }

  /** Whether `isinstance(self.table_name, Select)` holds. */
  predicate JoinsSelectObject(j: Join)
  {
    !Present(j.schema) && j.target.Subquery? && j.target.select.Select?
  }

  /* Rendering a join has three independent parts: whether it raises, its text, and the
     Fields it binds. Each is defined over the joins before the last one and the last one, the
     order in which build_joins visits them; JoinsSql, JoinSql and SelectSql put them together. */

  /** Whether rendering a Select raises: `str.join` raises TypeError on a column that does not
      render as a str, in the Select itself or in a Select that one of its joins targets. */
  predicate SelectFails(b: Base)
    decreases b, 2
  {
    FetchColumns(b.fields).Err? || JoinsFail(b.joins)
  }

  predicate JoinsFail(js: seq<Join>)
    decreases js, 1
  {
    && |js| > 0
    && (JoinsFail(js[..|js| - 1]) || JoinFails(js[|js| - 1]))
  }

  predicate JoinFails(j: Join)
    decreases j, 2
  {
    JoinsSelectObject(j) && SelectFails(j.target.select.base)
  }

  /** The Fields `Select.to_sql` binds: WHERE's, numbered from `offset`, then the joins'. */
  function SelectArgs(b: Base, style: Option<Style>, dflt: Style, offset: int): seq<Field>
    decreases b, 2
  {
    var s := Resolve(style, dflt);
    var where := ExpressionsToSql(b.filters, s, offset, "WHERE");
    where.1 + JoinsArgs(b.joins, s, dflt, GetOffset(where.1, offset))
  }

  /** The Fields build_joins adds: each join's, numbered where the joins before it leave the
      count (`offset += len(jargs)` after each join). */
  function JoinsArgs(js: seq<Join>, style: Style, dflt: Style, offset: int): seq<Field>
    decreases js, 1
  {
    if |js| == 0 then []
    else
      var before := JoinsArgs(js[..|js| - 1], style, dflt, offset);
      before + JoinArgs(js[|js| - 1], style, dflt, GetOffset(before, offset))
  }

  /** The Fields `Join.to_sql` binds: a Select target's, then the filters', both numbered from
      `offset`; the filters are rendered in the default style. */
  function JoinArgs(j: Join, style: Style, dflt: Style, offset: int): seq<Field>
    decreases j, 2
  {
    var selected := if JoinsSelectObject(j) then
      SelectArgs(j.target.select.base, Some(style), dflt, offset) else [];
    selected + (if j.filters.Some? then ExpressionsToSql(j.filters.value, dflt, offset, "AND").1 else [])
  }

  /** The text `Join.to_sql` returns. A Select target shows as its repr; the filters are
      rendered in the default style, numbered from `offset`. */
  function JoinText(j: Join, dflt: Style, offset: int): string
  {
    var alias := if Present(j.alias) then " AS " + j.alias.value else "";
    var how := if j.how.Some? then JoinTypeText(j.how.value) else "";
    var filters := if j.filters.Some? then ExpressionsToSql(j.filters.value, dflt, offset, "AND").0 else "";
    how + " JOIN " + JoinTableText(j) + " " + alias + "\n  ON " + j.lkey + "\n  " + filters
  }

  /** The text build_joins returns: each join's line followed by a line break. */
  function JoinsText(js: seq<Join>, style: Style, dflt: Style, offset: int): string
    decreases |js|
  {
    if |js| == 0 then ""
    else
      var before := js[..|js| - 1];
      JoinsText(before, style, dflt, offset)
        + JoinText(js[|js| - 1], dflt, GetOffset(JoinsArgs(before, style, dflt, offset), offset)) + "\n"
  }

  /** `Join.to_sql(style, offset)`. */
  function JoinSql(j: Join, style: Style, dflt: Style, offset: int): Result<Rendered>
  {
    if JoinFails(j) then Err(TypeError) else Ok((JoinText(j, dflt, offset), JoinArgs(j, style, dflt, offset)))
  }

  /** `BaseSQLStatement.build_joins(style, offset, args)`: the text and the Fields it adds to `args`. */
  function JoinsSql(js: seq<Join>, style: Style, dflt: Style, offset: int): Result<Rendered>
  {
    if JoinsFail(js) then Err(TypeError) else Ok((JoinsText(js, style, dflt, offset), JoinsArgs(js, style, dflt, offset)))
  }

  /** `Select.to_sql(style, offset)`. */
  function SelectSql(b: Base, style: Option<Style>, dflt: Style, offset: int): Result<Rendered>
  {
    var s := Resolve(style, dflt);
    match BuildSelect(b)
    case Err(e) => Err(e)
    case Ok(select) =>
      var where := ExpressionsToSql(b.filters, s, offset, "WHERE");
      match JoinsSql(b.joins, s, dflt, GetOffset(where.1, offset))
      case Err(e) => Err(e)
      case Ok(joins) => Ok((select + "\n" + joins.0 + where.0, where.1 + joins.1))
  }

  /** The SET items of an UPDATE: `Expression(field, prefix="col")` for every field, which
      raises SQLSyntaxError for a field without a name. */
  function SetExpressions(fs: seq<Field>): (r: Result<seq<Expression>>)
    ensures r.Ok? <==> forall i :: 0 <= i < |fs| ==> fs[i].left.Some?
    ensures r.Err? ==> r.error == SQLSyntaxError
    ensures r.Ok? ==> (&& |r.value| == |fs|
                       && forall i :: 0 <= i < |fs| ==> r.value[i] == Expression(fs[i], EQ, "col"))
    decreases |fs|
  {
    if |fs| == 0 then Ok([])
    else
      match NewExpression(fs[0], EQ, "col")
      case Err(e) => Err(e)
      case Ok(first) =>
        match SetExpressions(fs[1..])
        case Err(e) => Err(e)
        case Ok(rest) => Ok([first] + rest)
  }

  /** `Update.build_update`: the SET items, collected in a dict keyed by Field like a WHERE clause. */
  function BuildUpdate(b: Base, style: Style, offset: int): Result<Rendered>
  {
    match SetExpressions(b.fields)
    case Err(e) => Err(e)
    case Ok(items) =>
      var d := FromPairs(IterSql(items, style, offset));
      Ok(("UPDATE\n  " + QualifiedName(b.schema, b.table) + "\nSET\n  " + JoinStr(",\n  ", Values(d)), Keys(d)))
  }

  /** `Update.to_sql(style, offset)`. WHERE continues after the SET items; the offset for the
      joins adds the length of the combined arguments to an offset that already counts the SET
      items, so the SET items are counted twice. */
  function UpdateSql(b: Base, returning: Option<Field>, style: Option<Style>, dflt: Style, offset: int): Result<Rendered>
  {
    var s := Resolve(style, dflt);
    match BuildUpdate(b, s, offset)
    case Err(e) => Err(e)
    case Ok(update) =>
      var whereOffset := GetOffset(update.1, offset);
      var where := ExpressionsToSql(b.filters, s, whereOffset, "WHERE");
      var args := update.1 + where.1;
      var joinOffset := GetOffset(args, whereOffset);
      match JoinsSql(b.joins, s, dflt, joinOffset)
      case Err(e) => Err(e)
      case Ok(joins) =>
        Ok((update.0 + "\n" + joins.0 + "\n" + where.0 + "\n" + Returning(returning), args + joins.1))
  }

  /** The column Fields of an INSERT: `Field(f"col{x.left}", x.left)`. */
  function ColumnFields(fs: seq<Field>): (r: seq<Field>)
    ensures |r| == |fs|
    ensures forall i :: 0 <= i < |fs| ==>
      r[i] == Field(Some("col" + NameText(fs[i].left)), if fs[i].left.Some? then Some(Str(fs[i].left.value)) else None)
  {
    seq(|fs|, i requires 0 <= i < |fs| =>
      Field(Some("col" + NameText(fs[i].left)), if fs[i].left.Some? then Some(Str(fs[i].left.value)) else None))
  }

  /** The value Fields of an INSERT: `Field(f"val{x.left}", x.right)`. */
  function ValueFields(fs: seq<Field>): (r: seq<Field>)
    ensures |r| == |fs|
    ensures forall i :: 0 <= i < |fs| ==> r[i] == Field(Some("val" + NameText(fs[i].left)), fs[i].right)
  {
    seq(|fs|, i requires 0 <= i < |fs| => Field(Some("val" + NameText(fs[i].left)), fs[i].right))
  }

  /** `Insert._iter_fields`: one placeholder per Field, numbered from `offset`. */
  function IterFields(fs: seq<Field>, style: Style, offset: int): (r: seq<string>)
    ensures |r| == |fs|
    ensures forall k :: 0 <= k < |fs| ==> r[k] == Placeholder(style, offset + k, NameText(fs[k].left))
    decreases |fs|
  {
    if |fs| == 0 then []
    else
      [Placeholder(style, offset, NameText(fs[0].left))] + IterFields(fs[1..], style, offset + 1)
  }

  /** The column names spliced into the text; `str.join` raises TypeError on a value that is not a str. */
  function InjectedNames(fs: seq<Field>): (r: Result<seq<string>>)
    ensures r.Ok? <==> forall i :: 0 <= i < |fs| ==> fs[i].right.Some? && fs[i].right.value.Str?
    ensures r.Ok? ==> |r.value| == |fs| && forall i :: 0 <= i < |fs| ==> r.value[i] == fs[i].right.value.s
    ensures r.Err? ==> r.error == TypeError
    decreases |fs|
  {
    if |fs| == 0 then Ok([])
    else
      match InjectedNames(fs[1..])
      case Err(e) => Err(e)
      case Ok(rest) =>
        if fs[0].right.Some? && fs[0].right.value.Str? then Ok([fs[0].right.value.s] + rest) else Err(TypeError)
  }

  /** `Insert._fields_to_sql` without injection: the parenthesised placeholders, or "" for no Fields. */
  function ParamList(fs: seq<Field>, style: Style, offset: int): string
  {
    var stmnts := JoinStr(",\n  ", IterFields(fs, style, offset));
    if stmnts != "" then "(" + stmnts + ")" else ""
  }

  /** `Insert._fields_to_sql(fields, style, offset, inject)`. */
  function FieldsToSql(fs: seq<Field>, style: Style, offset: int, inject: bool): Result<string>
  {
    if inject then
      match InjectedNames(fs)
      case Err(e) => Err(e)
      case Ok(names) => Ok("(" + JoinStr(", ", names) + ")")
    else Ok(ParamList(fs, style, offset))
  }

  /** `Insert.build_insert(style, offset, inject_columns=...)`. Filters and joins are not rendered. */
  function InsertSql(b: Base, returning: Option<Field>, style: Option<Style>, dflt: Style, offset: int,
                     inject: bool): Result<Rendered>
  {
    var s := Resolve(style, dflt);
    var columns := ColumnFields(b.fields);
    var values := ValueFields(b.fields);
    match FieldsToSql(columns, s, offset, inject)
    case Err(e) => Err(e)
    case Ok(insertSql) =>
      var valuesOffset := if !inject then GetOffset(columns, offset) else offset;
      var valuesSql := ParamList(values, s, valuesOffset);
      var retvals := if inject then values else columns + values;
      Ok(("INSERT INTO\n  " + QualifiedName(b.schema, b.table) + " " + insertSql + "\n"
          + "VALUES\n  " + valuesSql + "\n" + Returning(returning), retvals))
  }

  /** `Delete.to_sql(style, offset)`: the `style` argument is overwritten by the current default. */
  function DeleteSql(b: Base, returning: Option<Field>, style: Option<Style>, dflt: Style, offset: int): Result<Rendered>
  {
    var s := dflt;
    var where := ExpressionsToSql(b.filters, s, offset, "WHERE");
    match JoinsSql(b.joins, s, dflt, GetOffset(where.1, offset))
    case Err(e) => Err(e)
    case Ok(joins) =>
      Ok(("DELETE FROM " + QualifiedName(b.schema, b.table) + "\n" + joins.0 + "\n" + where.0 + "\n" + Returning(returning),
          where.1 + joins.1))
  }

  /** `to_sql(style, offset)` of any statement; an Insert uses its default `inject_columns=True`.
      A common table expression renders its body first and the dependent statement after the
      body's arguments, and binds the body's arguments first. */
  function StatementSql(st: Statement, style: Option<Style>, dflt: Style, offset: int): Result<Rendered>
    decreases st, 1
  {
    match st
    case Select(b) => SelectSql(b, style, dflt, offset)
    case Update(b, ret) => UpdateSql(b, ret, style, dflt, offset)
    case Insert(b, ret) => InsertSql(b, ret, style, dflt, offset, true)
    case Delete(b, ret) => DeleteSql(b, ret, style, dflt, offset)
    case Cte(e, t, alias) => CteSql(e, t, alias, style, dflt, offset)
  }

  /** `CTE.to_sql(style, offset)`: the body in the resolved style, then the dependent statement
      in the same style from where the body's arguments leave the count. */
  function CteSql(e: Statement, t: Statement, alias: string, style: Option<Style>, dflt: Style, offset: int): Result<Rendered>
    decreases Cte(e, t, alias), 0
  {
    var s := Resolve(style, dflt);
    match StatementSql(e, Some(s), dflt, offset)
    case Err(err) => Err(err)
    case Ok(cte) =>
      match StatementSql(t, Some(s), dflt, GetOffset(cte.1, offset))
      case Err(err) => Err(err)
      case Ok(stmt) => Ok(("WITH " + alias + " AS (\n" + cte.0 + "\n)\n" + stmt.0, cte.1 + stmt.1))
  }

  // -------------------------------------------------------- data_to_fields

  /** An element of a collection handed to data_to_fields: a tuple of two, another collection of
      two (a list, a two-character string), or anything else. */
  datatype Item = TuplePair(key: string, value: Value) | OtherPair(key: string, value: Value) | NotPair

  /** The shapes data_to_fields distinguishes. */
  datatype FieldData =
    | MappingData(entries: seq<(string, Value)>)
    | CollectionData(items: seq<Item>)
    | NamedTupleData(entries: seq<(string, Value)>)
    | DataclassData(entries: seq<(string, Value)>)
    | ScalarData(v: Value)

  /** `bool(data)`: a container is false when empty, a dataclass instance is always true. */
  predicate DataTruthy(data: FieldData)
  {
    match data
    case MappingData(es) => |es| > 0
    case CollectionData(items) => |items| > 0
    case NamedTupleData(es) => |es| > 0
    case DataclassData(_) => true
    case ScalarData(v) => Truthy(v)
  }

  /** The (key, value) pairs of a collection whose every element has length two. */
  function PairsOf(items: seq<Item>): (r: Option<seq<(string, Value)>>)
    ensures r.Some? <==> forall i :: 0 <= i < |items| ==> !items[i].NotPair?
    ensures r.Some? ==> (&& |r.value| == |items|
                         && forall i :: 0 <= i < |items| ==> r.value[i] == (items[i].key, items[i].value))
    decreases |items|
  {
    if |items| == 0 then Some([])
    else if items[0].NotPair? then None
    else
      match PairsOf(items[1..])
      case None => None
      case Some(rest) => Some([(items[0].key, items[0].value)] + rest)
  }

  function ToFields(d: Dict<string, Value>): (r: seq<Field>)
    ensures |r| == |d| && forall i :: 0 <= i < |d| ==> r[i] == Field(Some(d[i].0), Some(d[i].1))
  {
    seq(|d|, i requires 0 <= i < |d| => Field(Some(d[i].0), Some(d[i].1)))
  }

  /** `data_to_fields(data, exclude)`. */
  function DataToFields(data: FieldData, exclude: Option<Exclude>): Result<seq<Field>>
  {
    if !DataTruthy(data) then Ok([])
    else
      var factory := DictFilterFactory(exclude, false);
      var filtered := match data
        case DataclassData(es) => ApplyFactory(factory, es)
        case NamedTupleData(es) => ApplyFactory(factory, es)
        case MappingData(es) => ApplyFactory(factory, es)
        case CollectionData(items) =>
          (match PairsOf(items)
           case Some(ps) => ApplyFactory(factory, ps)
           case None => Err(SQLValueError))
        case ScalarData(_) => Err(SQLValueError);
      match filtered
      case Err(e) => Err(e)
      case Ok(d) => Ok(ToFields(d))
  }
}
