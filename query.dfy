/** The legacy statement builder of que/query.py, as functions on values.

    It builds the same Expressions, Fields and statements as Structure and reuses Structure's
    datatypes, but differs in these ways:
    - one Arguments accumulator is threaded through every member of a clause, and in an
      UPDATE through the SET items and the WHERE clause, so equal Fields are all kept;
    - `fetch_sql` makes an alias only of a truthy value;
    - the `Unset` marker shows as `<unset>`;
    - the VALUES placeholders of an INSERT are always numbered after the columns;
    - DELETE honours the style it is given;
    - data_to_fields gives `None` for empty data and accepts only real tuples of two.
    The accumulator threading itself is modelled in QueryObjects and proved to compute what
    these functions compute. */
module Query {
  import opened Common
  import opened Text
  import opened OrderedDict
  import opened Style
  import opened Util
  import opened Structure

  /** A legacy statement: table, schema, filters and fields, and its joins given as the texts
      their `as_sql` yields. */
  datatype Table = Table(table: string, schema: Option<string>, filters: seq<Expression>,
                         fields: seq<Field>, joins: seq<string>)

  /** The same statement in Structure's terms, without joins. */
  function AsBase(t: Table): (b: Base)
    ensures b.table == t.table && b.schema == t.schema && b.filters == t.filters
    ensures b.fields == t.fields && b.joins == []
  {
    Base(t.table, t.schema, t.filters, t.fields, [])
  }

  // ---------------------------------------------------------------- Field

  /** `f"{x}"` of a Field side that may be the `Unset` sentinel, whose repr is `<unset>`. */
  function LegacyNameText(left: Option<string>): string
  {
    if left.Some? then left.value else "<unset>"
  }

  /** `Field.fetch_sql` of query.py: "left AS right" only when the value is truthy, the bare
      name when there is a name, and otherwise the value itself. */
  function LegacyFetchSql(f: Field): Value
  {
    if f.left.Some? then
      if f.right.Some? && Truthy(f.right.value) then Str(f.left.value + " AS " + Render(f.right.value))
      else Str(f.left.value)
    else if f.right.Some? then f.right.value
    else NoneValue
  }

  // ----------------------------------------------------------- Expressions

  /** The Fields `Expressions.to_sql` appends to its accumulator: one per member, in member
      order, equal ones included. */
  function LegacyExpressionsArgs(es: seq<Expression>, style: Style, offset: int): (r: seq<Field>)
    ensures |r| == |es|
    ensures forall k :: 0 <= k < |es| ==> r[k] == ExpressionToSql(es[k], style, offset + k).0
  {
    Keys(IterSql(es, style, offset))
  }

  /** The clause `Expressions.to_sql` returns: every member's fragment, joined with AND under
      `lead`, or "" when there are no members. */
  function LegacyExpressionsText(es: seq<Expression>, style: Style, offset: int, lead: string): string
  {
    var where := JoinStr("AND\n  ", Values(IterSql(es, style, offset)));
    if where != "" then lead + "\n  " + where else ""
  }

  // ----------------------------------------------------------- Statements

  /** Renders every column of a SELECT with the legacy `fetch_sql`; `str.join` raises
      TypeError on a value that is not a str. */
  function LegacyFetchColumns(fs: seq<Field>): (r: Result<seq<string>>)
    ensures r.Ok? <==> forall i :: 0 <= i < |fs| ==> LegacyFetchSql(fs[i]).Str?
    ensures r.Ok? ==> |r.value| == |fs| && forall i :: 0 <= i < |fs| ==> r.value[i] == LegacyFetchSql(fs[i]).s
    ensures r.Err? ==> r.error == TypeError
    decreases |fs|
  {
    if |fs| == 0 then Ok([])
    else
      var v := LegacyFetchSql(fs[0]);
      match LegacyFetchColumns(fs[1..])
      case Err(e) => Err(e)
      case Ok(rest) => if v.Str? then Ok([v.s] + rest) else Err(TypeError)
  }

  /** `Select.build_select`. */
  function LegacyBuildSelect(t: Table): Result<string>
  {
    match LegacyFetchColumns(t.fields)
    case Err(e) => Err(e)
    case Ok(columns) => Ok("SELECT\n  " + JoinStr(",\n  ", columns) + "\nFROM\n  " + QualifiedName(t.schema, t.table))
  }

  /** `_BaseWriteStatement.returning` with the legacy `fetch_sql`. */
  function LegacyReturning(returning: Option<Field>): string
  {
    if returning.Some? then "RETURNING " + Render(LegacyFetchSql(returning.value)) else ""
  }

  /** `Select.to_sql(style, offset)`: the joins' texts each on a line of their own before
      WHERE; the Fields are WHERE's alone. */
  function LegacySelect(t: Table, style: Style, offset: int): Result<Rendered>
  {
    match LegacyBuildSelect(t)
    case Err(e) => Err(e)
    case Ok(select) =>
      var joins := JoinStr("\n", t.joins);
      var joinLines := if joins != "" then joins + "\n" else "";
      Ok((select + "\n" + joinLines + LegacyExpressionsText(t.filters, style, offset, "WHERE"),
          LegacyExpressionsArgs(t.filters, style, offset)))
  }

  /** `Update.build_update`: every SET item's Field is kept, numbered from `offset`. */
  function LegacyBuildUpdate(t: Table, style: Style, offset: int): Result<Rendered>
  {
    match SetExpressions(t.fields)
    case Err(e) => Err(e)
    case Ok(items) =>
      var its := IterSql(items, style, offset);
      Ok(("UPDATE\n  " + QualifiedName(t.schema, t.table) + "\nSET\n  " + JoinStr(",\n  ", Values(its)), Keys(its)))
  }

  /** `Update.to_sql(style, offset)`: WHERE is numbered after the SET items and appended to
      the same Fields; the joins' texts are joined with "\n,  " and bind nothing. */
  function LegacyUpdate(t: Table, returning: Option<Field>, style: Style, offset: int): Result<Rendered>
  {
    match LegacyBuildUpdate(t, style, offset)
    case Err(e) => Err(e)
    case Ok(update) =>
      var whereOffset := GetOffset(update.1, offset);
      Ok((update.0 + "\n" + JoinStr("\n,  ", t.joins) + "\n" + LegacyExpressionsText(t.filters, style, whereOffset, "WHERE")
            + "\n" + LegacyReturning(returning),
          update.1 + LegacyExpressionsArgs(t.filters, style, whereOffset)))
  }

  /** The column Fields of a legacy INSERT: `Field(f"col{x.left}", x.left)`. */
  function LegacyColumnFields(fs: seq<Field>): (r: seq<Field>)
    ensures |r| == |fs|
    ensures forall i :: 0 <= i < |fs| ==> r[i].left == Some("col" + LegacyNameText(fs[i].left))
    ensures forall i :: 0 <= i < |fs| ==> (r[i].right.Some? <==> fs[i].left.Some?)
    ensures forall i :: 0 <= i < |fs| && fs[i].left.Some? ==> r[i].right == Some(Str(fs[i].left.value))
  {
    seq(|fs|, i requires 0 <= i < |fs| =>
      Field(Some("col" + LegacyNameText(fs[i].left)), if fs[i].left.Some? then Some(Str(fs[i].left.value)) else None))
  }

  /** The value Fields of a legacy INSERT: `Field(f"val{x.left}", x.right)`. */
  function LegacyValueFields(fs: seq<Field>): (r: seq<Field>)
    ensures |r| == |fs|
    ensures forall i :: 0 <= i < |fs| ==> r[i].left == Some("val" + LegacyNameText(fs[i].left)) && r[i].right == fs[i].right
  {
    seq(|fs|, i requires 0 <= i < |fs| => Field(Some("val" + LegacyNameText(fs[i].left)), fs[i].right))
  }

  /** `Insert.build_insert(style, inject_columns, offset)`: VALUES is numbered after the
      columns whether or not the columns are injected. */
  function LegacyInsert(t: Table, returning: Option<Field>, style: Style, offset: int, inject: bool): Result<Rendered>
  {
    var columns := LegacyColumnFields(t.fields);
    var values := LegacyValueFields(t.fields);
    match FieldsToSql(columns, style, offset, inject)
    case Err(e) => Err(e)
    case Ok(insertSql) =>
      var valuesSql := ParamList(values, style, GetOffset(columns, offset));
      Ok(("INSERT INTO\n  " + QualifiedName(t.schema, t.table) + " " + insertSql + "\n"
          + "VALUES\n  " + valuesSql + "\n" + LegacyReturning(returning),
          if inject then values else columns + values))
  }

  /** `Delete.to_sql(style, offset)`: WHERE in the given style; the joins' texts bind nothing. */
  function LegacyDelete(t: Table, returning: Option<Field>, style: Style, offset: int): Rendered
  {
    ("DELETE FROM\n  " + QualifiedName(t.schema, t.table) + "\n" + JoinStr("\n,  ", t.joins) + "\n"
       + LegacyExpressionsText(t.filters, style, offset, "WHERE") + "\n" + LegacyReturning(returning),
     LegacyExpressionsArgs(t.filters, style, offset))
  }

  // -------------------------------------------------------- data_to_fields

  /** Whether every element of a collection is a tuple of two. */
  predicate AllTuples(items: seq<Item>)
  {
    forall i :: 0 <= i < |items| ==> items[i].TuplePair?
  }

  /** `data_to_fields(data, exclude)` of query.py: `None` for falsy data; only a collection of
      tuples of two is taken as pairs; anything else raises SQLValueError. */
  function LegacyDataToFields(data: FieldData, exclude: Option<Exclude>): Result<Option<seq<Field>>>
  {
    if !DataTruthy(data) then Ok(None)
    else
      var factory := DictFilterFactory(exclude, false);
      var filtered := match data
        case DataclassData(es) => ApplyFactory(factory, es)
        case NamedTupleData(es) => ApplyFactory(factory, es)
        case MappingData(es) => ApplyFactory(factory, es)
        case CollectionData(items) =>
          (if AllTuples(items) then ApplyFactory(factory, PairsOf(items).value) else Err(SQLValueError))
        case ScalarData(_) => Err(SQLValueError);
      match filtered
      case Err(e) => Err(e)
      case Ok(d) => Ok(Some(ToFields(d)))
  }
}
