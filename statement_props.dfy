/** Properties of the statements of que/structure.py: how they thread the placeholder
    count, where they depart from the obvious reading, and the texts they render for the
    fixtures of the repository's tests. */
module StatementProps {
  import opened Common
  import opened Text
  import opened OrderedDict
  import opened Style
  import opened Util
  import opened Structure
  import opened StructureProps

  // ------------------------------------------------------------- fixtures

  /** A clause with one member binds that member's Field and holds its fragment. */
  lemma SingleFilter(e: Expression, style: Style, offset: int, lead: string)
    ensures ExpressionsToSql([e], style, offset, lead).0 == lead + "\n  " + ExpressionToSql(e, style, offset).1
    ensures ExpressionsToSql([e], style, offset, lead).1 == [ExpressionToSql(e, style, offset).0]
  {
    var r := ExpressionToSql(e, style, offset);
    var pairs := IterSql([e], style, offset);
    assert pairs == [r];
    ExpressionsDistinct([e], style, offset, lead);
    assert Values(pairs) == [r.1];
    assert JoinStr("AND\n  ", [r.1]) == r.1;
  }

  /** The placeholders the fixtures render, style by style. */
  lemma PlaceholderTexts()
    ensures Placeholder(NUM, 1, "foo") == ":1" && Placeholder(DOL, 1, "foo") == "$1"
    ensures Placeholder(NAME, 1, "foo") == ":foo" && Placeholder(PYFM, 1, "foo") == "%(foo)s"
    ensures Placeholder(FM, 1, "foo") == "%s" && Placeholder(QM, 1, "foo") == "?"
    ensures Placeholder(NUM, 2, "foo") == ":2"
  {
    assert IntToString(1) == "1";
    assert IntToString(2) == "2";
  }

  /** The filter `c = <placeholder>` on the Field `c AS a`, as the tests' fixtures build it. */
  function ColumnFilter(c: string, a: string): Expression
  {
    Expression(Field(Some(c), Some(Str(a))), EQ, "")
  }

  /** A one-filter clause `c = <placeholder>`, binding the filter's Field. */
  lemma ColumnClause(c: string, a: string, style: Style, n: int, lead: string)
    ensures ExpressionsToSql([ColumnFilter(c, a)], style, n, lead).0 == lead + "\n  " + (c + " = " + Placeholder(style, n, c))
    ensures ExpressionsToSql([ColumnFilter(c, a)], style, n, lead).1 == [Field(Some(c), Some(Str(a)))]
  {
    var e := ColumnFilter(c, a);
    SingleFilter(e, style, n, lead);
    ColumnFragment(c, a, style, n);
  }

  /** The filter `c = <placeholder>` binds its own Field in every style. */
  lemma ColumnFragment(c: string, a: string, style: Style, n: int)
    ensures ExpressionToSql(ColumnFilter(c, a), style, n) == (Field(Some(c), Some(Str(a))), c + " = " + Placeholder(style, n, c))
  {
    assert "" + c == c;
    assert c + " " + "=" + " " + Placeholder(style, n, c) == c + " = " + Placeholder(style, n, c);
  }

  // ---------------------------------------------------------------- joins

  /** build_joins fails exactly when the joins before the last one fail or the last one does. */
  lemma JoinsFailSnoc(js: seq<Join>)
    requires |js| > 0
    ensures JoinsFail(js) <==> JoinsFail(js[..|js| - 1]) || JoinFails(js[|js| - 1])
  {
  }

  /** build_joins binds the Fields of the joins before the last one, then those of the last one,
      numbered from where the others leave the count. */
  lemma JoinsArgsSnoc(js: seq<Join>, style: Style, dflt: Style, offset: int)
    requires |js| > 0
    ensures var before := JoinsArgs(js[..|js| - 1], style, dflt, offset);
            JoinsArgs(js, style, dflt, offset) == before + JoinArgs(js[|js| - 1], style, dflt, GetOffset(before, offset))
  {
  }

  /** build_joins renders the lines of the joins before the last one, then the last one's line,
      numbered from where their Fields leave the count, and a line break. */
  lemma JoinsTextSnoc(js: seq<Join>, style: Style, dflt: Style, offset: int)
    requires |js| > 0
    ensures var n := GetOffset(JoinsArgs(js[..|js| - 1], style, dflt, offset), offset);
            JoinsText(js, style, dflt, offset) == JoinsText(js[..|js| - 1], style, dflt, offset) + JoinText(js[|js| - 1], dflt, n) + "\n"
  {
  }

  /** A single join's line, followed by a line break. */
  lemma SingleJoinText(j: Join, style: Style, dflt: Style, offset: int)
    ensures JoinsText([j], style, dflt, offset) == JoinText(j, dflt, offset) + "\n"
  {
    assert [j][..0] == [];
    JoinsTextSnoc([j], style, dflt, offset);
    assert JoinsArgs([], style, dflt, offset) == [];
    assert GetOffset(JoinsArgs([], style, dflt, offset), offset) == offset;
    assert JoinsText([], style, dflt, offset) == "";
    var line := JoinText(j, dflt, offset);
    assert "" + line + "\n" == line + "\n";
  }

  /** A single join binds its own Fields. */
  lemma SingleJoinArgs(j: Join, style: Style, dflt: Style, offset: int)
    ensures JoinsArgs([j], style, dflt, offset) == JoinArgs(j, style, dflt, offset)
  {
    assert [j][..0] == [];
    JoinsArgsSnoc([j], style, dflt, offset);
    assert JoinsArgs([], style, dflt, offset) == [];
    assert GetOffset(JoinsArgs([], style, dflt, offset), offset) == offset;
  }

  /** A single join: it fails when it fails, renders its own line and a line break, and binds
      its own Fields. */
  lemma SingleJoin(j: Join, style: Style, dflt: Style, offset: int)
    ensures JoinsFail([j]) == JoinFails(j)
    ensures JoinsText([j], style, dflt, offset) == JoinText(j, dflt, offset) + "\n"
    ensures JoinsArgs([j], style, dflt, offset) == JoinArgs(j, style, dflt, offset)
  {
    assert [j][..0] == [];
    SingleJoinText(j, style, dflt, offset);
    SingleJoinArgs(j, style, dflt, offset);
  }

  /** A Select raises exactly when SelectFails says so, and then with a TypeError. */
  lemma SelectSqlFails(b: Base, style: Option<Style>, dflt: Style, offset: int)
    ensures SelectSql(b, style, dflt, offset).Err? <==> SelectFails(b)
    ensures SelectSql(b, style, dflt, offset).Err? ==> SelectSql(b, style, dflt, offset).error == TypeError
  {
  }

  /** A Select that renders binds SelectArgs. */
  lemma SelectSqlArgs(b: Base, style: Option<Style>, dflt: Style, offset: int)
    ensures SelectSql(b, style, dflt, offset).Ok? ==> SelectSql(b, style, dflt, offset).value.1 == SelectArgs(b, style, dflt, offset)
  {
  }

  /** `Join.to_sql` as the source writes it: a Select target is rendered at the join's offset
      and only its Fields are kept (a failure propagates), the filters are rendered at the same
      offset in the default style, and their Fields follow. */
  lemma JoinSqlSource(j: Join, style: Style, dflt: Style, offset: int)
    ensures var filters := if j.filters.Some? then ExpressionsToSql(j.filters.value, dflt, offset, "AND").1 else [];
            && (!JoinsSelectObject(j) ==> !JoinFails(j) && JoinArgs(j, style, dflt, offset) == filters)
            && (JoinsSelectObject(j) ==>
                 var sel := SelectSql(j.target.select.base, Some(style), dflt, offset);
                 && (JoinFails(j) <==> sel.Err?)
                 && (sel.Ok? ==> JoinArgs(j, style, dflt, offset) == sel.value.1 + filters))
  {
    if JoinsSelectObject(j) {
      SelectSqlFails(j.target.select.base, Some(style), dflt, offset);
      SelectSqlArgs(j.target.select.base, Some(style), dflt, offset);
    }
  }

  /** A join to a table name binds the same Fields in every style and never fails: its filters
      use the default style, not the one the statement passes down. */
  lemma JoinIgnoresStyle(j: Join, s1: Style, s2: Style, dflt: Style, offset: int)
    requires !JoinsSelectObject(j)
    ensures !JoinFails(j)
    ensures JoinArgs(j, s1, dflt, offset) == JoinArgs(j, s2, dflt, offset)
  {
  }

  /** A join without schema, alias or join type, on one filter `c = <placeholder>`. */
  function FilteredJoin(target: JoinTarget, lkey: string, rkey: string, c: string, a: string): Join
  {
    Join(target, lkey, rkey, None, None, None, Some([ColumnFilter(c, a)]))
  }

  lemma JoinShape(repr: string, lkey: string, c: string, p: string)
    ensures "" + " JOIN " + repr + " " + "" + "\n  ON " + lkey + "\n  " + ("AND" + "\n  " + (c + " = " + p))
         == " JOIN " + repr + " \n  ON " + lkey + "\n  AND\n  " + c + " = " + p
  {
  }

  /** A join to a Select shows the Select's repr, and its filter is numbered from the join's
      offset, in the default style. */
  lemma SubqueryJoinText(sel: Statement, repr: string, lkey: string, rkey: string, c: string, a: string, dflt: Style, n: int)
    ensures JoinText(FilteredJoin(Subquery(sel, repr), lkey, rkey, c, a), dflt, n)
         == " JOIN " + repr + " \n  ON " + lkey + "\n  AND\n  " + c + " = " + Placeholder(dflt, n, c)
  {
    ColumnClause(c, a, dflt, n, "AND");
    JoinShape(repr, lkey, c, Placeholder(dflt, n, c));
  }

  /** A join to a Select binds the Select's Fields and then its own filter's; both are numbered
      from the join's offset, so the Select's first filter and the join's filter share a number. */
  lemma SubqueryJoinArgs(b: Base, repr: string, lkey: string, rkey: string, c: string, a: string, style: Style, dflt: Style, n: int)
    ensures JoinArgs(FilteredJoin(Subquery(Select(b), repr), lkey, rkey, c, a), style, dflt, n)
         == SelectArgs(b, Some(style), dflt, n) + [Field(Some(c), Some(Str(a)))]
  {
    ColumnClause(c, a, dflt, n, "AND");
  }

  // --------------------------------------------------------------- SELECT

  /** `Select.to_sql`'s text: the SELECT clause, a line break, the joins numbered from where
      the WHERE arguments leave the count, and then WHERE, numbered from `offset`. */
  lemma SelectText(b: Base, style: Option<Style>, dflt: Style, offset: int)
    ensures var s := Resolve(style, dflt);
            var where := ExpressionsToSql(b.filters, s, offset, "WHERE");
            var r := SelectSql(b, style, dflt, offset);
            r.Ok? ==> r.value.0 == BuildSelect(b).value + "\n" + JoinsText(b.joins, s, dflt, GetOffset(where.1, offset)) + where.0
  {
  }

  /** One column `c AS a` of table `sc.t`. */
  lemma OneColumnSelect(t: string, sc: string, c: string, a: string, filters: seq<Expression>, joins: seq<Join>)
    requires sc != ""
    ensures BuildSelect(Base(t, Some(sc), filters, [Field(Some(c), Some(Str(a)))], joins))
         == Ok("SELECT\n  " + (c + " AS " + a) + "\nFROM\n  " + (sc + "." + t))
  {
    var f := Field(Some(c), Some(Str(a)));
    assert FetchSql(f) == Str(c + " AS " + a);
    var cols := FetchColumns([f]);
    assert cols.value == [c + " AS " + a];
    assert JoinStr(",\n  ", [c + " AS " + a]) == c + " AS " + a;
  }

  lemma SelectShape(c: string, a: string, sc: string, t: string, p: string)
    ensures "SELECT\n  " + (c + " AS " + a) + "\nFROM\n  " + (sc + "." + t) + "\n" + "" + ("WHERE" + "\n  " + (c + " = " + p))
         == "SELECT\n  " + c + " AS " + a + "\nFROM\n  " + sc + "." + t + "\nWHERE\n  " + c + " = " + p
  {
  }

  /** The fixture of the repository's SELECT tests, for any table, schema, column and alias:
      `Select(t, schema=sc, fields=[Field(c, a)], filters=[Filter(Field(c, a))])` renders as
      `SELECT c AS a FROM sc.t WHERE c = <placeholder>`. */
  lemma SelectOneField(t: string, sc: string, c: string, a: string, style: Style, dflt: Style, n: int)
    requires sc != ""
    ensures var r := SelectSql(Base(t, Some(sc), [ColumnFilter(c, a)], [Field(Some(c), Some(Str(a)))], []), Some(style), dflt, n);
            r.Ok? && r.value.0 == "SELECT\n  " + c + " AS " + a + "\nFROM\n  " + sc + "." + t + "\nWHERE\n  " + c + " = " + Placeholder(style, n, c)
  {
    var b := Base(t, Some(sc), [ColumnFilter(c, a)], [Field(Some(c), Some(Str(a)))], []);
    OneColumnSelect(t, sc, c, a, [ColumnFilter(c, a)], []);
    ColumnClause(c, a, style, n, "WHERE");
    SelectShape(c, a, sc, t, Placeholder(style, n, c));
  }

  /** The same SELECT binds the filter's Field, whose value is the alias. */
  lemma SelectOneFieldArgs(t: string, sc: string, c: string, a: string, style: Style, dflt: Style, n: int)
    requires sc != ""
    ensures var r := SelectSql(Base(t, Some(sc), [ColumnFilter(c, a)], [Field(Some(c), Some(Str(a)))], []), Some(style), dflt, n);
            r.Ok? && r.value.1 == [Field(Some(c), Some(Str(a)))]
  {
    var b := Base(t, Some(sc), [ColumnFilter(c, a)], [Field(Some(c), Some(Str(a)))], []);
    OneColumnSelect(t, sc, c, a, [ColumnFilter(c, a)], []);
    ColumnClause(c, a, style, n, "WHERE");
    SelectSqlArgs(b, Some(style), dflt, n);
  }

  /** A value-only field whose value is not a str cannot be a SELECT column. */
  lemma SelectNonStrColumn(b: Base, style: Option<Style>, dflt: Style, offset: int)
    requires exists i :: 0 <= i < |b.fields| && b.fields[i].left.None? && b.fields[i].right.Some? && !b.fields[i].right.value.Str?
    ensures SelectSql(b, style, dflt, offset) == Err(TypeError)
  {
    var i :| 0 <= i < |b.fields| && b.fields[i].left.None? && b.fields[i].right.Some? && !b.fields[i].right.value.Str?;
    assert !FetchSql(b.fields[i]).Str?;
  }

  // --------------------------------------------------------------- UPDATE

  /** A Base whose Fields all have a name, so that its SET clause builds. */
  predicate AllNamed(b: Base)
  {
    forall i :: 0 <= i < |b.fields| ==> b.fields[i].left.Some?
  }

  /** An UPDATE raises SQLSyntaxError exactly when one of its Fields has no name. */
  lemma UpdateUnnamedField(b: Base, returning: Option<Field>, style: Option<Style>, dflt: Style, offset: int)
    ensures !AllNamed(b) <==> UpdateSql(b, returning, style, dflt, offset) == Err(SQLSyntaxError)
  {
  }

  /** An UPDATE whose Fields all have names raises only through a join, with a TypeError. */
  lemma UpdateFails(b: Base, returning: Option<Field>, style: Option<Style>, dflt: Style, offset: int)
    requires AllNamed(b)
    ensures UpdateSql(b, returning, style, dflt, offset).Err? <==> JoinsFail(b.joins)
    ensures UpdateSql(b, returning, style, dflt, offset).Err? ==> UpdateSql(b, returning, style, dflt, offset).error == TypeError
  {
  }

  /** `Update.to_sql`'s arguments: the SET items numbered from `offset`, WHERE's from where the
      SET items leave the count, and the joins' from `get_offset` of all of these taken again
      from that point. */
  lemma UpdateArgs(b: Base, returning: Option<Field>, style: Option<Style>, dflt: Style, offset: int)
    requires AllNamed(b)
    ensures var s := Resolve(style, dflt);
            var upd := BuildUpdate(b, s, offset).value;
            var where := ExpressionsToSql(b.filters, s, GetOffset(upd.1, offset), "WHERE");
            var r := UpdateSql(b, returning, style, dflt, offset);
            r.Ok? ==> r.value.1 == upd.1 + where.1 + JoinsArgs(b.joins, s, dflt, GetOffset(upd.1 + where.1, GetOffset(upd.1, offset)))
  {
  }

  /** `Update.to_sql`'s text: the SET clause, the joins on their own line numbered as in
      UpdateArgs, WHERE numbered from where the SET items leave the count, and RETURNING. */
  lemma UpdateText(b: Base, returning: Option<Field>, style: Option<Style>, dflt: Style, offset: int)
    requires AllNamed(b)
    ensures var s := Resolve(style, dflt);
            var upd := BuildUpdate(b, s, offset).value;
            var where := ExpressionsToSql(b.filters, s, GetOffset(upd.1, offset), "WHERE");
            var r := UpdateSql(b, returning, style, dflt, offset);
            r.Ok? ==> r.value.0 == upd.0 + "\n" + JoinsText(b.joins, s, dflt, GetOffset(upd.1 + where.1, GetOffset(upd.1, offset)))
                                   + "\n" + where.0 + "\n" + Returning(returning)
  {
  }

  /** The offset Update.to_sql hands to the joins counts the n SET arguments twice: it is
      `offset + 2n + w` where w counts the WHERE arguments, not `offset + n + w`. */
  lemma UpdateJoinOffset(u: seq<Field>, w: seq<Field>, offset: int)
    ensures GetOffset(u + w, GetOffset(u, offset)) == offset + |u| + |u| + |w|
    ensures GetOffset(u + w, GetOffset(u, offset)) == GetOffset(u + w, offset) + |u|
  {
  }

  /** The SET item built from the Field `c AS a`: `c = <placeholder>`, the placeholder built
      from `col<c>` in a named style, binding that renamed Field. */
  lemma SetItem(c: string, a: string, style: Style, n: int)
    ensures ExpressionToSql(Expression(Field(Some(c), Some(Str(a))), EQ, "col"), style, n)
         == (if FamilyOf(style) == Named then Field(Some("col" + c), Some(Str(a))) else Field(Some(c), Some(Str(a))),
             c + " = " + Placeholder(style, n, "col" + c))
  {
    var p := Placeholder(style, n, "col" + c);
    assert OpText(EQ) == "=";
    assert c + " " + "=" + " " + p == c + " = " + p;
  }

  /** The SET clause of one named Field `c AS a` of table `sc.t`: the placeholder is built from
      `col<c>` in a named style, and that renamed Field is bound. */
  lemma OneSetClause(t: string, sc: string, c: string, a: string, filters: seq<Expression>, joins: seq<Join>, style: Style, n: int)
    requires sc != ""
    ensures var u := BuildUpdate(Base(t, Some(sc), filters, [Field(Some(c), Some(Str(a)))], joins), style, n);
            u.Ok? && u.value.0 == "UPDATE\n  " + (sc + "." + t) + "\nSET\n  " + (c + " = " + Placeholder(style, n, "col" + c))
    ensures var u := BuildUpdate(Base(t, Some(sc), filters, [Field(Some(c), Some(Str(a)))], joins), style, n);
            u.Ok? && u.value.1 == [if FamilyOf(style) == Named then Field(Some("col" + c), Some(Str(a))) else Field(Some(c), Some(Str(a)))]
  {
    var item := Expression(Field(Some(c), Some(Str(a))), EQ, "col");
    assert SetExpressions([item.field]).value == [item];
    var r := ExpressionToSql(item, style, n);
    SetItem(c, a, style, n);
    assert IterSql([item], style, n) == [r];
    OneItemDict(r, ",\n  ");
  }

  lemma UpdateShape(sc: string, t: string, p: string, c: string, q: string, joins: string)
    ensures "UPDATE\n  " + (sc + "." + t) + "\nSET\n  " + (c + " = " + p) + "\n" + joins + "\n" + ("WHERE" + "\n  " + (c + " = " + q)) + "\n" + ""
         == "UPDATE\n  " + sc + "." + t + "\nSET\n  " + c + " = " + p + "\n" + joins + "\nWHERE\n  " + c + " = " + q + "\n"
  {
  }

  lemma UpdateShapeNoJoins(sc: string, t: string, p: string, c: string, q: string)
    ensures "UPDATE\n  " + (sc + "." + t) + "\nSET\n  " + (c + " = " + p) + "\n" + "" + "\n" + ("WHERE" + "\n  " + (c + " = " + q)) + "\n" + ""
         == "UPDATE\n  " + sc + "." + t + "\nSET\n  " + c + " = " + p + "\n\nWHERE\n  " + c + " = " + q + "\n"
  {
  }

  /** The SET and WHERE clauses of the fixture UPDATE below: SET numbered `n`, WHERE `n + 1`. */
  lemma OneFieldClauses(t: string, sc: string, c: string, a: string, joins: seq<Join>, style: Style, n: int)
    requires sc != ""
    ensures var b := Base(t, Some(sc), [ColumnFilter(c, a)], [Field(Some(c), Some(Str(a)))], joins);
            var upd := BuildUpdate(b, style, n);
            && upd.Ok?
            && upd.value.0 == "UPDATE\n  " + (sc + "." + t) + "\nSET\n  " + (c + " = " + Placeholder(style, n, "col" + c))
            && upd.value.1 == [if FamilyOf(style) == Named then Field(Some("col" + c), Some(Str(a))) else Field(Some(c), Some(Str(a)))]
            && GetOffset(upd.value.1, n) == n + 1
    ensures var b := Base(t, Some(sc), [ColumnFilter(c, a)], [Field(Some(c), Some(Str(a)))], joins);
            var where := ExpressionsToSql(b.filters, style, n + 1, "WHERE");
            && where.0 == "WHERE" + "\n  " + (c + " = " + Placeholder(style, n + 1, c))
            && where.1 == [Field(Some(c), Some(Str(a)))]
  {
    OneSetClause(t, sc, c, a, [ColumnFilter(c, a)], joins, style, n);
    ColumnClause(c, a, style, n + 1, "WHERE");
  }

  /** The UPDATE of the repository's fixture for any table, schema, column and alias: SET is
      numbered from `n` and WHERE from `n + 1`, and the empty join list leaves a blank line
      before WHERE. */
  lemma UpdateOneField(t: string, sc: string, c: string, a: string, style: Style, dflt: Style, n: int)
    requires sc != ""
    ensures var r := UpdateSql(Base(t, Some(sc), [ColumnFilter(c, a)], [Field(Some(c), Some(Str(a)))], []), None, Some(style), dflt, n);
            r.Ok? && r.value.0 == "UPDATE\n  " + sc + "." + t + "\nSET\n  " + c + " = " + Placeholder(style, n, "col" + c)
                                  + "\n\nWHERE\n  " + c + " = " + Placeholder(style, n + 1, c) + "\n"
  {
    var b := Base(t, Some(sc), [ColumnFilter(c, a)], [Field(Some(c), Some(Str(a)))], []);
    OneFieldClauses(t, sc, c, a, [], style, n);
    var upd := BuildUpdate(b, style, n).value;
    var where := ExpressionsToSql(b.filters, style, GetOffset(upd.1, n), "WHERE");
    assert JoinsText([], style, dflt, GetOffset(upd.1 + where.1, GetOffset(upd.1, n))) == "";
    UpdateFails(b, None, Some(style), dflt, n);
    UpdateText(b, None, Some(style), dflt, n);
    UpdateShapeNoJoins(sc, t, Placeholder(style, n, "col" + c), c, Placeholder(style, n + 1, c));
  }

  /** The same UPDATE binds the SET Field (renamed to `col<c>` in a named style) and then the
      filter's. */
  lemma UpdateOneFieldArgs(t: string, sc: string, c: string, a: string, style: Style, dflt: Style, n: int)
    requires sc != ""
    ensures var r := UpdateSql(Base(t, Some(sc), [ColumnFilter(c, a)], [Field(Some(c), Some(Str(a)))], []), None, Some(style), dflt, n);
            r.Ok? && r.value.1 == [if FamilyOf(style) == Named then Field(Some("col" + c), Some(Str(a))) else Field(Some(c), Some(Str(a))),
                                   Field(Some(c), Some(Str(a)))]
  {
    var b := Base(t, Some(sc), [ColumnFilter(c, a)], [Field(Some(c), Some(Str(a)))], []);
    assert AllNamed(b);
    OneFieldClauses(t, sc, c, a, [], style, n);
    UpdateArgsNoJoins(b, None, Some(style), dflt, n);
  }

  /** Without joins an UPDATE of named fields renders, binding the SET items and then WHERE's. */
  lemma UpdateArgsNoJoins(b: Base, returning: Option<Field>, style: Option<Style>, dflt: Style, offset: int)
    requires AllNamed(b) && b.joins == []
    ensures var s := Resolve(style, dflt);
            var upd := BuildUpdate(b, s, offset).value;
            var where := ExpressionsToSql(b.filters, s, GetOffset(upd.1, offset), "WHERE");
            var r := UpdateSql(b, returning, style, dflt, offset);
            r.Ok? && r.value.1 == upd.1 + where.1
  {
    var s := Resolve(style, dflt);
    var upd := BuildUpdate(b, s, offset).value;
    var where := ExpressionsToSql(b.filters, s, GetOffset(upd.1, offset), "WHERE");
    assert JoinsArgs([], s, dflt, GetOffset(upd.1 + where.1, GetOffset(upd.1, offset))) == [];
    UpdateFails(b, returning, style, dflt, offset);
    UpdateArgs(b, returning, style, dflt, offset);
    assert upd.1 + where.1 + [] == upd.1 + where.1;
  }

  /** The double count made concrete: with one SET item and one filter, a join's filter is
      numbered from `n + 3`, although the statement binds only `n` and `n + 1` before it. */
  lemma UpdateJoinGap(t: string, sc: string, c: string, a: string, j: Join, style: Style, dflt: Style, n: int)
    requires sc != ""
    ensures var r := UpdateSql(Base(t, Some(sc), [ColumnFilter(c, a)], [Field(Some(c), Some(Str(a)))], [j]), None, Some(style), dflt, n);
            r.Ok? <==> !JoinFails(j)
    ensures var r := UpdateSql(Base(t, Some(sc), [ColumnFilter(c, a)], [Field(Some(c), Some(Str(a)))], [j]), None, Some(style), dflt, n);
            r.Ok? ==> r.value.0 == "UPDATE\n  " + sc + "." + t + "\nSET\n  " + c + " = " + Placeholder(style, n, "col" + c)
                                   + "\n" + (JoinText(j, dflt, n + 3) + "\n") + "\nWHERE\n  " + c + " = " + Placeholder(style, n + 1, c) + "\n"
  {
    var b := Base(t, Some(sc), [ColumnFilter(c, a)], [Field(Some(c), Some(Str(a)))], [j]);
    OneFieldClauses(t, sc, c, a, [j], style, n);
    var upd := BuildUpdate(b, style, n).value;
    var where := ExpressionsToSql(b.filters, style, GetOffset(upd.1, n), "WHERE");
    assert GetOffset(upd.1 + where.1, GetOffset(upd.1, n)) == n + 3;
    UpdateFails(b, None, Some(style), dflt, n);
    SingleJoin(j, style, dflt, n + 3);
    UpdateText(b, None, Some(style), dflt, n);
    UpdateShape(sc, t, Placeholder(style, n, "col" + c), c, Placeholder(style, n + 1, c), JoinText(j, dflt, n + 3) + "\n");
  }

  // --------------------------------------------------------------- INSERT

  /** The column names of the Fields. */
  function Names(fs: seq<Field>): (r: seq<string>)
    requires forall i :: 0 <= i < |fs| ==> fs[i].left.Some?
    ensures |r| == |fs| && forall i :: 0 <= i < |fs| ==> r[i] == fs[i].left.value
  {
    seq(|fs|, i requires 0 <= i < |fs| => fs[i].left.value)
  }

  /** A parameter list is empty text exactly when there are no Fields; otherwise its k-th
      placeholder is numbered `offset + k`. */
  lemma ParamListSpec(fs: seq<Field>, style: Style, offset: int)
    ensures ParamList(fs, style, offset) == "" <==> |fs| == 0
    ensures |fs| > 0 ==> ParamList(fs, style, offset) == "(" + JoinStr(",\n  ", IterFields(fs, style, offset)) + ")"
  {
    var ps := IterFields(fs, style, offset);
    forall k | 0 <= k < |ps| ensures ps[k] != "" {
      assert |Before(style)| > 0;
    }
    JoinEmptyIff(",\n  ", ps);
  }

  /** `Insert.to_sql` with column injection, the default: the column names are spliced into the
      text (a TypeError if a Field has no name), the values are numbered from `offset`, and only
      the `val<name>` Fields are bound. */
  lemma InsertInjected(b: Base, returning: Option<Field>, style: Option<Style>, dflt: Style, offset: int)
    ensures var r := InsertSql(b, returning, style, dflt, offset, true);
            && (r.Err? <==> exists i :: 0 <= i < |b.fields| && b.fields[i].left.None?)
            && (r.Err? ==> r.error == TypeError)
            && (r.Ok? ==> r.value.1 == ValueFields(b.fields))
            && (r.Ok? ==> r.value.0 == "INSERT INTO\n  " + QualifiedName(b.schema, b.table) + " (" + JoinStr(", ", Names(b.fields)) + ")\n"
                                    + "VALUES\n  " + ParamList(ValueFields(b.fields), Resolve(style, dflt), offset) + "\n" + Returning(returning))
  {
    var columns := ColumnFields(b.fields);
    if InjectedNames(columns).Ok? {
      assert InjectedNames(columns).value == Names(b.fields);
      assert "INSERT INTO\n  " + QualifiedName(b.schema, b.table) + " " + ("(" + JoinStr(", ", Names(b.fields)) + ")") + "\n"
          == "INSERT INTO\n  " + QualifiedName(b.schema, b.table) + " (" + JoinStr(", ", Names(b.fields)) + ")\n";
    } else {
      var i :| 0 <= i < |columns| && !(columns[i].right.Some? && columns[i].right.value.Str?);
      assert b.fields[i].left.None?;
    }
  }

  /** `Insert.to_sql` without injection: the column placeholders are numbered from `offset`, the
      value placeholders from `offset + n`, and the `col<name>` Fields are bound before the
      `val<name>` Fields. */
  lemma InsertPlaceholders(b: Base, returning: Option<Field>, style: Option<Style>, dflt: Style, offset: int)
    ensures var s := Resolve(style, dflt);
            var r := InsertSql(b, returning, style, dflt, offset, false);
            && r.Ok?
            && r.value.1 == ColumnFields(b.fields) + ValueFields(b.fields)
            && r.value.0 == "INSERT INTO\n  " + QualifiedName(b.schema, b.table) + " " + ParamList(ColumnFields(b.fields), s, offset) + "\n"
                            + "VALUES\n  " + ParamList(ValueFields(b.fields), s, offset + |b.fields|) + "\n" + Returning(returning)
  {
    assert |ColumnFields(b.fields)| + offset == offset + |b.fields|;
  }

  /** In a named style the bound names of a non-injecting INSERT are all distinct when the column
      names are: `col<name>` never equals `val<name>`. */
  lemma InsertNamedArguments(fs: seq<Field>, style: Style)
    requires FamilyOf(style) == Named
    requires forall i :: 0 <= i < |fs| ==> fs[i].left.Some?
    requires forall i, j :: 0 <= i < j < |fs| ==> fs[i].left != fs[j].left
    ensures var args := ColumnFields(fs) + ValueFields(fs);
            ForSql(args, style) == NameMapping(seq(|args|, i requires 0 <= i < |args| => (args[i].left.value, args[i].right)))
  {
    var args := ColumnFields(fs) + ValueFields(fs);
    forall i, j | 0 <= i < j < |args| ensures args[i].left != args[j].left {
      if i < |fs| && j < |fs| {
        PrefixCancel("col", fs[i].left.value, fs[j].left.value);
      } else if i >= |fs| && j >= |fs| {
        PrefixCancel("val", fs[i - |fs|].left.value, fs[j - |fs|].left.value);
      } else {
        assert args[i].left.value[0] == 'c' && args[j].left.value[0] == 'v';
      }
    }
    ForSqlNamedDistinct(args, style);
  }

  lemma PrefixCancel(p: string, x: string, y: string)
    requires x != y
    ensures p + x != p + y
  {
    assert (p + x)[|p|..] == x && (p + y)[|p|..] == y;
  }

  /** A parameter list of one Field is its placeholder in parentheses. */
  lemma OneParam(f: Field, style: Style, n: int)
    ensures ParamList([f], style, n) == "(" + Placeholder(style, n, NameText(f.left)) + ")"
  {
    var p := Placeholder(style, n, NameText(f.left));
    assert IterFields([f], style, n) == [p];
    assert JoinStr(",\n  ", [p]) == p;
    ParamListSpec([f], style, n);
  }

  /** The column and value Fields of the one Field `c AS a`. */
  lemma OneFieldColumns(c: string, a: string)
    ensures ColumnFields([Field(Some(c), Some(Str(a)))]) == [Field(Some("col" + c), Some(Str(c)))]
    ensures ValueFields([Field(Some(c), Some(Str(a)))]) == [Field(Some("val" + c), Some(Str(a)))]
    ensures Names([Field(Some(c), Some(Str(a)))]) == [c]
  {
  }

  lemma InsertShape(head: string, cols: string, p: string)
    ensures "INSERT INTO\n  " + head + " (" + cols + ")\n" + "VALUES\n  " + ("(" + p + ")") + "\n" + ""
         == "INSERT INTO\n  " + head + " (" + cols + ")\nVALUES\n  (" + p + ")\n"
  {
  }

  lemma PlaceholderInsertShape(head: string, p: string, q: string)
    ensures "INSERT INTO\n  " + head + " " + ("(" + p + ")") + "\n" + "VALUES\n  " + ("(" + q + ")") + "\n" + ""
         == "INSERT INTO\n  " + head + " (" + p + ")\nVALUES\n  (" + q + ")\n"
  {
  }

  /** The INSERT of the repository's fixture, with column injection (the default of `to_sql`),
      for any table, schema, column and alias: the column name is spliced into the text and the
      value placeholder is numbered `n`. */
  lemma InsertOneFieldInjected(t: string, sc: string, c: string, a: string, style: Style, dflt: Style, n: int)
    requires sc != ""
    ensures var r := InsertSql(Base(t, Some(sc), [], [Field(Some(c), Some(Str(a)))], []), None, Some(style), dflt, n, true);
            r.Ok? && r.value.0 == "INSERT INTO\n  " + (sc + "." + t) + " (" + c + ")\nVALUES\n  (" + Placeholder(style, n, "val" + c) + ")\n"
  {
    var f := Field(Some(c), Some(Str(a)));
    var b := Base(t, Some(sc), [], [f], []);
    OneFieldColumns(c, a);
    InsertInjected(b, None, Some(style), dflt, n);
    assert JoinStr(", ", [c]) == c;
    OneParam(Field(Some("val" + c), Some(Str(a))), style, n);
    InsertShape(sc + "." + t, c, Placeholder(style, n, "val" + c));
  }

  /** The same INSERT binds only the `val<c>` Field. */
  lemma InsertOneFieldInjectedArgs(t: string, sc: string, c: string, a: string, style: Style, dflt: Style, n: int)
    ensures var r := InsertSql(Base(t, Some(sc), [], [Field(Some(c), Some(Str(a)))], []), None, Some(style), dflt, n, true);
            r.Ok? && r.value.1 == [Field(Some("val" + c), Some(Str(a)))]
  {
    OneFieldColumns(c, a);
    InsertInjected(Base(t, Some(sc), [], [Field(Some(c), Some(Str(a)))], []), None, Some(style), dflt, n);
  }

  /** The same INSERT without injection, which is what the repository's tests expect: the
      column placeholder is numbered `n` and the value placeholder `n + 1`. */
  lemma InsertOneFieldPlaceholders(t: string, sc: string, c: string, a: string, style: Style, dflt: Style, n: int)
    requires sc != ""
    ensures var r := InsertSql(Base(t, Some(sc), [], [Field(Some(c), Some(Str(a)))], []), None, Some(style), dflt, n, false);
            r.Ok? && r.value.0 == "INSERT INTO\n  " + (sc + "." + t) + " (" + Placeholder(style, n, "col" + c)
                                  + ")\nVALUES\n  (" + Placeholder(style, n + 1, "val" + c) + ")\n"
  {
    var f := Field(Some(c), Some(Str(a)));
    var b := Base(t, Some(sc), [], [f], []);
    OneFieldColumns(c, a);
    InsertPlaceholders(b, None, Some(style), dflt, n);
    OneParam(Field(Some("col" + c), Some(Str(c))), style, n);
    OneParam(Field(Some("val" + c), Some(Str(a))), style, n + 1);
    assert n + |b.fields| == n + 1;
    PlaceholderInsertShape(sc + "." + t, Placeholder(style, n, "col" + c), Placeholder(style, n + 1, "val" + c));
  }

  /** The same INSERT binds the `col<c>` Field, whose value is the column name, then the `val<c>` Field. */
  lemma InsertOneFieldPlaceholdersArgs(t: string, sc: string, c: string, a: string, style: Style, dflt: Style, n: int)
    ensures var r := InsertSql(Base(t, Some(sc), [], [Field(Some(c), Some(Str(a)))], []), None, Some(style), dflt, n, false);
            r.Ok? && r.value.1 == [Field(Some("col" + c), Some(Str(c))), Field(Some("val" + c), Some(Str(a)))]
  {
    OneFieldColumns(c, a);
    InsertPlaceholders(Base(t, Some(sc), [], [Field(Some(c), Some(Str(a)))], []), None, Some(style), dflt, n);
  }

  /** An INSERT of no Fields with injection: an empty column list "()" and an empty VALUES list. */
  lemma InsertNoFieldsInjected(t: string, style: Option<Style>, dflt: Style, offset: int)
    ensures var r := InsertSql(Base(t, None, [], [], []), None, style, dflt, offset, true);
            r.Ok? && r.value.0 == "INSERT INTO\n  " + t + " ()\nVALUES\n  \n" && r.value.1 == []
  {
    InsertInjected(Base(t, None, [], [], []), None, style, dflt, offset);
    ParamListSpec([], Resolve(style, dflt), offset);
    assert Names([]) == [] && ValueFields([]) == [];
    assert JoinStr(", ", []) == "";
    assert "INSERT INTO\n  " + t + " (" + "" + ")\n" + "VALUES\n  " + "" + "\n" + "" == "INSERT INTO\n  " + t + " ()\nVALUES\n  \n";
  }

  /** An INSERT of no Fields without injection: no column list at all. */
  lemma InsertNoFieldsPlaceholders(t: string, style: Option<Style>, dflt: Style, offset: int)
    ensures var r := InsertSql(Base(t, None, [], [], []), None, style, dflt, offset, false);
            r.Ok? && r.value.0 == "INSERT INTO\n  " + t + " \nVALUES\n  \n" && r.value.1 == []
  {
    InsertPlaceholders(Base(t, None, [], [], []), None, style, dflt, offset);
    ParamListSpec([], Resolve(style, dflt), offset);
    ParamListSpec([], Resolve(style, dflt), offset + 0);
    assert ColumnFields([]) == [] && ValueFields([]) == [];
    assert "INSERT INTO\n  " + t + " " + "" + "\n" + "VALUES\n  " + "" + "\n" + "" == "INSERT INTO\n  " + t + " \nVALUES\n  \n";
  }

  // --------------------------------------------------------------- DELETE

  /** `Delete.to_sql` renders in the current default style whatever style it is given. */
  lemma DeleteIgnoresStyle(b: Base, returning: Option<Field>, style: Option<Style>, dflt: Style, offset: int)
    ensures DeleteSql(b, returning, style, dflt, offset) == DeleteSql(b, returning, None, dflt, offset)
  {
  }

  /** A DELETE raises exactly when one of its joins does, and then with a TypeError. */
  lemma DeleteFails(b: Base, returning: Option<Field>, style: Option<Style>, dflt: Style, offset: int)
    ensures DeleteSql(b, returning, style, dflt, offset).Err? <==> JoinsFail(b.joins)
    ensures DeleteSql(b, returning, style, dflt, offset).Err? ==> DeleteSql(b, returning, style, dflt, offset).error == TypeError
  {
  }

  /** `Delete.to_sql`'s arguments: WHERE's, numbered from `offset`, then the joins', numbered
      from where WHERE leaves the count. */
  lemma DeleteArgs(b: Base, returning: Option<Field>, style: Option<Style>, dflt: Style, offset: int)
    ensures var where := ExpressionsToSql(b.filters, dflt, offset, "WHERE");
            var r := DeleteSql(b, returning, style, dflt, offset);
            r.Ok? ==> r.value.1 == where.1 + JoinsArgs(b.joins, dflt, dflt, GetOffset(where.1, offset))
  {
  }

  /** `Delete.to_sql`'s text: the DELETE clause, the joins, WHERE and RETURNING, each on its own line. */
  lemma DeleteText(b: Base, returning: Option<Field>, style: Option<Style>, dflt: Style, offset: int)
    ensures var where := ExpressionsToSql(b.filters, dflt, offset, "WHERE");
            var r := DeleteSql(b, returning, style, dflt, offset);
            r.Ok? ==> r.value.0 == "DELETE FROM " + QualifiedName(b.schema, b.table) + "\n"
                                   + JoinsText(b.joins, dflt, dflt, GetOffset(where.1, offset))
                                   + "\n" + where.0 + "\n" + Returning(returning)
  {
  }

  lemma DeleteShape(sc: string, t: string, c: string, q: string)
    ensures "DELETE FROM " + (sc + "." + t) + "\n" + "" + "\n" + ("WHERE" + "\n  " + (c + " = " + q)) + "\n" + ""
         == "DELETE FROM " + sc + "." + t + "\n\nWHERE\n  " + c + " = " + q + "\n"
  {
  }

  /** The DELETE of the repository's fixture for any table, schema, column and alias: the filter
      is numbered from `n` in the default style, whichever style is asked for, and the empty join
      list leaves a blank line before WHERE. */
  lemma DeleteOneFilter(t: string, sc: string, c: string, a: string, style: Style, dflt: Style, n: int)
    requires sc != ""
    ensures var r := DeleteSql(Base(t, Some(sc), [ColumnFilter(c, a)], [], []), None, Some(style), dflt, n);
            r.Ok? && r.value.0 == "DELETE FROM " + sc + "." + t + "\n\nWHERE\n  " + c + " = " + Placeholder(dflt, n, c) + "\n"
  {
    var b := Base(t, Some(sc), [ColumnFilter(c, a)], [], []);
    ColumnClause(c, a, dflt, n, "WHERE");
    var where := ExpressionsToSql(b.filters, dflt, n, "WHERE");
    assert JoinsText([], dflt, dflt, GetOffset(where.1, n)) == "";
    assert QualifiedName(Some(sc), t) == sc + "." + t;
    DeleteFails(b, None, Some(style), dflt, n);
    DeleteText(b, None, Some(style), dflt, n);
    DeleteShape(sc, t, c, Placeholder(dflt, n, c));
  }

  /** The same DELETE binds the filter's Field. */
  lemma DeleteOneFilterArgs(t: string, sc: string, c: string, a: string, style: Style, dflt: Style, n: int)
    ensures var r := DeleteSql(Base(t, Some(sc), [ColumnFilter(c, a)], [], []), None, Some(style), dflt, n);
            r.Ok? && r.value.1 == [Field(Some(c), Some(Str(a)))]
  {
    var b := Base(t, Some(sc), [ColumnFilter(c, a)], [], []);
    ColumnClause(c, a, dflt, n, "WHERE");
    var where := ExpressionsToSql(b.filters, dflt, n, "WHERE");
    assert JoinsArgs([], dflt, dflt, GetOffset(where.1, n)) == [];
    DeleteFails(b, None, Some(style), dflt, n);
    DeleteArgs(b, None, Some(style), dflt, n);
    assert where.1 + [] == where.1;
  }

  // ------------------------------------------------------------ RETURNING

  predicate EndsWith(s: string, t: string)
  {
    |t| <= |s| && s[|s| - |t|..] == t
  }

  /** Every write statement ends with its RETURNING clause, which is empty when none is given. */
  lemma WritesEndWithReturning(st: Statement, style: Option<Style>, dflt: Style, offset: int)
    requires st.Update? || st.Insert? || st.Delete?
    ensures StatementSql(st, style, dflt, offset).Ok? ==> EndsWith(StatementSql(st, style, dflt, offset).value.0, Returning(st.returning))
    ensures st.returning.None? ==> Returning(st.returning) == ""
  {
  }

  /** `Field('id')` as a RETURNING clause. */
  lemma ReturningId()
    ensures Returning(Some(Field(Some("id"), None))) == "RETURNING id"
  {
  }

  // ------------------------------------------------------------------ CTE

  /** A common table expression raises whatever its body raises. */
  lemma CteBodyFails(e: Statement, t: Statement, alias: string, style: Option<Style>, dflt: Style, offset: int)
    ensures var body := StatementSql(e, Some(Resolve(style, dflt)), dflt, offset);
            body.Err? ==> StatementSql(Cte(e, t, alias), style, dflt, offset) == Err(body.error)
  {
    var body := StatementSql(e, Some(Resolve(style, dflt)), dflt, offset);
    var r := StatementSql(Cte(e, t, alias), style, dflt, offset);
    if body.Err? {
      assert r == CteSql(e, t, alias, style, dflt, offset);
    }
  }

  /** A common table expression renders its statement, in the same style, from where the
      body's arguments leave the count, and raises whatever the statement raises. */
  lemma CteStatementFails(e: Statement, t: Statement, alias: string, style: Option<Style>, dflt: Style, offset: int)
    ensures var s := Resolve(style, dflt);
            var body := StatementSql(e, Some(s), dflt, offset);
            body.Ok? ==>
              var stmt := StatementSql(t, Some(s), dflt, GetOffset(body.value.1, offset));
              stmt.Err? ==> StatementSql(Cte(e, t, alias), style, dflt, offset) == Err(stmt.error)
  {
    var s := Resolve(style, dflt);
    var body := StatementSql(e, Some(s), dflt, offset);
    if body.Ok? {
      var stmt := StatementSql(t, Some(s), dflt, GetOffset(body.value.1, offset));
      var r := StatementSql(Cte(e, t, alias), style, dflt, offset);
      if stmt.Err? {
        assert r == CteSql(e, t, alias, style, dflt, offset);
      }
    }
  }

  /** A common table expression whose body and statement both render renders, binding the
      body's arguments, then the statement's, and wrapping the body's text in
      `WITH alias AS (...)` before the statement's. */
  lemma CteRenders(e: Statement, t: Statement, alias: string, style: Option<Style>, dflt: Style, offset: int)
    ensures var s := Resolve(style, dflt);
            var body := StatementSql(e, Some(s), dflt, offset);
            body.Ok? ==>
              var stmt := StatementSql(t, Some(s), dflt, GetOffset(body.value.1, offset));
              stmt.Ok? ==> StatementSql(Cte(e, t, alias), style, dflt, offset)
                             == Ok(("WITH " + alias + " AS (\n" + body.value.0 + "\n)\n" + stmt.value.0,
                                    body.value.1 + stmt.value.1))
  {
    var s := Resolve(style, dflt);
    var body := StatementSql(e, Some(s), dflt, offset);
    if body.Ok? {
      var stmt := StatementSql(t, Some(s), dflt, GetOffset(body.value.1, offset));
      var r := StatementSql(Cte(e, t, alias), style, dflt, offset);
      if stmt.Ok? {
        assert r == CteSql(e, t, alias, style, dflt, offset);
      }
    }
  }

  /** A common table expression renders only when its body and its statement both do. */
  lemma CteThreading(e: Statement, t: Statement, alias: string, style: Option<Style>, dflt: Style, offset: int)
    ensures var s := Resolve(style, dflt);
            var body := StatementSql(e, Some(s), dflt, offset);
            var r := StatementSql(Cte(e, t, alias), style, dflt, offset);
            r.Ok? ==> body.Ok? && StatementSql(t, Some(s), dflt, GetOffset(body.value.1, offset)).Ok?
  {
    CteBodyFails(e, t, alias, style, dflt, offset);
    CteStatementFails(e, t, alias, style, dflt, offset);
  }

  /** `style or default_style()`: leaving the style out is the same as passing the default. */
  lemma OmittedStyleIsDefault(st: Statement, dflt: Style, offset: int)
    ensures StatementSql(st, None, dflt, offset) == StatementSql(st, Some(dflt), dflt, offset)
  {
  }
}
