/** Closed forms of the statements of que/structure.py: which joins make a statement fail,
    where each join's placeholders are numbered, and, when the Fields a clause binds are
    distinct, which Field each placeholder binds. */
module StatementSpec {
  import opened Common
  import opened Text
  import opened OrderedDict
  import opened Style
  import opened Util
  import opened Structure
  import opened StructureProps
  import opened StatementProps
  import opened StructureObjects

  // ---------------------------------------------------------------- joins

  /** build_joins raises exactly when one of the joins does. */
  lemma {:induction false} JoinsFailExists(js: seq<Join>)
    ensures JoinsFail(js) <==> exists i :: 0 <= i < |js| && JoinFails(js[i])
    decreases |js|
  {
    if |js| > 0 {
      var init := js[..|js| - 1];
      JoinsFailExists(init);
      JoinsFailSnoc(js);
      if JoinsFail(init) {
        var i :| 0 <= i < |init| && JoinFails(init[i]);
        assert js[i] == init[i];
      }
      if exists i :: 0 <= i < |js| && JoinFails(js[i]) {
        var i :| 0 <= i < |js| && JoinFails(js[i]);
        if i < |init| {
          assert init[i] == js[i];
        }
      }
    }
  }

  /** The Fields of the first joins open the Fields of all of them. */
  lemma {:induction false} JoinsArgsPrefix(js: seq<Join>, i: nat, style: Style, dflt: Style, offset: int)
    requires i <= |js|
    ensures JoinsArgs(js[..i], style, dflt, offset) <= JoinsArgs(js, style, dflt, offset)
    decreases |js|
  {
    if i < |js| {
      var init := js[..|js| - 1];
      assert init[..i] == js[..i];
      JoinsArgsPrefix(init, i, style, dflt, offset);
      JoinsArgsSnoc(js, style, dflt, offset);
    } else {
      assert js[..i] == js;
    }
  }

  /** The lines of the first joins open the lines of all of them. */
  lemma {:induction false} JoinsTextPrefix(js: seq<Join>, i: nat, style: Style, dflt: Style, offset: int)
    requires i <= |js|
    ensures JoinsText(js[..i], style, dflt, offset) <= JoinsText(js, style, dflt, offset)
    decreases |js|
  {
    if i < |js| {
      var init := js[..|js| - 1];
      assert init[..i] == js[..i];
      JoinsTextPrefix(init, i, style, dflt, offset);
      JoinsTextSnoc(js, style, dflt, offset);
    } else {
      assert js[..i] == js;
    }
  }

  /** Join i of build_joins is numbered from `get_offset` of the Fields the joins before it
      bind (`offset` plus their number), and its Fields follow theirs; after the last join
      nothing follows. */
  lemma JoinsArgsBlock(js: seq<Join>, i: nat, style: Style, dflt: Style, offset: int)
    requires i < |js|
    ensures var before := JoinsArgs(js[..i], style, dflt, offset);
            before + JoinArgs(js[i], style, dflt, GetOffset(before, offset)) <= JoinsArgs(js, style, dflt, offset)
    ensures var before := JoinsArgs(js[..i], style, dflt, offset);
            i == |js| - 1 ==> JoinsArgs(js, style, dflt, offset) == before + JoinArgs(js[i], style, dflt, GetOffset(before, offset))
  {
    var n := GetOffset(JoinsArgs(js[..i], style, dflt, offset), offset);
    JoinsStepAt(js, i, n, style, dflt, offset);
    JoinsArgsPrefix(js, i + 1, style, dflt, offset);
    if i == |js| - 1 {
      assert js[..i + 1] == js;
    }
  }

  /** Join i's line, numbered as in JoinsArgsBlock and followed by a line break, comes right
      after the lines of the joins before it. */
  lemma JoinsTextBlock(js: seq<Join>, i: nat, style: Style, dflt: Style, offset: int)
    requires i < |js|
    ensures var before := JoinsArgs(js[..i], style, dflt, offset);
            JoinsText(js[..i], style, dflt, offset) + JoinText(js[i], dflt, GetOffset(before, offset)) + "\n"
              <= JoinsText(js, style, dflt, offset)
  {
    var n := GetOffset(JoinsArgs(js[..i], style, dflt, offset), offset);
    JoinsStepAt(js, i, n, style, dflt, offset);
    JoinsTextPrefix(js, i + 1, style, dflt, offset);
  }

  // ------------------------------------------------------------ clauses

  /** The Fields a sequence of expressions binds when every one of them is bound: the k-th
      expression's Field, as built for the placeholder numbered `offset + k`. */
  function Bound(es: seq<Expression>, style: Style, offset: int): (r: seq<Field>)
    ensures |r| == |es|
    ensures forall k :: 0 <= k < |es| ==> r[k] == ExpressionToSql(es[k], style, offset + k).0
  {
    seq(|es|, k requires 0 <= k < |es| => ExpressionToSql(es[k], style, offset + k).0)
  }

  /** The clause `lead` renders for the expressions: nothing without expressions, otherwise
      `lead`, then the expressions' fragments joined by AND. */
  function Clause(es: seq<Expression>, style: Style, offset: int, lead: string): (r: string)
    ensures |es| == 0 <==> r == ""
  {
    if |es| == 0 then "" else lead + "\n  " + JoinStr("AND\n  ", Values(IterSql(es, style, offset)))
  }

  /** With distinct Fields, build_where keeps every expression: it renders Clause and binds
      Bound. */
  lemma WhereDistinct(es: seq<Expression>, style: Style, offset: int)
    requires Distinct(Keys(IterSql(es, style, offset)))
    ensures ExpressionsToSql(es, style, offset, "WHERE") == (Clause(es, style, offset, "WHERE"), Bound(es, style, offset))
  {
    ExpressionsDistinct(es, style, offset, "WHERE");
    var r := ExpressionsToSql(es, style, offset, "WHERE");
    assert r.1 == Bound(es, style, offset);
    if |es| == 0 {
      ExpressionsText(es, style, offset, "WHERE");
    }
  }

  /** With distinct Fields, build_update keeps every SET item: the k-th Field is bound at
      `offset + k`. */
  lemma SetDistinct(b: Base, style: Style, offset: int)
    requires AllNamed(b)
    requires Distinct(Keys(IterSql(SetExpressions(b.fields).value, style, offset)))
    ensures BuildUpdate(b, style, offset)
            == Ok(("UPDATE\n  " + QualifiedName(b.schema, b.table) + "\nSET\n  "
                   + JoinStr(",\n  ", Values(IterSql(SetExpressions(b.fields).value, style, offset))),
                   Bound(SetExpressions(b.fields).value, style, offset)))
  {
    var items := SetExpressions(b.fields).value;
    var pairs := IterSql(items, style, offset);
    FromPairsIdentity(pairs);
    assert Keys(pairs) == Bound(items, style, offset);
  }

  // --------------------------------------------------------------- SELECT

  /** `Select.to_sql` with distinct WHERE Fields: every filter is bound, the k-th at
      `offset + k`, then the joins' Fields, numbered from `j = offset + w` for w filters; the
      text is the SELECT clause, the joins' lines and the WHERE clause. */
  lemma SelectSpec(b: Base, style: Option<Style>, dflt: Style, offset: int, j: int)
    requires Distinct(Keys(IterSql(b.filters, Resolve(style, dflt), offset)))
    requires j == offset + |b.filters|
    ensures var s := Resolve(style, dflt);
            var r := SelectSql(b, style, dflt, offset);
            r.Ok? ==>
              && r.value.1 == Bound(b.filters, s, offset) + JoinsArgs(b.joins, s, dflt, j)
              && r.value.0 == "SELECT\n  " + JoinStr(",\n  ", FetchColumns(b.fields).value) + "\nFROM\n  "
                              + QualifiedName(b.schema, b.table) + "\n"
                              + JoinsText(b.joins, s, dflt, j) + Clause(b.filters, s, offset, "WHERE")
  {
    var s := Resolve(style, dflt);
    var r := SelectSql(b, style, dflt, offset);
    if r.Ok? {
      WhereDistinct(b.filters, s, offset);
      var where := ExpressionsToSql(b.filters, s, offset, "WHERE");
      assert |where.1| == |b.filters|;
      assert GetOffset(where.1, offset) == j;
      SelectSqlArgs(b, style, dflt, offset);
      SelectText(b, style, dflt, offset);
    }
  }

  // --------------------------------------------------------------- UPDATE

  /** The SET and WHERE parts of an UPDATE with distinct Fields in each: WHERE is numbered
      from `q = offset + n` and the joins from `m = offset + 2n + w`. */
  lemma UpdateParts(b: Base, s: Style, offset: int, q: int, m: int)
    requires AllNamed(b)
    requires q == offset + |b.fields| && m == q + |b.fields| + |b.filters|
    requires Distinct(Keys(IterSql(SetExpressions(b.fields).value, s, offset)))
    requires Distinct(Keys(IterSql(b.filters, s, q)))
    ensures BuildUpdate(b, s, offset).Ok?
    ensures GetOffset(BuildUpdate(b, s, offset).value.1, offset) == q
    ensures ExpressionsToSql(b.filters, s, q, "WHERE") == (Clause(b.filters, s, q, "WHERE"), Bound(b.filters, s, q))
    ensures GetOffset(BuildUpdate(b, s, offset).value.1 + Bound(b.filters, s, q), q) == m
  {
    SetDistinct(b, s, offset);
    WhereDistinct(b.filters, s, q);
  }

  /** `Update.to_sql` with named Fields, distinct SET Fields and distinct WHERE Fields, n SET
      items and w filters: every SET item is bound, the k-th at `offset + k`, then every
      filter, the k-th at `q + k` for `q = offset + n`, then the joins' Fields, numbered from
      `m = offset + 2n + w`; the text is the SET clause, the joins' lines, the WHERE clause
      and RETURNING. */
  lemma UpdateSpec(b: Base, returning: Option<Field>, style: Option<Style>, dflt: Style, offset: int, q: int, m: int)
    requires AllNamed(b)
    requires q == offset + |b.fields| && m == q + |b.fields| + |b.filters|
    requires Distinct(Keys(IterSql(SetExpressions(b.fields).value, Resolve(style, dflt), offset)))
    requires Distinct(Keys(IterSql(b.filters, Resolve(style, dflt), q)))
    ensures var s := Resolve(style, dflt);
            var r := UpdateSql(b, returning, style, dflt, offset);
            r.Ok? ==>
              && r.value.1 == Bound(SetExpressions(b.fields).value, s, offset) + Bound(b.filters, s, q) + JoinsArgs(b.joins, s, dflt, m)
              && r.value.0 == "UPDATE\n  " + QualifiedName(b.schema, b.table) + "\nSET\n  "
                              + JoinStr(",\n  ", Values(IterSql(SetExpressions(b.fields).value, s, offset))) + "\n"
                              + JoinsText(b.joins, s, dflt, m) + "\n"
                              + Clause(b.filters, s, q, "WHERE") + "\n" + Returning(returning)
  {
    var s := Resolve(style, dflt);
    var r := UpdateSql(b, returning, style, dflt, offset);
    if r.Ok? {
      SetDistinct(b, s, offset);
      UpdateParts(b, s, offset, q, m);
      UpdateArgs(b, returning, style, dflt, offset);
      UpdateText(b, returning, style, dflt, offset);
    }
  }

  // --------------------------------------------------------------- DELETE

  /** `Delete.to_sql` with distinct WHERE Fields (always in the default style): every filter
      is bound, the k-th at `offset + k`, then the joins' Fields, numbered from
      `j = offset + w`; the text is the DELETE clause, the joins' lines, the WHERE clause and
      RETURNING. */
  lemma DeleteSpec(b: Base, returning: Option<Field>, style: Option<Style>, dflt: Style, offset: int, j: int)
    requires Distinct(Keys(IterSql(b.filters, dflt, offset)))
    requires j == offset + |b.filters|
    ensures var r := DeleteSql(b, returning, style, dflt, offset);
            r.Ok? ==>
              && r.value.1 == Bound(b.filters, dflt, offset) + JoinsArgs(b.joins, dflt, dflt, j)
              && r.value.0 == "DELETE FROM " + QualifiedName(b.schema, b.table) + "\n"
                              + JoinsText(b.joins, dflt, dflt, j) + "\n"
                              + Clause(b.filters, dflt, offset, "WHERE") + "\n" + Returning(returning)
  {
    var r := DeleteSql(b, returning, style, dflt, offset);
    if r.Ok? {
      WhereDistinct(b.filters, dflt, offset);
      var where := ExpressionsToSql(b.filters, dflt, offset, "WHERE");
      assert |where.1| == |b.filters|;
      assert GetOffset(where.1, offset) == j;
      DeleteArgs(b, returning, style, dflt, offset);
      DeleteText(b, returning, style, dflt, offset);
    }
  }

  // ------------------------------------------------------------------ CTE

  /** A common table expression over the one-filter SELECT of `sc1.t1` numbered at n, with a
      one-filter SELECT of `sc2.t2` as its statement: the statement's filter is numbered
      `n + 1`, and both filters' Fields are bound, the body's first. */
  lemma CteOfSelects(t1: string, sc1: string, c1: string, a1: string,
                     t2: string, sc2: string, c2: string, a2: string,
                     alias: string, style: Style, dflt: Style, n: int)
    requires sc1 != "" && sc2 != ""
    ensures var body := Select(Base(t1, Some(sc1), [ColumnFilter(c1, a1)], [Field(Some(c1), Some(Str(a1)))], []));
            var stmt := Select(Base(t2, Some(sc2), [ColumnFilter(c2, a2)], [Field(Some(c2), Some(Str(a2)))], []));
            StatementSql(Cte(body, stmt, alias), Some(style), dflt, n)
              == Ok(("WITH " + alias + " AS (\n"
                     + ("SELECT\n  " + c1 + " AS " + a1 + "\nFROM\n  " + sc1 + "." + t1 + "\nWHERE\n  " + c1 + " = " + Placeholder(style, n, c1))
                     + "\n)\n"
                     + ("SELECT\n  " + c2 + " AS " + a2 + "\nFROM\n  " + sc2 + "." + t2 + "\nWHERE\n  " + c2 + " = " + Placeholder(style, n + 1, c2)),
                     [Field(Some(c1), Some(Str(a1))), Field(Some(c2), Some(Str(a2)))]))
  {
    var f1 := Field(Some(c1), Some(Str(a1)));
    var f2 := Field(Some(c2), Some(Str(a2)));
    OneFieldStatement(t1, sc1, c1, a1, style, dflt, n);
    assert GetOffset([f1], n) == n + 1;
    OneFieldStatement(t2, sc2, c2, a2, style, dflt, n + 1);
    assert Resolve(Some(style), dflt) == style;
    CteRenders(Select(Base(t1, Some(sc1), [ColumnFilter(c1, a1)], [f1], [])),
               Select(Base(t2, Some(sc2), [ColumnFilter(c2, a2)], [f2], [])), alias, Some(style), dflt, n);
    assert [f1] + [f2] == [f1, f2];
  }

  /** The one-filter SELECT of `sc.t` as a statement: its text and its one Field. */
  lemma OneFieldStatement(t: string, sc: string, c: string, a: string, style: Style, dflt: Style, n: int)
    requires sc != ""
    ensures StatementSql(Select(Base(t, Some(sc), [ColumnFilter(c, a)], [Field(Some(c), Some(Str(a)))], [])), Some(style), dflt, n)
            == Ok(("SELECT\n  " + c + " AS " + a + "\nFROM\n  " + sc + "." + t + "\nWHERE\n  " + c + " = " + Placeholder(style, n, c),
                   [Field(Some(c), Some(Str(a)))]))
  {
    SelectOneField(t, sc, c, a, style, dflt, n);
    SelectOneFieldArgs(t, sc, c, a, style, dflt, n);
  }
}
