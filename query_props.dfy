/** Where the legacy builder of que/query.py agrees with the one of que/structure.py, and
    where it does not. */
module QueryProps {
  import opened Common
  import opened Text
  import opened OrderedDict
  import opened Style
  import opened Util
  import opened Structure
  import opened StructureProps
  import opened StatementProps
  import opened Query

  // ------------------------------------------------------------ fetch_sql

  /** A Field both `fetch_sql`s render alike: anything but a name with a set, falsy value. */
  predicate SameFetch(f: Field)
  {
    !(f.left.Some? && f.right.Some? && !Truthy(f.right.value))
  }

  /** The legacy `fetch_sql` differs from structure.py's exactly for a name with a falsy value,
      which it renders as the bare name, without the alias. */
  lemma LegacyFetchSqlDiffers(f: Field)
    ensures LegacyFetchSql(f) == FetchSql(f) <==> SameFetch(f)
    ensures !SameFetch(f) ==> LegacyFetchSql(f) == Str(f.left.value)
  {
    if !SameFetch(f) {
      assert |FetchSql(f).s| == |f.left.value| + 4 + |Render(f.right.value)|;
    }
  }

  /** RETURNING reads the same in both builders when its Field renders alike. */
  lemma LegacyReturningAgrees(returning: Option<Field>)
    requires returning.Some? ==> SameFetch(returning.value)
    ensures LegacyReturning(returning) == Returning(returning)
  {
    if returning.Some? {
      LegacyFetchSqlDiffers(returning.value);
    }
  }

  /** The SELECT columns agree when every Field renders alike. */
  lemma LegacyFetchColumnsAgree(fs: seq<Field>)
    requires forall i :: 0 <= i < |fs| ==> SameFetch(fs[i])
    ensures LegacyFetchColumns(fs) == FetchColumns(fs)
  {
    forall i | 0 <= i < |fs| ensures LegacyFetchSql(fs[i]) == FetchSql(fs[i]) {
      LegacyFetchSqlDiffers(fs[i]);
    }
    if LegacyFetchColumns(fs).Ok? {
      assert LegacyFetchColumns(fs).value == FetchColumns(fs).value;
    }
  }

  // ------------------------------------------------------------ INSERT Fields

  /** `Unset` shows as `<unset>` in the legacy builder and `...` as `Ellipsis` in structure.py,
      so the two INSERT column Fields agree exactly when every field has a name. */
  lemma LegacyInsertFields(fs: seq<Field>)
    ensures LegacyColumnFields(fs) == ColumnFields(fs) <==> forall i :: 0 <= i < |fs| ==> fs[i].left.Some?
    ensures (forall i :: 0 <= i < |fs| ==> fs[i].left.Some?) ==> LegacyValueFields(fs) == ValueFields(fs)
    ensures forall i :: 0 <= i < |fs| && fs[i].left.None? ==>
              LegacyColumnFields(fs)[i].left == Some("col<unset>") && ColumnFields(fs)[i].left == Some("colEllipsis")
  {
    forall i | 0 <= i < |fs| && fs[i].left.None?
      ensures LegacyColumnFields(fs)[i].left == Some("col<unset>") && ColumnFields(fs)[i].left == Some("colEllipsis")
    {
      assert LegacyNameText(fs[i].left) == "<unset>" && NameText(fs[i].left) == "Ellipsis";
      assert "col" + "<unset>" == "col<unset>" && "col" + "Ellipsis" == "colEllipsis";
    }
    if exists i :: 0 <= i < |fs| && fs[i].left.None? {
      var i :| 0 <= i < |fs| && fs[i].left.None?;
      assert LegacyColumnFields(fs)[i].left.value[3] == '<';
      assert ColumnFields(fs)[i].left.value[3] == 'E';
      assert LegacyColumnFields(fs)[i] != ColumnFields(fs)[i];
    } else {
      assert LegacyColumnFields(fs) == ColumnFields(fs);
      assert LegacyValueFields(fs) == ValueFields(fs);
    }
  }

  // ------------------------------------------------------------ Expressions

  /** With distinct rendered Fields, the legacy clause is structure.py's: the same text, and the
      same Fields in the same order. */
  lemma LegacyExpressionsAgree(es: seq<Expression>, style: Style, offset: int, lead: string)
    requires Distinct(LegacyExpressionsArgs(es, style, offset))
    ensures ExpressionsToSql(es, style, offset, lead)
         == (LegacyExpressionsText(es, style, offset, lead), LegacyExpressionsArgs(es, style, offset))
  {
    FromPairsIdentity(IterSql(es, style, offset));
  }

  /** The legacy clause is empty text exactly when there are no members. */
  lemma LegacyExpressionsEmpty(es: seq<Expression>, style: Style, offset: int, lead: string)
    ensures LegacyExpressionsText(es, style, offset, lead) == "" <==> |es| == 0
  {
    var frags := Values(IterSql(es, style, offset));
    forall k | 0 <= k < |frags| ensures frags[k] != "" {
      FragmentNonEmpty(es[k], style, offset + k);
    }
    JoinEmptyIff("AND\n  ", frags);
  }

  /** Two equal members: the legacy accumulator holds their Field twice and the clause shows
      both fragments, where structure.py's dict keeps the Field once. */
  lemma LegacyKeepsDuplicates(e: Expression, style: Style, offset: int, lead: string)
    ensures LegacyExpressionsArgs([e, e], style, offset) == [ExpressionToSql(e, style, offset).0, ExpressionToSql(e, style, offset).0]
    ensures ExpressionsToSql([e, e], style, offset, lead).1 == [ExpressionToSql(e, style, offset).0]
    ensures LegacyExpressionsText([e, e], style, offset, lead)
         == lead + "\n  " + (ExpressionToSql(e, style, offset).1 + "AND\n  " + ExpressionToSql(e, style, offset + 1).1)
  {
    var r1 := ExpressionToSql(e, style, offset);
    var r2 := ExpressionToSql(e, style, offset + 1);
    assert r1.0 == r2.0;
    IterSqlTwice(e, style, offset);
    assert Values([r1, r2]) == [r1.1, r2.1];
    assert JoinStr("AND\n  ", [r1.1, r2.1]) == r1.1 + "AND\n  " + JoinStr("AND\n  ", [r2.1]);
    FragmentNonEmpty(e, style, offset);
    DuplicateFilterCollapses(e, style, offset, lead);
  }

  // ------------------------------------------------------------ statements

  /** A legacy SELECT without joins, over Fields both render alike and with distinct WHERE
      Fields, is structure.py's SELECT in the same style. */
  lemma LegacySelectAgrees(t: Table, style: Style, offset: int)
    requires t.joins == []
    requires forall i :: 0 <= i < |t.fields| ==> SameFetch(t.fields[i])
    requires Distinct(LegacyExpressionsArgs(t.filters, style, offset))
    ensures LegacySelect(t, style, offset) == SelectSql(AsBase(t), Some(style), style, offset)
  {
    LegacyFetchColumnsAgree(t.fields);
    LegacyExpressionsAgree(t.filters, style, offset, "WHERE");
    assert JoinStr("\n", t.joins) == "";
    assert JoinsSql([], style, style, GetOffset(LegacyExpressionsArgs(t.filters, style, offset), offset)) == Ok(("", []));
    if LegacySelect(t, style, offset).Ok? {
      var w := LegacyExpressionsArgs(t.filters, style, offset);
      assert w + [] == w;
    }
  }

  /** A legacy UPDATE raises SQLSyntaxError exactly when a field has no name. Otherwise it binds
      every SET item's Field, numbered from `offset`, and then every filter's, numbered on from
      `offset + |fields|`, equal Fields included. */
  lemma LegacyUpdateSpec(t: Table, returning: Option<Field>, style: Style, offset: int)
    ensures LegacyUpdate(t, returning, style, offset).Err? <==> exists i :: 0 <= i < |t.fields| && t.fields[i].left.None?
    ensures LegacyUpdate(t, returning, style, offset).Err? ==> LegacyUpdate(t, returning, style, offset).error == SQLSyntaxError
    ensures LegacyUpdate(t, returning, style, offset).Ok? ==>
      var args := LegacyUpdate(t, returning, style, offset).value.1;
      && |args| == |t.fields| + |t.filters|
      && (forall k :: 0 <= k < |t.fields| ==>
            args[k] == ExpressionToSql(SetExpressions(t.fields).value[k], style, offset + k).0)
      && (forall k :: 0 <= k < |t.filters| ==>
            args[|t.fields| + k] == ExpressionToSql(t.filters[k], style, offset + |t.fields| + k).0)
  {
    if SetExpressions(t.fields).Ok? {
      var items := SetExpressions(t.fields).value;
      var setArgs := Keys(IterSql(items, style, offset));
      var n := GetOffset(setArgs, offset);
      assert n == offset + |t.fields|;
      var w := LegacyExpressionsArgs(t.filters, style, n);
      var args := setArgs + w;
      assert LegacyUpdate(t, returning, style, offset).value.1 == args;
      forall k | 0 <= k < |t.filters|
        ensures args[|t.fields| + k] == ExpressionToSql(t.filters[k], style, offset + |t.fields| + k).0
      {
        assert args[|t.fields| + k] == w[k];
        assert n + k == offset + |t.fields| + k;
      }
    }
  }

  /** A legacy UPDATE without joins, with named fields, distinct SET Fields, distinct WHERE
      Fields and a RETURNING Field both render alike, is structure.py's UPDATE in the same
      style (whose join offset then plays no part). */
  lemma LegacyUpdateAgrees(t: Table, returning: Option<Field>, style: Style, offset: int)
    requires t.joins == []
    requires forall i :: 0 <= i < |t.fields| ==> t.fields[i].left.Some?
    requires Distinct(Keys(IterSql(SetExpressions(t.fields).value, style, offset)))
    requires Distinct(LegacyExpressionsArgs(t.filters, style, GetOffset(t.fields, offset)))
    requires returning.Some? ==> SameFetch(returning.value)
    ensures LegacyUpdate(t, returning, style, offset).Ok? && UpdateSql(AsBase(t), returning, Some(style), style, offset).Ok?
    ensures LegacyUpdate(t, returning, style, offset).value.0 == UpdateSql(AsBase(t), returning, Some(style), style, offset).value.0
    ensures LegacyUpdate(t, returning, style, offset).value.1 == UpdateSql(AsBase(t), returning, Some(style), style, offset).value.1
  {
    var b := AsBase(t);
    assert AllNamed(b);
    UpdateFails(b, returning, Some(style), style, offset);
    UpdateArgs(b, returning, Some(style), style, offset);
    UpdateText(b, returning, Some(style), style, offset);
    LegacyBuildUpdateAgrees(t, style, offset);
    var u := LegacyBuildUpdate(t, style, offset).value;
    var n := GetOffset(u.1, offset);
    assert n == GetOffset(t.fields, offset);
    LegacyExpressionsAgree(t.filters, style, n, "WHERE");
    LegacyReturningAgrees(returning);
    var args := u.1 + LegacyExpressionsArgs(t.filters, style, n);
    assert JoinsArgs([], style, style, GetOffset(args, n)) == [];
    assert JoinsText([], style, style, GetOffset(args, n)) == "";
    assert JoinStr("\n,  ", t.joins) == "";
    assert args + [] == args;
  }

  /** With named fields and distinct SET Fields, the legacy SET clause is structure.py's. */
  lemma LegacyBuildUpdateAgrees(t: Table, style: Style, offset: int)
    requires forall i :: 0 <= i < |t.fields| ==> t.fields[i].left.Some?
    requires Distinct(Keys(IterSql(SetExpressions(t.fields).value, style, offset)))
    ensures LegacyBuildUpdate(t, style, offset) == BuildUpdate(AsBase(t), style, offset)
    ensures LegacyBuildUpdate(t, style, offset).Ok? && |LegacyBuildUpdate(t, style, offset).value.1| == |t.fields|
  {
    FromPairsIdentity(IterSql(SetExpressions(t.fields).value, style, offset));
  }

  /** Without injection, the legacy INSERT over named fields, with a RETURNING Field both render
      alike, is structure.py's. */
  lemma LegacyInsertPlaceholdersAgree(t: Table, returning: Option<Field>, style: Style, offset: int)
    requires forall i :: 0 <= i < |t.fields| ==> t.fields[i].left.Some?
    requires returning.Some? ==> SameFetch(returning.value)
    ensures LegacyInsert(t, returning, style, offset, false) == InsertSql(AsBase(t), returning, Some(style), style, offset, false)
  {
    LegacyInsertFields(t.fields);
    LegacyReturningAgrees(returning);
  }

  /** With injection, the legacy INSERT is structure.py's started `|fields|` later: VALUES is
      numbered after the column Fields although those are not bound. */
  lemma LegacyInsertInjectGap(t: Table, returning: Option<Field>, style: Style, offset: int)
    requires forall i :: 0 <= i < |t.fields| ==> t.fields[i].left.Some?
    requires returning.Some? ==> SameFetch(returning.value)
    ensures LegacyInsert(t, returning, style, offset, true)
         == InsertSql(AsBase(t), returning, Some(style), style, GetOffset(t.fields, offset), true)
  {
    LegacyInsertFields(t.fields);
    LegacyReturningAgrees(returning);
    assert GetOffset(LegacyColumnFields(t.fields), offset) == GetOffset(t.fields, offset);
  }

  /** The gap on the one-field fixture in the numbered style: one argument is bound, but its
      placeholder is numbered `n + 1`, where structure.py's is numbered `n`. */
  lemma LegacyInsertOneFieldInjected(tb: string, sc: string, c: string, a: string, n: int)
    requires sc != ""
    ensures var r := LegacyInsert(Table(tb, Some(sc), [], [Field(Some(c), Some(Str(a)))], []), None, NUM, n, true);
            && r.Ok?
            && r.value.1 == [Field(Some("val" + c), Some(Str(a)))]
            && r.value.0 == "INSERT INTO\n  " + (sc + "." + tb) + " (" + c + ")\nVALUES\n  (" + Placeholder(NUM, n + 1, "val" + c) + ")\n"
    ensures Placeholder(NUM, n + 1, "val" + c) != Placeholder(NUM, n, "val" + c)
  {
    var f := Field(Some(c), Some(Str(a)));
    var t := Table(tb, Some(sc), [], [f], []);
    LegacyInsertInjectGap(t, None, NUM, n);
    assert GetOffset(t.fields, n) == n + 1;
    InsertOneFieldInjected(tb, sc, c, a, NUM, NUM, n + 1);
    InsertOneFieldInjectedArgs(tb, sc, c, a, NUM, NUM, n + 1);
    NumberedPlaceholderInjective(NUM, n + 1, n, "val" + c);
  }

  /** The legacy DELETE renders WHERE in the style it is given; structure.py's renders it in the
      default style, whatever style it is given. With distinct WHERE Fields, the legacy DELETE
      in style `s` binds what structure.py's binds when `s` is the default. */
  lemma LegacyDeleteArgs(t: Table, returning: Option<Field>, style: Style, given: Option<Style>, offset: int)
    requires Distinct(LegacyExpressionsArgs(t.filters, style, offset))
    ensures DeleteSql(AsBase(t), returning, given, style, offset).Ok?
    ensures DeleteSql(AsBase(t), returning, given, style, offset).value.1 == LegacyDelete(t, returning, style, offset).1
  {
    LegacyExpressionsAgree(t.filters, style, offset, "WHERE");
    var w := LegacyExpressionsArgs(t.filters, style, offset);
    assert JoinsSql([], style, style, GetOffset(w, offset)) == Ok(("", []));
    assert w + [] == w;
  }

  // ------------------------------------------------------------ data_to_fields

  /** The legacy data_to_fields gives `None` where structure.py's gives no Fields, rejects a
      collection holding a pair that is not a tuple (which structure.py's accepts), and
      otherwise gives what structure.py's gives. */
  lemma LegacyDataToFieldsAgrees(data: FieldData, exclude: Option<Exclude>)
    ensures !DataTruthy(data) ==> LegacyDataToFields(data, exclude) == Ok(None) && DataToFields(data, exclude) == Ok([])
    ensures DataTruthy(data) && data.CollectionData? && !AllTuples(data.items) ==>
              LegacyDataToFields(data, exclude) == Err(SQLValueError)
    ensures DataTruthy(data) && !(data.CollectionData? && !AllTuples(data.items)) ==>
              (LegacyDataToFields(data, exclude).Ok? <==> DataToFields(data, exclude).Ok?)
    ensures DataTruthy(data) && !(data.CollectionData? && !AllTuples(data.items)) && DataToFields(data, exclude).Ok? ==>
              LegacyDataToFields(data, exclude).value == Some(DataToFields(data, exclude).value)
    ensures DataTruthy(data) && !(data.CollectionData? && !AllTuples(data.items)) && DataToFields(data, exclude).Err? ==>
              LegacyDataToFields(data, exclude).error == DataToFields(data, exclude).error
  {
  }

  /** A list of one two-element list: structure.py's data_to_fields takes it as a pair, the
      legacy one raises SQLValueError. */
  lemma LegacyRejectsListPair(k: string, v: Value)
    ensures DataToFields(CollectionData([OtherPair(k, v)]), None) == Ok([Field(Some(k), Some(v))])
    ensures LegacyDataToFields(CollectionData([OtherPair(k, v)]), None) == Err(SQLValueError)
  {
    var items := [OtherPair(k, v)];
    assert PairsOf(items).Some? && PairsOf(items).value == [(k, v)];
    assert !AllTuples(items);
    assert FromPairs([(k, v)]) == [(k, v)] by {
      FromPairsIdentity([(k, v)]);
    }
    assert ToFields([(k, v)]) == [Field(Some(k), Some(v))];
  }

  /** The legacy default `exclude=Unset` filters nothing: it is the same as no exclusion. */
  lemma LegacyDefaultExclude(data: FieldData)
    ensures LegacyDataToFields(data, Some(ExcludeType(UnsetType))) == LegacyDataToFields(data, None)
  {
    match data
    case DataclassData(es) => UnsetExclusionIsPlainDict(es);
    case NamedTupleData(es) => UnsetExclusionIsPlainDict(es);
    case MappingData(es) => UnsetExclusionIsPlainDict(es);
    case CollectionData(items) =>
      if AllTuples(items) {
        UnsetExclusionIsPlainDict(PairsOf(items).value);
      }
    case ScalarData(_) =>
  }
}
