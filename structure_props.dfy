/** Properties of the statement builder of que/structure.py. */
module StructureProps {
  import opened Common
  import opened Text
  import opened OrderedDict
  import opened Style
  import opened Util
  import opened Structure

  // ----------------------------------------------------------- Expressions

  /** The fragment each bound Field ends up with: the last one rendered for it. */
  function LastFragments(pairs: seq<(Field, string)>, ks: seq<Field>): (r: seq<string>)
    ensures |r| == |ks|
  {
    seq(|ks|, i requires 0 <= i < |ks| => if ks[i] in Keys(pairs) then LastValue(pairs, ks[i]) else "")
  }

  /** A rendered condition is never empty text. */
  lemma FragmentNonEmpty(e: Expression, style: Style, offset: int)
    ensures |ExpressionToSql(e, style, offset).1| > 0
  {
    var r := ExpressionToSql(e, style, offset);
    ExpressionToSqlFamilies(e, style, offset);
    var left := e.field.left.value;
    var op := OpText(e.opcode);
    match FamilyOf(style)
    case Named => assert r.1 == left + " " + op + " " + (Before(style) + e.prefix + left + After(style));
    case Numbered => assert r.1 == left + " " + op + " " + (Before(style) + IntToString(offset) + After(style));
    case Positional => assert r.1 == left + " " + op + " " + Template(style);
  }

  /** `Expressions.to_sql` binds the distinct Fields rendered, in the order they first appear;
      every member's Field is among them and nothing else is. */
  lemma ExpressionsArgs(es: seq<Expression>, style: Style, offset: int, lead: string)
    ensures ExpressionsToSql(es, style, offset, lead).1 == Dedup(Keys(IterSql(es, style, offset)))
    ensures Distinct(ExpressionsToSql(es, style, offset, lead).1)
    ensures |ExpressionsToSql(es, style, offset, lead).1| == 0 <==> |es| == 0
    ensures forall f :: f in ExpressionsToSql(es, style, offset, lead).1 <==>
              exists k :: 0 <= k < |es| && ExpressionToSql(es[k], style, offset + k).0 == f
  {
    var pairs := IterSql(es, style, offset);
    var r := ExpressionsToSql(es, style, offset, lead);
    FromPairsKeys(pairs);
    FromPairsDistinct(pairs);
    assert forall f :: f in r.1 <==> f in Keys(pairs);
    forall f ensures f in Keys(pairs) <==> exists k :: 0 <= k < |es| && ExpressionToSql(es[k], style, offset + k).0 == f {
      RenderedField(es, style, offset, f);
    }
    if |es| > 0 {
      assert Keys(pairs)[0] in r.1;
    }
  }

  /** A Field is among those rendered exactly when some member renders it. */
  lemma RenderedField(es: seq<Expression>, style: Style, offset: int, f: Field)
    ensures f in Keys(IterSql(es, style, offset)) <==> exists k :: 0 <= k < |es| && ExpressionToSql(es[k], style, offset + k).0 == f
  {
    var ks := Keys(IterSql(es, style, offset));
    if f in ks {
      var k :| 0 <= k < |ks| && ks[k] == f;
      assert ExpressionToSql(es[k], style, offset + k).0 == f;
    }
    if exists k :: 0 <= k < |es| && ExpressionToSql(es[k], style, offset + k).0 == f {
      var k :| 0 <= k < |es| && ExpressionToSql(es[k], style, offset + k).0 == f;
      assert ks[k] == f;
    }
  }

  /** The clause text: empty for no members, and otherwise the lead followed by one fragment per
      bound Field, the one rendered last for it. */
  lemma ExpressionsText(es: seq<Expression>, style: Style, offset: int, lead: string)
    ensures var pairs := IterSql(es, style, offset);
            var r := ExpressionsToSql(es, style, offset, lead);
            && (r.0 == "" <==> |es| == 0)
            && (|es| > 0 ==> r.0 == lead + "\n  " + JoinStr("AND\n  ", LastFragments(pairs, Dedup(Keys(pairs)))))
  {
    var pairs := IterSql(es, style, offset);
    forall i | 0 <= i < |pairs| ensures pairs[i].1 != "" {
      FragmentNonEmpty(es[i], style, offset + i);
    }
    CollectedText(pairs, "AND\n  ");
  }

  /** Joining the values of a dict built from pairs with non-empty texts. */
  lemma CollectedText(pairs: seq<(Field, string)>, sep: string)
    requires forall i :: 0 <= i < |pairs| ==> pairs[i].1 != ""
    ensures Values(FromPairs(pairs)) == LastFragments(pairs, Dedup(Keys(pairs)))
    ensures JoinStr(sep, Values(FromPairs(pairs))) == "" <==> |pairs| == 0
  {
    var d := FromPairs(pairs);
    FromPairsKeys(pairs);
    FromPairsValues(pairs);
    FromPairsSubset(pairs);
    assert Values(d) == LastFragments(pairs, Keys(d));
    forall i | 0 <= i < |Values(d)|
      ensures Values(d)[i] != ""
    {
      assert d[i] in pairs;
    }
    JoinEmptyIff(sep, Values(d));
    if |pairs| > 0 {
      assert pairs[0].0 in Keys(d);
    }
  }

  /** When the rendered Fields are distinct, every member is bound, in order, and the clause
      joins the members' fragments in order. */
  lemma ExpressionsDistinct(es: seq<Expression>, style: Style, offset: int, lead: string)
    requires Distinct(Keys(IterSql(es, style, offset)))
    ensures var r := ExpressionsToSql(es, style, offset, lead);
            && |r.1| == |es|
            && (forall k :: 0 <= k < |es| ==> r.1[k] == ExpressionToSql(es[k], style, offset + k).0)
            && (|es| > 0 ==> r.0 == lead + "\n  " + JoinStr("AND\n  ", Values(IterSql(es, style, offset))))
  {
    var pairs := IterSql(es, style, offset);
    FromPairsIdentity(pairs);
    ExpressionsText(es, style, offset, lead);
    assert Values(FromPairs(pairs)) == Values(pairs);
  }

  /** In a numbered or positional style the bound Field is the member's own Field, so distinct
      member Fields are all bound, in member order. */
  lemma ExpressionsNumbered(es: seq<Expression>, style: Style, offset: int, lead: string)
    requires FamilyOf(style) != Named
    requires forall i, j :: 0 <= i < j < |es| ==> es[i].field != es[j].field
    ensures ExpressionsToSql(es, style, offset, lead).1 == seq(|es|, k requires 0 <= k < |es| => es[k].field)
  {
    var pairs := IterSql(es, style, offset);
    assert Keys(pairs) == seq(|es|, k requires 0 <= k < |es| => es[k].field) by {
      forall k | 0 <= k < |es| ensures Keys(pairs)[k] == es[k].field {
        ExpressionToSqlFamilies(es[k], style, offset + k);
        assert pairs[k] == ExpressionToSql(es[k], style, offset + k);
      }
    }
    FromPairsIdentity(pairs);
  }

  /** Two equal members collapse into one argument: the Field a member binds does not depend on
      its number, so the dict keeps one entry, with the fragment numbered `offset + 1`, although
      the clause supplies only one argument. */
  lemma DuplicateFilterCollapses(e: Expression, style: Style, offset: int, lead: string)
    ensures ExpressionsToSql([e, e], style, offset, lead)
         == (lead + "\n  " + ExpressionToSql(e, style, offset + 1).1, [ExpressionToSql(e, style, offset).0])
  {
    var r1 := ExpressionToSql(e, style, offset);
    var r2 := ExpressionToSql(e, style, offset + 1);
    assert r1.0 == r2.0;
    IterSqlTwice(e, style, offset);
    assert IterSql([e, e], style, offset) == [r1, (r1.0, r2.1)];
    FromPairsRepeat(r1.0, r1.1, r2.1);
    OneItemDict((r1.0, r2.1), "AND\n  ");
  }

  /** A member given twice is rendered at `offset` and again at `offset + 1`. */
  lemma IterSqlTwice(e: Expression, style: Style, offset: int)
    ensures IterSql([e, e], style, offset) == [ExpressionToSql(e, style, offset), ExpressionToSql(e, style, offset + 1)]
  {
    var p := IterSql([e, e], style, offset);
    assert p[0] == ExpressionToSql([e, e][0], style, offset + 0);
    assert p[1] == ExpressionToSql([e, e][1], style, offset + 1);
  }

  /** A clause dict built from one rendered item holds that item, and its text is the fragment. */
  lemma OneItemDict(r: (Field, string), sep: string)
    ensures FromPairs([r]) == [r]
    ensures Keys([r]) == [r.0] && Values([r]) == [r.1]
    ensures JoinStr(sep, [r.1]) == r.1
  {
    FromPairsIdentity([r]);
  }

  // ------------------------------------------------------------ Arguments

  /** `Arguments.for_sql` in a named style: a mapping with one entry per name (Fields without a
      name are skipped), each with the value of the last Field of that name. */
  lemma ForSqlNamed(fs: seq<Field>, style: Style)
    requires FamilyOf(style) == Named
    ensures ForSql(fs, style).NameMapping?
    ensures Distinct(Keys(ForSql(fs, style).entries))
    ensures forall k :: k in Keys(ForSql(fs, style).entries) <==> k in Keys(NamedPairs(fs))
    ensures forall k :: k in Keys(NamedPairs(fs)) ==> Lookup(ForSql(fs, style).entries, k) == Some(LastValue(NamedPairs(fs), k))
    ensures forall k, v :: (k, v) in NamedPairs(fs) <==> Field(Some(k), v) in fs
  {
    FromPairsDistinct(NamedPairs(fs));
    forall k | k in Keys(NamedPairs(fs))
      ensures Lookup(ForSql(fs, style).entries, k) == Some(LastValue(NamedPairs(fs), k))
    {
      FromPairsLookup(NamedPairs(fs), k);
    }
  }

  /** When every Field has a distinct name, the mapping lists them all, in Field order. */
  lemma ForSqlNamedDistinct(fs: seq<Field>, style: Style)
    requires FamilyOf(style) == Named
    requires forall i :: 0 <= i < |fs| ==> fs[i].left.Some?
    requires forall i, j :: 0 <= i < j < |fs| ==> fs[i].left != fs[j].left
    ensures ForSql(fs, style) == NameMapping(seq(|fs|, i requires 0 <= i < |fs| => (fs[i].left.value, fs[i].right)))
  {
    NamedPairsAllNamed(fs);
    FromPairsIdentity(NamedPairs(fs));
  }

  lemma {:induction false} NamedPairsAllNamed(fs: seq<Field>)
    requires forall i :: 0 <= i < |fs| ==> fs[i].left.Some?
    ensures NamedPairs(fs) == seq(|fs|, i requires 0 <= i < |fs| => (fs[i].left.value, fs[i].right))
    decreases |fs|
  {
    if |fs| > 0 {
      NamedPairsAllNamed(fs[..|fs| - 1]);
    }
  }

  // -------------------------------------------------------- data_to_fields

  /** `data_to_fields`: a falsy input gives no Fields; a scalar or a collection with an element
      that is not a pair raises SQLValueError; otherwise every Field has a name and a value, the
      names are distinct and every value is one the exclusion keeps. */
  lemma DataToFieldsSpec(data: FieldData, exclude: Option<Exclude>)
    ensures !DataTruthy(data) ==> DataToFields(data, exclude) == Ok([])
    ensures DataToFields(data, exclude).Err? <==>
      DataTruthy(data) && (data.ScalarData? || (data.CollectionData? && exists i :: 0 <= i < |data.items| && data.items[i].NotPair?))
    ensures DataToFields(data, exclude).Err? ==> DataToFields(data, exclude).error == SQLValueError
    ensures DataToFields(data, exclude).Ok? ==>
      var fs := DataToFields(data, exclude).value;
      && (forall i :: 0 <= i < |fs| ==> fs[i].left.Some? && fs[i].right.Some?)
      && (forall i, j :: 0 <= i < j < |fs| ==> fs[i].left != fs[j].left)
      && (forall i :: 0 <= i < |fs| ==> Keeps(DictFilterFactory(exclude, false), fs[i].right.value))
  {
    var f := DictFilterFactory(exclude, false);
    if DataTruthy(data) {
      match data
      case DataclassData(es) => FilteredFields(f, es);
      case NamedTupleData(es) => FilteredFields(f, es);
      case MappingData(es) => FilteredFields(f, es);
      case CollectionData(items) =>
        if PairsOf(items).Some? {
          FilteredFields(f, PairsOf(items).value);
        }
      case ScalarData(_) =>
    }
  }

  lemma FilteredFields(f: Factory, es: seq<(string, Value)>)
    requires !(f.InstanceFilter? && f.ex.ExcludeValue?)
    ensures ApplyFactory(f, es).Ok?
    ensures var fs := ToFields(ApplyFactory(f, es).value);
      && (forall i :: 0 <= i < |fs| ==> fs[i].left.Some? && fs[i].right.Some?)
      && (forall i, j :: 0 <= i < j < |fs| ==> fs[i].left != fs[j].left)
      && (forall i :: 0 <= i < |fs| ==> Keeps(f, fs[i].right.value))
  {
    ApplyFactorySpec(f, es);
    var d := ApplyFactory(f, es).value;
    forall i, j | 0 <= i < j < |d| ensures d[i].0 != d[j].0 {
      assert Keys(d)[i] == d[i].0 && Keys(d)[j] == d[j].0;
    }
    forall i | 0 <= i < |d| ensures Keeps(f, d[i].1) {
      assert d[i] in d;
    }
  }

  /** The pairs of a list of entries, as a collection of 2-tuples. */
  function AsTuples(es: seq<(string, Value)>): (r: seq<Item>)
    ensures |r| == |es| && forall i :: 0 <= i < |es| ==> r[i] == TuplePair(es[i].0, es[i].1)
  {
    seq(|es|, i requires 0 <= i < |es| => TuplePair(es[i].0, es[i].1))
  }

  /** A mapping, the list of its items, a namedtuple and a dataclass with the same entries all
      convert to the same Fields. */
  lemma DataToFieldsShapes(es: seq<(string, Value)>, exclude: Option<Exclude>)
    ensures DataToFields(CollectionData(AsTuples(es)), exclude) == DataToFields(MappingData(es), exclude)
    ensures DataToFields(NamedTupleData(es), exclude) == DataToFields(MappingData(es), exclude)
    ensures DataToFields(DataclassData(es), exclude) == DataToFields(MappingData(es), exclude)
  {
    assert PairsOf(AsTuples(es)).value == es;
  }

  /** With distinct keys, the Fields follow the input order, minus the excluded entries. */
  lemma DataToFieldsOrdered(es: seq<(string, Value)>, exclude: Option<Exclude>)
    requires Distinct(Keys(es))
    ensures DataToFields(MappingData(es), exclude) == Ok(ToFields(Kept(DictFilterFactory(exclude, false), es)))
    ensures exclude.None? ==> DataToFields(MappingData(es), exclude) == Ok(ToFields(es))
  {
    var f := DictFilterFactory(exclude, false);
    ApplyFactoryDistinct(f, es);
    if exclude.None? {
      KeptAll(f, es);
    }
  }

  /** Converting a dict with `data_to_fields` and handing the Fields to `for_sql` in a named
      style gives the dict itself back. */
  lemma ForSqlDataToFieldsNamed(es: seq<(string, Value)>, style: Style)
    requires Distinct(Keys(es))
    requires FamilyOf(style) == Named
    ensures DataToFields(MappingData(es), None).Ok?
    ensures ForSql(DataToFields(MappingData(es), None).value, style)
         == NameMapping(seq(|es|, i requires 0 <= i < |es| => (es[i].0, Some(es[i].1))))
  {
    var fs := ToFields(es);
    assert DataToFields(MappingData(es), None) == Ok(fs) by {
      DataToFieldsOrdered(es, None);
    }
    var named := seq(|fs|, i requires 0 <= i < |fs| => (fs[i].left.value, fs[i].right));
    assert ForSql(fs, style) == NameMapping(named) by {
      forall i, j | 0 <= i < j < |fs| ensures fs[i].left != fs[j].left {
        assert Keys(es)[i] == es[i].0 && Keys(es)[j] == es[j].0;
      }
      ForSqlNamedDistinct(fs, style);
    }
    assert named == seq(|es|, i requires 0 <= i < |es| => (es[i].0, Some(es[i].1)));
  }

  /** In a numbered or positional style the same round trip gives the dict's values in order. */
  lemma ForSqlDataToFieldsValues(es: seq<(string, Value)>, style: Style)
    requires Distinct(Keys(es))
    requires FamilyOf(style) != Named
    ensures DataToFields(MappingData(es), None).Ok?
    ensures ForSql(DataToFields(MappingData(es), None).value, style)
         == ValueList(seq(|es|, i requires 0 <= i < |es| => Some(es[i].1)))
  {
    DataToFieldsOrdered(es, None);
    var fs := ToFields(es);
    assert Rights(fs) == seq(|es|, i requires 0 <= i < |es| => Some(es[i].1));
  }

  /** The conversion the repository's own tests expect of `data_to_fields` for a dict. */
  lemma DataToFieldsMappingExample()
    ensures DataToFields(MappingData([("foo", Str("bar"))]), None) == Ok([Field(Some("foo"), Some(Str("bar")))])
  {
    var es := [("foo", Str("bar"))];
    var fs := ToFields(es);
    assert fs == [Field(Some("foo"), Some(Str("bar")))];
    DataToFieldsOrdered(es, None);
    assert DataToFields(MappingData(es), None) == Ok(fs);
  }

  /** The conversion the repository's own tests expect of `data_to_fields` for a list of one
      tuple: the same Fields as for the dict. */
  lemma DataToFieldsTupleExample()
    ensures DataToFields(CollectionData([TuplePair("foo", Str("bar"))]), None) == Ok([Field(Some("foo"), Some(Str("bar")))])
  {
    var es := [("foo", Str("bar"))];
    DataToFieldsShapes(es, None);
    assert AsTuples(es) == [TuplePair("foo", Str("bar"))];
    DataToFieldsMappingExample();
  }

  /** A list holding something that is not a pair is refused; an empty list gives no Fields. */
  lemma DataToFieldsRejects()
    ensures DataToFields(CollectionData([NotPair]), None) == Err(SQLValueError)
    ensures DataToFields(CollectionData([]), None) == Ok([])
  {
    assert PairsOf([NotPair]).None?;
  }
}
