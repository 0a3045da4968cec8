# que: a verified model of the SQL statement builder

`que` builds SQL statements (SELECT, UPDATE, INSERT, DELETE, joins and common table
expressions) from small value objects. Each one renders to SQL text that holds DBAPI
placeholders, together with the list of Fields to bind. This project models:

- the builder of `que/structure.py`, which ships with the package, with the in-place updates
  it makes to its `Fields` and `Arguments` objects;
- the older builder of `que/query.py`, which threads one mutable `Arguments` accumulator through
  its calls;
- the exclusion filter of `que/util.py`;
- the parameter styles and the default-style cell of `que/style.py`.

It then proves what these promise: how placeholders are rendered in each style family, how the
placeholder number is threaded through WHERE, SET, JOIN and CTE fragments, which Fields a
statement binds and in which order, and where the two builders differ.

Modules, in dependency order:

- `Common` (common.dfy): `Option`, `Result` and the exceptions the builder raises.
- `Text` (text.dfy): `str.join`, the decimal text of integers, and its inverse.
- `OrderedDict` (ordered_dict.dfy): Python's insertion-ordered dict as an association list. A
  key stays where it was first inserted and takes the value inserted last.
- `Util` (util.dfy): values, their truthiness and `str()`, and `dict_filter_factory`.
- `Style` (style.dfy): the six styles, their three families and templates, placeholder
  rendering, and the `DefaultStyle` class holding the process-wide default.
- `Structure` (structure.dfy): the entities of structure.py, and every rendering as a function
  that returns the text and the bound Fields, or the error the source raises.
- `StructureObjects` (structure_objects.dfy): the classes `Fields` and `Arguments` and the
  statement methods that update them in place. `build_joins` is a loop over the joins. Each
  method is proved to compute what the matching `Structure` function computes.
- `StructureProps`, `StatementProps` (structure_props.dfy, statement_props.dfy): the
  properties of clauses, argument views, `data_to_fields` and the statements, with the
  repository's test fixtures stated for any table, schema, column and alias.
- `StatementSpec` (statement_spec.dfy): the statements in closed form: which joins make them
  fail, where each join is numbered, and, with distinct Fields, which Field each placeholder
  binds.
- `Query` (query.dfy): the legacy builder of query.py as functions.
- `QueryObjects` (query_objects.dfy): the legacy accumulator threading as methods over the
  `Arguments` class, proved against `Query`.
- `QueryProps` (query_props.dfy): where the legacy builder agrees with structure.py and where
  it does not.

Quirks of structure.py the model keeps, because the code has them:

- Equal Fields in one clause collapse into one argument. The clause's text has one fragment
  per distinct Field: the last one rendered.
- UPDATE numbers its joins from `offset + 2n + w`, where n counts the distinct SET Fields bound
  and w the distinct WHERE Fields bound. The SET Fields are counted twice.
- DELETE renders in the default style, whatever style it is given.
- A join renders its filters in the default style, numbered from the join's own offset.
- A join to a Select shows the Select's `str()` where the subquery would go. It binds the
  Select's arguments only when it has no schema.
- `to_sql` of an INSERT injects the column names by default.

The model follows the code where the repository's docstrings or its tests describe other
behaviour:

- A SELECT with no fields renders an empty column list, not `*` (`que/structure.py:419-425`).
- `data_to_fields` of empty data gives no Fields rather than an error (`que/structure.py:698`).
- A join to a Select does not show the rendered subquery (`que/structure.py:339-352`).
- Placeholder numbers are not always distinct or increasing across a statement: see the UPDATE
  double count and the join filters above.

## Model

| member | source | states |
|---|---|---|
| Text.JoinSnoc | que/structure.py:307 | joining one more part adds exactly one separator and the part |
| Text.JoinEmptyIff | que/structure.py:309 | with non-empty parts, the join is empty exactly when there are no parts, so WHERE is left out exactly for an empty clause |
| Text.ParseNatToString | que/structure.py:125 | the decimal text of a natural number reads back as that number |
| Text.ParseIntToString | que/structure.py:125 | `str(i)` of any int, negative ones included, reads back as `i` |
| Text.IntToStringInjective | que/structure.py:125 | two numbers have the same decimal text exactly when they are equal |
| Text.JoinStr | que/structure.py:307 | `sep.join(parts)`; its contract is stated by Text.JoinSnoc and Text.JoinEmptyIff |
| Text.IntToString | que/structure.py:125 | `str(i)`: never empty, and read back by Text.ParseIntToString |
| OrderedDict.Find | que/structure.py:280 | the first index of a key, or the length when the key is absent: found iff present, nothing equal before it |
| OrderedDict.PutKeys | que/structure.py:190 | `d[k] = v` keeps an existing key in place and appends a new key at the end |
| OrderedDict.PutLookup | que/structure.py:190 | after `d[k] = v`, `k` maps to `v` and every other key keeps its value |
| OrderedDict.FromPairsKeys | que/structure.py:280 | the keys of `dict(pairs)` are the distinct keys of the pairs, in first-occurrence order |
| OrderedDict.FromPairsDistinct | que/structure.py:280 | `dict(pairs)` has no repeated key and has exactly the keys of the pairs |
| OrderedDict.FromPairsLookup | que/structure.py:280 | a key of `dict(pairs)` maps to the value of its last pair; an absent key maps to nothing |
| OrderedDict.FromPairsValues | que/structure.py:280 | every entry of `dict(pairs)` carries the value of the last pair with its key |
| OrderedDict.FromPairsIdentity | que/structure.py:280 | pairs with distinct keys become a dict unchanged, order and all |
| OrderedDict.FromPairsSubset | que/structure.py:280 | every entry of `dict(pairs)` is one of the pairs |
| OrderedDict.FromPairsRepeat | que/structure.py:492 | inserting one key twice keeps one entry, holding the second value |
| OrderedDict.DedupDistinct | que/structure.py:280 | first-occurrence deduplication has no repeats and loses no key |
| Util.DictFilterFactory | que/util.py:27-43 | plain `dict` exactly when `exclude` is left out; the `isinstance` filter exactly when `exclude` is a type or `astype` is set; otherwise the `!=` filter on that value |
| Util.Kept | que/util.py:33-41 | the kept entries are exactly the input entries whose value the filter keeps, and there are no more of them than inputs |
| Util.KeptAll | que/util.py:27-29 | plain `dict` keeps every entry |
| Util.ApplyFactorySpec | que/util.py:27-43 | TypeError exactly when `isinstance` gets a non-type and there is an entry; otherwise a dict with distinct keys, the kept keys in first-occurrence order, each with its last kept value, and only kept input entries |
| Util.ApplyFactoryDistinct | que/util.py:33-43 | with distinct keys, the filter keeps the surviving entries in input order |
| Util.KeptDistinct | que/util.py:33-41 | filtering keeps keys distinct and adds no key |
| Util.UnsetExclusionIsPlainDict | que/util.py:7-24 | excluding the `Unset` class filters the same as plain `dict`, since nothing is an instance of it |
| Util.ApplyFactory | que/util.py:27-43 | building the dict through the factory; its contract is stated by Util.ApplyFactorySpec |
| Style.FillTemplate | que/style.py:15-23 | every numbered or named template has exactly one hole, between a fixed text before and after it |
| Style.Placeholder | que/structure.py:117-126 | the placeholder of `Expression.to_sql`; specified by Style.PlaceholderFormat and Style.NumberedPlaceholderInjective |
| Style.PlaceholderFormat | que/structure.py:118-125 | the placeholder equals `template.format(arg)`, with the name (named), the number (numbered), or no change (positional) |
| Style.NumberedPlaceholderInjective | que/style.py:15-16 | two placeholders of a numbered style are equal exactly when their numbers are |
| Style.SharedTemplate | que/style.py:15-22 | NUM and NAME share `:{}` but differ in family; no other two styles share a template |
| Style.DefaultStyle.constructor | que/style.py:26-48 | the default starts out as NUM |
| Style.DefaultStyle.Apply | que/style.py:51-54 | a given style becomes the default, none leaves it unchanged, and the current default is returned |
| Style.Resolve | que/structure.py:442 | `style or default_style()`: a given style wins, otherwise the default |
| Structure.NewField | que/structure.py:65-68 | SQLSyntaxError exactly when both sides are unset; otherwise the Field holds the given sides |
| Structure.NewExpression | que/structure.py:95-99 | SQLSyntaxError exactly when the Field has no name; otherwise the Expression holds its arguments |
| Structure.ExpressionToSqlFamilies | que/structure.py:117-126 | named: binds the Field renamed to prefix+name, placeholder from that name; numbered: binds the Field as is, placeholder from the offset; positional: the template verbatim; the fragment always shows the original name |
| Structure.NamedPairs | que/structure.py:187-190 | a (name, value) pair is listed exactly when a Field with that name and value is present |
| Structure.ForSql | que/structure.py:238-251 | a mapping exactly in a named style; otherwise the values of all Fields, in Field order |
| Structure.FetchColumns | que/structure.py:424 | renders exactly when every column's `fetch_sql` is a str, giving those texts in order; otherwise TypeError |
| Structure.SetExpressions | que/structure.py:474-475 | every field becomes `Expression(field, prefix="col")` in order; SQLSyntaxError exactly when some field has no name |
| Structure.IterFields | que/structure.py:535-546 | the k-th placeholder of an INSERT list is numbered `offset + k` and named after the k-th Field |
| Structure.InjectedNames | que/structure.py:553-554 | splicing works exactly when every value is a str, giving those strs in order; otherwise TypeError |
| Structure.PairsOf | que/structure.py:685-688 | a collection is taken as pairs exactly when every element has length two, keeping their keys and values in order |
| Structure.FetchSql | que/structure.py:70-78 | `fetch_sql`: the name, the name `AS` the value, or the bare value; its use for columns is specified by Structure.FetchColumns and StatementProps.SelectNonStrColumn |
| Structure.ExpressionToSql | que/structure.py:117-126 | `Expression.to_sql`; specified per style family by Structure.ExpressionToSqlFamilies |
| Structure.ExpressionsToSql | que/structure.py:271-309 | the WHERE builder; specified by StructureProps.ExpressionsArgs, StructureProps.ExpressionsText and StatementSpec.WhereDistinct |
| Structure.BuildSelect | que/structure.py:419-425 | `build_select`; specified by StatementProps.OneColumnSelect and Structure.FetchColumns |
| Structure.JoinSql | que/structure.py:333-354 | `Join.to_sql`; specified by StatementProps.JoinSqlSource |
| Structure.JoinsSql | que/structure.py:391-399 | `build_joins`; specified by StatementSpec.JoinsFailExists, StatementSpec.JoinsArgsBlock and StatementSpec.JoinsTextBlock |
| Structure.SelectSql | que/structure.py:442-447 | `Select.to_sql`; specified by StatementProps.SelectSqlFails and StatementSpec.SelectSpec |
| Structure.BuildUpdate | que/structure.py:477-497 | `build_update`; specified by StatementProps.UpdateUnnamedField and StatementSpec.SetDistinct |
| Structure.UpdateSql | que/structure.py:514-522 | `Update.to_sql`; specified by StatementProps.UpdateFails, StatementProps.UpdateJoinOffset and StatementSpec.UpdateSpec |
| Structure.InsertSql | que/structure.py:585-605 | `Insert.to_sql`; specified by StatementProps.InsertInjected and StatementProps.InsertPlaceholders |
| Structure.DeleteSql | que/structure.py:655-660 | `Delete.to_sql`; specified by StatementProps.DeleteFails, StatementProps.DeleteIgnoresStyle and StatementSpec.DeleteSpec |
| Structure.StatementSql | que/structure.py:367-374 | `to_sql` of any statement, as the CTE calls it on its parts; specified by StatementProps.WritesEndWithReturning and StatementProps.OmittedStyleIsDefault |
| Structure.CteSql | que/structure.py:367-374 | `CommonTableExpression.to_sql`; specified by StatementProps.CteThreading and StatementSpec.CteOfSelects |
| Structure.DataToFields | que/structure.py:669-698 | `data_to_fields`; specified by StructureProps.DataToFieldsSpec and StructureProps.DataToFieldsOrdered |
| StructureProps.FragmentNonEmpty | que/structure.py:126 | a rendered condition is never empty |
| StructureProps.ExpressionsArgs | que/structure.py:277-309 | the clause binds the distinct rendered Fields in first-occurrence order, none for no members, and exactly the Fields some member renders |
| StructureProps.RenderedField | que/structure.py:271-280 | a Field is rendered exactly when some member, numbered `offset + k`, renders it |
| StructureProps.ExpressionsText | que/structure.py:306-309 | empty text exactly for no members; otherwise the lead and, AND-joined, the last fragment rendered for each bound Field |
| StructureProps.CollectedText | que/structure.py:306-307 | the values of the clause dict are the last fragments of its distinct keys, and their join is empty only for no pairs |
| StructureProps.ExpressionsDistinct | que/structure.py:271-309 | with distinct rendered Fields, every member is bound in order and the text joins every fragment in order |
| StructureProps.ExpressionsNumbered | que/structure.py:119-126 | in a numbered or positional style, distinct member Fields are all bound in member order |
| StructureProps.DuplicateFilterCollapses | que/structure.py:277-309 | two equal members bind one argument, and the text shows only the fragment numbered `offset + 1` |
| StructureProps.IterSqlTwice | que/structure.py:274-275 | a member given twice is rendered at `offset` and again at `offset + 1` |
| StructureProps.OneItemDict | que/structure.py:277-309 | a one-item clause dict holds that item, and its text is the fragment |
| StructureProps.ForSqlNamed | que/structure.py:187-251 | named styles give a mapping with one entry per name, unnamed Fields skipped, each holding the last value of its name |
| StructureProps.ForSqlNamedDistinct | que/structure.py:187-251 | with distinct names, the mapping lists every Field in Field order |
| StructureProps.NamedPairsAllNamed | que/structure.py:190 | when every Field has a name, the named pairs are all Fields in order |
| StructureProps.DataToFieldsSpec | que/structure.py:669-698 | falsy data gives no Fields; SQLValueError exactly for a scalar or a collection with a non-pair; otherwise named, valued Fields with distinct names, all kept by the exclusion |
| StructureProps.FilteredFields | que/structure.py:680-696 | a filter that cannot raise gives Fields with distinct names, each one kept by the filter |
| StructureProps.DataToFieldsShapes | que/structure.py:681-689 | a mapping, the list of its item tuples, a namedtuple and a dataclass with the same entries give the same Fields |
| StructureProps.DataToFieldsOrdered | que/structure.py:680-696 | with distinct keys, the Fields follow the input order minus the excluded entries, and all of them without exclusion |
| StructureProps.ForSqlDataToFieldsNamed | que/structure.py:669-698 | converting a dict and passing it to `for_sql` in a named style gives the dict back |
| StructureProps.ForSqlDataToFieldsValues | que/structure.py:669-698 | the same round trip in any other style gives the dict's values in order |
| StructureProps.DataToFieldsMappingExample | tests/test_query.py:183-184 | `{'foo': 'bar'}` converts to `[Field('foo', 'bar')]` |
| StructureProps.DataToFieldsTupleExample | tests/test_query.py:187-188 | `[('foo', 'bar')]` converts to the same Fields |
| StructureProps.DataToFieldsRejects | que/structure.py:679-698 | a list holding a non-pair raises SQLValueError; an empty list gives no Fields |
| StatementProps.SingleFilter | que/structure.py:306-309 | a one-member clause is the lead and the fragment, binding that member's Field |
| StatementProps.PlaceholderTexts | que/style.py:8-23 | the fixtures' placeholders: `:1`, `$1`, `:foo`, `%(foo)s`, `%s`, `?`, `:2` |
| StatementProps.ColumnClause | que/structure.py:117-126 | the filter `c = <placeholder>` on `Field(c, a)` renders as such and binds `Field(c, a)` |
| StatementProps.ColumnFragment | que/structure.py:117-126 | the same filter renders `c = <placeholder>` and binds its own Field in every style |
| StatementProps.SingleJoinText | que/structure.py:392-399 | one join renders its line and a line break |
| StatementProps.SingleJoinArgs | que/structure.py:392-399 | one join binds its own Fields |
| StatementProps.SingleJoin | que/structure.py:392-399 | one join fails when it fails, renders its line and a break, and binds its Fields |
| StatementProps.SelectSqlFails | que/structure.py:419-447 | a SELECT raises exactly when a column, its own or a joined Select's, is not a str, and then TypeError |
| StatementProps.JoinSqlSource | que/structure.py:333-354 | a table target binds only its filters' Fields and never fails; a Select target fails iff the Select does, else binds the Select's Fields then the filters', both from the join's offset |
| StatementProps.JoinIgnoresStyle | que/structure.py:345-349 | a join to a table binds the same Fields whatever style is passed down |
| StatementProps.SubqueryJoinText | que/structure.py:337-352 | a join to a Select shows its repr, and its filter is numbered from the join's offset in the default style |
| StatementProps.SubqueryJoinArgs | que/structure.py:341-350 | a join to a Select binds the Select's Fields, then its own filter's, both numbered from the join's offset |
| StatementProps.OneColumnSelect | que/structure.py:419-425 | one column `c AS a` of `sc.t` gives `SELECT c AS a FROM sc.t` |
| StatementProps.SelectOneField | tests/test_query.py:64-97 | the SELECT fixture renders `SELECT c AS a FROM sc.t WHERE c = <placeholder>` in every style, for any names |
| StatementProps.SelectOneFieldArgs | que/structure.py:444-447 | the same SELECT binds the filter's Field |
| StatementProps.SelectNonStrColumn | que/structure.py:70-78 | a value-only column whose value is not a str makes the SELECT raise TypeError |
| StatementProps.UpdateUnnamedField | que/structure.py:471-475 | an UPDATE raises SQLSyntaxError exactly when a field has no name |
| StatementProps.UpdateFails | que/structure.py:514-522 | with named fields, an UPDATE raises exactly when a join does, with TypeError |
| StatementProps.UpdateJoinOffset | que/structure.py:516-520 | the joins' offset is `offset + 2n + w`, n more than the Fields bound before them |
| StatementProps.SetItem | que/structure.py:471-475 | the SET item of `Field(c, a)` is `c = <placeholder of col<c>>`; in named styles it binds the renamed Field |
| StatementProps.OneSetClause | que/structure.py:477-497 | one named field gives `UPDATE sc.t SET c = <placeholder>`, binding the one SET Field |
| StatementProps.OneFieldClauses | que/structure.py:492-517 | the fixture's SET is numbered `n`, its WHERE `n + 1` |
| StatementProps.UpdateOneField | que/structure.py:514-522 | the UPDATE fixture renders SET from `n`, WHERE from `n + 1`, and a blank line where the joins would be |
| StatementProps.UpdateOneFieldArgs | que/structure.py:515-518 | the same UPDATE binds the SET Field (renamed in named styles), then the filter's |
| StatementProps.UpdateArgsNoJoins | que/structure.py:515-520 | with named fields and no joins, an UPDATE renders and binds the SET Fields then WHERE's |
| StatementProps.UpdateJoinGap | que/structure.py:516-520 | with one SET item, one filter and one join, it renders iff the join does, and the join is numbered from `n + 3` though only `n`, `n + 1` precede it |
| StatementProps.ParamListSpec | que/structure.py:557-559 | a placeholder list is empty exactly for no Fields; otherwise the comma-joined placeholders numbered from `offset`, in parentheses |
| StatementProps.InsertInjected | que/structure.py:548-605 | injecting: TypeError exactly when a field has no name; else columns `(a, b)` spliced in, VALUES from `offset`, only `val<name>` Fields bound |
| StatementProps.InsertPlaceholders | que/structure.py:585-605 | not injecting: never fails; columns numbered from `offset`, values from `offset + n`; binds `col<name>` Fields then `val<name>` Fields |
| StatementProps.InsertNamedArguments | que/structure.py:585-599 | in named styles, distinct column names give a mapping with every `col` and `val` entry, none overwritten |
| StatementProps.OneParam | que/structure.py:557-559 | a one-Field list is its placeholder in parentheses |
| StatementProps.OneFieldColumns | que/structure.py:585-586 | `Field(c, a)` gives column `Field(col<c>, c)` and value `Field(val<c>, a)` |
| StatementProps.InsertOneFieldInjected | que/structure.py:607-633 | the INSERT fixture with the default injection splices `c` in and numbers the value `n` |
| StatementProps.InsertOneFieldInjectedArgs | que/structure.py:595-605 | the same INSERT binds only `Field(val<c>, a)` |
| StatementProps.InsertOneFieldPlaceholders | tests/test_query.py:147-174 | without injection, as the tests expect: the column is numbered `n`, the value `n + 1` |
| StatementProps.InsertOneFieldPlaceholdersArgs | que/structure.py:597-605 | the same INSERT binds the `col<c>` Field, then the `val<c>` one |
| StatementProps.InsertNoFieldsInjected | que/structure.py:553-559 | no Fields with injection: `()` and an empty VALUES list |
| StatementProps.InsertNoFieldsPlaceholders | que/structure.py:557-559 | no Fields without injection: no column list at all |
| StatementProps.DeleteIgnoresStyle | que/structure.py:655 | DELETE renders the same whatever style it is given |
| StatementProps.DeleteFails | que/structure.py:655-660 | a DELETE raises exactly when a join does, and then TypeError |
| StatementProps.DeleteOneFilter | que/structure.py:655-660 | the DELETE fixture numbers its filter `n` in the default style, whatever style is asked for |
| StatementProps.DeleteOneFilterArgs | que/structure.py:656-660 | the same DELETE binds the filter's Field |
| StatementProps.WritesEndWithReturning | que/structure.py:450-464 | every write statement ends with its RETURNING clause, which is empty when none is given |
| StatementProps.ReturningId | tests/test_query.py:105-108 | `Field('id')` gives `RETURNING id` |
| StatementProps.CteThreading | que/structure.py:370-374 | a CTE renders only when both its body and its statement do |
| StatementProps.OmittedStyleIsDefault | que/structure.py:442 | leaving the style out is the same as passing the default |
| StatementSpec.JoinsFailExists | que/structure.py:391-399 | build_joins raises exactly when some join raises |
| StatementSpec.JoinsArgsPrefix | que/structure.py:393-397 | the Fields of the first i joins are a prefix of the Fields of all joins |
| StatementSpec.JoinsTextPrefix | que/structure.py:393-397 | the lines of the first i joins are a prefix of the lines of all joins |
| StatementSpec.JoinsArgsBlock | que/structure.py:393-397 | join i is numbered from `offset` plus the count of Fields the joins before it bind, and its Fields follow theirs; the last one closes the list |
| StatementSpec.JoinsTextBlock | que/structure.py:393-397 | join i's line, numbered likewise, and a line break follow the lines of the joins before it |
| StatementSpec.WhereDistinct | que/structure.py:271-309 | with distinct Fields, WHERE joins every fragment in order and binds every member, the k-th numbered `offset + k` |
| StatementSpec.SetDistinct | que/structure.py:477-497 | with named and distinct Fields, SET joins every item in order and binds every SET Field, the k-th numbered `offset + k` |
| StatementSpec.UpdateParts | que/structure.py:514-520 | with distinct SET and WHERE Fields, WHERE is numbered from `offset + n` and the joins from `offset + 2n + w` |
| StatementSpec.SelectSpec | que/structure.py:442-447 | with distinct WHERE Fields: filter k bound at `offset + k`, then the joins' Fields numbered from `offset + w`; text is the columns, the join lines and WHERE |
| StatementSpec.UpdateSpec | que/structure.py:514-522 | with named, distinct Fields: SET item k bound at `offset + k`, filter k at `offset + n + k`, the joins from `offset + 2n + w`; text is SET, join lines, WHERE and RETURNING |
| StatementSpec.DeleteSpec | que/structure.py:655-660 | with distinct WHERE Fields, in the default style: filter k bound at `offset + k`, the joins from `offset + w`; text is DELETE, join lines, WHERE and RETURNING |
| StatementSpec.OneFieldStatement | tests/test_query.py:64-97 | the SELECT fixture as a statement: its text and its one Field |
| StatementSpec.CteOfSelects | que/structure.py:367-374 | `WITH a AS (<SELECT fixture at n>)` and a second SELECT fixture: the second filter is numbered `n + 1`, and both Fields are bound, the body's first |
| StructureObjects.Fields.constructor | que/structure.py:135-143 | the new Fields object holds the given Fields |
| StructureObjects.Fields.Add | que/structure.py:150-153 | a new Fields object holds both sequences |
| StructureObjects.Fields.Iadd | que/structure.py:155-160 | extends this object in place; with itself as argument it doubles |
| StructureObjects.Arguments.constructor | que/structure.py:210-211 | a non-empty Fields object is shared; an empty or missing one is replaced by a new empty one |
| StructureObjects.Arguments.Empty | que/structure.py:210-211 | `Arguments()` holds a new, empty Fields object |
| StructureObjects.Arguments.Append | que/structure.py:219-220 | rebinds to a new Fields object with the Field added, leaving the shared one alone |
| StructureObjects.Arguments.Add | que/structure.py:222-225 | a new Arguments over a new Fields object holding both |
| StructureObjects.Arguments.Iadd | que/structure.py:227-231 | extends the held Fields object in place, visible to everyone sharing it |
| StructureObjects.Arguments.ForSqlArgs | que/structure.py:238-251 | `for_sql` hands over the style's view of the current Fields, in the given or default style |
| StructureObjects.ExpressionsToSqlObject | que/structure.py:282-309 | returns the clause and a new Arguments holding the clause's Fields |
| StructureObjects.JoinToSql | que/structure.py:333-354 | raises exactly when the join's Select does (TypeError); else the join's text and a new Arguments of its Fields |
| StructureObjects.SelectSqlFailsIff | que/structure.py:419-447 | a SELECT raises exactly when SelectFails, with TypeError, and otherwise binds SelectArgs |
| StructureObjects.BuildJoins | que/structure.py:391-399 | the loop renders the joins in turn, each at the offset the earlier ones leave, extending the caller's Arguments; on TypeError, the earlier joins' Fields stay added |
| StructureObjects.AddJoin | que/structure.py:394-397 | one join: its line, its Fields added in place, and their count returned; on failure nothing is added |
| StructureObjects.JoinsFailPrefix | que/structure.py:393-394 | once some joins fail, build_joins fails |
| StructureObjects.JoinsStepAt | que/structure.py:393-397 | the i-th join starts where the first i leave the count, and adds its line, its Fields and its count |
| StructureObjects.JoinsInvariant | que/structure.py:393-397 | the loop invariant of build_joins carried from i joins to i + 1 |
| StructureObjects.JoinsStep | que/structure.py:393-397 | one more join adds its failure, its Fields and its line, numbered after the earlier ones |
| StructureObjects.SelectToSql | que/structure.py:442-447 | WHERE's Arguments, extended in place by build_joins, and the text are those of SelectSql |
| StructureObjects.UpdateToSql | que/structure.py:514-522 | SET's Arguments extended by WHERE's, then by build_joins from the double-counted offset, give UpdateSql's text and Fields |
| StructureObjects.InsertToSql | que/structure.py:585-605 | the Arguments are the values alone when injecting, else the columns object extended in place by the values, as in InsertSql |
| StructureObjects.DeleteToSql | que/structure.py:655-660 | WHERE in the default style, extended by build_joins, gives DeleteSql's text and Fields |
| StructureObjects.StatementToSql | que/structure.py:367-660 | `to_sql` of any statement gives StatementSql's result; a CTE extends its body's Arguments with its statement's |
| Query.LegacyExpressionsArgs | que/query.py:322-351 | the accumulator gets one Field per member, member k numbered `offset + k`, equal ones included |
| Query.LegacyFetchColumns | que/query.py:438 | legacy columns render exactly when every legacy `fetch_sql` is a str, else TypeError |
| Query.LegacyColumnFields | que/query.py:604 | column Fields are named `col<left>`, with `<unset>` for a missing name, and hold the name as value |
| Query.LegacyValueFields | que/query.py:606 | value Fields are named `val<left>` and hold the field's value |
| Query.LegacyFetchSql | que/query.py:144-152 | legacy `fetch_sql`; specified against structure.py's by QueryProps.LegacyFetchSqlDiffers |
| Query.LegacyExpressionsText | que/query.py:329-351 | the legacy clause text; specified by QueryProps.LegacyExpressionsEmpty, QueryProps.LegacyKeepsDuplicates and QueryProps.LegacyExpressionsAgree |
| Query.LegacySelect | que/query.py:433-461 | legacy `Select.to_sql`; specified by QueryProps.LegacySelectAgrees and QueryObjects.SelectToSqlInto |
| Query.LegacyBuildUpdate | que/query.py:490-514 | legacy `build_update`; specified by QueryProps.LegacyBuildUpdateAgrees and QueryObjects.BuildUpdateInto |
| Query.LegacyUpdate | que/query.py:516-536 | legacy `Update.to_sql`; specified by QueryProps.LegacyUpdateSpec and QueryProps.LegacyUpdateAgrees |
| Query.LegacyInsert | que/query.py:604-648 | legacy `Insert.to_sql`; specified by QueryProps.LegacyInsertPlaceholdersAgree and QueryProps.LegacyInsertInjectGap |
| Query.LegacyDelete | que/query.py:674-679 | legacy `Delete.to_sql`; specified by QueryProps.LegacyDeleteArgs |
| Query.LegacyDataToFields | que/query.py:698-715 | legacy `data_to_fields`; specified by QueryProps.LegacyDataToFieldsAgrees |
| QueryObjects.IterSqlSnoc | que/query.py:325-326 | one more member adds one pair, numbered after the earlier members |
| QueryObjects.IterSqlPrefix | que/query.py:325-326 | the member at position i is numbered `offset + i` and its Field goes after those already accumulated |
| QueryObjects.IterSqlStep | que/query.py:325-326 | the keys and values of a list grown by one member grow by that member's Field and fragment |
| QueryObjects.IterSqlInvariant | que/query.py:325-327 | the loop invariant of iter_sql carried from i members to i + 1 |
| QueryObjects.ExpressionToSqlInto | que/query.py:195-205 | appends the rendered Field to the given Arguments, or to a new one, and returns that object with the fragment |
| QueryObjects.IterSqlInto | que/query.py:322-327 | the loop appends every member's Field to one accumulator and yields the fragments in member order |
| QueryObjects.ExpressionsToSqlInto | que/query.py:329-351 | renders into the given or a new Arguments, returning it with the legacy clause text |
| QueryObjects.BuildUpdateInto | que/query.py:490-514 | SET items rendered into one new Arguments from `offset`; SQLSyntaxError exactly when a field has no name |
| QueryObjects.ItemsSnoc | que/query.py:493-494 | the SET items of the first i + 1 fields are those of the first i and the item of field i |
| QueryObjects.UpdateToSqlInto | que/query.py:531-536 | the SET accumulator passes on to WHERE, numbered after it; the driver gets `for_sql` of the whole |
| QueryObjects.SelectToSqlInto | que/query.py:456-461 | WHERE renders into a new accumulator; the driver gets `for_sql` of it |
| QueryObjects.DeleteToSqlInto | que/query.py:674-679 | WHERE renders into a new accumulator in the given style; the driver gets `for_sql` of it |
| QueryObjects.InsertToSqlInto | que/query.py:604-648 | the driver gets `for_sql` of the values when injecting, else of the columns followed by the values |
| QueryProps.LegacyFetchSqlDiffers | que/query.py:144-152 | legacy `fetch_sql` matches structure.py's except for a name with a falsy value, rendered as the bare name |
| QueryProps.LegacyReturningAgrees | que/query.py:468-478 | RETURNING reads the same in both when its Field renders alike |
| QueryProps.LegacyFetchColumnsAgree | que/query.py:433-439 | the SELECT columns agree when every Field renders alike |
| QueryProps.LegacyInsertFields | que/query.py:604-606 | the column Fields agree exactly when every field has a name (`col<unset>` vs `colEllipsis` otherwise), and the value Fields then agree too |
| QueryProps.LegacyExpressionsAgree | que/query.py:322-351 | with distinct rendered Fields, the legacy clause has structure.py's text and Fields |
| QueryProps.LegacyExpressionsEmpty | que/query.py:350-351 | the legacy clause is empty exactly for no members |
| QueryProps.LegacyKeepsDuplicates | que/query.py:322-351 | two equal members: the legacy accumulator keeps the Field twice and shows both fragments, structure.py keeps one |
| QueryProps.LegacySelectAgrees | que/query.py:433-461 | a legacy SELECT without joins, with alike columns and distinct WHERE Fields, equals structure.py's |
| QueryProps.LegacyUpdateSpec | que/query.py:490-536 | SQLSyntaxError exactly when a field has no name; else binds every SET Field from `offset` and every filter's from `offset + n`, duplicates included |
| QueryProps.LegacyUpdateAgrees | que/query.py:516-536 | a legacy UPDATE without joins, with named fields, distinct SET and WHERE Fields and an alike RETURNING, equals structure.py's |
| QueryProps.LegacyBuildUpdateAgrees | que/query.py:497-514 | with named fields and distinct SET Fields the legacy SET clause is structure.py's, binding one Field per field |
| QueryProps.LegacyInsertPlaceholdersAgree | que/query.py:604-622 | without injection the legacy INSERT over named fields, with an alike RETURNING, is structure.py's |
| QueryProps.LegacyInsertInjectGap | que/query.py:608-621 | with injection the legacy INSERT is structure.py's started `n` later: VALUES is numbered after unbound columns |
| QueryProps.LegacyInsertOneFieldInjected | que/query.py:604-621 | on the one-field fixture in NUM style, one argument is bound but numbered `n + 1`, not the `n` it would need |
| QueryProps.LegacyDeleteArgs | que/query.py:674-679 | with distinct WHERE Fields, the legacy DELETE in style `s` binds what structure.py's DELETE binds when `s` is the default, whatever style that one is given |
| QueryProps.LegacyDataToFieldsAgrees | que/query.py:698-715 | legacy gives None for falsy data and SQLValueError for a non-tuple element; otherwise it fails or gives Fields exactly as structure.py's |
| QueryProps.LegacyRejectsListPair | que/query.py:704-707 | a list of one two-element list is a pair for structure.py and SQLValueError for the legacy builder |
| QueryProps.LegacyDefaultExclude | que/query.py:688-699 | the legacy default `exclude=Unset` filters nothing |

## Left out

- Enum `in` membership (`style in NumParamStyle`): each style carries its family as a tag. `NUM` and `NAME` share the value `:{}`, and the model does not reproduce how Python's enum membership treats equal values.
- `cached_property`, `as_sql` and `Fields._clear_cache`: the views are plain functions of the current Fields, so a cache never goes stale.
- Python introspection (`dataclasses.is_dataclass`, `dataclasses.asdict` and `isnamedtuple` of que/util.py): the input to `data_to_fields` is one of five shapes: a mapping, a collection of items, the entries of a namedtuple or of a dataclass, or a scalar. Nested dataclasses, which `asdict` converts recursively, are not modelled.
- Exclusion by value or type: values belong to a small closed set (str, int, bool, None), and `isinstance` covers those types and the `Unset` class. Cross-type equality such as `True == 1` is not modelled.
- The default CTE alias built from `id(self)`: it depends on memory addresses, so the alias is an input.
- The text of a Select that a join targets is its Python `repr`, which the model takes as an input string.
- Hashing: a dict keyed by Fields tells them apart by equality of values; hash codes are not modelled.
- Legacy `Join.to_sql` and `CommonTableExpression` of query.py (que/query.py:376-419): the first interpolates the `(str, Arguments)` tuple of its filters into the SQL, and the second calls `.add` on what the statements' `to_sql` return, a list or a dict. The legacy statements take their joins' `as_sql` texts as input instead.
- `Fields.left`, `iter_left_values`, `__eq__`, `__hash__`, `__repr__`, `__iter__` and `__len__`: only their use as sequence length and equality is modelled.
- `keywords.py`: the few keywords and comparison symbols the rendering needs are literals. The text is the enum member's value, which is how an f-string formats a `(str, Enum)` member before Python 3.11; setup.py allows Python 3.7 and later, and from 3.11 an f-string shows `CmpOps.EQ` instead.
- The legacy default `style=DEFAULT_PARAM_STYLE` (`NumParamStyle.NUM`, que/query.py:111): every `Query` function takes its style explicitly.
- `setup.py`, `que/__init__.py` and module imports: packaging.
- StatementProps.InsertOneFieldPlaceholders: states the repository's INSERT fixture for `inject_columns=False`. `to_sql` of that fixture uses its default `True`, which StatementProps.InsertOneFieldInjected states.

## Findings

| source | as written | input that shows it | evidently intended | confidence | as-written member | corrected member |
|---|---|---|---|---|---|---|
| que/query.py:608-613 | VALUES placeholders are numbered from `offset + len(columns)` even when the columns are injected and bind nothing | the one-field INSERT `Field('foo','bar')` with `inject_columns=True`, NUM style, `offset=1`: `VALUES (:2)` with a single argument bound | number VALUES from `offset` when injecting, as que/structure.py:590-593 does | not executed | QueryProps.LegacyInsertOneFieldInjected | StatementProps.InsertInjected |
