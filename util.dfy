/** Bound values, their Python truthiness and `str()`, and the exclusion filter of
    que/util.py (dict_filter_factory). */
module Util {
  import opened Common
  import opened Text
  import opened OrderedDict

  /** A Python value bound to a placeholder or used as an alias. */
  datatype Value = Str(s: string) | Int(i: int) | Bool(b: bool) | NoneValue

  /** The Python types of the values above, and the `Unset` sentinel class of que/util.py,
      which has no instances. */
  datatype ValueType = StrType | IntType | BoolType | NoneType | UnsetType

  /** `str(v)`. */
  function Render(v: Value): string
  {
    match v
    case Str(s) => s
    case Int(i) => IntToString(i)
    case Bool(b) => if b then "True" else "False"
    case NoneValue => "None"
  }

  /** `bool(v)`. */
  predicate Truthy(v: Value)
  {
    match v
    case Str(s) => s != ""
    case Int(i) => i != 0
    case Bool(b) => b
    case NoneValue => false
  }

  /** `isinstance(v, t)`; `bool` is a subclass of `int`, and nothing is an instance of `Unset`. */
  predicate IsInstance(v: Value, t: ValueType)
  {
    match t
    case StrType => v.Str?
    case IntType => v.Int? || v.Bool?
    case BoolType => v.Bool?
    case NoneType => v.NoneValue?
    case UnsetType => false
  }

  /** What the caller passes as `exclude`: a type, or any other value. */
  datatype Exclude = ExcludeType(t: ValueType) | ExcludeValue(v: Value)

  /** The three callables dict_filter_factory can return. */
  datatype Factory =
    | PlainDict                       // `dict` itself
    | InstanceFilter(ex: Exclude)     // drops values that are instances of `ex`
    | InequalityFilter(v: Value)      // keeps values that are `!= v`

  /** `dict_filter_factory(exclude, astype)`; `None` for `exclude` is the default `...`. */
  function DictFilterFactory(exclude: Option<Exclude>, astype: bool): (f: Factory)
    ensures exclude.None? <==> f.PlainDict?
    ensures f.InstanceFilter? <==> exclude.Some? && (exclude.value.ExcludeType? || astype)
    ensures f.InequalityFilter? ==> exclude == Some(ExcludeValue(f.v)) && !astype
  {
    if exclude.None? then PlainDict
    else if exclude.value.ExcludeType? || astype then InstanceFilter(exclude.value)
    else InequalityFilter(exclude.value.v)
  }

  /** Whether the factory's callable keeps an entry with value `v`. */
  predicate Keeps(f: Factory, v: Value)
  {
    match f
    case PlainDict => true
    case InstanceFilter(ExcludeType(t)) => !IsInstance(v, t)
    case InstanceFilter(ExcludeValue(_)) => false
    case InequalityFilter(x) => v != x
  }

  /** The entries the factory's callable keeps, in input order. */
  function Kept(f: Factory, items: seq<(string, Value)>): (r: seq<(string, Value)>)
    ensures |r| <= |items|
    ensures forall p :: p in r <==> p in items && Keeps(f, p.1)
    decreases |items|
  {
    if |items| == 0 then []
    else if Keeps(f, items[|items| - 1].1) then Kept(f, items[..|items| - 1]) + [items[|items| - 1]]
    else Kept(f, items[..|items| - 1])
  }

  /** Applying the factory's callable to a mapping (through `.items()`) or to a collection of
      pairs; either way it sees the same sequence of pairs. `isinstance(y, v)` with a value
      that is not a type raises TypeError as soon as there is an entry to test. */
  function ApplyFactory(f: Factory, items: seq<(string, Value)>): Result<Dict<string, Value>>
  {
    match f
    case PlainDict => Ok(FromPairs(items))
    case InstanceFilter(ExcludeValue(_)) => if |items| == 0 then Ok([]) else Err(TypeError)
    case _ => Ok(FromPairs(Kept(f, items)))
  }

  lemma {:induction false} KeptAll(f: Factory, items: seq<(string, Value)>)
    requires f.PlainDict?
    ensures Kept(f, items) == items
    decreases |items|
  {
    if |items| > 0 {
      var init := items[..|items| - 1];
      KeptAll(f, init);
      assert Keeps(f, items[|items| - 1].1);
      assert Kept(f, items) == Kept(f, init) + [items[|items| - 1]];
      assert items == init + [items[|items| - 1]];
    }
  }

  /** What the filter produces: a TypeError exactly when `isinstance` is handed a value that is
      not a type and there is an entry to test; otherwise a dict whose keys are those of the kept
      entries in first-occurrence order, each with the value of its last kept entry, and with no
      entry whose value the filter drops. */
  lemma ApplyFactorySpec(f: Factory, items: seq<(string, Value)>)
    ensures ApplyFactory(f, items).Err? <==> f.InstanceFilter? && f.ex.ExcludeValue? && |items| > 0
    ensures ApplyFactory(f, items).Err? ==> ApplyFactory(f, items).error == TypeError
    ensures ApplyFactory(f, items).Ok? ==>
      var d := ApplyFactory(f, items).value;
      var kept := Kept(f, items);
      && Keys(d) == Dedup(Keys(kept))
      && Distinct(Keys(d))
      && (forall p :: p in d ==> p in items && Keeps(f, p.1))
      && (forall k :: k in Keys(kept) ==> Lookup(d, k) == Some(LastValue(kept, k)))
  {
    if ApplyFactory(f, items).Ok? {
      var kept := Kept(f, items);
      if f.PlainDict? {
        KeptAll(f, items);
      }
      if f.InstanceFilter? && f.ex.ExcludeValue? {
        assert kept == [];
      }
      assert ApplyFactory(f, items).value == FromPairs(kept);
      FromPairsKeys(kept);
      FromPairsDistinct(kept);
      FromPairsSubset(kept);
      forall k | k in Keys(kept)
        ensures Lookup(FromPairs(kept), k) == Some(LastValue(kept, k))
      {
        FromPairsLookup(kept, k);
      }
    }
  }

  /** When the keys are already distinct, the filter keeps the surviving entries in their input order. */
  lemma ApplyFactoryDistinct(f: Factory, items: seq<(string, Value)>)
    requires Distinct(Keys(items))
    requires !(f.InstanceFilter? && f.ex.ExcludeValue?)
    ensures ApplyFactory(f, items) == Ok(Kept(f, items))
  {
    KeptDistinct(f, items);
    FromPairsIdentity(Kept(f, items));
    if f.PlainDict? {
      KeptAll(f, items);
    }
  }

  lemma {:induction false} KeptDistinct(f: Factory, items: seq<(string, Value)>)
    requires Distinct(Keys(items))
    ensures Distinct(Keys(Kept(f, items)))
    ensures forall k :: k in Keys(Kept(f, items)) ==> k in Keys(items)
    decreases |items|
  {
    if |items| > 0 {
      var init := items[..|items| - 1];
      KeysSnoc(items);
      KeptDistinct(f, init);
      if Keeps(f, items[|items| - 1].1) {
        KeysSnoc(Kept(f, items));
      }
    }
  }

  /** The legacy default `exclude=Unset` is a type that nothing is an instance of, so its filter
      agrees with plain `dict`. */
  lemma UnsetExclusionIsPlainDict(items: seq<(string, Value)>)
    ensures ApplyFactory(DictFilterFactory(Some(ExcludeType(UnsetType)), false), items)
         == ApplyFactory(DictFilterFactory(None, false), items)
  {
    var f := InstanceFilter(ExcludeType(UnsetType));
    KeptSame(f, PlainDict, items);
    KeptAll(PlainDict, items);
  }

  lemma {:induction false} KeptSame(f: Factory, g: Factory, items: seq<(string, Value)>)
    requires forall v :: Keeps(f, v) == Keeps(g, v)
    ensures Kept(f, items) == Kept(g, items)
    decreases |items|
  {
    if |items| > 0 {
      KeptSame(f, g, items[..|items| - 1]);
    }
  }
}
