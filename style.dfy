/** The DBAPI parameter styles (que/style.py) and the process-wide default style. */
module Style {
  import opened Common
  import opened Text

  /** The six styles: QM and FM are positional, NUM and DOL numbered, NAME and PYFM named. */
  datatype Style = QM | FM | NUM | DOL | NAME | PYFM

  /** The three style families (BasicParamStyle, NumParamStyle, NameParamStyle). */
  datatype Family = Positional | Numbered | Named

  function FamilyOf(s: Style): Family
  {
    match s
    case QM | FM => Positional
    case NUM | DOL => Numbered
    case NAME | PYFM => Named
  }

  /** `style.value`: the placeholder template of the style. */
  function Template(s: Style): string
  {
    match s
    case QM => "?"
    case FM => "%s"
    case NUM => ":{}"
    case DOL => "${}"
    case NAME => ":{}"
    case PYFM => "%({})s"
  }

  /** `template.format(arg)`: every `{}` in the template is replaced by `arg`. */
  function Fill(t: string, arg: string): string
    decreases |t|
  {
    if |t| < 2 then t
    else if t[0] == '{' && t[1] == '}' then arg + Fill(t[2..], arg)
    else [t[0]] + Fill(t[1..], arg)
  }

  /** The text a numbered or named template puts before its hole. */
  function Before(s: Style): string
  {
    match s
    case QM => "?"
    case FM => "%s"
    case NUM => ":"
    case DOL => "$"
    case NAME => ":"
    case PYFM => "%("
  }

  /** The text a numbered or named template puts after its hole. */
  function After(s: Style): string
  {
    match s
    case PYFM => ")s"
    case _ => ""
  }

  /** Every numbered or named template has exactly one hole, between Before and After. */
  lemma FillTemplate(s: Style, arg: string)
    requires FamilyOf(s) != Positional
    ensures Fill(Template(s), arg) == Before(s) + arg + After(s)
  {
    match s
    case NUM =>
      assert Fill("{}", arg) == arg + Fill("", arg);
    case DOL =>
      assert Fill("{}", arg) == arg + Fill("", arg);
    case NAME =>
      assert Fill("{}", arg) == arg + Fill("", arg);
    case PYFM =>
      assert Fill("{})s", arg) == arg + Fill(")s", arg);
      assert Fill(")s", arg) == [')'] + Fill("s", arg);
  }

  /** A placeholder as Expression.to_sql and Insert._iter_fields render it: a named style is
      filled with the parameter name, a numbered style with the number, and a positional
      style is its template verbatim. */
  function Placeholder(s: Style, number: int, name: string): (r: string)
    ensures FamilyOf(s) == Named ==> r == Before(s) + name + After(s)
    ensures FamilyOf(s) == Numbered ==> r == Before(s) + IntToString(number) + After(s)
    ensures FamilyOf(s) == Positional ==> r == Template(s) && (r == "?" || r == "%s")
  {
    match FamilyOf(s)
    case Named => Before(s) + name + After(s)
    case Numbered => Before(s) + IntToString(number) + After(s)
    case Positional => Template(s)
  }

  /** The placeholder is the style's template formatted with the parameter name in a named
      style, with the number in a numbered style, and left as it is in a positional style. */
  lemma PlaceholderFormat(s: Style, number: int, name: string)
    ensures FamilyOf(s) == Named ==> Placeholder(s, number, name) == Fill(Template(s), name)
    ensures FamilyOf(s) == Numbered ==> Placeholder(s, number, name) == Fill(Template(s), IntToString(number))
    ensures FamilyOf(s) == Positional ==> Placeholder(s, number, name) == Template(s)
  {
    match FamilyOf(s)
    case Named => FillTemplate(s, name);
    case Numbered => FillTemplate(s, IntToString(number));
    case Positional =>
  }

  /** A numbered placeholder shows its number, so two placeholders of a numbered style are
      equal exactly when their numbers are. */
  lemma NumberedPlaceholderInjective(s: Style, i: int, j: int, name: string)
    requires FamilyOf(s) == Numbered
    ensures Placeholder(s, i, name) == Placeholder(s, j, name) <==> i == j
  {
    var p, q := Placeholder(s, i, name), Placeholder(s, j, name);
    assert |Before(s)| == 1 && After(s) == "";
    assert p[1..] == IntToString(i);
    assert q[1..] == IntToString(j);
    IntToStringInjective(i, j);
  }

  /** NUM and NAME have the same template, so the family cannot be read off the template:
      it has to be a tag of its own. */
  lemma SharedTemplate()
    ensures Template(NUM) == Template(NAME) && FamilyOf(NUM) != FamilyOf(NAME)
    ensures forall s, t :: Template(s) == Template(t) && s != t ==> {s, t} == {NUM, NAME}
  {
  }

  /** `style or default_style()`: an explicit style wins, otherwise the current default. */
  function Resolve(style: Option<Style>, dflt: Style): (r: Style)
    ensures style.Some? ==> r == style.value
    ensures style.None? ==> r == dflt
  {
    if style.Some? then style.value else dflt
  }

  /** The one-cell holder of the default style (DEFAULT_PARAM_STYLE). */
  class DefaultStyle {
    var current: Style

    /** The default starts out as NUM. */
    constructor ()
      ensures current == NUM
    {
      current := NUM;
    }

    /** `default_style(style)`: a given style becomes the new default; either way the
        current default is returned. */
    method Apply(style: Option<Style>) returns (r: Style)
      modifies this
      ensures style.Some? ==> current == style.value
      ensures style.None? ==> current == old(current)
      ensures r == current
    {
      if style.Some? {
        current := style.value;
      }
      r := current;
    }

    /** `DefaultStyle.value`: the template of the current default. */
    function Value(): string
      reads this
    {
      Template(current)
    }
  }
}
