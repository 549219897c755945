/**
 * The client's add/edit dialog (`TemplateAddComponent`): the default value and the
 * validators it gives each layout field, the form it builds from a layout, the
 * one-level flattening of a loaded record into form keys, the rebuilding of nested
 * objects from dotted form keys, and the request `onSubmit` makes.
 */
module TemplateAdd {
  import opened Wrappers
  import opened Text
  import opened Numerals
  import opened Int32s
  import opened Seqs
  import opened Js
  import opened Patterns

  // ---------------------------------------------------------------------------
  // Default values and validators of one layout field

  /**
   * `getDefaultValue(field)`, on `field.dataType.toLowerCase()`. The names compared
   * with are ASCII and contain no letter that a non-ASCII character lowers to, so
   * ASCII case folding decides these comparisons exactly.
   */
  function GetDefaultValue(dataType: string): (v: JsValue)
    ensures v == Null <==> Lower(dataType) in ["numeric", "guid", "date", "datetime"]
    ensures v == Bool(false) <==> Lower(dataType) == "boolean"
    ensures v == Str("") <==> Lower(dataType) !in ["numeric", "guid", "date", "datetime", "boolean"]
  {
    var t := Lower(dataType);
    if t == "numeric" || t == "guid" || t == "date" || t == "datetime" then Null
    else if t == "boolean" then Bool(false)
    else Str("")
  }

  /** An entry of a layout: a field of the entity, or a container of further entries. */
  datatype Field = Field(fieldName: string, dataType: string, required: JsValue, scale: JsValue, fields: seq<Field>)

  /** The container test is case-sensitive, unlike every other test on `dataType`. */
  predicate IsContainer(f: Field) {
    f.dataType == "section" || f.dataType == "groupfield" || f.dataType == "tab"
  }

  /** The test on `field.required`: the boolean `true`, or a string that reads "true" in any case. */
  predicate IsRequired(required: JsValue) {
    match required
    case Bool(b) => b
    case Str(s) => Lower(s) == "true"
    case _ => false
  }

  /**
   * `parseInt(text)` in base ten: after leading white space and one optional sign, the
   * longest run of decimal digits; `None` stands for NaN, when there is no digit.
   */
  function ParseInt(text: string): (r: Option<int>)
    ensures r.None? <==> var t := TrimStart(text);
                         var u := if |t| > 0 && (t[0] == '-' || t[0] == '+') then t[1..] else t;
                         u == [] || !IsDecimalDigit(u[0])
  {
    ParseSigned(TrimStart(text))
  }

  /** The part of `parseInt` after the white space: one optional sign, then the leading digits. */
  function ParseSigned(t: string): Option<int> {
    var u := if |t| > 0 && (t[0] == '-' || t[0] == '+') then t[1..] else t;
    var digits := LeadingDigits(u);
    if digits == [] then None
    else if |t| > 0 && t[0] == '-' then Some(0 - Value(digits, 10))
    else Some(Value(digits, 10))
  }

  /** The longest prefix of decimal digits. */
  function LeadingDigits(s: string): (d: string)
    ensures |d| <= |s| && d == s[..|d|]
    ensures AllDigitsIn(d, 10)
    ensures |d| < |s| ==> !IsDecimalDigit(s[|d|])
  {
    if s != [] && IsDecimalDigit(s[0]) then
      var rest := LeadingDigits(s[1..]);
      assert [s[0]] + rest == s[..|rest| + 1];
      [s[0]] + rest
    else []
  }

  /** A run of digits followed by anything but a digit leads with exactly that run. */
  lemma {:induction false} LeadingDigitsOf(d: string, rest: string)
    requires AllDigitsIn(d, 10)
    requires rest == [] || !IsDecimalDigit(rest[0])
    ensures LeadingDigits(d + rest) == d
    decreases |d|
  {
    if d == [] {
      assert d + rest == rest;
    } else {
      var tail := d[1..];
      assert (d + rest)[0] == d[0] && IsDigitIn(d[0], 10);
      assert (d + rest)[1..] == tail + rest;
      assert forall i :: 0 <= i < |tail| ==> tail[i] == d[i + 1];
      LeadingDigitsOf(tail, rest);
      assert d == [d[0]] + tail;
    }
  }

  /** Digits and a tail that does not start with a digit read as the digits' value. */
  lemma ParseSignedUnsigned(d: string, rest: string)
    requires d != [] && AllDigitsIn(d, 10) && (rest == [] || !IsDecimalDigit(rest[0]))
    ensures ParseSigned(d + rest) == Some(Value(d, 10))
  {
    var t := d + rest;
    assert t[0] == d[0] && IsDigitIn(d[0], 10);
    LeadingDigitsOf(d, rest);
  }

  /** "-", digits and a tail that does not start with a digit read as the digits' negated value. */
  lemma ParseSignedNegative(t: string, d: string, rest: string)
    requires d != [] && AllDigitsIn(d, 10) && (rest == [] || !IsDecimalDigit(rest[0]))
    requires t != [] && t[0] == '-' && t[1..] == d + rest
    ensures ParseSigned(t) == Some(0 - Value(d, 10))
  {
    LeadingDigitsOf(d, rest);
  }

  /**
   * `parseInt` reads a number back from its text, whatever white space precedes it
   * and whatever follows it that does not start with a digit ("12.5" reads as 12).
   */
  lemma ParseIntOfNumber(pre: string, n: int, rest: string)
    requires forall i :: 0 <= i < |pre| ==> IsWhite(pre[i])
    requires rest == [] || !IsDecimalDigit(rest[0])
    ensures ParseInt(pre + NumberText(n) + rest) == Some(n)
  {
    var s := NumberText(n) + rest;
    assert pre + NumberText(n) + rest == pre + s;
    NumberTextReadsBack(n, rest);
    TrimStartPadded(pre, s);
  }

  /** After the white space, a number's text reads back as the number. */
  lemma NumberTextReadsBack(n: int, rest: string)
    requires rest == [] || !IsDecimalDigit(rest[0])
    ensures var s := NumberText(n) + rest; !IsWhite(s[0]) && ParseSigned(s) == Some(n)
  {
    if n < 0 {
      NegativeTextReadsBack(n, rest);
    } else {
      DigitsTextReadsBack(n, rest);
    }
  }

  lemma NegativeTextReadsBack(n: int, rest: string)
    requires n < 0 && (rest == [] || !IsDecimalDigit(rest[0]))
    ensures var s := NumberText(n) + rest; !IsWhite(s[0]) && ParseSigned(s) == Some(n)
  {
    var m: nat := -n;
    var d := NatToString(m);
    var s := NumberText(n) + rest;
    NegativeTextShape(n, rest);
    assert ParseSigned(s) == Some(0 - Value(d, 10)) by {
      ParseSignedNegative(s, d, rest);
    }
    NatToStringValue(m);
  }

  /** A negative number's text followed by more text: "-", the digits of its magnitude, the rest. */
  lemma NegativeTextShape(n: int, rest: string)
    requires n < 0
    ensures var s := NumberText(n) + rest; s[0] == '-' && s[1..] == NatToString(-n) + rest
  {
    var t := NumberText(n);
    assert t == "-" + NatToString(-n);
    assert (t + rest)[1..] == t[1..] + rest;
  }

  lemma DigitsTextReadsBack(n: nat, rest: string)
    requires rest == [] || !IsDecimalDigit(rest[0])
    ensures var s := NumberText(n) + rest; !IsWhite(s[0]) && ParseSigned(s) == Some(n)
  {
    var d := NatToString(n);
    NatToStringValue(n);
    assert IsDigitIn(d[0], 10);
    ParseSignedUnsigned(d, rest);
  }

  /** `parseInt(field.scale)`: a number is taken as it is, other values as their text. */
  function ScaleOf(scale: JsValue): Option<int> {
    match scale
    case Num(n) => Some(n)
    case Str(t) => ParseInt(t)
    case _ => None
  }

  /** `'' + scale`. */
  function ScaleText(scale: Option<int>): string {
    match scale
    case None => "NaN"
    case Some(n) => NumberText(n)
  }

  /**
   * The `[0-9]{0,` + scale + `}` of the scaled pattern. A scale below zero or NaN makes
   * the braces no quantifier, and they then stand for themselves after one digit.
   */
  function FractionPattern(scale: Option<int>): Re {
    if scale.Some? && scale.value >= 0 then Repeat(Digit, 0, Some(scale.value))
    else Cat(Digit, Literal("{0," + ScaleText(scale) + "}"))
  }

  /** The pattern of a numeric field: scaled when `field.scale` is truthy, `^-?\d+$` otherwise. */
  function NumericPattern(scale: JsValue): Re {
    if Truthy(scale) then WithFraction(FractionPattern(ScaleOf(scale))) else Integer
  }

  datatype Validator = Required | Pattern(re: Re)

  /** The validators of a non-container field, in the order they are pushed. */
  function FieldValidators(f: Field): (vs: seq<Validator>)
    ensures Required in vs <==> IsRequired(f.required)
    ensures Pattern(NumericPattern(f.scale)) in vs <==> Lower(f.dataType) == "numeric"
    ensures forall v :: v in vs ==> v == Required || v == Pattern(NumericPattern(f.scale))
    ensures Required in vs ==> vs[0] == Required
    ensures |vs| <= 2
  {
    (if IsRequired(f.required) then [Required] else [])
    + (if Lower(f.dataType) == "numeric" then [Pattern(NumericPattern(f.scale))] else [])
  }

  /** Without a scale a numeric field takes an optional minus sign and digits, nothing else. */
  lemma UnscaledNumericAccepts(scale: JsValue, s: string)
    requires !Truthy(scale)
    ensures Matches(NumericPattern(scale), s) <==> IntegerText(s)
  {
    IntegerMatches(s);
  }

  /**
   * With a scale that reads as n >= 0 a numeric field takes an integer, optionally
   * followed by a point and at most n digits.
   */
  lemma ScaledNumericAccepts(scale: JsValue, s: string)
    requires Truthy(scale) && ScaleOf(scale).Some? && ScaleOf(scale).value >= 0
    ensures Matches(NumericPattern(scale), s) <==>
            IntegerText(s) ||
            exists i :: 0 <= i < |s| && s[i] == '.' && IntegerText(s[..i]) &&
                        AllDecimal(s[i + 1..]) && |s| - (i + 1) <= ScaleOf(scale).value
  {
    var n := ScaleOf(scale).value;
    WithFractionMatches(Repeat(Digit, 0, Some(n)), s);
    forall i | 0 <= i < |s|
      ensures s[i] == '.' ==> (Matches(Repeat(Digit, 0, Some(n)), s[i + 1..]) <==> AllDecimal(s[i + 1..]) && |s| - (i + 1) <= n)
    {
      DigitsRepeat(0, Some(n), s[i + 1..]);
    }
  }

  /**
   * A scale that reads as NaN or as a negative number leaves the braces literal: a
   * fraction is then one digit followed by the text "{0,NaN}" (or "{0,-n}").
   */
  lemma UnreadableScaleAccepts(scale: JsValue, s: string)
    requires Truthy(scale) && (ScaleOf(scale).None? || ScaleOf(scale).value < 0)
    ensures Matches(NumericPattern(scale), s) <==>
            IntegerText(s) ||
            exists i :: 0 <= i < |s| && s[i] == '.' && IntegerText(s[..i]) &&
                        i + 2 <= |s| && IsDecimalDigit(s[i + 1]) && s[i + 2..] == "{0," + ScaleText(ScaleOf(scale)) + "}"
  {
    var braces := "{0," + ScaleText(ScaleOf(scale)) + "}";
    var fraction := Cat(Digit, Literal(braces));
    WithFractionMatches(fraction, s);
    forall i | 0 <= i < |s| && s[i] == '.'
      ensures Matches(fraction, s[i + 1..]) <==> i + 2 <= |s| && IsDecimalDigit(s[i + 1]) && s[i + 2..] == braces
    {
      DigitThenLiteralMatches(braces, s[i + 1..]);
      if i + 2 <= |s| {
        assert s[i + 1..][1..] == s[i + 2..];
      }
    }
  }

  /** The text "0" is a truthy scale that reads as 0. */
  lemma ScaleOfTextZero()
    ensures Truthy(Str("0")) && ScaleOf(Str("0")) == Some(0)
  {
    assert TrimStart("0") == "0";
    assert LeadingDigits("0") == "0";
    assert Value("0", 10) == 0 by {
      assert "0"[..0] == "";
    }
  }

  /**
   * A scale of the number 0 is falsy and gives no fraction, so a digit and a point fail;
   * a truthy scale that reads as 0, such as the text "0", gives `{0,0}`, which lets a
   * bare point through.
   */
  lemma ZeroScales(d: char, scale: JsValue)
    requires IsDecimalDigit(d)
    requires Truthy(scale) && ScaleOf(scale) == Some(0)
    ensures !Matches(NumericPattern(Num(0)), [d, '.'])
    ensures Matches(NumericPattern(scale), [d, '.'])
  {
    var s := [d, '.'];
    assert !Matches(NumericPattern(Num(0)), s) by {
      UnscaledNumericAccepts(Num(0), s);
      assert !IsDecimalDigit(s[1]);
    }
    assert s[..1] == [d] && s[2..] == "";
    assert s[1] == '.' && IntegerText(s[..1]) && AllDecimal(s[2..]) && |s| - 2 <= 0;
    ScaledNumericAccepts(scale, s);
  }

  // ---------------------------------------------------------------------------
  // The form a layout builds

  datatype FormControl = FormControl(value: JsValue, validators: seq<Validator>)

  datatype NamedControl = NamedControl(name: string, control: FormControl)

  function Names(controls: seq<NamedControl>): (ns: seq<string>)
    ensures |ns| == |controls|
    ensures forall i :: 0 <= i < |controls| ==> ns[i] == controls[i].name
  {
    if controls == [] then [] else [controls[0].name] + Names(controls[1..])
  }

  ghost function NameSet(controls: seq<NamedControl>): set<string> {
    set c | c in controls :: c.name
  }

  /** `FormGroup.addControl(name, control)`: a name already present keeps the control it has. */
  function AddControl(controls: seq<NamedControl>, name: string, c: FormControl): seq<NamedControl> {
    if name in Names(controls) then controls else controls + [NamedControl(name, c)]
  }

  /** The name of the text control beside a guid field's control: points become underscores. */
  function SearchControlName(fieldName: string): (n: string)
    ensures '.' !in n && EndsWith(n, "_search")
    ensures '.' !in fieldName ==> n == fieldName + "_search"
  {
    var r := ReplaceChar(fieldName, '.', '_');
    assert '.' !in fieldName ==> r == fieldName;
    assert (r + "_search")[|r + "_search"| - 7..] == "_search";
    r + "_search"
  }

  /** What `initializeForm` changes besides the layout: the form's controls and `fieldOptions`. */
  datatype FormState = FormState(controls: seq<NamedControl>, fieldOptions: map<string, seq<JsValue>>)

  /** The work `initializeForm` does for a non-container entry. */
  function InitLeaf(st: FormState, f: Field): FormState {
    var controls := AddControl(st.controls, f.fieldName, FormControl(GetDefaultValue(f.dataType), FieldValidators(f)));
    if Lower(f.dataType) == "guid" then
      FormState(AddControl(controls, SearchControlName(f.fieldName), FormControl(Str(""), [])),
                if f.fieldName in st.fieldOptions then st.fieldOptions else st.fieldOptions[f.fieldName := []])
    else FormState(controls, st.fieldOptions)
  }

  /** One entry: a container recurses into its entries, any other entry gets its control and its `required` normalised. */
  function InitField(st: FormState, f: Field): (FormState, Field)
    decreases f
  {
    if IsContainer(f) then
      var (st', children) := InitFields(st, f.fields);
      (st', f.(fields := children))
    else (InitLeaf(st, f), f.(required := Bool(IsRequired(f.required))))
  }

  /** `initializeForm(fields)`: the entries in order; the new state and the entries as left behind. */
  function InitFields(st: FormState, fs: seq<Field>): (FormState, seq<Field>)
    decreases fs
  {
    if fs == [] then (st, [])
    else
      var (st1, done) := InitFields(st, fs[..|fs| - 1]);
      var (st2, last) := InitField(st1, fs[|fs| - 1]);
      (st2, done + [last])
  }

  /** Handling one more entry after the first `i`. */
  lemma InitFieldsStep(st: FormState, fs: seq<Field>, i: nat)
    requires i < |fs|
    ensures var (st1, done) := InitFields(st, fs[..i]);
            var (st2, last) := InitField(st1, fs[i]);
            InitFields(st, fs[..i + 1]) == (st2, done + [last])
  {
    assert fs[..i + 1][..i] == fs[..i];
  }

  /** The controls a layout asks for: each non-container entry's name, and the search name of each guid entry. */
  function ControlNamesOf(f: Field): set<string>
    decreases f
  {
    if IsContainer(f) then ControlNamesOfAll(f.fields)
    else {f.fieldName} + (if Lower(f.dataType) == "guid" then {SearchControlName(f.fieldName)} else {})
  }

  function ControlNamesOfAll(fs: seq<Field>): set<string>
    decreases fs
  {
    if fs == [] then {} else ControlNamesOfAll(fs[..|fs| - 1]) + ControlNamesOf(fs[|fs| - 1])
  }

  /** The entries that get a `fieldOptions` list: the guid fields. */
  function GuidNamesOf(f: Field): set<string>
    decreases f
  {
    if IsContainer(f) then GuidNamesOfAll(f.fields)
    else if Lower(f.dataType) == "guid" then {f.fieldName} else {}
  }

  function GuidNamesOfAll(fs: seq<Field>): set<string>
    decreases fs
  {
    if fs == [] then {} else GuidNamesOfAll(fs[..|fs| - 1]) + GuidNamesOf(fs[|fs| - 1])
  }

  /** How an entry is left: containers as they were around normalised entries, fields with a boolean `required`. */
  predicate Normalised(f: Field, g: Field)
    decreases f
  {
    && g.fieldName == f.fieldName && g.dataType == f.dataType && g.scale == f.scale
    && if IsContainer(f) then g.required == f.required && NormalisedAll(f.fields, g.fields)
       else g.fields == f.fields && g.required == Bool(IsRequired(f.required))
  }

  predicate NormalisedAll(fs: seq<Field>, gs: seq<Field>)
    decreases fs
  {
    |fs| == |gs| && forall i :: 0 <= i < |fs| ==> Normalised(fs[i], gs[i])
  }

  /** Adding a control keeps the controls there were, in their places. */
  lemma AddControlKeeps(controls: seq<NamedControl>, name: string, c: FormControl)
    ensures controls <= AddControl(controls, name, c)
    ensures NameSet(AddControl(controls, name, c)) == NameSet(controls) + {name}
  {
    if name in Names(controls) {
      var i :| 0 <= i < |controls| && Names(controls)[i] == name;
      assert controls[i] in controls;
    }
  }

  lemma InitLeafEffect(st: FormState, f: Field)
    requires !IsContainer(f)
    ensures var st' := InitLeaf(st, f);
            && st.controls <= st'.controls
            && NameSet(st'.controls) == NameSet(st.controls) + ControlNamesOf(f)
            && st'.fieldOptions.Keys == st.fieldOptions.Keys + GuidNamesOf(f)
            && (forall k :: k in st.fieldOptions ==> st'.fieldOptions[k] == st.fieldOptions[k])
            && (forall k :: k in st'.fieldOptions && k !in st.fieldOptions ==> st'.fieldOptions[k] == [])
  {
    InitLeafControls(st, f);
    InitLeafOptions(st, f);
  }

  lemma InitLeafControls(st: FormState, f: Field)
    requires !IsContainer(f)
    ensures st.controls <= InitLeaf(st, f).controls
    ensures NameSet(InitLeaf(st, f).controls) == NameSet(st.controls) + ControlNamesOf(f)
  {
    var control := FormControl(GetDefaultValue(f.dataType), FieldValidators(f));
    var c1 := AddControl(st.controls, f.fieldName, control);
    AddControlKeeps(st.controls, f.fieldName, control);
    AddControlKeeps(c1, SearchControlName(f.fieldName), FormControl(Str(""), []));
  }

  lemma InitLeafOptions(st: FormState, f: Field)
    requires !IsContainer(f)
    ensures var options := InitLeaf(st, f).fieldOptions;
            && options.Keys == st.fieldOptions.Keys + GuidNamesOf(f)
            && (forall k :: k in st.fieldOptions ==> options[k] == st.fieldOptions[k])
            && (forall k :: k in options && k !in st.fieldOptions ==> options[k] == [])
  {
  }

  /**
   * `initializeForm` only adds: the controls there were stay in their places, the names
   * added are those the layout asks for at any depth, and `fieldOptions` gains an empty
   * list for each guid field that had none while keeping every list it had.
   */
  lemma {:induction false} InitFieldEffect(st: FormState, f: Field)
    ensures var st' := InitField(st, f).0;
            && st.controls <= st'.controls
            && NameSet(st'.controls) == NameSet(st.controls) + ControlNamesOf(f)
            && st'.fieldOptions.Keys == st.fieldOptions.Keys + GuidNamesOf(f)
            && (forall k :: k in st.fieldOptions ==> st'.fieldOptions[k] == st.fieldOptions[k])
            && (forall k :: k in st'.fieldOptions && k !in st.fieldOptions ==> st'.fieldOptions[k] == [])
    decreases f
  {
    if IsContainer(f) {
      InitFieldsEffect(st, f.fields);
    } else {
      InitLeafEffect(st, f);
    }
  }

  lemma {:induction false} InitFieldsEffect(st: FormState, fs: seq<Field>)
    ensures var st' := InitFields(st, fs).0;
            && st.controls <= st'.controls
            && NameSet(st'.controls) == NameSet(st.controls) + ControlNamesOfAll(fs)
            && st'.fieldOptions.Keys == st.fieldOptions.Keys + GuidNamesOfAll(fs)
            && (forall k :: k in st.fieldOptions ==> st'.fieldOptions[k] == st.fieldOptions[k])
            && (forall k :: k in st'.fieldOptions && k !in st.fieldOptions ==> st'.fieldOptions[k] == [])
    decreases fs
  {
    if fs != [] {
      var st1 := InitFields(st, fs[..|fs| - 1]).0;
      InitFieldsEffect(st, fs[..|fs| - 1]);
      InitFieldEffect(st1, fs[|fs| - 1]);
    }
  }

  /** Every entry is left normalised: `required` is `true` or `false` exactly as `IsRequired` judged it, at any depth. */
  lemma {:induction false} InitFieldShape(st: FormState, f: Field)
    ensures Normalised(f, InitField(st, f).1)
    decreases f
  {
    if IsContainer(f) {
      InitFieldsShape(st, f.fields);
    }
  }

  lemma {:induction false} InitFieldsShape(st: FormState, fs: seq<Field>)
    ensures NormalisedAll(fs, InitFields(st, fs).1)
    decreases fs
  {
    if fs != [] {
      var (st1, done) := InitFields(st, fs[..|fs| - 1]);
      InitFieldsShape(st, fs[..|fs| - 1]);
      InitFieldShape(st1, fs[|fs| - 1]);
      var gs := InitFields(st, fs).1;
      assert gs == done + [InitField(st1, fs[|fs| - 1]).1];
      forall i | 0 <= i < |fs|
        ensures Normalised(fs[i], gs[i])
      {
        if i < |fs| - 1 {
          assert fs[i] == fs[..|fs| - 1][i] && gs[i] == done[i];
        }
      }
    }
  }

  /** A container spelt with a capital letter is no container: it gets a control of its own. */
  lemma ContainerTestIsCaseSensitive(name: string, children: seq<Field>)
    ensures name in ControlNamesOf(Field(name, "Section", Bool(false), Null, children))
    ensures ControlNamesOf(Field(name, "section", Bool(false), Null, children)) == ControlNamesOfAll(children)
  {
  }

  // ---------------------------------------------------------------------------
  // flattenObject

  /** The assignments `result[key + '.' + nestedKey] = nestedObj[nestedKey]` made for one property. */
  function NestedEntries(p: Prop): (es: seq<Prop>)
    ensures p.value.Obj? ==> |es| == |p.value.props|
    ensures p.value.Obj? ==> forall j :: 0 <= j < |es| ==> es[j] == Prop(p.key + "." + p.value.props[j].key, p.value.props[j].value)
    ensures !p.value.Obj? ==> es == []
  {
    match p.value
    case Obj(nested) => seq(|nested|, j requires 0 <= j < |nested| => Prop(p.key + "." + nested[j].key, nested[j].value))
    case _ => []
  }

  /** Every assignment of the two loops, in the order they are made. */
  function Entries(record: seq<Prop>): seq<Prop>
    decreases |record|
  {
    if record == [] then [] else Entries(record[..|record| - 1]) + NestedEntries(record[|record| - 1])
  }

  /** Makes a list of assignments in order. */
  function Assign(o: seq<Prop>, es: seq<Prop>): seq<Prop>
    decreases |es|
  {
    if es == [] then o else Set(Assign(o, es[..|es| - 1]), es[|es| - 1].key, es[|es| - 1].value)
  }

  /** `flattenObject(record)`: a copy of the record, then one assignment per property of each object-valued property. */
  function Flattened(record: seq<Prop>): seq<Prop> {
    Assign(record, Entries(record))
  }

  lemma AssignSnoc(o: seq<Prop>, es: seq<Prop>, e: Prop)
    ensures Assign(o, es + [e]) == Set(Assign(o, es), e.key, e.value)
  {
    assert (es + [e])[..|es|] == es;
  }

  lemma EntriesStep(record: seq<Prop>, i: nat)
    requires i < |record|
    ensures Entries(record[..i + 1]) == Entries(record[..i]) + NestedEntries(record[i])
  {
    assert record[..i + 1][..i] == record[..i];
  }

  /** The value of the last assignment to `k`, `otherwise` when there is none. */
  function LastAssigned(es: seq<Prop>, k: string, otherwise: JsValue): JsValue
    decreases |es|
  {
    if es == [] then otherwise
    else if es[|es| - 1].key == k then es[|es| - 1].value
    else LastAssigned(es[..|es| - 1], k, otherwise)
  }

  /** `k` is `key.nestedKey` for the property `key` of `p`, an object with an own property `nestedKey`. */
  ghost predicate IsNestedKeyOf(p: Prop, k: string) {
    p.value.Obj? && exists j :: 0 <= j < |p.value.props| && k == p.key + "." + p.value.props[j].key
  }

  /** `k` is a flattened name of some object-valued property of the record. */
  ghost predicate IsNestedKey(record: seq<Prop>, k: string) {
    exists i :: 0 <= i < |record| && IsNestedKeyOf(record[i], k)
  }

  lemma {:induction false} AssignGet(o: seq<Prop>, es: seq<Prop>, k: string)
    ensures Get(Assign(o, es), k) == LastAssigned(es, k, Get(o, k))
    decreases |es|
  {
    if es != [] {
      AssignGet(o, es[..|es| - 1], k);
    }
  }

  lemma {:induction false} AssignKeys(o: seq<Prop>, es: seq<Prop>)
    ensures Keys(o) <= Keys(Assign(o, es))
    ensures forall k :: k in Keys(Assign(o, es)) <==> k in Keys(o) || k in Keys(es)
    decreases |es|
  {
    if es != [] {
      var init, last := es[..|es| - 1], es[|es| - 1];
      assert es == init + [last];
      KeysAppend(init, [last]);
      var a := Assign(o, init);
      AssignKeys(o, init);
      assert Assign(o, es) == Set(a, last.key, last.value);
      var ka := Keys(a);
      assert Keys(Set(a, last.key, last.value)) == if last.key in ka then ka else ka + [last.key];
      forall k
        ensures k in Keys(Assign(o, es)) <==> k in ka || k == last.key
      {
      }
    }
  }

  lemma {:induction false} LastAssignedUnique(es: seq<Prop>, p: nat, otherwise: JsValue)
    requires UniqueKeys(es) && p < |es|
    ensures LastAssigned(es, es[p].key, otherwise) == es[p].value
    decreases |es|
  {
    if p < |es| - 1 {
      assert es[p] == es[..|es| - 1][p];
      LastAssignedUnique(es[..|es| - 1], p, otherwise);
    }
  }

  lemma {:induction false} LastAssignedNone(es: seq<Prop>, k: string, otherwise: JsValue)
    requires k !in Keys(es)
    ensures LastAssigned(es, k, otherwise) == otherwise
    decreases |es|
  {
    if es != [] {
      assert Keys(es) == Keys(es[..|es| - 1]) + [es[|es| - 1].key];
      LastAssignedNone(es[..|es| - 1], k, otherwise);
    }
  }

  lemma NestedEntriesKeys(p: Prop, k: string)
    ensures k in Keys(NestedEntries(p)) <==> IsNestedKeyOf(p, k)
  {
    var es := NestedEntries(p);
    if k in Keys(es) {
      var j :| 0 <= j < |es| && Keys(es)[j] == k;
      assert k == p.key + "." + p.value.props[j].key;
    }
    if IsNestedKeyOf(p, k) {
      var j :| 0 <= j < |p.value.props| && k == p.key + "." + p.value.props[j].key;
      assert Keys(es)[j] == k;
    }
  }

  lemma {:induction false} EntriesKeys(record: seq<Prop>, k: string)
    ensures k in Keys(Entries(record)) <==> IsNestedKey(record, k)
    decreases |record|
  {
    if record != [] {
      var n := |record| - 1;
      var init := record[..n];
      assert Entries(record) == Entries(init) + NestedEntries(record[n]);
      KeysAppend(Entries(init), NestedEntries(record[n]));
      assert IsNestedKey(record, k) <==> IsNestedKey(init, k) || IsNestedKeyOf(record[n], k) by {
        if IsNestedKey(record, k) {
          var i :| 0 <= i < |record| && IsNestedKeyOf(record[i], k);
          if i < n {
            assert record[i] == init[i];
          }
        }
        if IsNestedKey(init, k) {
          var i :| 0 <= i < |init| && IsNestedKeyOf(init[i], k);
          assert record[i] == init[i];
        }
      }
      EntriesKeys(init, k);
      NestedEntriesKeys(record[n], k);
    }
  }

  lemma KeysAppend(a: seq<Prop>, b: seq<Prop>)
    ensures Keys(a + b) == Keys(a) + Keys(b)
  {
  }

  /** The assignments made for the first properties come first. */
  lemma {:induction false} EntriesPrefix(record: seq<Prop>, m: nat)
    requires m <= |record|
    ensures Entries(record[..m]) <= Entries(record)
    decreases |record|
  {
    if m < |record| {
      var n := |record| - 1;
      assert record[..n][..m] == record[..m];
      assert Entries(record) == Entries(record[..n]) + NestedEntries(record[n]);
      EntriesPrefix(record[..n], m);
    } else {
      assert record[..m] == record;
    }
  }

  /** flattenObject keeps every property of the record in its place, with its value unless a flattened name overwrote it. */
  lemma FlattenKeepsRecord(record: seq<Prop>, k: string)
    ensures Keys(record) <= Keys(Flattened(record))
    ensures !IsNestedKey(record, k) ==> Get(Flattened(record), k) == Get(record, k)
  {
    AssignKeys(record, Entries(record));
    AssignGet(record, Entries(record), k);
    if !IsNestedKey(record, k) {
      EntriesKeys(record, k);
      LastAssignedNone(Entries(record), k, Get(record, k));
    }
  }

  /**
   * flattenObject adds `key.nestedKey` for every own property of an object-valued
   * property, and nothing else: one level deep, so a nested object's own objects stay
   * whole under their flattened name. When no two flattened names coincide, each
   * holds its nested value.
   */
  lemma FlattenAddsNested(record: seq<Prop>, i: nat, j: nat)
    requires i < |record| && record[i].value.Obj? && j < |record[i].value.props|
    ensures var k := record[i].key + "." + record[i].value.props[j].key;
            && k in Keys(Flattened(record))
            && (UniqueKeys(Entries(record)) ==> Get(Flattened(record), k) == record[i].value.props[j].value)
  {
    var k := record[i].key + "." + record[i].value.props[j].key;
    assert k in Keys(Flattened(record)) by {
      assert IsNestedKeyOf(record[i], k);
      EntriesKeys(record, k);
      AssignKeys(record, Entries(record));
    }
    if UniqueKeys(Entries(record)) {
      var p := NestedEntryAt(record, i, j);
      AssignGet(record, Entries(record), k);
      LastAssignedUnique(Entries(record), p, Get(record, k));
    }
  }

  /** Where the assignment for `record[i]`'s property `j` sits among all the assignments. */
  lemma NestedEntryAt(record: seq<Prop>, i: nat, j: nat) returns (p: nat)
    requires i < |record| && record[i].value.Obj? && j < |record[i].value.props|
    ensures p < |Entries(record)|
    ensures Entries(record)[p] == Prop(record[i].key + "." + record[i].value.props[j].key, record[i].value.props[j].value)
  {
    var before := Entries(record[..i]);
    EntriesStep(record, i);
    p := |before| + j;
    AppendIndex(before, NestedEntries(record[i]), j);
    EntriesPrefix(record, i + 1);
    PrefixIndex(Entries(record[..i + 1]), Entries(record), p);
  }

  lemma FlattenOnlyOneLevel(record: seq<Prop>, k: string)
    ensures k in Keys(Flattened(record)) <==> k in Keys(record) || IsNestedKey(record, k)
  {
    AssignKeys(record, Entries(record));
    EntriesKeys(record, k);
  }

  // ---------------------------------------------------------------------------
  // unflattenObject

  datatype JsError = TypeError(property: string)

  /** `o[keys[0]][keys[1]]...`, `undefined` once a step is not an object. */
  function GetPath(o: seq<Prop>, keys: seq<string>): JsValue
    requires |keys| >= 1
    decreases |keys|
  {
    if |keys| == 1 then Get(o, keys[0])
    else match Get(o, keys[0])
      case Obj(props) => GetPath(props, keys[1..])
      case _ => Undefined
  }

  /** No step of the walk reaches a truthy value that is not an object. */
  predicate PathOpen(o: seq<Prop>, keys: seq<string>)
    requires |keys| >= 1
    decreases |keys|
  {
    |keys| == 1 ||
    var current := Get(o, keys[0]);
    !Truthy(current) || (current.Obj? && PathOpen(current.props, keys[1..]))
  }

  /**
   * The `reduce` of `unflattenObject`: walks `keys`, putting `{}` in place of each
   * falsy step, and stores `v` under the last key. Strict-mode code cannot create a
   * property on a primitive, so walking through a truthy primitive is a TypeError.
   */
  function InsertPath(o: seq<Prop>, keys: seq<string>, v: JsValue): (r: Result<seq<Prop>, JsError>)
    requires |keys| >= 1
    ensures r.Success? <==> PathOpen(o, keys)
    ensures r.Success? ==> GetPath(r.value, keys) == v
    ensures r.Success? ==> forall k :: k != keys[0] ==> Get(r.value, k) == Get(o, k)
    decreases |keys|
  {
    if |keys| == 1 then Success(Set(o, keys[0], v))
    else
      var current := Get(o, keys[0]);
      if Truthy(current) && !current.Obj? then Failure(TypeError(keys[1]))
      else
        var props := if current.Obj? then current.props else [];
        var inner :- InsertPath(props, keys[1..], v);
        Success(Set(o, keys[0], Obj(inner)))
  }

  /** The object seeded for the head of a dotted key. */
  function Stub(tenantId: string, idValue: JsValue): seq<Prop> {
    [Prop("TenantId", Str(tenantId)), Prop("Id", idValue)]
  }

  /** `this.id ? this.record[head.split('_')[0]] : crypto.randomUUID()`. */
  function StubId(id: string, record: seq<Prop>, head: string, newUuid: string): JsValue {
    if id != "" then Get(record, Split(head, '_')[0]) else Str(newUuid)
  }

  /** The body of the for-in loop of `unflattenObject`, for one key of the form value. */
  function UnflattenStep(result: seq<Prop>, key: string, value: JsValue, tenantId: string,
                         id: string, record: seq<Prop>, newUuid: string): Result<seq<Prop>, JsError>
  {
    var keys := Split(key, '.');
    var seeded := if |keys| > 1 && !Truthy(Get(result, keys[0]))
                  then Set(result, keys[0], Obj(Stub(tenantId, StubId(id, record, keys[0], newUuid))))
                  else result;
    InsertPath(seeded, keys, value)
  }

  /**
   * `unflattenObject(obj, tenantId)` when editing the record `id` (or adding, when `id`
   * is empty); `newId(n)` is the UUID drawn while handling the key at position n.
   */
  function Unflattened(obj: seq<Prop>, tenantId: string, id: string, record: seq<Prop>, newId: nat -> string)
    : Result<seq<Prop>, JsError>
    decreases |obj|
  {
    if obj == [] then Success([])
    else
      var n := |obj| - 1;
      var result :- Unflattened(obj[..n], tenantId, id, record, newId);
      UnflattenStep(result, obj[n].key, obj[n].value, tenantId, id, record, newId(n))
  }

  /** The head of a key: the part before its first point. */
  function Head(key: string): string {
    Split(key, '.')[0]
  }

  /** One step stores its value at its path and leaves every other head alone. */
  lemma StepStores(result: seq<Prop>, key: string, value: JsValue, tenantId: string,
                   id: string, record: seq<Prop>, newUuid: string)
    requires UnflattenStep(result, key, value, tenantId, id, record, newUuid).Success?
    ensures var r := UnflattenStep(result, key, value, tenantId, id, record, newUuid).value;
            && GetPath(r, Split(key, '.')) == value
            && forall h :: h != Head(key) ==> Get(r, h) == Get(result, h)
  {
  }

  /** A key without a point is copied as it is, into the next place. */
  lemma StepDotless(result: seq<Prop>, key: string, value: JsValue, tenantId: string,
                    id: string, record: seq<Prop>, newUuid: string)
    requires '.' !in key && key !in Keys(result)
    ensures UnflattenStep(result, key, value, tenantId, id, record, newUuid) == Success(result + [Prop(key, value)])
  {
    SplitWithoutSeparator(key, '.');
    SetNew(result, key, value);
  }

  /** unflattenObject copies an object without dotted keys as it is. */
  lemma {:induction false} UnflattenDotless(obj: seq<Prop>, tenantId: string, id: string, record: seq<Prop>, newId: nat -> string)
    requires UniqueKeys(obj)
    requires forall i :: 0 <= i < |obj| ==> '.' !in obj[i].key
    ensures Unflattened(obj, tenantId, id, record, newId) == Success(obj)
    decreases |obj|
  {
    if obj != [] {
      var n := |obj| - 1;
      var init, last := obj[..n], obj[n];
      assert obj == init + [last];
      assert last.key !in Keys(init) && '.' !in last.key by {
        assert obj == init + [last];
      }
      assert UniqueKeys(init) && forall i :: 0 <= i < |init| ==> '.' !in init[i].key by {
        assert forall i :: 0 <= i < |init| ==> init[i] == obj[i];
      }
      UnflattenDotless(init, tenantId, id, record, newId);
      StepDotless(init, last.key, last.value, tenantId, id, record, newId(n));
    }
  }

  /**
   * unflattenObject stores a key's value at its (dotted) path, unless a later key with
   * the same head replaced what is there.
   */
  lemma {:induction false} UnflattenStores(obj: seq<Prop>, tenantId: string, id: string, record: seq<Prop>,
                                           newId: nat -> string, i: nat)
    requires Unflattened(obj, tenantId, id, record, newId).Success?
    requires i < |obj|
    requires forall j :: i < j < |obj| ==> Head(obj[j].key) != Head(obj[i].key)
    ensures GetPath(Unflattened(obj, tenantId, id, record, newId).value, Split(obj[i].key, '.')) == obj[i].value
    decreases |obj|
  {
    var n := |obj| - 1;
    UnflattenedLast(obj, tenantId, id, record, newId);
    if i < n {
      HeadsDistinctInPrefix(obj, obj[..n], i);
      UnflattenStores(obj[..n], tenantId, id, record, newId, i);
    }
    LastStep(obj, tenantId, id, record, newId, i);
  }

  /** The keys before the last still have no later key with the same head as key `i`. */
  lemma HeadsDistinctInPrefix(obj: seq<Prop>, init: seq<Prop>, i: nat)
    requires |obj| >= 1 && init == obj[..|obj| - 1] && i < |init|
    requires forall j :: i < j < |obj| ==> Head(obj[j].key) != Head(obj[i].key)
    ensures init[i] == obj[i]
    ensures forall j :: i < j < |init| ==> Head(init[j].key) != Head(init[i].key)
  {
  }

  /** The inductive step of `UnflattenStores`: from the keys before the last to all of them. */
  lemma LastStep(obj: seq<Prop>, tenantId: string, id: string, record: seq<Prop>, newId: nat -> string, i: nat)
    requires Unflattened(obj, tenantId, id, record, newId).Success?
    requires i < |obj|
    requires forall j :: i < j < |obj| ==> Head(obj[j].key) != Head(obj[i].key)
    requires i < |obj| - 1 ==>
      Unflattened(obj[..|obj| - 1], tenantId, id, record, newId).Success? &&
      GetPath(Unflattened(obj[..|obj| - 1], tenantId, id, record, newId).value, Split(obj[i].key, '.')) == obj[i].value
    ensures GetPath(Unflattened(obj, tenantId, id, record, newId).value, Split(obj[i].key, '.')) == obj[i].value
  {
    var n := |obj| - 1;
    if i < n {
      assert Head(obj[n].key) != Head(obj[i].key);
      LastKeepsPath(obj, tenantId, id, record, newId, Split(obj[i].key, '.'));
    } else {
      LastStores(obj, tenantId, id, record, newId);
    }
  }

  /** The last key of a successful call leaves every path alone whose head is not its own. */
  lemma LastKeepsPath(obj: seq<Prop>, tenantId: string, id: string, record: seq<Prop>, newId: nat -> string,
                      keys: seq<string>)
    requires obj != [] && Unflattened(obj, tenantId, id, record, newId).Success?
    requires |keys| >= 1 && keys[0] != Head(obj[|obj| - 1].key)
    ensures Unflattened(obj[..|obj| - 1], tenantId, id, record, newId).Success?
    ensures GetPath(Unflattened(obj, tenantId, id, record, newId).value, keys) ==
            GetPath(Unflattened(obj[..|obj| - 1], tenantId, id, record, newId).value, keys)
  {
    var n := |obj| - 1;
    UnflattenedLast(obj, tenantId, id, record, newId);
    var result := Unflattened(obj[..n], tenantId, id, record, newId).value;
    StepStores(result, obj[n].key, obj[n].value, tenantId, id, record, newId(n));
    GetPathHead(Unflattened(obj, tenantId, id, record, newId).value, result, keys);
  }

  /** The last key of a successful call is stored at its path. */
  lemma LastStores(obj: seq<Prop>, tenantId: string, id: string, record: seq<Prop>, newId: nat -> string)
    requires obj != [] && Unflattened(obj, tenantId, id, record, newId).Success?
    ensures GetPath(Unflattened(obj, tenantId, id, record, newId).value, Split(obj[|obj| - 1].key, '.')) == obj[|obj| - 1].value
  {
    var n := |obj| - 1;
    UnflattenedLast(obj, tenantId, id, record, newId);
    StepStores(Unflattened(obj[..n], tenantId, id, record, newId).value, obj[n].key, obj[n].value, tenantId, id, record, newId(n));
  }

  /** A call that succeeds succeeded on all keys but the last, and then on the last. */
  lemma UnflattenedLast(obj: seq<Prop>, tenantId: string, id: string, record: seq<Prop>, newId: nat -> string)
    requires obj != [] && Unflattened(obj, tenantId, id, record, newId).Success?
    ensures var n := |obj| - 1;
            && Unflattened(obj[..n], tenantId, id, record, newId).Success?
            && UnflattenStep(Unflattened(obj[..n], tenantId, id, record, newId).value, obj[n].key, obj[n].value,
                             tenantId, id, record, newId(n)) == Unflattened(obj, tenantId, id, record, newId)
  {
  }

  lemma GetPathHead(a: seq<Prop>, b: seq<Prop>, keys: seq<string>)
    requires |keys| >= 1 && Get(a, keys[0]) == Get(b, keys[0])
    ensures GetPath(a, keys) == GetPath(b, keys)
  {
  }

  /**
   * A key `p.q` whose head holds nothing truthy replaces the head with the seeded
   * `TenantId` and `Id`, followed by `q` with the value.
   */
  lemma StepSeeds(result: seq<Prop>, p: string, q: string, v: JsValue, tenantId: string, id: string,
                  record: seq<Prop>, newUuid: string)
    requires '.' !in p && '.' !in q && q != "TenantId" && q != "Id"
    requires !Truthy(Get(result, p))
    ensures UnflattenStep(result, p + "." + q, v, tenantId, id, record, newUuid) ==
            Success(Set(result, p, Obj(Stub(tenantId, StubId(id, record, p, newUuid)) + [Prop(q, v)])))
  {
    SplitDotted(p, q);
    var stub := Stub(tenantId, StubId(id, record, p, newUuid));
    StubTakes(tenantId, StubId(id, record, p, newUuid), q, v);
    InsertBelowStub(result, p, q, stub, v);
  }

  /** `p.q` splits at its one point. */
  lemma SplitDotted(p: string, q: string)
    requires '.' !in p && '.' !in q
    ensures Split(p + "." + q, '.') == [p, q]
  {
    assert p + "." + q == p + ['.'] + q;
    SplitAfterHead(p, '.', q);
    SplitWithoutSeparator(q, '.');
  }

  /** A key other than `TenantId` and `Id` goes after the two seeded properties. */
  lemma StubTakes(tenantId: string, idValue: JsValue, q: string, v: JsValue)
    requires q != "TenantId" && q != "Id"
    ensures InsertPath(Stub(tenantId, idValue), [q], v) == Success(Stub(tenantId, idValue) + [Prop(q, v)])
  {
    var stub := Stub(tenantId, idValue);
    assert Keys(stub) == ["TenantId", "Id"];
    SetNew(stub, q, v);
  }

  /** Two keys below a freshly seeded head: the head ends up holding the stub with the value stored. */
  lemma InsertBelowStub(result: seq<Prop>, p: string, q: string, stub: seq<Prop>, v: JsValue)
    requires InsertPath(stub, [q], v) == Success(stub + [Prop(q, v)])
    ensures InsertPath(Set(result, p, Obj(stub)), [p, q], v) == Success(Set(result, p, Obj(stub + [Prop(q, v)])))
  {
    var seeded := Set(result, p, Obj(stub));
    assert Get(seeded, p) == Obj(stub);
    assert [p, q][1..] == [q];
    assert InsertPath(seeded, [p, q], v) == Success(Set(seeded, p, Obj(stub + [Prop(q, v)])));
    SetTwice(result, p, Obj(stub), Obj(stub + [Prop(q, v)]));
  }

  /**
   * The first dotted key with a given head seeds the head with `TenantId` and `Id`
   * (the record's own foreign key when editing, a new UUID when adding) and then
   * stores its value beside them.
   */
  lemma UnflattenSeedsStub(p: string, q: string, v: JsValue, tenantId: string, id: string,
                           record: seq<Prop>, newId: nat -> string)
    requires '.' !in p && '.' !in q && q != "TenantId" && q != "Id"
    ensures Unflattened([Prop(p + "." + q, v)], tenantId, id, record, newId) ==
            Success([Prop(p, Obj(Stub(tenantId, StubId(id, record, p, newId(0))) + [Prop(q, v)]))])
  {
    var obj := [Prop(p + "." + q, v)];
    assert obj[..0] == [];
    StepSeeds([], p, q, v, tenantId, id, record, newId(0));
  }

  /** A property that already holds a truthy primitive blocks a dotted key with its name as head: a TypeError. */
  lemma UnflattenBlockedByPrimitive(p: string, q: string, v: JsValue, w: JsValue, tenantId: string, id: string,
                                    record: seq<Prop>, newId: nat -> string)
    requires '.' !in p && '.' !in q && Truthy(v) && !v.Obj?
    ensures Unflattened([Prop(p, v), Prop(p + "." + q, w)], tenantId, id, record, newId).Failure?
  {
    var obj := [Prop(p, v), Prop(p + "." + q, w)];
    assert obj[..1] == [Prop(p, v)] && obj[..1][..0] == [];
    SplitWithoutSeparator(p, '.');
    SetNew([], p, v);
    SplitAfterHead(p, '.', q);
    SplitWithoutSeparator(q, '.');
    assert p + "." + q == p + ['.'] + q;
    assert Split(p + "." + q, '.') == [p, q];
  }

  /** A property that holds a falsy value, such as an empty text, is replaced by the seeded object. */
  lemma UnflattenReplacesFalsy(p: string, q: string, w: JsValue, tenantId: string, id: string,
                               record: seq<Prop>, newId: nat -> string)
    requires '.' !in p && '.' !in q && q != "TenantId" && q != "Id"
    ensures Unflattened([Prop(p, Str("")), Prop(p + "." + q, w)], tenantId, id, record, newId) ==
            Success([Prop(p, Obj(Stub(tenantId, StubId(id, record, p, newId(1))) + [Prop(q, w)]))])
  {
    var first := [Prop(p, Str(""))];
    var second := Prop(p + "." + q, w);
    var seeded := Obj(Stub(tenantId, StubId(id, record, p, newId(1))) + [Prop(q, w)]);
    assert first + [second] == [Prop(p, Str("")), Prop(p + "." + q, w)];
    assert Unflattened(first, tenantId, id, record, newId) == Success(first) by {
      UnflattenedSnoc([], Prop(p, Str("")), tenantId, id, record, newId);
      StepDotless([], p, Str(""), tenantId, id, record, newId(0));
      assert [] + first == first;
    }
    UnflattenedSnoc(first, second, tenantId, id, record, newId);
    StepSeeds(first, p, q, w, tenantId, id, record, newId(1));
    assert Set(first, p, seeded) == [Prop(p, seeded)] by {
      assert first[1..] == [];
    }
  }

  /** Handling one more key, after a prefix that succeeded. */
  lemma UnflattenedSnoc(init: seq<Prop>, last: Prop, tenantId: string, id: string, record: seq<Prop>, newId: nat -> string)
    requires Unflattened(init, tenantId, id, record, newId).Success?
    ensures Unflattened(init + [last], tenantId, id, record, newId) ==
            UnflattenStep(Unflattened(init, tenantId, id, record, newId).value, last.key, last.value,
                          tenantId, id, record, newId(|init|))
  {
    assert (init + [last])[..|init|] == init;
  }

  // ---------------------------------------------------------------------------
  // onSubmit

  /** An operation of a JSON Patch document (RFC 6902) as `compare` produces it. */
  datatype PatchOp = PatchOp(op: string, path: string, value: JsValue)

  /** The filter of `onSubmit`: no point in the path, and not a search control. */
  predicate Sendable(o: PatchOp) {
    '.' !in o.path && !EndsWith(o.path, "_search")
  }

  /** The operations sent: those of `compare(record, data)` that pass the filter, in order. */
  function PatchOps(record: seq<Prop>, data: seq<Prop>, compare: (JsValue, JsValue) -> seq<PatchOp>): (ops: seq<PatchOp>)
    ensures forall i :: 0 <= i < |ops| ==> Sendable(ops[i]) && ops[i] in compare(Obj(record), Obj(data))
    ensures forall o :: o in compare(Obj(record), Obj(data)) && Sendable(o) ==> o in ops
  {
    var all := compare(Obj(record), Obj(data));
    assert forall o :: o in all ==> exists i :: 0 <= i < |all| && all[i] == o;
    Filter(all, Sendable)
  }

  /** The operations are sent in `compare`'s order: those from a first run of operations come first. */
  lemma PatchOpsInOrder(record: seq<Prop>, data: seq<Prop>, compare: (JsValue, JsValue) -> seq<PatchOp>,
                        a: seq<PatchOp>, b: seq<PatchOp>)
    requires compare(Obj(record), Obj(data)) == a + b
    ensures PatchOps(record, data, compare) == Filter(a, Sendable) + Filter(b, Sendable)
  {
    FilterAppend(a, b, Sendable);
  }

  /** A sendable operation is sent as many times as `compare` lists it; any other, never. */
  lemma PatchOpsMultiplicity(record: seq<Prop>, data: seq<Prop>, compare: (JsValue, JsValue) -> seq<PatchOp>, o: PatchOp)
    ensures multiset(PatchOps(record, data, compare))[o] ==
            if Sendable(o) then multiset(compare(Obj(record), Obj(data)))[o] else 0
  {
    FilterMultiplicity(compare(Obj(record), Obj(data)), Sendable, o);
  }

  /** When every operation is sendable, `compare`'s list is sent unchanged. */
  lemma PatchOpsAllSent(record: seq<Prop>, data: seq<Prop>, compare: (JsValue, JsValue) -> seq<PatchOp>)
    requires forall i :: 0 <= i < |compare(Obj(record), Obj(data))| ==> Sendable(compare(Obj(record), Obj(data))[i])
    ensures PatchOps(record, data, compare) == compare(Obj(record), Obj(data))
  {
    FilterAll(compare(Obj(record), Obj(data)), Sendable);
  }

  /** `this.form.value`: each control's value under its name. */
  function FormValue(controls: seq<NamedControl>): (v: seq<Prop>)
    ensures Keys(v) == Names(controls)
  {
    if controls == [] then [] else [Prop(controls[0].name, controls[0].control.value)] + FormValue(controls[1..])
  }

  /** The request `onSubmit` makes, or what stops it. */
  datatype ApiCall =
    | NoCall
    | PatchRecordById(entityName: string, id: string, patch: seq<PatchOp>)
    | AddRecord(entityName: string, data: seq<Prop>)
    | Threw(error: JsError)

  /** `tenantId ?? ''`. */
  function OrEmpty(tenantId: Option<string>): string {
    match tenantId
    case Some(t) => t
    case None => ""
  }

  /** The part of the component's state the modelled methods use. */
  class TemplateAddComponent {
    var entityName: string
    var id: string
    var record: seq<Prop>
    var controls: seq<NamedControl>
    var fieldOptions: map<string, seq<JsValue>>

    /** The inputs `entityName` and `id` (empty when adding); no record, an empty form and no options. */
    constructor (entityName: string, id: string)
      ensures this.entityName == entityName && this.id == id
      ensures record == [] && controls == [] && fieldOptions == map[]
    {
      this.entityName := entityName;
      this.id := id;
      record := [];
      controls := [];
      fieldOptions := map[];
    }

    /** `initializeForm(fields)`; it returns the entries with `required` normalised, which the source does in place. */
    method InitializeForm(fields: seq<Field>) returns (normalised: seq<Field>)
      modifies this
      ensures (FormState(controls, fieldOptions), normalised) == InitFields(old(FormState(controls, fieldOptions)), fields)
      ensures entityName == old(entityName) && id == old(id) && record == old(record)
      decreases fields
    {
      ghost var st0 := FormState(controls, fieldOptions);
      normalised := [];
      var i := 0;
      while i < |fields|
        invariant 0 <= i <= |fields|
        invariant (FormState(controls, fieldOptions), normalised) == InitFields(st0, fields[..i])
        invariant entityName == old(entityName) && id == old(id) && record == old(record)
      {
        var field := InitializeEntry(fields[i]);
        normalised := normalised + [field];
        InitFieldsStep(st0, fields, i);
        i := i + 1;
      }
      assert fields[..|fields|] == fields;
    }

    /** The body of the loop of `initializeForm`, for one entry. */
    method InitializeEntry(field: Field) returns (normalised: Field)
      modifies this
      ensures (FormState(controls, fieldOptions), normalised) == InitField(old(FormState(controls, fieldOptions)), field)
      ensures entityName == old(entityName) && id == old(id) && record == old(record)
      decreases field
    {
      if field.dataType == "section" || field.dataType == "groupfield" || field.dataType == "tab" {
        var children := InitializeForm(field.fields);
        normalised := field.(fields := children);
      } else {
        var required := InitializeLeaf(field);
        normalised := field.(required := Bool(required));
      }
    }

    /** What `initializeForm` does for an entry that is not a container. */
    method InitializeLeaf(field: Field) returns (required: bool)
      requires !IsContainer(field)
      modifies this
      ensures FormState(controls, fieldOptions) == InitLeaf(old(FormState(controls, fieldOptions)), field)
      ensures required == IsRequired(field.required)
      ensures entityName == old(entityName) && id == old(id) && record == old(record)
    {
      var defaultValue := GetDefaultValue(field.dataType);
      var validators;
      validators, required := PushValidators(field);
      var form := AddControl(controls, field.fieldName, FormControl(defaultValue, validators));
      var options := fieldOptions;
      if Lower(field.dataType) == "guid" {
        form := AddControl(form, SearchControlName(field.fieldName), FormControl(Str(""), []));
        if field.fieldName !in options {
          options := options[field.fieldName := []];
        }
      }
      controls, fieldOptions := form, options;
    }

    /** The validators `initializeForm` pushes for a field, and whether it judged the field required. */
    method PushValidators(field: Field) returns (validators: seq<Validator>, required: bool)
      ensures validators == FieldValidators(field)
      ensures required == IsRequired(field.required)
    {
      validators := [];
      if (field.required.Bool? && field.required.b) || (field.required.Str? && Lower(field.required.s) == "true") {
        validators := validators + [Required];
        required := true;
      } else {
        required := false;
      }
      if Lower(field.dataType) == "numeric" {
        if Truthy(field.scale) {
          var scale := ScaleOf(field.scale);
          validators := validators + [Pattern(WithFraction(FractionPattern(scale)))];
        } else {
          validators := validators + [Pattern(Integer)];
        }
      }
    }

    /** `flattenObject(record)`. */
    method FlattenObject(record: seq<Prop>) returns (result: seq<Prop>)
      ensures result == Flattened(record)
    {
      result := record;
      ghost var done: seq<Prop> := [];
      var i := 0;
      while i < |record|
        invariant 0 <= i <= |record|
        invariant done == Entries(record[..i])
        invariant result == Assign(record, done)
      {
        EntriesStep(record, i);
        result := FlattenProperty(result, record[i], record, done);
        done := done + NestedEntries(record[i]);
        i := i + 1;
      }
      assert record[..|record|] == record;
    }

    /** The body of the outer loop of `flattenObject`, for the property `p` of the record. */
    method FlattenProperty(result0: seq<Prop>, p: Prop, ghost record: seq<Prop>, ghost done: seq<Prop>)
      returns (result: seq<Prop>)
      requires result0 == Assign(record, done)
      ensures result == Assign(record, done + NestedEntries(p))
    {
      if p.value.Obj? {
        assert p == Prop(p.key, Obj(p.value.props));
        result := FlattenNested(result0, p.key, p.value.props, record, done);
      } else {
        assert done + NestedEntries(p) == done;
        result := result0;
      }
    }

    /** The inner loop of `flattenObject`, over the own properties of `record[key]`. */
    method FlattenNested(result0: seq<Prop>, key: string, nestedObj: seq<Prop>, ghost record: seq<Prop>, ghost done: seq<Prop>)
      returns (result: seq<Prop>)
      requires result0 == Assign(record, done)
      ensures result == Assign(record, done + NestedEntries(Prop(key, Obj(nestedObj))))
    {
      ghost var nested := NestedEntries(Prop(key, Obj(nestedObj)));
      result := result0;
      var j := 0;
      assert done + nested[..0] == done;
      while j < |nestedObj|
        invariant 0 <= j <= |nestedObj|
        invariant result == Assign(record, done + nested[..j])
      {
        var newKey := key + "." + nestedObj[j].key;
        assert nested[j] == Prop(newKey, nestedObj[j].value);
        AppendPrefixSnoc(done, nested, j);
        AssignSnoc(record, done + nested[..j], Prop(newKey, nestedObj[j].value));
        result := Set(result, newKey, nestedObj[j].value);
        j := j + 1;
      }
      assert nested[..j] == nested;
    }

    /** `unflattenObject(obj, tenantId)`; a TypeError thrown by the walk is the `Failure`. */
    method UnflattenObject(obj: seq<Prop>, tenantId: string, newId: nat -> string) returns (r: Result<seq<Prop>, JsError>)
      ensures r == Unflattened(obj, tenantId, id, record, newId)
    {
      var result: seq<Prop> := [];
      var i := 0;
      while i < |obj|
        invariant 0 <= i <= |obj|
        invariant Unflattened(obj[..i], tenantId, id, record, newId) == Success(result)
      {
        var stored := UnflattenKey(result, obj[i].key, obj[i].value, tenantId, newId(i));
        UnflattenedPrefix(obj, tenantId, id, record, newId, i, result);
        if stored.Failure? {
          return Failure(stored.error);
        }
        result := stored.value;
        i := i + 1;
      }
      assert obj[..|obj|] == obj;
      return Success(result);
    }

    /** The body of the for-in loop of `unflattenObject`, for the key `key`; `newUuid` is what `crypto.randomUUID()` would return. */
    method UnflattenKey(result: seq<Prop>, key: string, value: JsValue, tenantId: string, newUuid: string)
      returns (r: Result<seq<Prop>, JsError>)
      ensures r == UnflattenStep(result, key, value, tenantId, id, record, newUuid)
    {
      var keys := Split(key, '.');
      var current := result;
      if |keys| > 1 && !Truthy(Get(current, keys[0])) {
        var existingIdKey := Split(keys[0], '_')[0];
        var recordId := if id != "" then Get(record, existingIdKey) else Str(newUuid);
        current := Set(current, keys[0], Obj([Prop("TenantId", Str(tenantId)), Prop("Id", recordId)]));
      }
      r := InsertPath(current, keys, value);
    }

    /**
     * `onSubmit()`, given what `formValidation()` answered and what the token holds: an
     * edit sends the filtered patch from the record to the form's data with `Id` set to
     * the route id; an add sends the data.
     */
    method OnSubmit(valid: bool, tenantId: Option<string>, newId: nat -> string,
                    compare: (JsValue, JsValue) -> seq<PatchOp>) returns (call: ApiCall)
      ensures !valid ==> call == NoCall
      ensures valid ==>
        match Unflattened(FormValue(controls), OrEmpty(tenantId), id, record, newId)
        case Failure(e) => call == Threw(e)
        case Success(data) =>
          if id != "" then call == PatchRecordById(entityName, id, PatchOps(record, Set(data, "Id", Str(id)), compare))
          else call == AddRecord(entityName, data)
      ensures call.PatchRecordById? ==> forall i :: 0 <= i < |call.patch| ==> Sendable(call.patch[i])
    {
      if !valid {
        return NoCall;
      }
      var data := UnflattenObject(FormValue(controls), OrEmpty(tenantId), newId);
      if data.Failure? {
        return Threw(data.error);
      }
      if id != "" {
        var edited := Set(data.value, "Id", Str(id));
        var patch := PatchOps(record, edited, compare);
        call := PatchRecordById(entityName, id, patch);
      } else {
        call := AddRecord(entityName, data.value);
      }
    }
  }

  /** The loop of `UnflattenObject`: one more key either extends the prefix or ends the whole call with its error. */
  lemma UnflattenedPrefix(obj: seq<Prop>, tenantId: string, id: string, record: seq<Prop>, newId: nat -> string,
                          i: nat, result: seq<Prop>)
    requires i < |obj| && Unflattened(obj[..i], tenantId, id, record, newId) == Success(result)
    ensures var stored := UnflattenStep(result, obj[i].key, obj[i].value, tenantId, id, record, newId(i));
            && (stored.Success? ==> Unflattened(obj[..i + 1], tenantId, id, record, newId) == stored)
            && (stored.Failure? ==> Unflattened(obj, tenantId, id, record, newId) == stored)
  {
    TakeSnoc(obj, i);
    UnflattenedSnoc(obj[..i], obj[i], tenantId, id, record, newId);
    if UnflattenStep(result, obj[i].key, obj[i].value, tenantId, id, record, newId(i)).Failure? {
      UnflattenFailureSticks(obj, tenantId, id, record, newId, i + 1);
    }
  }

  /** Once a key throws, so does the whole call. */
  lemma {:induction false} UnflattenFailureSticks(obj: seq<Prop>, tenantId: string, id: string, record: seq<Prop>,
                                                  newId: nat -> string, m: nat)
    requires m <= |obj| && Unflattened(obj[..m], tenantId, id, record, newId).Failure?
    ensures Unflattened(obj, tenantId, id, record, newId) == Unflattened(obj[..m], tenantId, id, record, newId)
    decreases |obj| - m
  {
    if m < |obj| {
      assert obj[..m + 1][..m] == obj[..m];
      UnflattenFailureSticks(obj, tenantId, id, record, newId, m + 1);
    } else {
      assert obj[..m] == obj;
    }
  }
}
