/** What normalising a record means: when its keys agree with another's, which number it stands for, and when
    it is incomplete or refused. */
module ReconciliationEntries {
  import opened Outcomes
  import opened Decimals
  import opened Digits
  import opened Reconciliation
  import Instants

  // --- Text ------------------------------------------------------------------------------------------------------

  /** The field a record has for a key on a side. */
  ghost predicate HasField(record: Record, name: string, field: Field)
  {
    if name in record.values then record.values[name] == field else field == Other
  }

  ghost predicate FieldFor(key: Key, side: Side, record: Record, field: Field)
  {
    match side
    case Left => HasField(record, key.leftField, field)
    case Right => HasField(record, key.rightField, field)
  }

  /** A field reads as a text: it is a text or a usable number, trimmed if asked, composed, not blank and at
      most 512 characters long. */
  ghost predicate ReadsAs(platform: Platform, field: Field, trim: bool, text: string)
  {
    && (field.Text? || (field.Number? && field.usable))
    && (trim ==> text == platform.compose(platform.trim(field.text))) && (!trim ==> text == platform.compose(field.text))
    && platform.trim(text) != "" && |text| < 513
  }

  lemma TextIsWhatItReadsAs(platform: Platform, field: Field, trim: bool, text: string)
    ensures TextOf(platform, field, trim) == Some(text) <==> ReadsAs(platform, field, trim, text)
  {
  }

  lemma FieldIsUnique(key: Key, side: Side, record: Record, field: Field)
    ensures FieldFor(key, side, record, field)
       <==> field == ValueAt(record, if side == Left then key.leftField else key.rightField)
  {
  }

  // --- Keys ---------------------------------------------------------------------------------------------------------

  /** A key is read from a field: any text, the text of a number, or the text of a time. */
  ghost predicate KeyReadable(platform: Platform, key: Key, field: Field)
  {
    exists text :: ReadsAs(platform, field, key.trim, text)
                   && (key.kind == DecimalKey ==> ReadDecimalText(text).Some?)
                   && (key.kind == TimeKey ==> Instants.Parse(text).Some?)
  }

  /** Two readable fields agree under a key: the same text, the same number or the same moment. */
  ghost predicate KeysAgree(platform: Platform, key: Key, a: Field, b: Field)
  {
    exists x, y :: ReadsAs(platform, a, key.trim, x) && ReadsAs(platform, b, key.trim, y) && TextsAgree(key.kind, x, y)
  }

  ghost predicate TextsAgree(kind: KeyType, x: string, y: string)
  {
    match kind
    case TextKey => x == y
    case DecimalKey =>
      ReadDecimalText(x).Some? && ReadDecimalText(y).Some? && Amount(ReadDecimalText(x).value) == Amount(ReadDecimalText(y).value)
    case TimeKey =>
      Instants.Parse(x).Some? && Instants.Parse(y).Some?
      && Instants.UtcOf(Instants.Parse(x).value) == Instants.UtcOf(Instants.Parse(y).value)
  }

  lemma KeyIsReadable(platform: Platform, key: Key, side: Side, record: Record, field: Field)
    requires FieldFor(key, side, record, field)
    ensures KeyOf(platform, key, side, record).Some? <==> KeyReadable(platform, key, field)
  {
    FieldIsUnique(key, side, record, field);
    var raw := TextOf(platform, field, key.trim);
    if raw.Some? { TextIsWhatItReadsAs(platform, field, key.trim, raw.value); }
    if text :| ReadsAs(platform, field, key.trim, text) { TextIsWhatItReadsAs(platform, field, key.trim, text); }
    hide TextOf, ReadsAs, ReadDecimalText, DecimalText, FieldFor, Instants.Parse;
  }

  /** Two records have the same key exactly when their fields agree: as texts, as numbers whatever their
      notation, or as moments whatever their offset. */
  lemma SameKeyIffFieldsAgree(platform: Platform, key: Key, side: Side, record: Record, a: Field, side': Side,
                              record': Record, b: Field)
    requires FieldFor(key, side, record, a) && FieldFor(key, side', record', b)
    ensures KeyOf(platform, key, side, record).Some? && KeyOf(platform, key, side, record) == KeyOf(platform, key, side', record')
       <==> KeysAgree(platform, key, a, b)
  {
    FieldIsUnique(key, side, record, a);
    FieldIsUnique(key, side', record', b);
    var x, y := TextOf(platform, a, key.trim), TextOf(platform, b, key.trim);
    if x.Some? { TextIsWhatItReadsAs(platform, a, key.trim, x.value); }
    if y.Some? { TextIsWhatItReadsAs(platform, b, key.trim, y.value); }
    forall text
      ensures x == Some(text) <==> ReadsAs(platform, a, key.trim, text)
      ensures y == Some(text) <==> ReadsAs(platform, b, key.trim, text)
    {
      TextIsWhatItReadsAs(platform, a, key.trim, text);
      TextIsWhatItReadsAs(platform, b, key.trim, text);
    }
    if x.Some? && y.Some? { SameTextKey(key.kind, x.value, y.value); }
    hide TextOf, ReadsAs, FieldFor, ReadDecimalText, DecimalText, TextsAgree, Instants.Instant;
  }

  function KeyTextOf(kind: KeyType, text: string): Option<string>
  {
    match kind
    case TextKey => Some(text)
    case TimeKey => Instants.Instant(text)
    case DecimalKey => NormalText(ReadDecimalText(text))
  }

  lemma SameTextKey(kind: KeyType, x: string, y: string)
    ensures KeyTextOf(kind, x).Some? && KeyTextOf(kind, x) == KeyTextOf(kind, y) <==> TextsAgree(kind, x, y)
  {
    match kind {
      case TextKey =>
      case DecimalKey =>
        var a, b := ReadDecimalText(x), ReadDecimalText(y);
        hide ReadDecimalText, Amount, DecimalText;
        if a.Some? && b.Some? { SameTextIffSameNumber(a.value, b.value); }
      case TimeKey =>
        var t, u := Instants.Parse(x), Instants.Parse(y);
        if t.Some? { Instants.ParsedIsWritten(x); }
        if u.Some? { Instants.ParsedIsWritten(y); }
        if t.Some? && u.Some? { Instants.SameInstantIffSameUtc(t.value, u.value); }
        hide Instants.UtcOf, Instants.Microseconds, Instants.Parse, Instants.IntText;
    }
  }

  // --- Values -----------------------------------------------------------------------------------------------------------

  /** The conversion of a unit is the first one from it. */
  ghost predicate Converts(conversions: seq<Conversion>, unit: Option<string>, c: Conversion)
  {
    exists i | 0 <= i < |conversions| ::
      conversions[i] == c && unit == Some(c.from) && forall j | 0 <= j < i :: unit != Some(conversions[j].from)
  }

  lemma {:induction false} FirstConversion(conversions: seq<Conversion>, unit: Option<string>)
    ensures ConversionFor(conversions, unit).None? <==> forall i | 0 <= i < |conversions| :: unit != Some(conversions[i].from)
    ensures ConversionFor(conversions, unit).Some? ==> Converts(conversions, unit, ConversionFor(conversions, unit).value)
  {
    if conversions != [] && unit != Some(conversions[0].from) {
      var rest := conversions[1..];
      FirstConversion(rest, unit);
      assert forall i | 1 <= i < |conversions| :: conversions[i] == rest[i - 1];
      if ConversionFor(rest, unit).Some? {
        var i :| 0 <= i < |rest| && rest[i] == ConversionFor(rest, unit).value && forall j | 0 <= j < i :: unit != Some(rest[j].from);
        assert conversions[i + 1] == ConversionFor(rest, unit).value;
      }
    }
  }

  /** The number in a field: a text or a usable number that reads as a decimal. */
  ghost predicate NumberIn(field: Field, d: Decimal)
  {
    (field.Text? || (field.Number? && field.usable)) && ReadDecimalText(field.text) == Some(d)
  }

  ghost predicate HoldsNumber(field: Field, number: Option<Decimal>)
  {
    match number
    case None => forall d :: !NumberIn(field, d)
    case Some(d) => NumberIn(field, d)
  }

  ghost predicate BoundText(platform: Platform, binding: Binding, record: Record, text: string)
  {
    match binding
    case Literal(literal) => ReadsAs(platform, Text(literal), false, text)
    case FieldOf(name) => exists field :: HasField(record, name, field) && ReadsAs(platform, field, false, text)
  }

  lemma BindingReads(platform: Platform, binding: Binding, record: Record, text: string)
    ensures BindingOf(platform, binding, record) == Some(text) <==> BoundText(platform, binding, record, text)
  {
    match binding
    case Literal(literal) => TextIsWhatItReadsAs(platform, Text(literal), false, text);
    case FieldOf(name) =>
      var field := ValueAt(record, name);
      TextIsWhatItReadsAs(platform, field, false, text);
      assert HasField(record, name, field);
  }

  /** The mapping of a side. */
  ghost predicate MappingOf(plan: Plan, side: Side, mapping: Mapping)
  {
    match side
    case Left => mapping == plan.left
    case Right => mapping == plan.right
  }

  /** A usable conversion: its factor and offset are numbers and the factor is positive. */
  ghost predicate Usable(c: Conversion)
  {
    && ReadDecimalText(c.factor).Some? && ReadDecimalText(c.offset).Some? && Amount(ReadDecimalText(c.factor).value) > 0.0
  }

  /** The text of a value says which number it is. */
  ghost predicate Says(text: Option<string>, amount: real)
  {
    exists d :: text == Some(DecimalText(d)) && Amount(d) == amount
  }

  /** The entry of a record, given the number in its value field and its bound measure and unit: the keys in
      the plan's order, the measure, and the number and unit after the conversion of that unit, if there is
      one and there is a number to convert. */
  ghost predicate EntryTells(platform: Platform, plan: Plan, side: Side, record: Record, number: Option<Decimal>,
                             unit: Option<string>, e: Entry)
  {
    && e.side == side && e.recordId == record.id && e.index == record.index && (e.marked <==> "__kind" in record.values)
    && |e.signature.keys| == |plan.keys|
    && (forall i | 0 <= i < |plan.keys| :: e.signature.keys[i] == KeyOf(platform, plan.keys[i], side, record))
    && (number.None? ==> e.value == None && e.signature.unit == unit)
    && (forall d, c | number == Some(d) && Converts(plan.conversions, unit, c) ::
          && Usable(c) && e.signature.unit == Some(c.to)
          && Says(e.value, Times(Amount(d), Amount(ReadDecimalText(c.factor).value)) + Amount(ReadDecimalText(c.offset).value)))
    && (forall d | number == Some(d) && (forall i | 0 <= i < |plan.conversions| :: unit != Some(plan.conversions[i].from)) ::
          Says(e.value, Amount(d)) && e.signature.unit == unit)
  }

  lemma ConversionIsUnique(conversions: seq<Conversion>, unit: Option<string>, c: Conversion, d: Conversion)
    requires Converts(conversions, unit, c) && Converts(conversions, unit, d)
    ensures c == d
  {
    var i :| 0 <= i < |conversions| && conversions[i] == c && unit == Some(c.from) && forall j | 0 <= j < i :: unit != Some(conversions[j].from);
    var k :| 0 <= k < |conversions| && conversions[k] == d && unit == Some(d.from) && forall j | 0 <= j < k :: unit != Some(conversions[j].from);
    assert i == k;
  }

  lemma PositiveIffCoefficient(d: Decimal)
    ensures Amount(d) > 0.0 <==> d.coefficient > 0
  {
    var p := Pow10(d.scale) as real;
    assert Amount(d) * p == d.coefficient as real;
    hide Pow10;
    assert Amount(d) <= 0.0 ==> Amount(d) * p <= 0.0;
    assert Amount(d) > 0.0 ==> Amount(d) * p > 0.0;
  }

  lemma NumberIsRead(field: Field, number: Option<Decimal>)
    ensures HoldsNumber(field, number) <==> number == ReadDecimal(field)
  {
    hide ReadDecimalText;
    if ReadDecimal(field).Some? { assert NumberIn(field, ReadDecimal(field).value); }
  }

  /** A record is refused only for a number whose unit has a conversion that is not usable; any other record
      has the entry its fields tell. */
  lemma EntryTellsTheRecord(platform: Platform, plan: Plan, side: Side, record: Record, mapping: Mapping, field: Field,
                            number: Option<Decimal>)
    requires MappingOf(plan, side, mapping) && HasField(record, mapping.valueField, field) && HoldsNumber(field, number)
    ensures var unit, read := BindingOf(platform, mapping.unit, record), EntryOf(platform, plan, side, record);
      && (read.None? <==> number.Some? && exists c :: Converts(plan.conversions, unit, c) && !Usable(c))
      && (read.Some? ==>
            && read.value.signature.measure == BindingOf(platform, mapping.measure, record)
            && EntryTells(platform, plan, side, record, number, unit, read.value))
  {
    hide KeyOf, BindingOf, ReadDecimal, ReadDecimalText, Convert, DecimalText, Amount, Converts, HoldsNumber, Says, Times;
    var unit := BindingOf(platform, mapping.unit, record);
    assert field == ValueAt(record, mapping.valueField);
    NumberIsRead(field, number);
    FirstConversion(plan.conversions, unit);
    var found := ConversionFor(plan.conversions, unit);
    if found.Some? {
      forall c | Converts(plan.conversions, unit, c) ensures c == found.value {
        ConversionIsUnique(plan.conversions, unit, c, found.value);
      }
      if ReadDecimalText(found.value.factor).Some? { PositiveIffCoefficient(ReadDecimalText(found.value.factor).value); }
    } else {
      NoneConverts(plan.conversions, unit);
    }
    var read := EntryOf(platform, plan, side, record);
    if read.Some? {
      NumberTold(platform, plan, side, record, mapping, number, read.value);
      assert EntryTells(platform, plan, side, record, number, unit, read.value);
    }
  }

  lemma NoneConverts(conversions: seq<Conversion>, unit: Option<string>)
    requires forall i | 0 <= i < |conversions| :: unit != Some(conversions[i].from)
    ensures forall c :: !Converts(conversions, unit, c)
  {
  }

  lemma NumberTold(platform: Platform, plan: Plan, side: Side, record: Record, mapping: Mapping, number: Option<Decimal>, e: Entry)
    requires MappingOf(plan, side, mapping) && number == ReadDecimal(ValueAt(record, mapping.valueField))
    requires EntryOf(platform, plan, side, record) == Some(e)
    ensures number.None? ==> e.value == None
    ensures number.Some? ==>
      match ConversionFor(plan.conversions, BindingOf(platform, mapping.unit, record))
      case None => Says(e.value, Amount(number.value))
      case Some(c) =>
        && ReadDecimalText(c.factor).Some? && ReadDecimalText(c.offset).Some?
        && Says(e.value, Times(Amount(number.value), Amount(ReadDecimalText(c.factor).value)) + Amount(ReadDecimalText(c.offset).value))
  {
    hide KeyOf, BindingOf, ReadDecimal, ReadDecimalText, Convert, DecimalText, Amount, ConversionFor, Times;
    if number.Some? {
      var c := ConversionFor(plan.conversions, BindingOf(platform, mapping.unit, record));
      if c.None? {
        assert e.value == Some(DecimalText(number.value));
      } else {
        var factor, offset := ReadDecimalText(c.value.factor).value, ReadDecimalText(c.value.offset).value;
        ConvertIsExact(number.value, factor, offset);
        var sum := Times(Amount(number.value), Amount(factor)) + Amount(offset);
        assert Amount(Convert(number.value, factor, offset)) == sum;
        assert e.value == Some(DecimalText(Convert(number.value, factor, offset)));
        assert Says(e.value, sum);
      }
    }
  }

  /** An entry is incomplete exactly when a key, the measure, the unit or the number is missing, or the record
      is marked as something else. */
  lemma IncompleteMeans(e: Entry)
    ensures e.Incomplete()
       <==> (exists i | 0 <= i < |e.signature.keys| :: e.signature.keys[i] == None)
            || e.signature.measure == None || e.signature.unit == None || e.value == None || e.marked
  {
  }
}
