/**
 From a CSV record to the Wazuh line and back: what the parser stored is what a reader of the line
 recovers, with its type.
 */
module PaloAltoRoundTrip {
  import opened Wrappers
  import opened Json
  import opened PaloAltoSchema
  import opened PaloAltoColumns
  import opened PaloAltoParser
  import opened PaloAltoSyslog
  import opened SyslogTokenizer

  /**
   What the float library promises: it reads no text with a space or a quote, a finite number prints
   plainly, the text it prints to reads as the same number, and "0" reads as a finite number.
   */
  ghost predicate FaithfulFloats(readFloat: string -> FloatReading) {
    && readFloat("0").Finite?
    && forall text :: readFloat(text) != NotANumber ==>
         && IsPlain(text)
         && (readFloat(text).Finite? ==>
               var printed := readFloat(text).printed;
               printed != [] && IsPlain(printed) && readFloat(printed) == Finite(printed))
  }

  /** The column reads its text as a number too large for binary64, or as an infinity or a NaN. */
  predicate ReadsNonFinite(name: string, text: string, readFloat: string -> FloatReading) {
    name !in IntegerFields() && name in FloatFields() && readFloat(text) == NonFinite
  }

  /** What a non-finite float leaves: the integer 0, which prints as "0" and reads as a float. */
  lemma NonFiniteLost(name: string, text: string, readFloat: string -> FloatReading)
    requires FaithfulFloats(readFloat) && ReadsNonFinite(name, text, readFloat)
    ensures var value := TypedValue(name, text, readFloat);
            && value == Num(PosInt(0)) && DecodeValue(FormatValue(value)) == "0"
            && TypedValue(name, "0", readFloat) == Num(Float(readFloat("0").printed))
  {
    hide IntegerFields, FloatFields;
    NumberDecodes(PosInt(0));
    assert ShowNumber(PosInt(0)) == "0";
  }

  lemma FiniteKept(name: string, text: string, readFloat: string -> FloatReading)
    requires FaithfulFloats(readFloat) && !ReadsNonFinite(name, text, readFloat)
    ensures var value := TypedValue(name, text, readFloat);
            TypedValue(name, DecodeValue(FormatValue(value)), readFloat) == value
  {
    hide IntegerFields, FloatFields, ParseI64;
    var value := TypedValue(name, text, readFloat);
    if value.String? {
      DecodeString(text);
    } else if name in IntegerFields() {
      var i := ParseI64(text).value;
      InRangeOfI64(text);
      IntegerRoundTrip(i);
      NumberDecodes(IntNumber(i));
    } else {
      var printed := readFloat(text).printed;
      assert printed[0] != QUOTE;
    }
  }

  /**
   Printing a stored value and reading its text under the same column gives the same value, integers,
   floats and texts alike, if and only if the text was not read as a non-finite float.
   */
  lemma TypedValueSurvives(name: string, text: string, readFloat: string -> FloatReading)
    requires FaithfulFloats(readFloat)
    ensures var value := TypedValue(name, text, readFloat);
            TypedValue(name, DecodeValue(FormatValue(value)), readFloat) == value <==>
            !ReadsNonFinite(name, text, readFloat)
  {
    hide TypedValue, DecodeValue, FormatValue, FaithfulFloats;
    if ReadsNonFinite(name, text, readFloat) {
      NonFiniteLost(name, text, readFloat);
    } else {
      FiniteKept(name, text, readFloat);
    }
  }

  lemma InRangeOfI64(text: string)
    ensures ParseI64(text).Some? ==> I64_MIN <= ParseI64(text).value <= I64_MAX
  {
  }

  lemma NumberDecodes(n: Number)
    requires !n.Float?
    ensures DecodeValue(ShowNumber(n)) == ShowNumber(n)
  {
    NumberPrints(n);
    var text := ShowNumber(n);
    assert text != [] ==> text[0] in text;
  }

  lemma TypedValuePrints(name: string, text: string, readFloat: string -> FloatReading)
    requires FaithfulFloats(readFloat) && text != []
    ensures var value := TypedValue(name, text, readFloat); PlainFloat(value) && FormatValue(value) != []
  {
    hide IntegerFields, FloatFields, ParseI64;
    var value := TypedValue(name, text, readFloat);
    if value.Num? && !value.num.Float? {
      var i := if value.num.PosInt? then value.num.n else value.num.i;
      DecimalRoundTrip(if i < 0 then -i else i);
    }
  }

  /** The members of the object built from a parsed log, in the map's iteration order. */
  ghost predicate Enumerates(members: seq<Member>, log: map<string, Value>) {
    && UniqueKeys(members)
    && (forall m :: m in members ==> m.key in log && log[m.key] == m.value)
    && (forall key :: key in log ==> Member(key, log[key]) in members)
  }

  /** The members enumerate the parsed log of the record. */
  ghost predicate ParsedAs(record: seq<string>, readFloat: string -> FloatReading, now: string, log: map<string, Value>,
                           members: seq<Member>)
    requires |record| >= COMMON_WIDTH
  {
    Assembled(record, readFloat, now, log) && Enumerates(members, log)
  }

  /** Column i's entry of a parsed log. */
  function FieldMember(record: seq<string>, i: int, readFloat: string -> FloatReading): Member
    requires |record| >= COMMON_WIDTH && Present(record, i)
  {
    Member(Key(record, i), FieldValue(record, i, readFloat))
  }

  /** Reading a text under column i. */
  function Reread(record: seq<string>, i: int, text: string, readFloat: string -> FloatReading): Value
    requires |record| >= COMMON_WIDTH && Present(record, i)
  {
    TypedValue(Header(SchemaOf(record), i), text, readFloat)
  }

  predicate NonFiniteField(record: seq<string>, i: int, readFloat: string -> FloatReading)
    requires |record| >= COMMON_WIDTH && Present(record, i)
  {
    ReadsNonFinite(Header(SchemaOf(record), i), Trim(record[i]), readFloat)
  }

  lemma FieldValueSurvives(record: seq<string>, i: int, readFloat: string -> FloatReading)
    requires |record| >= COMMON_WIDTH && Present(record, i)
    requires FaithfulFloats(readFloat)
    ensures var value := FieldMember(record, i, readFloat).value;
            Reread(record, i, DecodeValue(FormatValue(value)), readFloat) == value <==>
            !NonFiniteField(record, i, readFloat)
    ensures NonFiniteField(record, i, readFloat) ==> DecodeValue(FormatValue(FieldMember(record, i, readFloat).value)) == "0"
  {
    hide Header, Trim, SchemaOf, Key, FaithfulFloats, ReadsNonFinite, TypedValue, FormatValue, DecodeValue;
    TypedValueSurvives(Header(SchemaOf(record), i), Trim(record[i]), readFloat);
    if NonFiniteField(record, i, readFloat) {
      NonFiniteLost(Header(SchemaOf(record), i), Trim(record[i]), readFloat);
    }
  }

  lemma FieldMemberStored(record: seq<string>, readFloat: string -> FloatReading, now: string,
                          log: map<string, Value>, members: seq<Member>, i: int)
    requires |record| >= COMMON_WIDTH && ParsedAs(record, readFloat, now, log, members)
    ensures Present(record, i) ==> FieldMember(record, i, readFloat) in members
  {
    hide Header, TypedValue, Key, Trim, SchemaOf, Present;
    if Present(record, i) {
      assert Key(record, i) in log;
    }
  }

  lemma MemberOrigin(record: seq<string>, readFloat: string -> FloatReading, now: string,
                     log: map<string, Value>, members: seq<Member>, m: Member)
    requires |record| >= COMMON_WIDTH && ParsedAs(record, readFloat, now, log, members) && m in members
    ensures || m == Member("@timestamp", String(now)) || m == Member("log_source", String("palo_alto"))
            || exists i :: Present(record, i) && m == FieldMember(record, i, readFloat)
  {
    hide Header, TypedValue, Key, Trim, SchemaOf, Present;
    AssembledKeys(record, readFloat, now, log, m.key);
    if i :| Present(record, i) && Key(record, i) == m.key {
      assert m == FieldMember(record, i, readFloat);
    }
  }

  lemma FieldIsPrinted(record: seq<string>, i: int, readFloat: string -> FloatReading)
    requires |record| >= COMMON_WIDTH && Present(record, i) && FaithfulFloats(readFloat)
    ensures IsPrintedMember(FieldMember(record, i, readFloat))
    ensures FieldMember(record, i, readFloat).key != "forwarder_enrichment"
  {
    hide Header, TypedValue, Normalize, IsLeading, FormatValue, FaithfulFloats;
    NormalizedNameStart(SchemaOf(record), i);
    KeyNotForeign(record, i);
    TypedValuePrints(Header(SchemaOf(record), i), Trim(record[i]), readFloat);
    SkippedKeys(Key(record, i));
  }

  lemma SkippedKeys(key: string)
    requires key != [] && key[0] != '@' && !Foreign(key)
    ensures IsLeading(key) || !Skipped(key)
    ensures key != "forwarder_enrichment"
  {
  }

  lemma NoEnrichment(members: seq<Member>)
    requires forall m :: m in members ==> m.key != "forwarder_enrichment"
    ensures EnrichmentMembers(Object(members)) == []
  {
    LookupMember(members, "forwarder_enrichment");
  }

  lemma MetadataKeys()
    ensures "@timestamp" != "forwarder_enrichment" && "log_source" != "forwarder_enrichment"
    ensures !IsPrintedMember(Member("@timestamp", Null)) && !IsPrintedMember(Member("log_source", Null))
    ensures forall v: Value :: !IsPrintedMember(Member("@timestamp", v)) && !IsPrintedMember(Member("log_source", v))
  {
    assert "@timestamp"[0] == '@';
    assert Skipped("log_source") && Skipped("@timestamp");
    assert !IsLeading("log_source") && !IsLeading("@timestamp");
  }

  /** A parsed log is a sound one without enrichment, and its printed members are exactly its record's fields. */
  lemma ParsedLogSound(record: seq<string>, readFloat: string -> FloatReading, now: string,
                       log: map<string, Value>, members: seq<Member>)
    requires |record| >= COMMON_WIDTH && ParsedAs(record, readFloat, now, log, members) && FaithfulFloats(readFloat)
    ensures SoundLog(Object(members)) && EnrichmentMembers(Object(members)) == []
    ensures forall m :: m in members && IsPrintedMember(m) ==>
              exists i :: Present(record, i) && m == FieldMember(record, i, readFloat)
  {
    hide Present, IsPrintedMember, FaithfulFloats, TypedValue, Header, Key, Trim, Assembled;
    MetadataKeys();
    forall m | m in members
      ensures PlainFloat(m.value) && m.key != "forwarder_enrichment"
      ensures IsPrintedMember(m) ==> exists i :: Present(record, i) && m == FieldMember(record, i, readFloat)
    {
      MemberOrigin(record, readFloat, now, log, members, m);
      if i :| Present(record, i) && m == FieldMember(record, i, readFloat) {
        FieldIsPrinted(record, i, readFloat);
        PresentHasText(record, i);
        TypedValuePrints(Header(SchemaOf(record), i), Trim(record[i]), readFloat);
      }
    }
    NoEnrichment(members);
  }

  lemma PresentHasText(record: seq<string>, i: int)
    requires |record| >= COMMON_WIDTH && Present(record, i)
    ensures 0 <= i < |record| && i < Width(SchemaOf(record)) && Trim(record[i]) != []
  {
  }

  /** The field's text, as trimmed, would be quoted and ends in a backslash. */
  predicate SwallowsQuote(field: string) {
    NeedsQuotes(Trim(field)) && EndsInBackslash(Trim(field))
  }

  lemma IntegerTextIsPlain(text: string)
    ensures ParseI64(text).Some? ==> !NeedsQuotes(text)
  {
    if ParseI64(text).Some? {
      var digits := if text[0] == '+' || text[0] == '-' then text[1..] else text;
      assert forall c :: c in text ==> c == text[0] || c in digits;
    }
  }

  /** Whether a stored value reads back shows in its text alone: what is read as a number is never quoted. */
  lemma TypedValueClosed(name: string, text: string, readFloat: string -> FloatReading)
    requires FaithfulFloats(readFloat)
    ensures TrailingBackslash(TypedValue(name, text, readFloat)) <==> NeedsQuotes(text) && EndsInBackslash(text)
  {
    hide IntegerFields, FloatFields, ParseI64;
    IntegerTextIsPlain(text);
  }

  lemma FieldReadsBackIff(record: seq<string>, i: int, readFloat: string -> FloatReading)
    requires |record| >= COMMON_WIDTH && Present(record, i) && FaithfulFloats(readFloat)
    ensures ReadsBack(FieldMember(record, i, readFloat)) <==> !SwallowsQuote(record[i])
  {
    hide Header, TypedValue, Trim, SchemaOf, FaithfulFloats, Normalize;
    NormalizedNamePlain(SchemaOf(record), i);
    TypedValueClosed(Header(SchemaOf(record), i), Trim(record[i]), readFloat);
  }

  /**
   When a parsed record's line reads back: if and only if no field that the schema names has a trimmed
   text that holds a space or a quote and ends in a backslash.
   */
  lemma RecordReadsBack(record: seq<string>, readFloat: string -> FloatReading, now: string,
                        log: map<string, Value>, members: seq<Member>)
    requires |record| >= COMMON_WIDTH && ParsedAs(record, readFloat, now, log, members) && FaithfulFloats(readFloat)
    ensures var line := PREFIX + Body(Parts(Object(members)));
            Tokenize(line[|PREFIX|..]) == Some(Parts(Object(members))) <==>
            forall i :: 0 <= i < |record| && i < Width(SchemaOf(record)) ==> !SwallowsQuote(record[i])
  {
    hide IsPrintedMember, FaithfulFloats, FieldMember, ReadsBack, ParsedAs, Parts, Body, Tokenize, SoundLog,
         SwallowsQuote, SchemaOf, Width, Present;
    var v := Object(members);
    ParsedLogSound(record, readFloat, now, log, members);
    LineRoundTrip(v, PREFIX + Body(Parts(v)));
    forall i | Present(record, i)
      ensures FieldMember(record, i, readFloat) in members && IsPrintedMember(FieldMember(record, i, readFloat))
      ensures 0 <= i < |record| && i < Width(SchemaOf(record))
      ensures ReadsBack(FieldMember(record, i, readFloat)) <==> !SwallowsQuote(record[i])
    {
      FieldMemberStored(record, readFloat, now, log, members, i);
      FieldIsPrinted(record, i, readFloat);
      PresentHasText(record, i);
      FieldReadsBackIff(record, i, readFloat);
    }
    forall i | 0 <= i < |record| && i < Width(SchemaOf(record)) && !Present(record, i)
      ensures !SwallowsQuote(record[i])
    {
      AbsentIsBlank(record, i);
    }
  }

  lemma AbsentIsBlank(record: seq<string>, i: int)
    requires |record| >= COMMON_WIDTH && 0 <= i < |record| && i < Width(SchemaOf(record)) && !Present(record, i)
    ensures !SwallowsQuote(record[i])
  {
    hide Trim, SchemaOf, Width;
  }

  /**
   A field's part is among the parts, and reading its text under the column gives the stored value if and
   only if the record's text is not a non-finite float, for which the line says "0".
   */
  ghost predicate Recovered(parts: seq<Part>, record: seq<string>, i: int, readFloat: string -> FloatReading)
    requires |record| >= COMMON_WIDTH && Present(record, i)
  {
    var m := FieldMember(record, i, readFloat);
    && PartOf(m) in parts
    && (Reread(record, i, DecodeValue(PartOf(m).value), readFloat) == m.value <==> !NonFiniteField(record, i, readFloat))
    && (NonFiniteField(record, i, readFloat) ==> DecodeValue(PartOf(m).value) == "0")
  }

  /**
   Field by field, through the whole line: when it reads back, the field of every column with text is
   recovered under its syslog key, and reading the recovered text under the column gives the stored
   value again, integers and floats included, for every text but that of a non-finite float.
   */
  lemma FieldSurvives(record: seq<string>, readFloat: string -> FloatReading, now: string,
                      log: map<string, Value>, members: seq<Member>, i: int)
    requires |record| >= COMMON_WIDTH && ParsedAs(record, readFloat, now, log, members) && FaithfulFloats(readFloat)
    ensures var line := PREFIX + Body(Parts(Object(members)));
            var read := Tokenize(line[|PREFIX|..]);
            read == Some(Parts(Object(members))) && Present(record, i) ==> Recovered(read.value, record, i, readFloat)
  {
    hide IsPrintedMember, FaithfulFloats, ParsedAs, Parts, Body, Tokenize, SoundLog, Present, NonFiniteField, Reread,
         FieldMember, DecodeValue, FormatValue;
    if Present(record, i) {
      var m := FieldMember(record, i, readFloat);
      ParsedLogSound(record, readFloat, now, log, members);
      FieldMemberStored(record, readFloat, now, log, members, i);
      FieldIsPrinted(record, i, readFloat);
      UniqueInSound(Object(members));
      PartsOrigin(Object(members), PartOf(m));
      FieldValueSurvives(record, i, readFloat);
    }
  }

  lemma UniqueInSound(v: Value)
    requires SoundLog(v)
    ensures v.Object? && UniqueKeys(v.members)
  {
  }
}
