/** Assembly of a Palo Alto log from its CSV record. */
module PaloAltoParser {
  import opened Wrappers
  import opened Json
  import opened Collections
  import opened PaloAltoSchema
  import opened PaloAltoColumns

  // ----- str::trim -----

  /** The Unicode White_Space property. */
  predicate IsWhitespace(c: char) {
    var code := c as int;
    || 9 <= code <= 13 || code == 0x20 || code == 0x85 || code == 0xA0 || code == 0x1680
    || 0x2000 <= code <= 0x200A || code == 0x2028 || code == 0x2029 || code == 0x202F || code == 0x205F || code == 0x3000
  }

  function TrimStart(s: string): string {
    if s != [] && IsWhitespace(s[0]) then TrimStart(s[1..]) else s
  }

  function TrimEnd(s: string): string {
    if s != [] && IsWhitespace(s[|s| - 1]) then TrimEnd(s[..|s| - 1]) else s
  }

  function Trim(s: string): string {
    TrimEnd(TrimStart(s))
  }

  predicate Blank(s: string) {
    forall c :: c in s ==> IsWhitespace(c)
  }

  /** Neither end is white space. */
  predicate Trimmed(s: string) {
    s != [] ==> !IsWhitespace(s[0]) && !IsWhitespace(s[|s| - 1])
  }

  lemma {:induction false} TrimStartExact(s: string) returns (before: string)
    ensures s == before + TrimStart(s) && Blank(before)
    ensures TrimStart(s) != [] ==> !IsWhitespace(TrimStart(s)[0])
  {
    before := [];
    if s != [] && IsWhitespace(s[0]) {
      before := TrimStartExact(s[1..]);
      before := [s[0]] + before;
    }
  }

  lemma {:induction false} TrimEndExact(s: string) returns (after: string)
    ensures s == TrimEnd(s) + after && Blank(after)
    ensures TrimEnd(s) != [] ==> !IsWhitespace(TrimEnd(s)[|TrimEnd(s)| - 1])
  {
    after := [];
    if s != [] && IsWhitespace(s[|s| - 1]) {
      after := TrimEndExact(s[..|s| - 1]);
      after := after + [s[|s| - 1]];
    }
  }

  /** What trimming removes is white space, and nothing removable is left. */
  lemma TrimExact(s: string) returns (before: string, after: string)
    ensures s == before + Trim(s) + after && Blank(before) && Blank(after)
    ensures Trimmed(Trim(s))
  {
    before := TrimStartExact(s);
    after := TrimEndExact(TrimStart(s));
  }

  /** A field counts as empty exactly when it is all white space. */
  lemma TrimEmpty(s: string)
    ensures Trim(s) == [] <==> Blank(s)
  {
    var before, after := TrimExact(s);
    assert s == before + Trim(s) + after;
    if Trim(s) != [] {
      assert s[|before|] == Trim(s)[0];
    }
  }

  // ----- Typed values -----

  const I64_MAX: int := 0x7FFF_FFFF_FFFF_FFFF
  const I64_MIN: int := -I64_MAX - 1

  /** str::parse::<i64>: an optional sign, then digits, in range. */
  function ParseI64(s: string): (r: Option<int>)
    ensures r.Some? ==> I64_MIN <= r.value <= I64_MAX
  {
    if s == [] then None
    else
      var signed := s[0] == '+' || s[0] == '-';
      var digits := if signed then s[1..] else s;
      if AllDigits(digits) then InRange(Sign(s) * DecimalValue(digits)) else None
  }

  function Sign(s: string): int
    requires s != []
  {
    if s[0] == '-' then -1 else 1
  }

  function InRange(i: int): Option<int> {
    if I64_MIN <= i <= I64_MAX then Some(i) else None
  }

  /** Every 64-bit integer is read back from the text it prints to. */
  lemma IntegerRoundTrip(i: int)
    requires I64_MIN <= i <= I64_MAX
    ensures ParseI64(ShowNumber(IntNumber(i))) == Some(i)
  {
    var n: nat := if i < 0 then -i else i;
    DecimalRoundTrip(n);
    var text := ShowNumber(IntNumber(i));
    if i < 0 {
      assert text[1..] == Decimal(n);
    } else {
      assert text == Decimal(n) && IsDigit(text[0]);
    }
  }

  function Zeros(n: nat): (s: string)
    ensures |s| == n && forall i :: 0 <= i < n ==> s[i] == '0'
  {
    seq(n, _ => '0')
  }

  /** The sign a text may start with, for an integer. */
  predicate SignOf(sign: string, i: int) {
    (i <= 0 && sign == "-") || (i >= 0 && (sign == "" || sign == "+"))
  }

  /** The integer as it prints, perhaps with a sign and zeros in front, and in the range of an i64. */
  ghost predicate IntegerText(s: string, i: int) {
    && -0x8000_0000_0000_0000 <= i < 0x8000_0000_0000_0000
    && exists sign: string, n: nat :: SignOf(sign, i) && s == sign + (Zeros(n) + Decimal(if i < 0 then -i else i))
  }

  lemma MoreZeros(n: nat, m: nat, d: nat)
    requires d < 10
    ensures (Zeros(n) + Decimal(m)) + [Digit(d)] == Zeros(if m == 0 then n + 1 else n) + Decimal(10 * m + d)
  {
    if m == 0 {
      assert Decimal(0) == ['0'] && Zeros(n) + ['0'] == Zeros(n + 1) && Decimal(d) == [Digit(d)];
    } else {
      assert (10 * m + d) / 10 == m && (10 * m + d) % 10 == d;
      Reassociate(Zeros(n), Decimal(m), [Digit(d)]);
    }
  }

  lemma DigitBack(c: char)
    requires IsDigit(c)
    ensures DigitValue(c) < 10 && Digit(DigitValue(c)) == c
  {
  }

  /** Digits are zeros and then the number they stand for. */
  lemma {:induction false} DigitsForm(digits: string) returns (n: nat)
    requires AllDigits(digits)
    ensures digits == Zeros(n) + Decimal(DecimalValue(digits))
  {
    hide Decimal, Zeros;
    var init, d := digits[..|digits| - 1], digits[|digits| - 1];
    assert digits == init + [d] && d in digits;
    DigitBack(d);
    if init == [] {
      n := 0;
      OneDigit(DigitValue(d));
    } else {
      n := DigitsForm(init);
      MoreZeros(n, DecimalValue(init), DigitValue(d));
      if DecimalValue(init) == 0 {
        n := n + 1;
      }
    }
  }

  lemma OneDigit(d: nat)
    requires d < 10
    ensures Zeros(0) + Decimal(d) == [Digit(d)]
  {
  }

  lemma {:induction false} ZerosInFront(n: nat, digits: string)
    requires AllDigits(digits)
    ensures AllDigits(Zeros(n) + digits) && DecimalValue(Zeros(n) + digits) == DecimalValue(digits)
    decreases |digits|
  {
    var all := Zeros(n) + digits;
    assert all[..|all| - 1] == Zeros(n) + digits[..|digits| - 1];
    if |digits| > 1 {
      ZerosInFront(n, digits[..|digits| - 1]);
    } else {
      ZerosAreNothing(n);
      assert Zeros(n) + digits[..0] == Zeros(n);
    }
  }

  lemma {:induction false} ZerosAreNothing(n: nat)
    ensures DecimalValue(Zeros(n)) == 0
  {
    if n > 0 {
      assert Zeros(n)[..n - 1] == Zeros(n - 1);
      ZerosAreNothing(n - 1);
    }
  }

  lemma ReadIsText(s: string, i: int)
    requires ParseI64(s) == Some(i)
    ensures IntegerText(s, i)
  {
    hide DecimalValue, Zeros, Decimal;
    var signed := s[0] == '+' || s[0] == '-';
    var sign, digits := if signed then [s[0]] else "", if signed then s[1..] else s;
    var n := DigitsForm(digits);
    assert s == sign + digits && SignOf(sign, i);
  }

  lemma TextIsRead(s: string, i: int, sign: string, n: nat)
    requires -0x8000_0000_0000_0000 <= i < 0x8000_0000_0000_0000 && SignOf(sign, i)
    requires s == sign + (Zeros(n) + Decimal(if i < 0 then -i else i))
    ensures ParseI64(s) == Some(i)
  {
    hide DecimalValue, Zeros, Decimal;
    var abs: nat := if i < 0 then -i else i;
    var digits := Zeros(n) + Decimal(abs);
    DecimalRoundTrip(abs);
    ZerosInFront(n, Decimal(abs));
    if sign == "" {
      assert s == digits && s[0] in digits;
    } else {
      assert s[1..] == digits;
    }
  }

  /** Which texts are read as an integer, and as which. */
  lemma ParseI64Iff(s: string, i: int)
    ensures ParseI64(s) == Some(i) <==> IntegerText(s, i)
  {
    hide ParseI64, Zeros, Decimal;
    if ParseI64(s) == Some(i) {
      ReadIsText(s, i);
    }
    if IntegerText(s, i) {
      var sign: string, n: nat :| SignOf(sign, i) && s == sign + (Zeros(n) + Decimal(if i < 0 then -i else i));
      TextIsRead(s, i, sign, n);
    }
  }

  /** i64 to serde_json's Number. */
  function IntNumber(i: int): Number {
    if i >= 0 then PosInt(i) else NegInt(i)
  }

  /** What str::parse::<f64> makes of a text; a finite number is carried as the text it prints to. */
  datatype FloatReading = NotANumber | NonFinite | Finite(printed: string)

  /** The value stored for a field with non-empty text. */
  function TypedValue(name: string, text: string, readFloat: string -> FloatReading): Value {
    if name in IntegerFields() then
      var parsed := ParseI64(text);
      if parsed.Some? then Num(IntNumber(parsed.value)) else String(text)
    else if name in FloatFields() then
      match readFloat(text)
      case NotANumber => String(text)
      case NonFinite => Num(PosInt(0))
      case Finite(printed) => Num(Float(printed))
    else String(text)
  }

  /** A stored integer is read back as unsigned exactly when it is not negative. */
  lemma IntNumberUnsigned(i: int)
    ensures AsU64(Num(IntNumber(i))) == if i >= 0 then Some(i) else None
  {
  }

  /**
   What a column makes of its text: an integer column a number of every integer text, a float column one of
   every text that reads as a float (0 for those that are not finite), and the text itself of everything else.
   */
  lemma ColumnTypes(name: string, text: string, readFloat: string -> FloatReading)
    ensures var value := TypedValue(name, text, readFloat);
            && (name in IntegerFields() ==>
                  && (forall i :: IntegerText(text, i) ==> value == Num(IntNumber(i)))
                  && ((forall i :: !IntegerText(text, i)) ==> value == String(text)))
            && (name !in IntegerFields() && name in FloatFields() ==>
                  && (readFloat(text).Finite? ==> value == Num(Float(readFloat(text).printed)))
                  && (readFloat(text).NonFinite? ==> value == Num(PosInt(0)))
                  && (readFloat(text).NotANumber? ==> value == String(text)))
            && (name !in IntegerFields() && name !in FloatFields() ==> value == String(text))
  {
    hide IntegerFields, FloatFields, ParseI64, IntegerText;
    forall i: int
      ensures ParseI64(text) == Some(i) <==> IntegerText(text, i)
    {
      ParseI64Iff(text, i);
    }
    if ParseI64(text).Some? {
      assert IntegerText(text, ParseI64(text).value);
    }
  }

  // ----- The record -----

  function SchemaOf(record: seq<string>): Schema
    requires |record| >= COMMON_WIDTH
  {
    if Trim(record[3]) == "THREAT" then Threat else Traffic
  }

  /** Column i of the record is named by the schema and holds text. */
  predicate Present(record: seq<string>, i: int)
    requires |record| >= COMMON_WIDTH
  {
    0 <= i < |record| && i < Width(SchemaOf(record)) && Trim(record[i]) != []
  }

  function Key(record: seq<string>, i: int): string
    requires |record| >= COMMON_WIDTH && Present(record, i)
  {
    Normalize(Header(SchemaOf(record), i))
  }

  /** The number of fields with text among the first n columns. */
  function PresentUpTo(record: seq<string>, n: nat): nat
    requires |record| >= COMMON_WIDTH
  {
    if n == 0 then 0 else PresentUpTo(record, n - 1) + if Present(record, n - 1) then 1 else 0
  }

  /** The value stored for a field with text. */
  function FieldValue(record: seq<string>, i: int, readFloat: string -> FloatReading): Value
    requires |record| >= COMMON_WIDTH && Present(record, i)
  {
    TypedValue(Header(SchemaOf(record), i), Trim(record[i]), readFloat)
  }

  predicate StoredAt(record: seq<string>, i: int, readFloat: string -> FloatReading, fields: map<string, Value>)
    requires |record| >= COMMON_WIDTH && Present(record, i)
  {
    Key(record, i) in fields && fields[Key(record, i)] == FieldValue(record, i, readFloat)
  }

  /** The entries of the first n columns: one for every field with text, none for anything else. */
  ghost predicate FieldsUpTo(record: seq<string>, n: nat, readFloat: string -> FloatReading, fields: map<string, Value>)
    requires |record| >= COMMON_WIDTH
  {
    && (forall i :: 0 <= i < n && Present(record, i) ==> StoredAt(record, i, readFloat, fields))
    && (forall key :: key in fields ==> exists i :: 0 <= i < n && Present(record, i) && Key(record, i) == key)
    && |fields| == PresentUpTo(record, n)
  }

  lemma KeysDistinct(record: seq<string>, i: int, j: int)
    requires |record| >= COMMON_WIDTH && Present(record, i) && Present(record, j) && Key(record, i) == Key(record, j)
    ensures i == j
  {
    hide Header, Normalize, CommonHeaders, TrafficExtraHeaders, ThreatExtraHeaders, Trim;
    NormalizedNamesDistinct(SchemaOf(record), i, j);
  }

  /** Storing one more field keeps every earlier entry. */
  lemma FieldStored(record: seq<string>, n: nat, readFloat: string -> FloatReading, fields: map<string, Value>)
    requires |record| >= COMMON_WIDTH && Present(record, n) && FieldsUpTo(record, n, readFloat, fields)
    ensures FieldsUpTo(record, n + 1, readFloat,
                       fields[Key(record, n) := FieldValue(record, n, readFloat)])
  {
    hide FieldValue, Key, Present, StoredAt;
    var key, value := Key(record, n), FieldValue(record, n, readFloat);
    KeyIsNew(record, n, readFloat, fields);
    forall i | 0 <= i < n && Present(record, i)
      ensures StoredAt(record, i, readFloat, fields[key := value])
    {
      StoredStays(record, i, readFloat, fields, key, value);
    }
    StoredNow(record, n, readFloat, fields);
    forall k | k in fields
      ensures exists i :: 0 <= i < n + 1 && Present(record, i) && Key(record, i) == k
    {
      var i :| 0 <= i < n && Present(record, i) && Key(record, i) == k;
    }
  }

  lemma KeyIsNew(record: seq<string>, n: nat, readFloat: string -> FloatReading, fields: map<string, Value>)
    requires |record| >= COMMON_WIDTH && Present(record, n) && FieldsUpTo(record, n, readFloat, fields)
    ensures Key(record, n) !in fields
    ensures forall i :: 0 <= i < n && Present(record, i) ==> Key(record, i) != Key(record, n)
  {
    hide FieldValue, Key, Present, StoredAt;
    forall i | 0 <= i < n && Present(record, i)
      ensures Key(record, i) != Key(record, n)
    {
      if Key(record, i) == Key(record, n) {
        KeysDistinct(record, i, n);
      }
    }
  }

  lemma StoredStays(record: seq<string>, i: int, readFloat: string -> FloatReading, fields: map<string, Value>,
                    key: string, value: Value)
    requires |record| >= COMMON_WIDTH && Present(record, i) && StoredAt(record, i, readFloat, fields) && Key(record, i) != key
    ensures StoredAt(record, i, readFloat, fields[key := value])
  {
    hide FieldValue, Key, Present;
  }

  lemma StoredNow(record: seq<string>, i: int, readFloat: string -> FloatReading, fields: map<string, Value>)
    requires |record| >= COMMON_WIDTH && Present(record, i)
    ensures StoredAt(record, i, readFloat, fields[Key(record, i) := FieldValue(record, i, readFloat)])
  {
    hide FieldValue, Key, Present;
  }

  lemma FieldSkipped(record: seq<string>, n: nat, readFloat: string -> FloatReading, fields: map<string, Value>)
    requires |record| >= COMMON_WIDTH && !Present(record, n) && FieldsUpTo(record, n, readFloat, fields)
    ensures FieldsUpTo(record, n + 1, readFloat, fields)
  {
    hide FieldValue, Key, Present;
  }

  lemma KeyNotForeign(record: seq<string>, i: int)
    requires |record| >= COMMON_WIDTH && Present(record, i)
    ensures !Foreign(Key(record, i))
  {
    hide Header, Normalize, Foreign;
    NormalizedNamesNotForeign(SchemaOf(record), i);
  }

  predicate HasMetadata(log: map<string, Value>, now: string) {
    && "@timestamp" in log && log["@timestamp"] == String(now)
    && "log_source" in log && log["log_source"] == String("palo_alto")
  }

  /**
   The parsed log of a record: one entry for each field with text under its own name and with its
   typed value, the two metadata entries, and nothing else.
   */
  ghost predicate Assembled(record: seq<string>, readFloat: string -> FloatReading, now: string, log: map<string, Value>)
    requires |record| >= COMMON_WIDTH
  {
    && (forall i :: Present(record, i) ==> StoredAt(record, i, readFloat, log))
    && HasMetadata(log, now)
    && |log| == PresentUpTo(record, |record|) + 2
  }

  /** Two new keys next to the fields' own leave the fields alone. */
  lemma TwoKeysAdded(fields: map<string, Value>, t: string, u: string, x: Value, y: Value)
    requires t != u && t !in fields && u !in fields
    ensures var log := fields[t := x][u := y];
            |log| == |fields| + 2 && t in log && log[t] == x && u in log && log[u] == y
            && forall key :: key in fields ==> key in log && log[key] == fields[key]
  {
    assert |fields[t := x]| == |fields| + 1 && u !in fields[t := x];
  }

  lemma MetadataAdded(record: seq<string>, readFloat: string -> FloatReading, now: string, fields: map<string, Value>)
    requires |record| >= COMMON_WIDTH && FieldsUpTo(record, |record|, readFloat, fields)
    ensures Assembled(record, readFloat, now, fields["@timestamp" := String(now)]["log_source" := String("palo_alto")])
  {
    hide FieldValue, Key, Present;
    forall key | Foreign(key)
      ensures key !in fields
    {
      if key in fields {
        var i :| 0 <= i < |record| && Present(record, i) && Key(record, i) == key;
        KeyNotForeign(record, i);
      }
    }
    forall i | Present(record, i)
      ensures 0 <= i < |record|
    {
      PresentInRecord(record, i);
    }
    assert "@timestamp"[0] != "log_source"[0];
    TwoKeysAdded(fields, "@timestamp", "log_source", String(now), String("palo_alto"));
  }

  /** No entry comes from anywhere else: the keys are those of the present fields and the metadata. */
  lemma {:induction false} AssembledKeys(record: seq<string>, readFloat: string -> FloatReading, now: string,
                                         log: map<string, Value>, key: string)
    requires |record| >= COMMON_WIDTH && Assembled(record, readFloat, now, log) && key in log
    ensures key == "@timestamp" || key == "log_source" || exists i :: Present(record, i) && Key(record, i) == key
  {
    hide FieldValue, Present, Key;
    var own := OwnKeys(record, |record|);
    forall i | Present(record, i)
      ensures Key(record, i) in own && !Foreign(Key(record, i))
    {
      PresentInRecord(record, i);
      KeyNotForeign(record, i);
    }
    assert "@timestamp"[0] != "log_source"[0];
    NoOtherKeys(log.Keys, own, "@timestamp", "log_source", key);
  }

  lemma NoOtherKeys(keys: set<string>, own: set<string>, t: string, u: string, key: string)
    requires own <= keys && t in keys && u in keys && t != u && t !in own && u !in own
    requires |keys| == |own| + 2 && key in keys
    ensures key == t || key == u || key in own
  {
    var all := own + {t} + {u};
    assert |own + {t}| == |own| + 1 && u !in own + {t};
    if key !in all {
      assert |all + {key}| == |own| + 3;
      SubsetSize(all + {key}, keys);
    }
  }

  lemma PresentInRecord(record: seq<string>, i: int)
    requires |record| >= COMMON_WIDTH && Present(record, i)
    ensures 0 <= i < |record|
  {
  }

  lemma {:induction false} OwnKeys(record: seq<string>, n: nat) returns (own: set<string>)
    requires |record| >= COMMON_WIDTH
    ensures |own| == PresentUpTo(record, n)
    ensures forall key :: key in own <==> exists i :: 0 <= i < n && Present(record, i) && Key(record, i) == key
  {
    hide Header, Trim, SchemaOf, Present, Key;
    own := {};
    if n > 0 {
      own := OwnKeys(record, n - 1);
      if Present(record, n - 1) {
        var key := Key(record, n - 1);
        if key in own {
          var i :| 0 <= i < n - 1 && Present(record, i) && Key(record, i) == key;
          KeysDistinct(record, i, n - 1);
        }
        own := own + {key};
      }
    }
  }

  // ----- Which table a record's columns come from -----

  predicate IsThreat(record: seq<string>)
    requires |record| >= 31
  {
    Trim(record[3]) == "THREAT"
  }

  predicate InTable(table: seq<string>, first: int, i: int, name: string) {
    first <= i < first + |table| && name == table[i - first]
  }

  /** The name of column i: common to all types, then that of a THREAT log, or that of any other. */
  predicate NamedColumn(record: seq<string>, i: int, name: string)
    requires |record| >= 31
  {
    || InTable(CommonHeaders(), 0, i, name)
    || (IsThreat(record) && InTable(ThreatExtraHeaders(), 31, i, name))
    || (!IsThreat(record) && InTable(TrafficExtraHeaders(), 31, i, name))
  }

  predicate StoredUnder(log: map<string, Value>, name: string, text: string, readFloat: string -> FloatReading) {
    Normalize(name) in log && log[Normalize(name)] == TypedValue(name, text, readFloat)
  }

  /** Every field with text is stored under the name its column has in the table of the record's type. */
  ghost predicate StoredByType(record: seq<string>, readFloat: string -> FloatReading, log: map<string, Value>)
    requires |record| >= 31
  {
    forall i, name :: 0 <= i < |record| && Trim(record[i]) != "" && NamedColumn(record, i, name) ==>
      StoredUnder(log, name, Trim(record[i]), readFloat)
  }

  /** Nothing else is stored: a key is one of the two metadata keys or such a field's. */
  ghost predicate NothingElse(record: seq<string>, log: map<string, Value>)
    requires |record| >= 31
  {
    forall key :: key in log ==>
      || key == "@timestamp" || key == "log_source"
      || exists i, name ::
           0 <= i < |record| && Trim(record[i]) != "" && NamedColumn(record, i, name) && key == Normalize(name)
  }

  lemma NamedIsHeader(record: seq<string>, i: int, name: string)
    requires |record| >= COMMON_WIDTH
    ensures NamedColumn(record, i, name) <==> 0 <= i < Width(SchemaOf(record)) && name == Header(SchemaOf(record), i)
  {
    hide CommonHeaders, ThreatExtraHeaders, TrafficExtraHeaders, Trim;
  }

  lemma AssembledByType(record: seq<string>, readFloat: string -> FloatReading, now: string, log: map<string, Value>)
    requires |record| >= COMMON_WIDTH && Assembled(record, readFloat, now, log)
    ensures StoredByType(record, readFloat, log) && NothingElse(record, log)
  {
    hide NamedColumn, Header, Width, Normalize, TypedValue, SchemaOf, Trim, HasMetadata, Foreign;
    forall i, name | 0 <= i < |record| && Trim(record[i]) != "" && NamedColumn(record, i, name)
      ensures StoredUnder(log, name, Trim(record[i]), readFloat)
    {
      NamedIsHeader(record, i, name);
      assert Present(record, i) && StoredAt(record, i, readFloat, log);
    }
    forall key | key in log && key != "@timestamp" && key != "log_source"
      ensures exists i, name ::
                0 <= i < |record| && Trim(record[i]) != "" && NamedColumn(record, i, name) && key == Normalize(name)
    {
      AssembledKeys(record, readFloat, now, log, key);
      var i :| Present(record, i) && Key(record, i) == key;
      NamedIsHeader(record, i, Header(SchemaOf(record), i));
    }
  }

  lemma {:induction false} SamePresent(record: seq<string>, w: nat, n: nat)
    requires COMMON_WIDTH <= w <= |record| && n <= w
    ensures PresentUpTo(record[..w], n) == PresentUpTo(record, n)
  {
    hide Trim, Width;
    if n > 0 {
      SamePresent(record, w, n - 1);
    }
  }

  lemma {:induction false} NonePresent(record: seq<string>, w: nat, n: nat)
    requires |record| >= COMMON_WIDTH && Width(SchemaOf(record)) <= w <= n
    ensures PresentUpTo(record, n) == PresentUpTo(record, w)
  {
    hide Trim, Width;
    if n > w {
      NonePresent(record, w, n - 1);
    }
  }

  /** Which columns are dropped: those from 84 on of a THREAT log, and from 115 on of any other, and only those. */
  lemma LateColumnsDropped(record: seq<string>, readFloat: string -> FloatReading, now: string, log: map<string, Value>)
    requires |record| >= 31
    requires var w := if IsThreat(record) then 84 else 115; |record| > w
    ensures var w := if IsThreat(record) then 84 else 115;
            Assembled(record, readFloat, now, log) <==> Assembled(record[..w], readFloat, now, log)
  {
    hide Trim, Header, Normalize, TypedValue, HasMetadata;
    var w := if IsThreat(record) then 84 else 115;
    var short := record[..w];
    assert SchemaOf(short) == SchemaOf(record) && Width(SchemaOf(record)) == w;
    SamePresent(record, w, w);
    NonePresent(record, w, |record|);
    forall i
      ensures Present(record, i) <==> Present(short, i)
      ensures Present(record, i) ==> (StoredAt(record, i, readFloat, log) <==> StoredAt(short, i, readFloat, log))
    {
    }
  }

  function TooShort(width: nat): string {
    "Palo Alto log has " + Decimal(width) + " CSV fields; expected at least " + Decimal(COMMON_WIDTH) + " common fields"
  }

  /** The column loop: every field is stored under the name its position has in the schema. */
  method StoreFields(record: seq<string>, readFloat: string -> FloatReading) returns (fields: map<string, Value>)
    requires |record| >= COMMON_WIDTH
    ensures FieldsUpTo(record, |record|, readFloat, fields)
  {
    hide FieldsUpTo, TrafficExtraHeaders, ThreatExtraHeaders, CommonHeaders, TypedValue, Trim;
    var extraHeaders := if Trim(record[3]) == "THREAT" then ThreatExtraHeaders() else TrafficExtraHeaders();
    fields := map[];
    NoFields(record, readFloat);
    for i := 0 to |record|
      invariant FieldsUpTo(record, i, readFloat, fields)
    {
      var name;
      if i < COMMON_WIDTH {
        name := CommonHeaders()[i];
      } else if i - COMMON_WIDTH < |extraHeaders| {
        name := extraHeaders[i - COMMON_WIDTH];
      } else {
        FieldSkipped(record, i, readFloat, fields);
        continue;
      }
      assert name == Header(SchemaOf(record), i);
      var text := Trim(record[i]);
      if text == [] {
        FieldSkipped(record, i, readFloat, fields);
        continue;
      }
      FieldStored(record, i, readFloat, fields);
      fields := fields[Normalize(name) := TypedValue(name, text, readFloat)];
    }
  }

  lemma NoFields(record: seq<string>, readFloat: string -> FloatReading)
    requires |record| >= COMMON_WIDTH
    ensures FieldsUpTo(record, 0, readFloat, map[])
  {
    hide FieldValue, Key, Present;
  }

  /** parse_palo_alto_log_to_json, from the CSV record on. */
  method ParsePaloAltoRecord(record: seq<string>, readFloat: string -> FloatReading, now: string)
    returns (r: Result<map<string, Value>, string>)
    ensures |record| < COMMON_WIDTH ==> r == Err(TooShort(|record|))
    ensures |record| >= COMMON_WIDTH ==> r.Ok? && Assembled(record, readFloat, now, r.value)
    ensures |record| >= 31 ==> r.Ok? && StoredByType(record, readFloat, r.value) && NothingElse(record, r.value)
    ensures r.Ok? ==> "@timestamp" in r.value && r.value["@timestamp"] == String(now)
    ensures r.Ok? ==> "log_source" in r.value && r.value["log_source"] == String("palo_alto")
  {
    hide Assembled, FieldsUpTo, StoredByType, NothingElse;
    if |record| < COMMON_WIDTH {
      return Err(TooShort(|record|));
    }
    var log := StoreFields(record, readFloat);
    MetadataAdded(record, readFloat, now, log);
    r := Ok(log["@timestamp" := String(now)]["log_source" := String("palo_alto")]);
    AssembledByType(record, readFloat, now, r.value);
  }
}
