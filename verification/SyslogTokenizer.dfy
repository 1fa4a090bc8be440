/** A quote-aware tokenizer for the Wazuh syslog line, and when it reads back what the formatter printed. */
module SyslogTokenizer {
  import opened Wrappers
  import opened Json
  import opened PaloAltoSyslog

  // ----- The tokenizer -----

  /** Reads to the closing quote, the first quote that no backslash precedes: (what was read, the rest after it). */
  function ScanQuoted(s: string, escaped: bool): Option<(string, string)> {
    if s == [] then None
    else if s[0] == QUOTE && !escaped then Some(([], s[1..]))
    else
      var tail := ScanQuoted(s[1..], s[0] == BACKSLASH);
      if tail.None? then None else Some(([s[0]] + tail.value.0, tail.value.1))
  }

  function ScanPlain(s: string): (string, string) {
    if s == [] || s[0] == SPACE then ([], s)
    else
      var (word, rest) := ScanPlain(s[1..]);
      ([s[0]] + word, rest)
  }

  function ScanKey(s: string): Option<(string, string)> {
    if s == [] then None
    else if s[0] == EQUALS then Some(([], s[1..]))
    else
      var tail := ScanKey(s[1..]);
      if tail.None? then None else Some(([s[0]] + tail.value.0, tail.value.1))
  }

  /** One key=value part, its value quoted or plain. */
  function ScanPart(s: string): Option<(Part, string)> {
    var key := ScanKey(s);
    if key.None? then None
    else
      var rest := key.value.1;
      if rest != [] && rest[0] == QUOTE then
        var quoted := ScanQuoted(rest[1..], false);
        if quoted.None? then None else Some((Part(key.value.0, Quoted(quoted.value.0)), quoted.value.1))
      else
        var (word, after) := ScanPlain(rest);
        Some((Part(key.value.0, word), after))
  }

  lemma {:induction false} ScanQuotedShrinks(s: string, escaped: bool)
    ensures var r := ScanQuoted(s, escaped); r.Some? ==> |r.value.1| < |s|
  {
    if s != [] {
      ScanQuotedShrinks(s[1..], s[0] == BACKSLASH);
    }
  }

  lemma {:induction false} ScanPlainShrinks(s: string)
    ensures |ScanPlain(s).1| <= |s|
  {
    if s != [] {
      ScanPlainShrinks(s[1..]);
    }
  }

  lemma {:induction false} ScanKeyShrinks(s: string)
    ensures ScanKey(s).Some? ==> |ScanKey(s).value.1| < |s|
  {
    if s != [] {
      ScanKeyShrinks(s[1..]);
    }
  }

  lemma ScanPartShrinks(s: string)
    ensures ScanPart(s).Some? ==> |ScanPart(s).value.1| < |s|
  {
    ScanKeyShrinks(s);
    if ScanKey(s).Some? {
      var rest := ScanKey(s).value.1;
      ScanPlainShrinks(rest);
      if rest != [] {
        ScanQuotedShrinks(rest[1..], false);
      }
    }
  }

  /** The parts of a body: parts separated by single spaces. */
  function Tokenize(s: string): Option<seq<Part>>
    decreases |s|
  {
    if s == [] then Some([]) else TokenizeParts(s)
  }

  function TokenizeParts(s: string): Option<seq<Part>>
    decreases |s|
  {
    var first := ScanPart(s);
    if first.None? then None
    else
      var (part, rest) := first.value;
      if rest == [] then Some([part])
      else if rest[0] != SPACE then None
      else
        ScanPartShrinks(s);
        var others := TokenizeParts(rest[1..]);
        if others.None? then None else Some([part] + others.value)
  }

  /** Removes the backslash that the formatter put before every quote. */
  function Unescape(s: string): string {
    if s == [] then []
    else if |s| >= 2 && s[0] == BACKSLASH && s[1] == QUOTE then [QUOTE] + Unescape(s[2..])
    else [s[0]] + Unescape(s[1..])
  }

  /** The string a printed string value stands for. */
  function DecodeValue(text: string): string {
    if |text| >= 2 && text[0] == QUOTE then Unescape(text[1..|text| - 1]) else text
  }

  // ----- Escaping -----

  lemma {:induction false} UnescapeEscape(s: string)
    ensures Unescape(Escape(s)) == s
    ensures Escape(s) != [] ==> Escape(s)[0] != QUOTE
  {
    if s != [] {
      UnescapeEscape(s[1..]);
      var e := Escape(s);
      if s[0] == QUOTE {
        assert e[2..] == Escape(s[1..]);
      } else {
        assert e[1..] == Escape(s[1..]);
      }
    }
  }

  /** Decoding gives every string value back, whatever it contains. */
  lemma DecodeString(s: string)
    ensures DecodeValue(FormatValue(String(s))) == s
  {
    var text := FormatValue(String(s));
    if NeedsQuotes(s) {
      UnescapeEscape(s);
      assert text[1..|text| - 1] == Escape(s);
    }
  }

  predicate EndsInBackslash(s: string) {
    s != [] && s[|s| - 1] == BACKSLASH
  }

  /** Every quote in t has a backslash before it; `escaped` says whether one precedes t. */
  predicate QuotesEscaped(t: string, escaped: bool) {
    t == [] || ((t[0] == QUOTE ==> escaped) && QuotesEscaped(t[1..], t[0] == BACKSLASH))
  }

  lemma {:induction false} EscapeIsSafe(s: string, escaped: bool)
    ensures QuotesEscaped(Escape(s), escaped)
    ensures EndsInBackslash(Escape(s)) <==> EndsInBackslash(s)
  {
    if s != [] {
      EscapeIsSafe(s[1..], s[0] == BACKSLASH);
      var e := Escape(s);
      if s[0] == QUOTE {
        EscapeIsSafe(s[1..], false);
        assert e[1..] == [QUOTE] + Escape(s[1..]);
        assert e[1..][1..] == Escape(s[1..]);
      } else {
        assert e[1..] == Escape(s[1..]);
      }
      if s[1..] == [] {
        assert Escape(s[1..]) == [];
      } else {
        EscapeNonEmpty(s[1..]);
      }
    }
  }

  lemma EscapeNonEmpty(s: string)
    requires s != []
    ensures Escape(s) != []
  {
  }

  lemma {:induction false} QuoteFreeIsSafe(t: string, escaped: bool)
    requires QUOTE !in t
    ensures QuotesEscaped(t, escaped)
  {
    if t != [] {
      assert QUOTE !in t[1..];
      QuoteFreeIsSafe(t[1..], t[0] == BACKSLASH);
    }
  }

  // ----- Scanning one part -----

  /** The scanner stops exactly at the printed closing quote when the inner text does not end in a backslash. */
  lemma {:induction false} ScanCloses(t: string, escaped: bool, rest: string)
    requires QuotesEscaped(t, escaped) && (if t == [] then !escaped else !EndsInBackslash(t))
    ensures ScanQuoted(t + [QUOTE] + rest, escaped) == Some((t, rest))
  {
    var s := t + [QUOTE] + rest;
    if t == [] {
      assert s[1..] == rest;
    } else {
      assert s[1..] == t[1..] + [QUOTE] + rest && t == [t[0]] + t[1..];
      ScanCloses(t[1..], t[0] == BACKSLASH, rest);
    }
  }

  /** After a trailing backslash the scanner runs past the printed closing quote, if it stops at all. */
  lemma {:induction false} ScanOverruns(t: string, escaped: bool, rest: string)
    requires QuotesEscaped(t, escaped) && (if t == [] then escaped else EndsInBackslash(t))
    ensures var r := ScanQuoted(t + [QUOTE] + rest, escaped); r.Some? ==> |r.value.0| > |t|
  {
    var s := t + [QUOTE] + rest;
    if t == [] {
      assert s[1..] == rest;
    } else {
      assert s[1..] == t[1..] + [QUOTE] + rest;
      ScanOverruns(t[1..], t[0] == BACKSLASH, rest);
    }
  }

  lemma {:induction false} ScanPlainWord(word: string, rest: string)
    requires SPACE !in word && (rest == [] || rest[0] == SPACE)
    ensures ScanPlain(word + rest) == (word, rest)
  {
    if word == [] {
      assert word + rest == rest;
    } else {
      assert (word + rest)[1..] == word[1..] + rest && word == [word[0]] + word[1..];
      ScanPlainWord(word[1..], rest);
    }
  }

  lemma {:induction false} ScanKeyWord(key: string, rest: string)
    requires EQUALS !in key
    ensures ScanKey(key + [EQUALS] + rest) == Some((key, rest))
  {
    var s := key + [EQUALS] + rest;
    if key == [] {
      assert s[1..] == rest;
    } else {
      assert s[1..] == key[1..] + [EQUALS] + rest && key == [key[0]] + key[1..];
      ScanKeyWord(key[1..], rest);
    }
  }

  predicate IsPlain(text: string) {
    SPACE !in text && QUOTE !in text
  }

  predicate IsQuoted(text: string) {
    && |text| >= 2 && text[0] == QUOTE && text[|text| - 1] == QUOTE
    && QuotesEscaped(text[1..|text| - 1], false)
  }

  /** The texts the formatter prints for values. */
  predicate IsPrinted(text: string) {
    IsPlain(text) || IsQuoted(text)
  }

  /** A quoted text whose inner text ends in a backslash: the closing quote reads as an escaped one. */
  predicate Unclosed(text: string) {
    IsQuoted(text) && EndsInBackslash(text[1..|text| - 1])
  }

  predicate Printable(p: Part) {
    EQUALS !in p.key && IsPrinted(p.value)
  }

  lemma ScanPlainValue(key: string, word: string, rest: string)
    requires EQUALS !in key && IsPlain(word) && (rest == [] || rest[0] == SPACE)
    ensures ScanPart(key + [EQUALS] + (word + rest)) == Some((Part(key, word), rest))
  {
    hide ScanKey, ScanPlain, ScanQuoted;
    ScanKeyWord(key, word + rest);
    ScanPlainWord(word, rest);
    assert (word + rest) != [] ==> (word + rest)[0] != QUOTE;
  }

  lemma ScanQuotedValue(key: string, inner: string, rest: string)
    requires EQUALS !in key && QuotesEscaped(inner, false)
    ensures var r := ScanPart(key + [EQUALS] + (Quoted(inner) + rest));
            if EndsInBackslash(inner) then r.Some? ==> |r.value.0.value| > |Quoted(inner)|
            else r == Some((Part(key, Quoted(inner)), rest))
  {
    hide ScanKey, ScanPlain, ScanQuoted, QuotesEscaped;
    var s := Quoted(inner) + rest;
    ScanKeyWord(key, s);
    assert s[0] == QUOTE && s[1..] == inner + [QUOTE] + rest;
    if EndsInBackslash(inner) {
      ScanOverruns(inner, false, rest);
    } else {
      ScanCloses(inner, false, rest);
    }
  }

  /** A printed part, at the end of the line or before a space, scans back exactly when it is not unclosed. */
  lemma ScanPrinted(p: Part, rest: string)
    requires Printable(p) && (rest == [] || rest[0] == SPACE)
    ensures ScanPart(Print(p) + rest) == Some((p, rest)) <==> !Unclosed(p.value)
    ensures Unclosed(p.value) && ScanPart(Print(p) + rest).Some? ==> ScanPart(Print(p) + rest).value.0 != p
  {
    hide ScanPart, QuotesEscaped, EndsInBackslash;
    assert Print(p) + rest == p.key + [EQUALS] + (p.value + rest);
    if IsQuoted(p.value) {
      var inner := p.value[1..|p.value| - 1];
      assert p.value == Quoted(inner);
      ScanQuotedValue(p.key, inner, rest);
    } else {
      ScanPlainValue(p.key, p.value, rest);
    }
  }

  // ----- Scanning the body -----

  function Tail(parts: seq<Part>): string {
    if parts == [] then [] else [SPACE] + Body(parts)
  }

  lemma BodyCons(p: Part, parts: seq<Part>)
    ensures Body([p] + parts) == Print(p) + Tail(parts)
  {
    var all := [p] + parts;
    assert all[1..] == parts;
    assert PrintAll(all)[1..] == PrintAll(parts);
    if parts == [] {
      assert PrintAll(all) == [Print(p)];
      assert Print(p) + [] == Print(p);
    } else {
      assert PrintAll(parts) != [];
      assert Body(all) == Print(p) + [SPACE] + Body(parts);
    }
  }

  /** Reading a body whose first part closes: that part, then whatever the rest reads as. */
  lemma TokenizeFirst(p: Part, others: seq<Part>)
    requires Printable(p) && !Unclosed(p.value)
    ensures TokenizeParts(Body([p] + others)) ==
            if others == [] then Some([p])
            else if TokenizeParts(Body(others)).None? then None
            else Some([p] + TokenizeParts(Body(others)).value)
  {
    BodyCons(p, others);
    ScanPrinted(p, Tail(others));
    if others != [] {
      assert Tail(others)[1..] == Body(others);
    }
  }

  /** The body reads back as its parts, in order, exactly when none of them is unclosed. */
  lemma {:induction false} TokenizePrinted(parts: seq<Part>)
    requires parts != [] && forall p :: p in parts ==> Printable(p)
    ensures TokenizeParts(Body(parts)) == Some(parts) <==> forall p :: p in parts ==> !Unclosed(p.value)
  {
    var p, others := parts[0], parts[1..];
    assert parts == [p] + others;
    assert forall x :: x in parts <==> x == p || x in others;
    if Unclosed(p.value) {
      BodyCons(p, others);
      ScanPrinted(p, Tail(others));
    } else {
      TokenizeFirst(p, others);
      if others == [] {
        assert parts == [p];
      } else {
        TokenizePrinted(others);
        var r := TokenizeParts(Body(others));
        if r.Some? && [p] + r.value == [p] + others {
          assert r.value == ([p] + r.value)[1..] == others;
        }
      }
    }
  }

  lemma BodyNonEmpty(parts: seq<Part>)
    requires parts != []
    ensures Body(parts) != []
  {
    assert parts == [parts[0]] + parts[1..];
    BodyCons(parts[0], parts[1..]);
  }

  lemma {:induction false} ScannedKey(s: string)
    ensures ScanKey(s).Some? ==> EQUALS !in ScanKey(s).value.0
  {
    if s != [] {
      ScannedKey(s[1..]);
    }
  }

  /** No tokenized key holds '='. */
  lemma {:induction false} TokenizedKeys(s: string)
    ensures TokenizeParts(s).Some? ==> forall p :: p in TokenizeParts(s).value ==> EQUALS !in p.key
    decreases |s|
  {
    ScannedKey(s);
    ScanPartShrinks(s);
    var first := ScanPart(s);
    if first.Some? && first.value.1 != [] {
      TokenizedKeys(first.value.1[1..]);
    }
  }

  /**
   Print and tokenize: for any parts with printed values, the tokenizer recovers exactly the parts in
   order if and only if no key holds '=' and no quoted value's inner text ends in a backslash.
   */
  lemma RoundTrip(parts: seq<Part>)
    requires forall p :: p in parts ==> IsPrinted(p.value)
    ensures Tokenize(Body(parts)) == Some(parts) <==> forall p :: p in parts ==> EQUALS !in p.key && !Unclosed(p.value)
  {
    if parts != [] {
      BodyNonEmpty(parts);
      TokenizedKeys(Body(parts));
      if forall p :: p in parts ==> EQUALS !in p.key {
        TokenizePrinted(parts);
      }
    }
  }

  // ----- What the formatter prints for values -----

  /** Numbers print without spaces and quotes; for floats that is the printer's promise. */
  predicate PlainFloat(v: Value) {
    v.Num? && v.num.Float? ==> IsPlain(v.num.text)
  }

  lemma {:induction false} DropQuotesDropsQuotes(s: string)
    ensures QUOTE !in DropQuotes(s)
  {
    if s != [] {
      DropQuotesDropsQuotes(s[1..]);
    }
  }

  lemma {:induction false} ElementsQuoteFree(elems: seq<Value>)
    ensures forall t :: t in FormatElements(elems) ==> QUOTE !in t
    ensures |FormatElements(elems)| == |elems|
    ensures elems != [] ==> FormatElements(elems)[|elems| - 1] == DropQuotes(FormatValue(elems[|elems| - 1]))
  {
    if elems != [] {
      DropQuotesDropsQuotes(FormatValue(elems[0]));
      ElementsQuoteFree(elems[1..]);
    }
  }

  lemma {:induction false} JoinQuoteFree(parts: seq<string>)
    requires forall t :: t in parts ==> QUOTE !in t
    ensures QUOTE !in Join(parts, ',')
    ensures EndsInBackslash(Join(parts, ',')) <==> parts != [] && EndsInBackslash(parts[|parts| - 1])
  {
    if |parts| > 1 {
      JoinQuoteFree(parts[1..]);
      var rest := Join(parts[1..], ',');
      assert Join(parts, ',') == parts[0] + [','] + rest;
    }
  }

  /** The values whose printed text is unclosed: a quoted string, or an array's last element, ending in a backslash. */
  predicate TrailingBackslash(v: Value) {
    match v
    case String(s) => NeedsQuotes(s) && EndsInBackslash(s)
    case Array(elems) => elems != [] && EndsInBackslash(DropQuotes(FormatValue(elems[|elems| - 1])))
    case _ => false
  }

  lemma QuotedText(inner: string)
    requires QuotesEscaped(inner, false)
    ensures IsQuoted(Quoted(inner)) && (Unclosed(Quoted(inner)) <==> EndsInBackslash(inner))
  {
    var text := Quoted(inner);
    assert text[1..|text| - 1] == inner;
  }

  lemma StringPrints(s: string)
    ensures IsPrinted(FormatValue(String(s))) && (Unclosed(FormatValue(String(s))) <==> TrailingBackslash(String(s)))
  {
    EscapeIsSafe(s, false);
    QuotedText(Escape(s));
  }

  lemma ArrayPrints(elems: seq<Value>)
    ensures IsPrinted(FormatValue(Array(elems))) && (Unclosed(FormatValue(Array(elems))) <==> TrailingBackslash(Array(elems)))
  {
    ElementsQuoteFree(elems);
    JoinQuoteFree(FormatElements(elems));
    QuoteFreeIsSafe(Join(FormatElements(elems), ','), false);
    QuotedText(Join(FormatElements(elems), ','));
  }

  lemma NumberPrints(n: Number)
    requires n.Float? ==> IsPlain(n.text)
    ensures IsPlain(ShowNumber(n)) && !Unclosed(ShowNumber(n))
  {
    if n.PosInt? {
      DecimalRoundTrip(n.n);
    } else if n.NegInt? {
      DecimalRoundTrip(if n.i < 0 then -n.i else n.i);
    }
  }

  /** Every value prints as a plain or properly quoted text, unclosed exactly in the trailing-backslash cases. */
  lemma ValuePrints(v: Value)
    requires PlainFloat(v)
    ensures IsPrinted(FormatValue(v))
    ensures Unclosed(FormatValue(v)) <==> TrailingBackslash(v)
  {
    match v
    case String(s) => StringPrints(s);
    case Array(elems) => ArrayPrints(elems);
    case Num(n) => NumberPrints(n);
    case _ =>
  }

  // ----- Whole lines -----

  /** A log with unique keys whose floats print plainly, as serde_json guarantees. */
  predicate SoundLog(v: Value) {
    && v.Object? && UniqueKeys(v.members)
    && (forall m :: m in v.members ==> PlainFloat(m.value))
    && (forall e :: e in EnrichmentMembers(v) ==> PlainFloat(e.value))
  }

  lemma PrintedKeyEquals(key: string)
    ensures EQUALS in PrintedKey(key) <==> EQUALS in key
    ensures EQUALS in "enrich_" + key <==> EQUALS in key
  {
  }

  lemma PartsPrinted(v: Value)
    requires SoundLog(v)
    ensures forall p :: p in Parts(v) ==> IsPrinted(p.value)
  {
    forall p | p in Parts(v)
      ensures IsPrinted(p.value)
    {
      PartsOrigin(v, p);
      if m :| m in v.members && IsPrintedMember(m) && p == PartOf(m) {
        ValuePrints(m.value);
      } else {
        var e :| e in EnrichmentMembers(v) && FormatValue(e.value) != [] && p == Part("enrich_" + e.key, FormatValue(e.value));
        ValuePrints(e.value);
      }
    }
  }

  /** The member can be read back: its key holds no '=', and its value is not a quoted one with a trailing backslash. */
  predicate ReadsBack(m: Member) {
    EQUALS !in m.key && !TrailingBackslash(m.value)
  }

  /** Every member that reaches the line can be read back. */
  ghost predicate AllReadBack(v: Value) {
    && v.Object?
    && (forall m :: m in v.members && IsPrintedMember(m) ==> ReadsBack(m))
    && (forall e :: e in EnrichmentMembers(v) && FormatValue(e.value) != [] ==> ReadsBack(e))
  }

  predicate CleanPart(p: Part) {
    EQUALS !in p.key && !Unclosed(p.value)
  }

  lemma MemberCleanPart(m: Member)
    requires PlainFloat(m.value)
    ensures CleanPart(PartOf(m)) <==> ReadsBack(m)
    ensures CleanPart(Part("enrich_" + m.key, FormatValue(m.value))) <==> ReadsBack(m)
  {
    PrintedKeyEquals(m.key);
    ValuePrints(m.value);
  }

  lemma CleanParts(v: Value)
    requires SoundLog(v)
    ensures (forall p :: p in Parts(v) ==> CleanPart(p)) <==> AllReadBack(v)
  {
    hide CleanPart, ReadsBack, Parts, IsPrintedMember, EnrichmentMembers, PlainFloat;
    if forall p :: p in Parts(v) ==> CleanPart(p) {
      forall m | m in v.members && IsPrintedMember(m)
        ensures ReadsBack(m)
      {
        PartsOrigin(v, PartOf(m));
        MemberCleanPart(m);
      }
      forall e | e in EnrichmentMembers(v) && FormatValue(e.value) != []
        ensures ReadsBack(e)
      {
        PartsOrigin(v, Part("enrich_" + e.key, FormatValue(e.value)));
        MemberCleanPart(e);
      }
    } else {
      var p :| p in Parts(v) && !CleanPart(p);
      PartsOrigin(v, p);
      if m :| m in v.members && IsPrintedMember(m) && p == PartOf(m) {
        MemberCleanPart(m);
      } else {
        var e :| e in EnrichmentMembers(v) && FormatValue(e.value) != [] && p == Part("enrich_" + e.key, FormatValue(e.value));
        MemberCleanPart(e);
      }
    }
  }

  /**
   Line round trip: the tokenizer recovers exactly the emitted key/value parts of a log in order if
   and only if no printed key holds '=' and no printed value that gets quoted has inner text ending
   in a backslash.
   */
  lemma LineRoundTrip(v: Value, line: string)
    requires SoundLog(v) && line == PREFIX + Body(Parts(v))
    ensures Tokenize(line[|PREFIX|..]) == Some(Parts(v)) <==> AllReadBack(v)
  {
    hide Parts, Body, Tokenize, AllReadBack, UniqueKeys, EnrichmentMembers;
    assert line[|PREFIX|..] == Body(Parts(v));
    PartsPrinted(v);
    CleanParts(v);
    RoundTrip(Parts(v));
  }

  /** Through the whole line: a printed string field is among the recovered parts and decodes to its original string. */
  lemma StringFieldSurvives(v: Value, line: string, m: Member)
    requires SoundLog(v) && AllReadBack(v) && line == PREFIX + Body(Parts(v))
    requires m in v.members && IsPrintedMember(m) && m.value.String?
    ensures Tokenize(line[|PREFIX|..]).Some? && PartOf(m) in Tokenize(line[|PREFIX|..]).value
    ensures DecodeValue(PartOf(m).value) == m.value.s
  {
    LineRoundTrip(v, line);
    PartsOrigin(v, PartOf(m));
    DecodeString(m.value.s);
  }

  lemma TrailingBackslashPrints(v: Value)
    requires TrailingBackslash(v)
    ensures FormatValue(v) != []
  {
  }

  /** The condition matters: any quoted string field that ends in a backslash spoils even a one-field line. */
  lemma BackslashSwallowsTheLine(key: string, s: string)
    requires !Skipped(key) && NeedsQuotes(s) && EndsInBackslash(s)
    ensures var v := Object([Member(key, String(s))]);
            SoundLog(v) && Tokenize((PREFIX + Body(Parts(v)))[|PREFIX|..]) != Some(Parts(v))
  {
    var m := Member(key, String(s));
    var v := Object([m]);
    assert v.members[1..] == [] && Lookup([], "forwarder_enrichment") == None;
    assert Get(v, "forwarder_enrichment") == None;
    assert m in v.members && TrailingBackslash(m.value);
    TrailingBackslashPrints(m.value);
    LineRoundTrip(v, PREFIX + Body(Parts(v)));
  }
}
