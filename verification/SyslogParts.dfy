/** The parts of a Wazuh line in order, and the text of each kind of value. */
module SyslogParts {
  import opened Wrappers
  import opened Collections
  import opened Selections
  import opened Json
  import opened PaloAltoSyslog

  // ----- The order of the parts -----

  /** The leading fields and the keys they are printed under, in the order of the line. */
  const LEADING: seq<(string, string)> := [
    ("device_name", "device_name"), ("serial_number", "serial_number"), ("generated_time", "generated_time"),
    ("source_address", "src_ip"), ("destination_address", "dst_ip"), ("source_port", "src_port"),
    ("destination_port", "dst_port"), ("action", "action"), ("application", "application")]

  function LeadingPart(v: Value): ((string, string)) -> Option<Part> {
    (f: (string, string)) => if Get(v, f.0).Some? then Some(Part(f.1, FormatValue(Get(v, f.0).value))) else None
  }

  /** Any other member: printed under its own key, unless it is metadata, the enrichment, a leading field, or empty. */
  function OtherMember(m: Member): Option<Part> {
    if (m.key != "" && m.key[0] == '@') || m.key in ["palo_alto_raw_log", "log_source", "forwarder_enrichment"]
       || (exists i :: 0 <= i < |LEADING| && LEADING[i].0 == m.key) || FormatValue(m.value) == ""
    then None else Some(Part(m.key, FormatValue(m.value)))
  }

  function EnrichmentMember(m: Member): Option<Part> {
    if FormatValue(m.value) == "" then None else Some(Part("enrich_" + m.key, FormatValue(m.value)))
  }

  function LeadingFrom(v: Value, fields: seq<(string, string)>): seq<Part> {
    if fields == [] then []
    else LeadingFrom(v, fields[..|fields| - 1]) + Leading(v, fields[|fields| - 1].0, fields[|fields| - 1].1)
  }

  lemma NextLeading(v: Value, fields: seq<(string, string)>, n: nat)
    requires n < |fields|
    ensures LeadingFrom(v, fields[..n + 1]) == LeadingFrom(v, fields[..n]) + Leading(v, fields[n].0, fields[n].1)
    ensures LeadingFrom(v, fields[..0]) == []
  {
    assert fields[..n + 1][..n] == fields[..n];
  }

  lemma NineLeading(v: Value, fields: seq<(string, string)>)
    requires |fields| == 9
    ensures LeadingFrom(v, fields) ==
            Leading(v, fields[0].0, fields[0].1) + Leading(v, fields[1].0, fields[1].1)
            + Leading(v, fields[2].0, fields[2].1) + Leading(v, fields[3].0, fields[3].1)
            + Leading(v, fields[4].0, fields[4].1) + Leading(v, fields[5].0, fields[5].1)
            + Leading(v, fields[6].0, fields[6].1) + Leading(v, fields[7].0, fields[7].1)
            + Leading(v, fields[8].0, fields[8].1)
  {
    hide Leading, LeadingFrom;
    NextLeading(v, fields, 0);
    NextLeading(v, fields, 1);
    NextLeading(v, fields, 2);
    NextLeading(v, fields, 3);
    NextLeading(v, fields, 4);
    NextLeading(v, fields, 5);
    NextLeading(v, fields, 6);
    NextLeading(v, fields, 7);
    NextLeading(v, fields, 8);
    assert fields[..9] == fields;
  }

  lemma LeadingIsFrom(v: Value)
    ensures LeadingParts(v) == LeadingFrom(v, LEADING)
  {
    hide Leading, LeadingFrom;
    NineLeading(v, LEADING);
  }

  lemma {:induction false} LeadingKeeps(v: Value, fields: seq<(string, string)>) returns (at: seq<nat>)
    ensures Keeps(fields, LeadingFrom(v, fields), at, LeadingPart(v))
  {
    hide Keeps, FormatValue;
    if fields == [] {
      at := [];
      KeepsNothing<(string, string), Part>(LeadingPart(v));
    } else {
      var init, last := fields[..|fields| - 1], fields[|fields| - 1];
      at := LeadingKeeps(v, init);
      assert fields == init + [last];
      var own := LeadingPart(v)(last);
      assert LeadingFrom(v, fields) == if own.Some? then LeadingFrom(v, init) + [own.value] else LeadingFrom(v, init);
      at := KeepsSnoc(init, LeadingFrom(v, init), at, LeadingPart(v), last);
    }
  }

  lemma SkippedIff(key: string)
    ensures Skipped(key) <==>
            || (key != "" && key[0] == '@') || key in ["palo_alto_raw_log", "log_source", "forwarder_enrichment"]
            || (exists i :: 0 <= i < |LEADING| && LEADING[i].0 == key)
  {
    assert LEADING[0].0 == "device_name" && LEADING[1].0 == "serial_number" && LEADING[2].0 == "generated_time";
    assert LEADING[3].0 == "source_address" && LEADING[4].0 == "destination_address" && LEADING[5].0 == "source_port";
    assert LEADING[6].0 == "destination_port" && LEADING[7].0 == "action" && LEADING[8].0 == "application";
  }

  lemma {:induction false} OthersKeep(members: seq<Member>) returns (at: seq<nat>)
    ensures Keeps(members, OtherParts(members), at, OtherMember)
  {
    hide Keeps, FormatValue, Skipped;
    if members == [] {
      at := [];
      KeepsNothing<Member, Part>(OtherMember);
    } else {
      var init, last := members[..|members| - 1], members[|members| - 1];
      at := OthersKeep(init);
      assert members == init + [last];
      SkippedIff(last.key);
      var own := OtherMember(last);
      assert OtherParts(members) == if own.Some? then OtherParts(init) + [own.value] else OtherParts(init);
      at := KeepsSnoc(init, OtherParts(init), at, OtherMember, last);
    }
  }

  lemma {:induction false} EnrichmentKeeps(members: seq<Member>) returns (at: seq<nat>)
    ensures Keeps(members, EnrichmentParts(members), at, EnrichmentMember)
  {
    hide Keeps, FormatValue;
    if members == [] {
      at := [];
      KeepsNothing<Member, Part>(EnrichmentMember);
    } else {
      var init, last := members[..|members| - 1], members[|members| - 1];
      at := EnrichmentKeeps(init);
      assert members == init + [last];
      var own := EnrichmentMember(last);
      assert EnrichmentParts(members) == if own.Some? then EnrichmentParts(init) + [own.value] else EnrichmentParts(init);
      at := KeepsSnoc(init, EnrichmentParts(init), at, EnrichmentMember, last);
    }
  }

  /**
   A line's parts in order: the leading fields that are present, in their fixed order and under their syslog
   keys; the other members that are printed, in the order of the map; the enrichment entries, in theirs.
   */
  lemma PartsInOrder(v: Value) returns (leading: seq<nat>, others: seq<nat>, enrichment: seq<nat>)
    requires v.Object?
    ensures |leading| + |others| + |enrichment| == |Parts(v)|
    ensures Keeps(LEADING, Parts(v)[..|leading|], leading, LeadingPart(v))
    ensures Keeps(v.members, Parts(v)[|leading|..|leading| + |others|], others, OtherMember)
    ensures Keeps(EnrichmentMembers(v), Parts(v)[|leading| + |others|..], enrichment, EnrichmentMember)
  {
    hide LeadingParts, LeadingFrom, OtherParts, EnrichmentParts;
    LeadingIsFrom(v);
    leading := LeadingKeeps(v, LEADING);
    others := OthersKeep(v.members);
    enrichment := EnrichmentKeeps(EnrichmentMembers(v));
    assert EnrichmentParts([]) == [] by {
      NoEnrichmentParts();
    }
    var a, b, c := LeadingParts(v), OtherParts(v.members), EnrichmentParts(EnrichmentMembers(v));
    assert Parts(v) == a + b + c;
    assert Parts(v)[..|a|] == a && Parts(v)[|a|..|a| + |b|] == b && Parts(v)[|a| + |b|..] == c;
  }

  lemma NoEnrichmentParts()
    ensures EnrichmentParts([]) == []
  {
  }

  // ----- The texts of values -----

  /** A string is printed as it is unless it holds a space or a quote, and then between quotes. */
  lemma StringText(s: string)
    ensures FormatValue(String(s)) == s <==> ' ' !in s && '"' !in s
    ensures FormatValue(String(s)) != s ==> FormatValue(String(s)) == "\"" + Escape(s) + "\""
  {
    EscapeGrows(s);
  }

  lemma {:induction false} EscapeGrows(s: string)
    ensures |Escape(s)| >= |s|
  {
    if s != [] {
      EscapeGrows(s[1..]);
    }
  }

  /** Booleans and integers. */
  lemma PlainTexts(n: nat)
    ensures FormatValue(Bool(true)) == "true" && FormatValue(Bool(false)) == "false"
    ensures var text := FormatValue(Num(PosInt(n)));
            AllDigits(text) && DecimalValue(text) == n && (n > 0 ==> text[0] != '0')
    ensures n > 0 ==> FormatValue(Num(NegInt(-(n as int)))) == "-" + FormatValue(Num(PosInt(n)))
  {
    DecimalRoundTrip(n);
    if n > 0 {
      NoLeadingZero(n);
    }
  }

  /** What prints as nothing, and so gets no part outside the leading fields. */
  lemma EmptyText(v: Value)
    ensures FormatValue(v) == "" <==> v == Null || v.Object? || v == String("") || v == Num(Float(""))
  {
    if v.Num? && v.num.PosInt? {
      DecimalRoundTrip(v.num.n);
    } else if v.Num? && v.num.NegInt? {
      DecimalRoundTrip(if v.num.i < 0 then -v.num.i else v.num.i);
    }
  }

  /** s.split(separator) */
  function Split(s: string, separator: char): (parts: seq<string>)
    ensures parts != []
  {
    if s == "" then [""]
    else
      var rest := Split(s[1..], separator);
      if s[0] == separator then [""] + rest else [[s[0]] + rest[0]] + rest[1..]
  }

  lemma {:induction false} SplitFirst(word: string, rest: string, separator: char)
    requires separator !in word
    ensures Split(word + [separator] + rest, separator) == [word] + Split(rest, separator)
    ensures Split(word, separator) == [word]
  {
    var s := word + [separator] + rest;
    if word == "" {
      assert s[1..] == rest;
    } else {
      assert s[1..] == word[1..] + [separator] + rest;
      SplitFirst(word[1..], rest, separator);
      assert [word[0]] + word[1..] == word;
    }
  }

  lemma {:induction false} SplitJoin(parts: seq<string>, separator: char)
    requires parts != [] && forall t :: t in parts ==> separator !in t
    ensures Split(Join(parts, separator), separator) == parts
  {
    SplitFirst(parts[0], Join(parts[1..], separator), separator);
    if |parts| > 1 {
      SplitJoin(parts[1..], separator);
    }
  }

  /** What an array element's text keeps: everything but its quotes, in order. */
  function NoQuote(c: char): Option<char> {
    if c == '"' then None else Some(c)
  }

  lemma {:induction false} DropQuotesSnoc(s: string, c: char)
    ensures DropQuotes(s + [c]) == if c == '"' then DropQuotes(s) else DropQuotes(s) + [c]
  {
    if s == "" {
      assert (s + [c])[1..] == "";
    } else {
      assert (s + [c])[1..] == s[1..] + [c];
      DropQuotesSnoc(s[1..], c);
    }
  }

  lemma {:induction false} DropQuotesKeeps(s: string) returns (at: seq<nat>)
    ensures Keeps(s, DropQuotes(s), at, NoQuote)
  {
    hide Keeps, DropQuotes;
    if s == "" {
      at := [];
      KeepsNothing<char, char>(NoQuote);
      NothingDropped();
    } else {
      var init, last := s[..|s| - 1], s[|s| - 1];
      at := DropQuotesKeeps(init);
      assert s == init + [last];
      DropQuotesSnoc(init, last);
      at := KeepsSnoc(init, DropQuotes(init), at, NoQuote, last);
    }
  }

  lemma NothingDropped()
    ensures DropQuotes("") == ""
  {
  }

  lemma {:induction false} ElementTexts(elems: seq<Value>)
    ensures |FormatElements(elems)| == |elems|
    ensures forall i :: 0 <= i < |elems| ==> FormatElements(elems)[i] == DropQuotes(FormatValue(elems[i]))
  {
    if elems != [] {
      ElementTexts(elems[1..]);
    }
  }

  /** An array's text splits at its commas into the texts of its elements, in order, when none of them holds one. */
  lemma ArrayText(elems: seq<Value>)
    requires elems != [] && forall i :: 0 <= i < |elems| ==> ',' !in DropQuotes(FormatValue(elems[i]))
    ensures var text := FormatValue(Array(elems));
            && |text| >= 2 && text[0] == '"' && text[|text| - 1] == '"'
            && var texts := Split(text[1..|text| - 1], ',');
               |texts| == |elems| && forall i :: 0 <= i < |elems| ==> texts[i] == DropQuotes(FormatValue(elems[i]))
  {
    hide FormatElements, DropQuotes, Join;
    ElementTexts(elems);
    var parts := FormatElements(elems);
    forall t | t in parts
      ensures ',' !in t
    {
      var i :| 0 <= i < |parts| && parts[i] == t;
    }
    SplitJoin(parts, ',');
    var text := FormatValue(Array(elems));
    assert text[1..|text| - 1] == Join(parts, ',');
  }
}
