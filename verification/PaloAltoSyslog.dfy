/** The Wazuh syslog line: what the formatter prints for a log, part by part. */
module PaloAltoSyslog {
  import opened Wrappers
  import opened Json

  const SPACE: char := ' '
  const QUOTE: char := '"'
  const BACKSLASH: char := '\\'
  const EQUALS: char := '='
  const PREFIX: string := "<134>PaloAlto: "

  // ----- The formatter -----

  /** s.replace('"', "\\\""): a backslash before every quote, and nothing else. */
  function Escape(s: string): string {
    if s == [] then []
    else (if s[0] == QUOTE then [BACKSLASH, QUOTE] else [s[0]]) + Escape(s[1..])
  }

  /** s.replace("\"", "") */
  function DropQuotes(s: string): string {
    if s == [] then [] else (if s[0] == QUOTE then [] else [s[0]]) + DropQuotes(s[1..])
  }

  function Join(parts: seq<string>, separator: char): string {
    if parts == [] then []
    else if |parts| == 1 then parts[0]
    else parts[0] + [separator] + Join(parts[1..], separator)
  }

  function Quoted(inner: string): string {
    [QUOTE] + inner + [QUOTE]
  }

  predicate NeedsQuotes(s: string) {
    SPACE in s || QUOTE in s
  }

  /** format_syslog_value */
  function FormatValue(v: Value): string {
    match v
    case String(s) => if NeedsQuotes(s) then Quoted(Escape(s)) else s
    case Num(n) => ShowNumber(n)
    case Bool(b) => if b then "true" else "false"
    case Array(elems) => Quoted(Join(FormatElements(elems), ','))
    case Null => ""
    case Object(_) => ""
  }

  function FormatElements(elems: seq<Value>): seq<string> {
    if elems == [] then [] else [DropQuotes(FormatValue(elems[0]))] + FormatElements(elems[1..])
  }

  /** One key=value part of a line. */
  datatype Part = Part(key: string, value: string)

  function Print(p: Part): string {
    p.key + [EQUALS] + p.value
  }

  function PrintAll(parts: seq<Part>): seq<string> {
    if parts == [] then [] else [Print(parts[0])] + PrintAll(parts[1..])
  }

  function Body(parts: seq<Part>): string {
    Join(PrintAll(parts), SPACE)
  }

  /** A leading field: printed under its syslog name whenever it is present, even when its text is empty. */
  function Leading(v: Value, field: string, key: string): seq<Part> {
    var found := Get(v, field);
    if found.Some? then [Part(key, FormatValue(found.value))] else []
  }

  function LeadingParts(v: Value): seq<Part> {
    Leading(v, "device_name", "device_name")
    + Leading(v, "serial_number", "serial_number")
    + Leading(v, "generated_time", "generated_time")
    + Leading(v, "source_address", "src_ip")
    + Leading(v, "destination_address", "dst_ip")
    + Leading(v, "source_port", "src_port")
    + Leading(v, "destination_port", "dst_port")
    + Leading(v, "action", "action")
    + Leading(v, "application", "application")
  }

  /** The keys the general loop skips. */
  predicate Skipped(key: string) {
    || (key != [] && key[0] == '@')
    || key in ["palo_alto_raw_log", "log_source", "forwarder_enrichment", "device_name", "serial_number",
               "generated_time", "source_address", "destination_address", "source_port", "destination_port",
               "action", "application"]
  }

  /** The other members in map order, without the skipped ones and those that print empty. */
  function OtherParts(members: seq<Member>): seq<Part> {
    if members == [] then []
    else OtherParts(members[..|members| - 1]) + OtherPart(members[|members| - 1])
  }

  function OtherPart(m: Member): seq<Part> {
    if Skipped(m.key) || FormatValue(m.value) == [] then [] else [Part(m.key, FormatValue(m.value))]
  }

  function EnrichmentParts(members: seq<Member>): seq<Part> {
    if members == [] then []
    else EnrichmentParts(members[..|members| - 1]) + EnrichmentPart(members[|members| - 1])
  }

  function EnrichmentPart(m: Member): seq<Part> {
    if FormatValue(m.value) == [] then [] else [Part("enrich_" + m.key, FormatValue(m.value))]
  }

  /** The parts of a log's line, in the order they are printed. */
  function Parts(v: Value): seq<Part>
    requires v.Object?
  {
    var enrichment := Get(v, "forwarder_enrichment");
    LeadingParts(v) + OtherParts(v.members)
    + if enrichment.Some? && enrichment.value.Object? then EnrichmentParts(enrichment.value.members) else []
  }

  // ----- Which parts a log prints -----

  predicate IsLeading(field: string) {
    field in ["device_name", "serial_number", "generated_time", "source_address", "destination_address",
              "source_port", "destination_port", "action", "application"]
  }

  /** The key a field is printed under. */
  function PrintedKey(field: string): string {
    if field == "source_address" then "src_ip"
    else if field == "destination_address" then "dst_ip"
    else if field == "source_port" then "src_port"
    else if field == "destination_port" then "dst_port"
    else field
  }

  /** The member gets a part of its own: a leading field always, another one unless skipped or empty. */
  predicate IsPrintedMember(m: Member) {
    IsLeading(m.key) || (!Skipped(m.key) && FormatValue(m.value) != [])
  }

  function PartOf(m: Member): Part {
    Part(PrintedKey(m.key), FormatValue(m.value))
  }

  function EnrichmentMembers(v: Value): seq<Member> {
    var enrichment := Get(v, "forwarder_enrichment");
    if enrichment.Some? && enrichment.value.Object? then enrichment.value.members else []
  }

  lemma LeadingOrigin(v: Value, field: string, p: Part)
    requires v.Object? && UniqueKeys(v.members) && IsLeading(field)
    ensures p in Leading(v, field, PrintedKey(field)) <==> exists m :: m in v.members && m.key == field && p == PartOf(m)
  {
    LookupMember(v.members, field);
    if p in Leading(v, field, PrintedKey(field)) {
      var m := Member(field, Get(v, field).value);
      assert m in v.members && p == PartOf(m);
    }
  }

  lemma InLeadingParts(v: Value, p: Part)
    ensures p in LeadingParts(v) <==>
      || p in Leading(v, "device_name", "device_name") || p in Leading(v, "serial_number", "serial_number")
      || p in Leading(v, "generated_time", "generated_time") || p in Leading(v, "source_address", "src_ip")
      || p in Leading(v, "destination_address", "dst_ip") || p in Leading(v, "source_port", "src_port")
      || p in Leading(v, "destination_port", "dst_port") || p in Leading(v, "action", "action")
      || p in Leading(v, "application", "application")
  {
  }

  lemma LeadingPartsOrigin(v: Value, p: Part)
    requires v.Object? && UniqueKeys(v.members)
    ensures p in LeadingParts(v) <==> exists m :: m in v.members && IsLeading(m.key) && p == PartOf(m)
  {
    hide LeadingParts, Leading, PartOf, UniqueKeys;
    InLeadingParts(v, p);
    LeadingOrigin(v, "device_name", p);
    LeadingOrigin(v, "serial_number", p);
    LeadingOrigin(v, "generated_time", p);
    LeadingOrigin(v, "source_address", p);
    LeadingOrigin(v, "destination_address", p);
    LeadingOrigin(v, "source_port", p);
    LeadingOrigin(v, "destination_port", p);
    LeadingOrigin(v, "action", p);
    LeadingOrigin(v, "application", p);
  }

  lemma LeadingIsSkipped(key: string)
    ensures IsLeading(key) ==> Skipped(key)
    ensures !Skipped(key) ==> PrintedKey(key) == key
  {
  }

  lemma {:induction false} OtherPartsOrigin(members: seq<Member>, p: Part)
    ensures p in OtherParts(members) <==>
            exists m :: m in members && !Skipped(m.key) && FormatValue(m.value) != [] && p == PartOf(m)
  {
    if members != [] {
      var init, last := members[..|members| - 1], members[|members| - 1];
      OtherPartsOrigin(init, p);
      LeadingIsSkipped(last.key);
      assert members == init + [last];
      if p in OtherParts(init) {
        var m :| m in init && !Skipped(m.key) && FormatValue(m.value) != [] && p == PartOf(m);
        assert m in members;
      }
      if p in OtherPart(last) {
        assert last in members && p == PartOf(last);
      }
    }
  }

  lemma {:induction false} EnrichmentPartsOrigin(members: seq<Member>, p: Part)
    ensures p in EnrichmentParts(members) <==>
            exists m :: m in members && FormatValue(m.value) != [] && p == Part("enrich_" + m.key, FormatValue(m.value))
  {
    if members != [] {
      var init, last := members[..|members| - 1], members[|members| - 1];
      EnrichmentPartsOrigin(init, p);
      assert members == init + [last];
      if p in EnrichmentParts(init) {
        var m :| m in init && FormatValue(m.value) != [] && p == Part("enrich_" + m.key, FormatValue(m.value));
        assert m in members;
      }
      if p in EnrichmentPart(last) {
        assert last in members;
      }
    }
  }

  /**
   Where the parts of a line come from, both ways: printed members under their syslog keys, and
   enrichment members.
   */
  lemma PartsOrigin(v: Value, p: Part)
    requires v.Object? && UniqueKeys(v.members)
    ensures p in Parts(v) <==>
      || (exists m :: m in v.members && IsPrintedMember(m) && p == PartOf(m))
      || (exists e :: e in EnrichmentMembers(v) && FormatValue(e.value) != []
                      && p == Part("enrich_" + e.key, FormatValue(e.value)))
  {
    LeadingPartsOrigin(v, p);
    OtherPartsOrigin(v.members, p);
    EnrichmentPartsOrigin(EnrichmentMembers(v), p);
  }

  // ----- The formatter as code -----

  lemma {:induction false} PrintAllConcat(a: seq<Part>, b: seq<Part>)
    ensures PrintAll(a + b) == PrintAll(a) + PrintAll(b)
  {
    if a == [] {
      assert a + b == b;
    } else {
      assert (a + b)[1..] == a[1..] + b;
      PrintAllConcat(a[1..], b);
    }
  }

  /** One of the formatter's leading fields. */
  method PushLeading(log: Value, field: string, key: string, parts0: seq<string>) returns (parts: seq<string>)
    ensures parts == parts0 + PrintAll(Leading(log, field, key))
  {
    parts := parts0;
    var found := Get(log, field);
    if found.Some? {
      parts := parts + [key + "=" + FormatValue(found.value)];
      assert Leading(log, field, key)[1..] == [];
    }
  }

  /** The general loop over the object's members. */
  method PushOthers(members: seq<Member>, parts0: seq<string>) returns (parts: seq<string>)
    ensures parts == parts0 + PrintAll(OtherParts(members))
  {
    hide FormatValue, Skipped, OtherParts, PrintAll;
    parts := parts0;
    NothingPrinted();
    for i := 0 to |members|
      invariant parts == parts0 + PrintAll(OtherParts(members[..i]))
    {
      OtherPartsStep(members, i);
      var m := members[i];
      if Skipped(m.key) {
        continue;
      }
      var text := FormatValue(m.value);
      if text != [] {
        parts := parts + [m.key + "=" + text];
      }
    }
    assert members[..|members|] == members;
  }

  lemma NothingPrinted()
    ensures PrintAll(OtherParts([])) == [] && PrintAll(EnrichmentParts([])) == []
  {
  }

  lemma OtherPartsStep(members: seq<Member>, i: nat)
    requires i < |members|
    ensures var m, text := members[i], FormatValue(members[i].value);
            PrintAll(OtherParts(members[..i + 1])) ==
            PrintAll(OtherParts(members[..i])) + if Skipped(m.key) || text == [] then [] else [m.key + "=" + text]
  {
    assert members[..i + 1][..i] == members[..i];
    PrintAllConcat(OtherParts(members[..i]), OtherPart(members[i]));
    if OtherPart(members[i]) != [] {
      assert OtherPart(members[i])[1..] == [];
    }
  }

  /** The loop over the enrichment object. */
  method PushEnrichment(members: seq<Member>, parts0: seq<string>) returns (parts: seq<string>)
    ensures parts == parts0 + PrintAll(EnrichmentParts(members))
  {
    parts := parts0;
    for i := 0 to |members|
      invariant parts == parts0 + PrintAll(EnrichmentParts(members[..i]))
    {
      EnrichmentPartsStep(members, i);
      var text := FormatValue(members[i].value);
      if text != [] {
        parts := parts + ["enrich_" + members[i].key + "=" + text];
      }
    }
    assert members[..|members|] == members;
  }

  lemma EnrichmentPartsStep(members: seq<Member>, i: nat)
    requires i < |members|
    ensures var m, text := members[i], FormatValue(members[i].value);
            PrintAll(EnrichmentParts(members[..i + 1])) ==
            PrintAll(EnrichmentParts(members[..i])) + if text == [] then [] else ["enrich_" + m.key + "=" + text]
  {
    assert members[..i + 1][..i] == members[..i];
    PrintAllConcat(EnrichmentParts(members[..i]), EnrichmentPart(members[i]));
    if EnrichmentPart(members[i]) != [] {
      assert EnrichmentPart(members[i])[1..] == [];
    }
  }

  /** The leading fields, in the order of the source. */
  method PushAllLeading(log: Value) returns (parts: seq<string>)
    ensures parts == PrintAll(LeadingParts(log))
  {
    ghost var done := Leading(log, "device_name", "device_name");
    parts := PushLeading(log, "device_name", "device_name", []);
    parts, done := PushNextLeading(log, "serial_number", "serial_number", parts, done);
    parts, done := PushNextLeading(log, "generated_time", "generated_time", parts, done);
    parts, done := PushNextLeading(log, "source_address", "src_ip", parts, done);
    parts, done := PushNextLeading(log, "destination_address", "dst_ip", parts, done);
    parts, done := PushNextLeading(log, "source_port", "src_port", parts, done);
    parts, done := PushNextLeading(log, "destination_port", "dst_port", parts, done);
    parts, done := PushNextLeading(log, "action", "action", parts, done);
    parts, done := PushNextLeading(log, "application", "application", parts, done);
  }

  method PushNextLeading(log: Value, field: string, key: string, parts0: seq<string>, ghost done0: seq<Part>)
    returns (parts: seq<string>, ghost done: seq<Part>)
    requires parts0 == PrintAll(done0)
    ensures done == done0 + Leading(log, field, key) && parts == PrintAll(done0 + Leading(log, field, key))
  {
    parts := PushLeading(log, field, key, parts0);
    done := done0 + Leading(log, field, key);
    PrintAllConcat(done0, Leading(log, field, key));
  }

  /** format_json_to_palo_alto_syslog */
  method FormatJsonToPaloAltoSyslog(log: Value) returns (r: Result<string, string>)
    ensures log.Object? ==> r == Ok(PREFIX + Body(Parts(log)))
    ensures !log.Object? ==> r == Err("Log JSON is not an object, cannot format to Palo Alto syslog.")
  {
    if !log.Object? {
      return Err("Log JSON is not an object, cannot format to Palo Alto syslog.");
    }
    var parts := PushAllLeading(log);
    parts := PushOthers(log.members, parts);
    PrintAllConcat(LeadingParts(log), OtherParts(log.members));
    var enrichment := Get(log, "forwarder_enrichment");
    if enrichment.Some? && enrichment.value.Object? {
      parts := PushEnrichment(enrichment.value.members, parts);
      PrintAllConcat(LeadingParts(log) + OtherParts(log.members), EnrichmentParts(enrichment.value.members));
    } else {
      assert Parts(log) == LeadingParts(log) + OtherParts(log.members);
    }
    r := Ok(PREFIX + Join(parts, SPACE));
  }
}
