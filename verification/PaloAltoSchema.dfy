/**
 The field tables of a Palo Alto record: 31 common columns, then the columns of a TRAFFIC or a
 THREAT log.
 */
module PaloAltoSchema {

  datatype Schema = Traffic | Threat

  const COMMON_WIDTH := 31

  ghost predicate NoneHoldsEquals(names: seq<string>) {
    forall name :: name in names ==> '=' !in name
  }

  /** Common columns 0 to 2. */
  function Common0(): (names: seq<string>)
    ensures |names| == 3 && NoneHoldsEquals(names)
  {
    ["Log Number", "Receive Time", "Serial Number"]
  }

  /** Common columns 3 to 5. */
  function Common3(): (names: seq<string>)
    ensures |names| == 3 && NoneHoldsEquals(names)
  {
    ["Type", "Threat/Content Type", "Config Version"]
  }

  /** Common columns 6 to 8. */
  function Common6(): (names: seq<string>)
    ensures |names| == 3 && NoneHoldsEquals(names)
  {
    ["Generated Time", "Source address", "Destination address"]
  }

  /** Common columns 9 to 11. */
  function Common9(): (names: seq<string>)
    ensures |names| == 3 && NoneHoldsEquals(names)
  {
    ["NAT source IP", "NAT destination IP", "Rule Name"]
  }

  /** Common columns 12 to 14. */
  function Common12(): (names: seq<string>)
    ensures |names| == 3 && NoneHoldsEquals(names)
  {
    ["Source User", "Destination User", "Application"]
  }

  /** Common columns 15 to 17. */
  function Common15(): (names: seq<string>)
    ensures |names| == 3 && NoneHoldsEquals(names)
  {
    ["Virtual System", "Source Zone", "Destination Zone"]
  }

  /** Common columns 18 to 20. */
  function Common18(): (names: seq<string>)
    ensures |names| == 3 && NoneHoldsEquals(names)
  {
    ["Inbound Interface", "Outbound Interface", "Log Action"]
  }

  /** Common columns 21 to 23. */
  function Common21(): (names: seq<string>)
    ensures |names| == 3 && NoneHoldsEquals(names)
  {
    ["Time Logged", "Session ID", "Repeat Count"]
  }

  /** Common columns 24 to 26. */
  function Common24(): (names: seq<string>)
    ensures |names| == 3 && NoneHoldsEquals(names)
  {
    ["Source Port", "Destination Port", "NAT Source Port"]
  }

  /** Common columns 27 to 29. */
  function Common27(): (names: seq<string>)
    ensures |names| == 3 && NoneHoldsEquals(names)
  {
    ["NAT Destination Port", "Flags", "IP Protocol"]
  }

  /** Common column 30. */
  function Common30(): (names: seq<string>)
    ensures |names| == 1 && NoneHoldsEquals(names)
  {
    ["Action"]
  }

  /** Columns 0 to 30, shared by every log type. */
  function CommonHeaders(): (names: seq<string>)
    ensures |names| == 31 && NoneHoldsEquals(names)
  {
    Common0() + Common3() + Common6() + Common9() + Common12() + Common15() + Common18() + Common21() + Common24() +
    Common27() + Common30()
  }

  /** TRAFFIC columns 31 to 33. */
  function Traffic31(): (names: seq<string>)
    ensures |names| == 3 && NoneHoldsEquals(names)
  {
    ["Bytes", "Bytes Sent", "Bytes Received"]
  }

  /** TRAFFIC columns 34 to 36. */
  function Traffic34(): (names: seq<string>)
    ensures |names| == 3 && NoneHoldsEquals(names)
  {
    ["Packets", "Start Time", "Elapsed Time in seconds"]
  }

  /** TRAFFIC columns 37 to 39. */
  function Traffic37(): (names: seq<string>)
    ensures |names| == 3 && NoneHoldsEquals(names)
  {
    ["Category", "Padding", "Sequence Number"]
  }

  /** TRAFFIC columns 40 to 42. */
  function Traffic40(): (names: seq<string>)
    ensures |names| == 3 && NoneHoldsEquals(names)
  {
    ["Action Flags", "Source Location", "Destination Location"]
  }

  /** TRAFFIC columns 43 to 45. */
  function Traffic43(): (names: seq<string>)
    ensures |names| == 3 && NoneHoldsEquals(names)
  {
    ["Padding-2", "Packets Sent", "Packets Received"]
  }

  /** TRAFFIC columns 46 to 47. */
  function Traffic46(): (names: seq<string>)
    ensures |names| == 2 && NoneHoldsEquals(names)
  {
    ["Session End Reason", "Device Group Hierarchy Level 1"]
  }

  /** TRAFFIC columns 48 to 49. */
  function Traffic48(): (names: seq<string>)
    ensures |names| == 2 && NoneHoldsEquals(names)
  {
    ["Device Group Hierarchy Level 2", "Device Group Hierarchy Level 3"]
  }

  /** TRAFFIC columns 50 to 52. */
  function Traffic50(): (names: seq<string>)
    ensures |names| == 3 && NoneHoldsEquals(names)
  {
    ["Device Group Hierarchy Level 4", "Virtual System Name", "Device Name"]
  }

  /** TRAFFIC columns 53 to 55. */
  function Traffic53(): (names: seq<string>)
    ensures |names| == 3 && NoneHoldsEquals(names)
  {
    ["Action Source", "Source VM UUID", "Destination VM UUID"]
  }

  /** TRAFFIC columns 56 to 58. */
  function Traffic56(): (names: seq<string>)
    ensures |names| == 3 && NoneHoldsEquals(names)
  {
    ["Tunnel ID/IMSI", "Monitor Tag/IMEI", "Parent Session ID"]
  }

  /** TRAFFIC columns 59 to 61. */
  function Traffic59(): (names: seq<string>)
    ensures |names| == 3 && NoneHoldsEquals(names)
  {
    ["Parent Start Time", "Tunnel Type", "SCTP Association ID"]
  }

  /** TRAFFIC columns 62 to 64. */
  function Traffic62(): (names: seq<string>)
    ensures |names| == 3 && NoneHoldsEquals(names)
  {
    ["SCTP Chunks", "SCTP Chunks Sent", "SCTP Chunks Received"]
  }

  /** TRAFFIC columns 65 to 67. */
  function Traffic65(): (names: seq<string>)
    ensures |names| == 3 && NoneHoldsEquals(names)
  {
    ["UUID for rule", "HTTP/2 Connection", "Application-Level-Link-Changes"]
  }

  /** TRAFFIC columns 68 to 70. */
  function Traffic68(): (names: seq<string>)
    ensures |names| == 3 && NoneHoldsEquals(names)
  {
    ["Policy-ID", "Link-Switches", "SD-WAN-Cluster"]
  }

  /** TRAFFIC columns 71 to 73. */
  function Traffic71(): (names: seq<string>)
    ensures |names| == 3 && NoneHoldsEquals(names)
  {
    ["SD-WAN-Device-Type", "SD-WAN-Cluster-Type", "SD-WAN-Site"]
  }

  /** TRAFFIC columns 74 to 75. */
  function Traffic74(): (names: seq<string>)
    ensures |names| == 2 && NoneHoldsEquals(names)
  {
    ["Dynamic-User-Group-Name", "X-Forwarded-For-Address"]
  }

  /** TRAFFIC columns 76 to 78. */
  function Traffic76(): (names: seq<string>)
    ensures |names| == 3 && NoneHoldsEquals(names)
  {
    ["Source-Device-Category", "Source-Device-Profile", "Source-Device-Model"]
  }

  /** TRAFFIC columns 79 to 80. */
  function Traffic79(): (names: seq<string>)
    ensures |names| == 2 && NoneHoldsEquals(names)
  {
    ["Source-Device-Vendor", "Source-Device-OS-Family"]
  }

  /** TRAFFIC columns 81 to 83. */
  function Traffic81(): (names: seq<string>)
    ensures |names| == 3 && NoneHoldsEquals(names)
  {
    ["Source-Device-OS-Version", "Source-Hostname", "Source-MAC-Address"]
  }

  /** TRAFFIC columns 84 to 85. */
  function Traffic84(): (names: seq<string>)
    ensures |names| == 2 && NoneHoldsEquals(names)
  {
    ["Destination-Device-Category", "Destination-Device-Profile"]
  }

  /** TRAFFIC columns 86 to 87. */
  function Traffic86(): (names: seq<string>)
    ensures |names| == 2 && NoneHoldsEquals(names)
  {
    ["Destination-Device-Model", "Destination-Device-Vendor"]
  }

  /** TRAFFIC columns 88 to 89. */
  function Traffic88(): (names: seq<string>)
    ensures |names| == 2 && NoneHoldsEquals(names)
  {
    ["Destination-Device-OS-Family", "Destination-Device-OS-Version"]
  }

  /** TRAFFIC columns 90 to 92. */
  function Traffic90(): (names: seq<string>)
    ensures |names| == 3 && NoneHoldsEquals(names)
  {
    ["Destination-Hostname", "Destination-MAC-Address", "Container-ID"]
  }

  /** TRAFFIC columns 93 to 95. */
  function Traffic93(): (names: seq<string>)
    ensures |names| == 3 && NoneHoldsEquals(names)
  {
    ["POD-Namespace", "POD-Name", "Source-External-Dynamic-List"]
  }

  /** TRAFFIC columns 96 to 98. */
  function Traffic96(): (names: seq<string>)
    ensures |names| == 3 && NoneHoldsEquals(names)
  {
    ["Destination-External-Dynamic-List", "Host-ID", "User-Device-Serial-Number"]
  }

  /** TRAFFIC columns 99 to 100. */
  function Traffic99(): (names: seq<string>)
    ensures |names| == 2 && NoneHoldsEquals(names)
  {
    ["Source-Dynamic-Address-Group", "Destination-Dynamic-Address-Group"]
  }

  /** TRAFFIC columns 101 to 103. */
  function Traffic101(): (names: seq<string>)
    ensures |names| == 3 && NoneHoldsEquals(names)
  {
    ["Session-Owner", "High-Resolution-Timestamp", "A-Slice-Service-Type"]
  }

  /** TRAFFIC columns 104 to 106. */
  function Traffic104(): (names: seq<string>)
    ensures |names| == 3 && NoneHoldsEquals(names)
  {
    ["A-Slice-Differentiator", "Application-Subcategory", "Application-Category"]
  }

  /** TRAFFIC columns 107 to 109. */
  function Traffic107(): (names: seq<string>)
    ensures |names| == 3 && NoneHoldsEquals(names)
  {
    ["Application-Technology", "Application-Risk", "Application-Characteristics"]
  }

  /** TRAFFIC columns 110 to 112. */
  function Traffic110(): (names: seq<string>)
    ensures |names| == 3 && NoneHoldsEquals(names)
  {
    ["Application-Container-Name", "Tunneled-Application", "is-SAAS-App"]
  }

  /** TRAFFIC columns 113 to 114. */
  function Traffic113(): (names: seq<string>)
    ensures |names| == 2 && NoneHoldsEquals(names)
  {
    ["Application-Sanctioned-State", "Offloaded"]
  }

  /** TRAFFIC columns 31 to 64. */
  function Traffic31To64(): (names: seq<string>)
    ensures |names| == 34 && NoneHoldsEquals(names)
  {
    Traffic31() + Traffic34() + Traffic37() + Traffic40() + Traffic43() + Traffic46() + Traffic48() + Traffic50() +
    Traffic53() + Traffic56() + Traffic59() + Traffic62()
  }

  /** TRAFFIC columns 65 to 95. */
  function Traffic65To95(): (names: seq<string>)
    ensures |names| == 31 && NoneHoldsEquals(names)
  {
    Traffic65() + Traffic68() + Traffic71() + Traffic74() + Traffic76() + Traffic79() + Traffic81() + Traffic84() +
    Traffic86() + Traffic88() + Traffic90() + Traffic93()
  }

  /** TRAFFIC columns 96 to 114. */
  function Traffic96To114(): (names: seq<string>)
    ensures |names| == 19 && NoneHoldsEquals(names)
  {
    Traffic96() + Traffic99() + Traffic101() + Traffic104() + Traffic107() + Traffic110() + Traffic113()
  }

  /** Columns 31 and up of TRAFFIC logs, and of every type that is not THREAT. */
  function TrafficExtraHeaders(): (names: seq<string>)
    ensures |names| == 84 && NoneHoldsEquals(names)
  {
    Traffic31To64() + Traffic65To95() + Traffic96To114()
  }

  /** THREAT columns 31 to 33. */
  function Threat31(): (names: seq<string>)
    ensures |names| == 3 && NoneHoldsEquals(names)
  {
    ["Threat Name", "Threat ID", "Category"]
  }

  /** THREAT columns 34 to 36. */
  function Threat34(): (names: seq<string>)
    ensures |names| == 3 && NoneHoldsEquals(names)
  {
    ["Severity", "Direction", "Sequence Number"]
  }

  /** THREAT columns 37 to 39. */
  function Threat37(): (names: seq<string>)
    ensures |names| == 3 && NoneHoldsEquals(names)
  {
    ["Action Flags", "Source Location", "Destination Location"]
  }

  /** THREAT columns 40 to 42. */
  function Threat40(): (names: seq<string>)
    ensures |names| == 3 && NoneHoldsEquals(names)
  {
    ["Padding", "Content Type", "PCAP ID"]
  }

  /** THREAT columns 43 to 45. */
  function Threat43(): (names: seq<string>)
    ensures |names| == 3 && NoneHoldsEquals(names)
  {
    ["File Digest", "Cloud", "URL Index"]
  }

  /** THREAT columns 46 to 48. */
  function Threat46(): (names: seq<string>)
    ensures |names| == 3 && NoneHoldsEquals(names)
  {
    ["User Agent", "File Type", "X-Forwarded-For"]
  }

  /** THREAT columns 49 to 51. */
  function Threat49(): (names: seq<string>)
    ensures |names| == 3 && NoneHoldsEquals(names)
  {
    ["Referer", "Sender", "Subject"]
  }

  /** THREAT columns 52 to 54. */
  function Threat52(): (names: seq<string>)
    ensures |names| == 3 && NoneHoldsEquals(names)
  {
    ["Recipient", "Report ID", "Device Group Hierarchy Level 1"]
  }

  /** THREAT columns 55 to 56. */
  function Threat55(): (names: seq<string>)
    ensures |names| == 2 && NoneHoldsEquals(names)
  {
    ["Device Group Hierarchy Level 2", "Device Group Hierarchy Level 3"]
  }

  /** THREAT columns 57 to 59. */
  function Threat57(): (names: seq<string>)
    ensures |names| == 3 && NoneHoldsEquals(names)
  {
    ["Device Group Hierarchy Level 4", "Virtual System Name", "Device Name"]
  }

  /** THREAT columns 60 to 62. */
  function Threat60(): (names: seq<string>)
    ensures |names| == 3 && NoneHoldsEquals(names)
  {
    ["Source VM UUID", "Destination VM UUID", "HTTP/2 Connection"]
  }

  /** THREAT columns 63 to 65. */
  function Threat63(): (names: seq<string>)
    ensures |names| == 3 && NoneHoldsEquals(names)
  {
    ["High-Resolution-Timestamp", "SD-WAN-Cluster", "SD-WAN-Device-Type"]
  }

  /** THREAT columns 66 to 68. */
  function Threat66(): (names: seq<string>)
    ensures |names| == 3 && NoneHoldsEquals(names)
  {
    ["SD-WAN-Cluster-Type", "SD-WAN-Site", "Application-Subcategory"]
  }

  /** THREAT columns 69 to 71. */
  function Threat69(): (names: seq<string>)
    ensures |names| == 3 && NoneHoldsEquals(names)
  {
    ["Application-Category", "Application-Technology", "Application-Risk"]
  }

  /** THREAT columns 72 to 73. */
  function Threat72(): (names: seq<string>)
    ensures |names| == 2 && NoneHoldsEquals(names)
  {
    ["Application-Characteristics", "Application-Container-Name"]
  }

  /** THREAT columns 74 to 76. */
  function Threat74(): (names: seq<string>)
    ensures |names| == 3 && NoneHoldsEquals(names)
  {
    ["Tunneled-Application", "is-SAAS-App", "Application-Sanctioned-State"]
  }

  /** THREAT columns 77 to 79. */
  function Threat77(): (names: seq<string>)
    ensures |names| == 3 && NoneHoldsEquals(names)
  {
    ["X-Forwarded-For-Address", "Source-Device-Category", "Source-Device-Profile"]
  }

  /** THREAT columns 80 to 82. */
  function Threat80(): (names: seq<string>)
    ensures |names| == 3 && NoneHoldsEquals(names)
  {
    ["Nssai-Sst", "Nssai-Sd", "Partial-Hash"]
  }

  /** THREAT column 83. */
  function Threat83(): (names: seq<string>)
    ensures |names| == 1 && NoneHoldsEquals(names)
  {
    ["High-Resolution-Timestamp-2"]
  }

  /** THREAT columns 31 to 65. */
  function Threat31To65(): (names: seq<string>)
    ensures |names| == 35 && NoneHoldsEquals(names)
  {
    Threat31() + Threat34() + Threat37() + Threat40() + Threat43() + Threat46() + Threat49() + Threat52() + Threat55() +
    Threat57() + Threat60() + Threat63()
  }

  /** THREAT columns 66 to 83. */
  function Threat66To83(): (names: seq<string>)
    ensures |names| == 18 && NoneHoldsEquals(names)
  {
    Threat66() + Threat69() + Threat72() + Threat74() + Threat77() + Threat80() + Threat83()
  }

  /** Columns 31 and up of THREAT logs. */
  function ThreatExtraHeaders(): (names: seq<string>)
    ensures |names| == 53 && NoneHoldsEquals(names)
  {
    Threat31To65() + Threat66To83()
  }

  /** The columns read as 64-bit integers. */
  function IntegerFields(): seq<string> {
    ["Log Number", "Config Version", "Session ID", "Repeat Count", "Source Port", "Destination Port",
     "NAT Source Port", "NAT Destination Port", "Bytes", "Bytes Sent", "Bytes Received", "Packets",
     "Elapsed Time in seconds", "Sequence Number", "Packets Sent", "Packets Received", "Policy-ID",
     "Link-Switches", "Application-Risk", "PCAP ID", "URL Index", "Report ID"]
  }

  /** The columns read as floating-point numbers. */
  function FloatFields(): seq<string> {
    ["High-Resolution-Timestamp", "High-Resolution-Timestamp-2"]
  }

  /** The number of columns a schema names: the common ones and its own. */
  function Width(schema: Schema): nat {
    COMMON_WIDTH + if schema.Threat? then 53 else 84
  }

  function ExtraHeaders(schema: Schema): (names: seq<string>)
    ensures COMMON_WIDTH + |names| == Width(schema) && NoneHoldsEquals(names)
  {
    if schema.Threat? then ThreatExtraHeaders() else TrafficExtraHeaders()
  }

  /** The name of a column. */
  function Header(schema: Schema, i: nat): string
    requires i < Width(schema)
  {
    if i < COMMON_WIDTH then CommonHeaders()[i] else ExtraHeaders(schema)[i - COMMON_WIDTH]
  }

  /** What .replace(' ', "_").replace('/', "_").replace('-', "_").to_lowercase() does to one ASCII character. */
  function NormalChar(c: char): char {
    if c == ' ' || c == '/' || c == '-' then '_'
    else if 'A' <= c <= 'Z' then c + 32 as char
    else c
  }

  function Normalize(name: string): (normal: string)
    ensures |normal| == |name|
    ensures forall k :: 0 <= k < |name| ==> normal[k] == NormalChar(name[k])
  {
    seq(|name|, k requires 0 <= k < |name| => NormalChar(name[k]))
  }

  /** A stored name has '_' for spaces, slashes and hyphens, small letters for capital ones, and all else unchanged. */
  lemma NormalizeReplaces(name: string, k: nat)
    requires k < |name|
    ensures var c, d := name[k], Normalize(name)[k];
            && (c in " /-" ==> d == '_')
            && ('A' <= c <= 'Z' ==> 'a' <= d <= 'z' && d as int - 'a' as int == c as int - 'A' as int)
            && (c !in " /-" && !('A' <= c <= 'Z') ==> d == c)
  {
  }
}
