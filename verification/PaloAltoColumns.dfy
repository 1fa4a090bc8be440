/**
 Every column of a schema can be found again from its normalized name: normalization never gives two
 columns of one schema the same name, nor a column the name of a metadata or enrichment entry.  A
 name is told apart by a checksum of its length and three of its characters.
 */
module PaloAltoColumns {
  import opened PaloAltoSchema

  /** A character counted from the end of a name, as a number. */
  function FromEnd(name: string, k: nat): int
    requires k > 0
  {
    if |name| < k then 0 else name[|name| - k] as int
  }

  /** The length and three characters: enough to tell the normalized names of a schema apart. */
  function Checksum(name: string): int {
    FromEnd(name, 1) + 15 * FromEnd(name, 4) + 39 * FromEnd(name, 9) + |name|
  }

  function NormalFromEnd(name: string, k: nat): int
    requires k > 0
  {
    if |name| < k then 0 else NormalChar(name[|name| - k]) as int
  }

  // The columns of the names, from the checksums of their normalized forms.

  /** A common column. */
  function CommonColumn(code: int): int {
    match code
    case 6088 => 0 case 5792 => 1 case 5545 => 2 case 1845 => 3 case 6384 => 4 case 5866 => 5
    case 5638 => 6 case 5778 => 7 case 6134 => 8 case 6125 => 9 case 6070 => 10 case 6206 => 11
    case 6443 => 12 case 6409 => 13 case 6229 => 14 case 5631 => 15 case 6505 => 16 case 6471 => 17
    case 5743 => 18 case 5744 => 19 case 6189 => 20 case 5907 => 21 case 5699 => 22 case 5732 => 23
    case 6370 => 24 case 6336 => 25 case 6374 => 26 case 6340 => 27 case 1740 => 28 case 5489 => 29
    case 1856 => 30
    case _ => -1
  }

  /** A TRAFFIC column. */
  function TrafficColumn(code: int): int {
    match code
    case 1935 => 31 case 6570 => 32 case 5394 => 33 case 1727 => 34 case 6375 => 35 case 6093 => 36
    case 1674 => 37 case 1610 => 38 case 5625 => 39 case 5842 => 40 case 5570 => 41 case 5575 => 42
    case 6077 => 43 case 6026 => 44 case 5396 => 45 case 5873 => 46 case 6313 => 47 case 6314 => 48
    case 6315 => 49 case 6316 => 50 case 6255 => 51 case 6364 => 52 case 6198 => 53 case 5808 => 54
    case 6164 => 55 case 5906 => 56 case 5401 => 57 case 5706 => 58 case 6382 => 59 case 6142 => 60
    case 5864 => 61 case 6405 => 62 case 6420 => 63 case 5400 => 64 case 5529 => 65 case 6196 => 66
    case 5968 => 67 case 6292 => 68 case 5318 => 69 case 6143 => 70 case 6461 => 71 case 6345 => 72
    case 5542 => 73 case 6220 => 74 case 6294 => 75 case 5393 => 76 case 5591 => 77 case 5887 => 78
    case 5645 => 79 case 6108 => 80 case 6344 => 81 case 5471 => 82 case 5704 => 83 case 5398 => 84
    case 5596 => 85 case 5892 => 86 case 5650 => 87 case 6113 => 88 case 6349 => 89 case 5476 => 90
    case 5709 => 91 case 6346 => 92 case 6084 => 93 case 1759 => 94 case 5547 => 95 case 5552 => 96
    case 1847 => 97 case 5557 => 98 case 5789 => 99 case 5794 => 100 case 6007 => 101 case 6401 => 102
    case 6463 => 103 case 6037 => 104 case 5511 => 105 case 5391 => 106 case 5702 => 107 case 6357 => 108
    case 6406 => 109 case 5872 => 110 case 6238 => 111 case 5253 => 112 case 6159 => 113 case 5893 => 114
    case _ => -1
  }

  /** A THREAT column. */
  function ThreatColumn(code: int): int {
    match code
    case 6208 => 31 case 6373 => 32 case 1674 => 33 case 1839 => 34 case 5759 => 35 case 5625 => 36
    case 5842 => 37 case 5570 => 38 case 5575 => 39 case 1610 => 40 case 6377 => 41 case 1787 => 42
    case 5884 => 43 case 1725 => 44 case 6342 => 45 case 6156 => 46 case 5828 => 47 case 5337 => 48
    case 1636 => 49 case 1770 => 50 case 1713 => 51 case 6146 => 52 case 6295 => 53 case 6313 => 54
    case 6314 => 55 case 6315 => 56 case 6316 => 57 case 6255 => 58 case 6364 => 59 case 5808 => 60
    case 6164 => 61 case 6196 => 62 case 6401 => 63 case 6143 => 64 case 6461 => 65 case 6345 => 66
    case 5542 => 67 case 5511 => 68 case 5391 => 69 case 5702 => 70 case 6357 => 71 case 6406 => 72
    case 5872 => 73 case 6238 => 74 case 5253 => 75 case 6159 => 76 case 6294 => 77 case 5393 => 78
    case 5591 => 79 case 5840 => 80 case 1683 => 81 case 6200 => 82 case 5963 => 83
    case _ => -1
  }

  /** The only column of a schema that a normalized name can belong to, by its checksum; -1 for none. */
  function Column(schema: Schema, code: int): int {
    var common := CommonColumn(code);
    if common >= 0 then common else if schema.Threat? then ThreatColumn(code) else TrafficColumn(code)
  }

  /** A header that its normalized name leads back to, and that does not start with '@'. */
  predicate Found(schema: Schema, name: string, column: int) {
    Column(schema, Checksum(Normalize(name))) == column && name != [] && name[0] != '@'
  }

  /** The checksum of a header's normalized name. */
  predicate Sums(name: string, code: int) {
    && name != [] && name[0] != '@'
    && NormalFromEnd(name, 1) + 15 * NormalFromEnd(name, 4) + 39 * NormalFromEnd(name, 9) + |name| == code
  }

  lemma FindCommon(schema: Schema, name: string, code: int, column: nat)
    requires Sums(name, code) && CommonColumn(code) == column
    ensures Found(schema, name, column)
  {
    hide CommonColumn;
  }

  lemma FindTraffic(name: string, code: int, column: nat)
    requires Sums(name, code) && CommonColumn(code) == -1 && TrafficColumn(code) == column
    ensures Found(Traffic, name, column)
  {
    hide CommonColumn, TrafficColumn;
  }

  lemma FindThreat(name: string, code: int, column: nat)
    requires Sums(name, code) && CommonColumn(code) == -1 && ThreatColumn(code) == column
    ensures Found(Threat, name, column)
  {
    hide CommonColumn, ThreatColumn;
  }

  lemma Common0Told(schema: Schema, i: nat)
    requires i < 3
    ensures Found(schema, Common0()[i], 0 + i)
  {
    hide Checksum, Normalize, Found, Column;
    match i
    case 0 => FindCommon(schema, "Log Number", 6088, 0);
    case 1 => FindCommon(schema, "Receive Time", 5792, 1);
    case _ => FindCommon(schema, "Serial Number", 5545, 2);
  }

  lemma Common3Told(schema: Schema, i: nat)
    requires i < 3
    ensures Found(schema, Common3()[i], 3 + i)
  {
    hide Checksum, Normalize, Found, Column;
    match i
    case 0 => FindCommon(schema, "Type", 1845, 3);
    case 1 => FindCommon(schema, "Threat/Content Type", 6384, 4);
    case _ => FindCommon(schema, "Config Version", 5866, 5);
  }

  lemma Common6Told(schema: Schema, i: nat)
    requires i < 3
    ensures Found(schema, Common6()[i], 6 + i)
  {
    hide Checksum, Normalize, Found, Column;
    match i
    case 0 => FindCommon(schema, "Generated Time", 5638, 6);
    case 1 => FindCommon(schema, "Source address", 5778, 7);
    case _ => FindCommon(schema, "Destination address", 6134, 8);
  }

  lemma Common9Told(schema: Schema, i: nat)
    requires i < 3
    ensures Found(schema, Common9()[i], 9 + i)
  {
    hide Checksum, Normalize, Found, Column;
    match i
    case 0 => FindCommon(schema, "NAT source IP", 6125, 9);
    case 1 => FindCommon(schema, "NAT destination IP", 6070, 10);
    case _ => FindCommon(schema, "Rule Name", 6206, 11);
  }

  lemma Common12Told(schema: Schema, i: nat)
    requires i < 3
    ensures Found(schema, Common12()[i], 12 + i)
  {
    hide Checksum, Normalize, Found, Column;
    match i
    case 0 => FindCommon(schema, "Source User", 6443, 12);
    case 1 => FindCommon(schema, "Destination User", 6409, 13);
    case _ => FindCommon(schema, "Application", 6229, 14);
  }

  lemma Common15Told(schema: Schema, i: nat)
    requires i < 3
    ensures Found(schema, Common15()[i], 15 + i)
  {
    hide Checksum, Normalize, Found, Column;
    match i
    case 0 => FindCommon(schema, "Virtual System", 5631, 15);
    case 1 => FindCommon(schema, "Source Zone", 6505, 16);
    case _ => FindCommon(schema, "Destination Zone", 6471, 17);
  }

  lemma Common18Told(schema: Schema, i: nat)
    requires i < 3
    ensures Found(schema, Common18()[i], 18 + i)
  {
    hide Checksum, Normalize, Found, Column;
    match i
    case 0 => FindCommon(schema, "Inbound Interface", 5743, 18);
    case 1 => FindCommon(schema, "Outbound Interface", 5744, 19);
    case _ => FindCommon(schema, "Log Action", 6189, 20);
  }

  lemma Common21Told(schema: Schema, i: nat)
    requires i < 3
    ensures Found(schema, Common21()[i], 21 + i)
  {
    hide Checksum, Normalize, Found, Column;
    match i
    case 0 => FindCommon(schema, "Time Logged", 5907, 21);
    case 1 => FindCommon(schema, "Session ID", 5699, 22);
    case _ => FindCommon(schema, "Repeat Count", 5732, 23);
  }

  lemma Common24Told(schema: Schema, i: nat)
    requires i < 3
    ensures Found(schema, Common24()[i], 24 + i)
  {
    hide Checksum, Normalize, Found, Column;
    match i
    case 0 => FindCommon(schema, "Source Port", 6370, 24);
    case 1 => FindCommon(schema, "Destination Port", 6336, 25);
    case _ => FindCommon(schema, "NAT Source Port", 6374, 26);
  }

  lemma Common27Told(schema: Schema, i: nat)
    requires i < 3
    ensures Found(schema, Common27()[i], 27 + i)
  {
    hide Checksum, Normalize, Found, Column;
    match i
    case 0 => FindCommon(schema, "NAT Destination Port", 6340, 27);
    case 1 => FindCommon(schema, "Flags", 1740, 28);
    case _ => FindCommon(schema, "IP Protocol", 5489, 29);
  }

  lemma Common30Told(schema: Schema, i: nat)
    requires i < 1
    ensures Found(schema, Common30()[i], 30 + i)
  {
    hide Checksum, Normalize, Found, Column;
    match i
    case _ => FindCommon(schema, "Action", 1856, 30);
  }

  lemma Traffic31Told(i: nat)
    requires i < 3
    ensures Found(Traffic, Traffic31()[i], 31 + i)
  {
    hide Checksum, Normalize, Found, Column;
    match i
    case 0 => FindTraffic("Bytes", 1935, 31);
    case 1 => FindTraffic("Bytes Sent", 6570, 32);
    case _ => FindTraffic("Bytes Received", 5394, 33);
  }

  lemma Traffic34Told(i: nat)
    requires i < 3
    ensures Found(Traffic, Traffic34()[i], 34 + i)
  {
    hide Checksum, Normalize, Found, Column;
    match i
    case 0 => FindTraffic("Packets", 1727, 34);
    case 1 => FindTraffic("Start Time", 6375, 35);
    case _ => FindTraffic("Elapsed Time in seconds", 6093, 36);
  }

  lemma Traffic37Told(i: nat)
    requires i < 3
    ensures Found(Traffic, Traffic37()[i], 37 + i)
  {
    hide Checksum, Normalize, Found, Column;
    match i
    case 0 => FindTraffic("Category", 1674, 37);
    case 1 => FindTraffic("Padding", 1610, 38);
    case _ => FindTraffic("Sequence Number", 5625, 39);
  }

  lemma Traffic40Told(i: nat)
    requires i < 3
    ensures Found(Traffic, Traffic40()[i], 40 + i)
  {
    hide Checksum, Normalize, Found, Column;
    match i
    case 0 => FindTraffic("Action Flags", 5842, 40);
    case 1 => FindTraffic("Source Location", 5570, 41);
    case _ => FindTraffic("Destination Location", 5575, 42);
  }

  lemma Traffic43Told(i: nat)
    requires i < 3
    ensures Found(Traffic, Traffic43()[i], 43 + i)
  {
    hide Checksum, Normalize, Found, Column;
    match i
    case 0 => FindTraffic("Padding-2", 6077, 43);
    case 1 => FindTraffic("Packets Sent", 6026, 44);
    case _ => FindTraffic("Packets Received", 5396, 45);
  }

  lemma Traffic46Told(i: nat)
    requires i < 2
    ensures Found(Traffic, Traffic46()[i], 46 + i)
  {
    hide Checksum, Normalize, Found, Column;
    match i
    case 0 => FindTraffic("Session End Reason", 5873, 46);
    case _ => FindTraffic("Device Group Hierarchy Level 1", 6313, 47);
  }

  lemma Traffic48Told(i: nat)
    requires i < 2
    ensures Found(Traffic, Traffic48()[i], 48 + i)
  {
    hide Checksum, Normalize, Found, Column;
    match i
    case 0 => FindTraffic("Device Group Hierarchy Level 2", 6314, 48);
    case _ => FindTraffic("Device Group Hierarchy Level 3", 6315, 49);
  }

  lemma Traffic50Told(i: nat)
    requires i < 3
    ensures Found(Traffic, Traffic50()[i], 50 + i)
  {
    hide Checksum, Normalize, Found, Column;
    match i
    case 0 => FindTraffic("Device Group Hierarchy Level 4", 6316, 50);
    case 1 => FindTraffic("Virtual System Name", 6255, 51);
    case _ => FindTraffic("Device Name", 6364, 52);
  }

  lemma Traffic53Told(i: nat)
    requires i < 3
    ensures Found(Traffic, Traffic53()[i], 53 + i)
  {
    hide Checksum, Normalize, Found, Column;
    match i
    case 0 => FindTraffic("Action Source", 6198, 53);
    case 1 => FindTraffic("Source VM UUID", 5808, 54);
    case _ => FindTraffic("Destination VM UUID", 6164, 55);
  }

  lemma Traffic56Told(i: nat)
    requires i < 3
    ensures Found(Traffic, Traffic56()[i], 56 + i)
  {
    hide Checksum, Normalize, Found, Column;
    match i
    case 0 => FindTraffic("Tunnel ID/IMSI", 5906, 56);
    case 1 => FindTraffic("Monitor Tag/IMEI", 5401, 57);
    case _ => FindTraffic("Parent Session ID", 5706, 58);
  }

  lemma Traffic59Told(i: nat)
    requires i < 3
    ensures Found(Traffic, Traffic59()[i], 59 + i)
  {
    hide Checksum, Normalize, Found, Column;
    match i
    case 0 => FindTraffic("Parent Start Time", 6382, 59);
    case 1 => FindTraffic("Tunnel Type", 6142, 60);
    case _ => FindTraffic("SCTP Association ID", 5864, 61);
  }

  lemma Traffic62Told(i: nat)
    requires i < 3
    ensures Found(Traffic, Traffic62()[i], 62 + i)
  {
    hide Checksum, Normalize, Found, Column;
    match i
    case 0 => FindTraffic("SCTP Chunks", 6405, 62);
    case 1 => FindTraffic("SCTP Chunks Sent", 6420, 63);
    case _ => FindTraffic("SCTP Chunks Received", 5400, 64);
  }

  lemma Traffic65Told(i: nat)
    requires i < 3
    ensures Found(Traffic, Traffic65()[i], 65 + i)
  {
    hide Checksum, Normalize, Found, Column;
    match i
    case 0 => FindTraffic("UUID for rule", 5529, 65);
    case 1 => FindTraffic("HTTP/2 Connection", 6196, 66);
    case _ => FindTraffic("Application-Level-Link-Changes", 5968, 67);
  }

  lemma Traffic68Told(i: nat)
    requires i < 3
    ensures Found(Traffic, Traffic68()[i], 68 + i)
  {
    hide Checksum, Normalize, Found, Column;
    match i
    case 0 => FindTraffic("Policy-ID", 6292, 68);
    case 1 => FindTraffic("Link-Switches", 5318, 69);
    case _ => FindTraffic("SD-WAN-Cluster", 6143, 70);
  }

  lemma Traffic71Told(i: nat)
    requires i < 3
    ensures Found(Traffic, Traffic71()[i], 71 + i)
  {
    hide Checksum, Normalize, Found, Column;
    match i
    case 0 => FindTraffic("SD-WAN-Device-Type", 6461, 71);
    case 1 => FindTraffic("SD-WAN-Cluster-Type", 6345, 72);
    case _ => FindTraffic("SD-WAN-Site", 5542, 73);
  }

  lemma Traffic74Told(i: nat)
    requires i < 2
    ensures Found(Traffic, Traffic74()[i], 74 + i)
  {
    hide Checksum, Normalize, Found, Column;
    match i
    case 0 => FindTraffic("Dynamic-User-Group-Name", 6220, 74);
    case _ => FindTraffic("X-Forwarded-For-Address", 6294, 75);
  }

  lemma Traffic76Told(i: nat)
    requires i < 3
    ensures Found(Traffic, Traffic76()[i], 76 + i)
  {
    hide Checksum, Normalize, Found, Column;
    match i
    case 0 => FindTraffic("Source-Device-Category", 5393, 76);
    case 1 => FindTraffic("Source-Device-Profile", 5591, 77);
    case _ => FindTraffic("Source-Device-Model", 5887, 78);
  }

  lemma Traffic79Told(i: nat)
    requires i < 2
    ensures Found(Traffic, Traffic79()[i], 79 + i)
  {
    hide Checksum, Normalize, Found, Column;
    match i
    case 0 => FindTraffic("Source-Device-Vendor", 5645, 79);
    case _ => FindTraffic("Source-Device-OS-Family", 6108, 80);
  }

  lemma Traffic81Told(i: nat)
    requires i < 3
    ensures Found(Traffic, Traffic81()[i], 81 + i)
  {
    hide Checksum, Normalize, Found, Column;
    match i
    case 0 => FindTraffic("Source-Device-OS-Version", 6344, 81);
    case 1 => FindTraffic("Source-Hostname", 5471, 82);
    case _ => FindTraffic("Source-MAC-Address", 5704, 83);
  }

  lemma Traffic84Told(i: nat)
    requires i < 2
    ensures Found(Traffic, Traffic84()[i], 84 + i)
  {
    hide Checksum, Normalize, Found, Column;
    match i
    case 0 => FindTraffic("Destination-Device-Category", 5398, 84);
    case _ => FindTraffic("Destination-Device-Profile", 5596, 85);
  }

  lemma Traffic86Told(i: nat)
    requires i < 2
    ensures Found(Traffic, Traffic86()[i], 86 + i)
  {
    hide Checksum, Normalize, Found, Column;
    match i
    case 0 => FindTraffic("Destination-Device-Model", 5892, 86);
    case _ => FindTraffic("Destination-Device-Vendor", 5650, 87);
  }

  lemma Traffic88Told(i: nat)
    requires i < 2
    ensures Found(Traffic, Traffic88()[i], 88 + i)
  {
    hide Checksum, Normalize, Found, Column;
    match i
    case 0 => FindTraffic("Destination-Device-OS-Family", 6113, 88);
    case _ => FindTraffic("Destination-Device-OS-Version", 6349, 89);
  }

  lemma Traffic90Told(i: nat)
    requires i < 3
    ensures Found(Traffic, Traffic90()[i], 90 + i)
  {
    hide Checksum, Normalize, Found, Column;
    match i
    case 0 => FindTraffic("Destination-Hostname", 5476, 90);
    case 1 => FindTraffic("Destination-MAC-Address", 5709, 91);
    case _ => FindTraffic("Container-ID", 6346, 92);
  }

  lemma Traffic93Told(i: nat)
    requires i < 3
    ensures Found(Traffic, Traffic93()[i], 93 + i)
  {
    hide Checksum, Normalize, Found, Column;
    match i
    case 0 => FindTraffic("POD-Namespace", 6084, 93);
    case 1 => FindTraffic("POD-Name", 1759, 94);
    case _ => FindTraffic("Source-External-Dynamic-List", 5547, 95);
  }

  lemma Traffic96Told(i: nat)
    requires i < 3
    ensures Found(Traffic, Traffic96()[i], 96 + i)
  {
    hide Checksum, Normalize, Found, Column;
    match i
    case 0 => FindTraffic("Destination-External-Dynamic-List", 5552, 96);
    case 1 => FindTraffic("Host-ID", 1847, 97);
    case _ => FindTraffic("User-Device-Serial-Number", 5557, 98);
  }

  lemma Traffic99Told(i: nat)
    requires i < 2
    ensures Found(Traffic, Traffic99()[i], 99 + i)
  {
    hide Checksum, Normalize, Found, Column;
    match i
    case 0 => FindTraffic("Source-Dynamic-Address-Group", 5789, 99);
    case _ => FindTraffic("Destination-Dynamic-Address-Group", 5794, 100);
  }

  lemma Traffic101Told(i: nat)
    requires i < 3
    ensures Found(Traffic, Traffic101()[i], 101 + i)
  {
    hide Checksum, Normalize, Found, Column;
    match i
    case 0 => FindTraffic("Session-Owner", 6007, 101);
    case 1 => FindTraffic("High-Resolution-Timestamp", 6401, 102);
    case _ => FindTraffic("A-Slice-Service-Type", 6463, 103);
  }

  lemma Traffic104Told(i: nat)
    requires i < 3
    ensures Found(Traffic, Traffic104()[i], 104 + i)
  {
    hide Checksum, Normalize, Found, Column;
    match i
    case 0 => FindTraffic("A-Slice-Differentiator", 6037, 104);
    case 1 => FindTraffic("Application-Subcategory", 5511, 105);
    case _ => FindTraffic("Application-Category", 5391, 106);
  }

  lemma Traffic107Told(i: nat)
    requires i < 3
    ensures Found(Traffic, Traffic107()[i], 107 + i)
  {
    hide Checksum, Normalize, Found, Column;
    match i
    case 0 => FindTraffic("Application-Technology", 5702, 107);
    case 1 => FindTraffic("Application-Risk", 6357, 108);
    case _ => FindTraffic("Application-Characteristics", 6406, 109);
  }

  lemma Traffic110Told(i: nat)
    requires i < 3
    ensures Found(Traffic, Traffic110()[i], 110 + i)
  {
    hide Checksum, Normalize, Found, Column;
    match i
    case 0 => FindTraffic("Application-Container-Name", 5872, 110);
    case 1 => FindTraffic("Tunneled-Application", 6238, 111);
    case _ => FindTraffic("is-SAAS-App", 5253, 112);
  }

  lemma Traffic113Told(i: nat)
    requires i < 2
    ensures Found(Traffic, Traffic113()[i], 113 + i)
  {
    hide Checksum, Normalize, Found, Column;
    match i
    case 0 => FindTraffic("Application-Sanctioned-State", 6159, 113);
    case _ => FindTraffic("Offloaded", 5893, 114);
  }

  lemma Threat31Told(i: nat)
    requires i < 3
    ensures Found(Threat, Threat31()[i], 31 + i)
  {
    hide Checksum, Normalize, Found, Column;
    match i
    case 0 => FindThreat("Threat Name", 6208, 31);
    case 1 => FindThreat("Threat ID", 6373, 32);
    case _ => FindThreat("Category", 1674, 33);
  }

  lemma Threat34Told(i: nat)
    requires i < 3
    ensures Found(Threat, Threat34()[i], 34 + i)
  {
    hide Checksum, Normalize, Found, Column;
    match i
    case 0 => FindThreat("Severity", 1839, 34);
    case 1 => FindThreat("Direction", 5759, 35);
    case _ => FindThreat("Sequence Number", 5625, 36);
  }

  lemma Threat37Told(i: nat)
    requires i < 3
    ensures Found(Threat, Threat37()[i], 37 + i)
  {
    hide Checksum, Normalize, Found, Column;
    match i
    case 0 => FindThreat("Action Flags", 5842, 37);
    case 1 => FindThreat("Source Location", 5570, 38);
    case _ => FindThreat("Destination Location", 5575, 39);
  }

  lemma Threat40Told(i: nat)
    requires i < 3
    ensures Found(Threat, Threat40()[i], 40 + i)
  {
    hide Checksum, Normalize, Found, Column;
    match i
    case 0 => FindThreat("Padding", 1610, 40);
    case 1 => FindThreat("Content Type", 6377, 41);
    case _ => FindThreat("PCAP ID", 1787, 42);
  }

  lemma Threat43Told(i: nat)
    requires i < 3
    ensures Found(Threat, Threat43()[i], 43 + i)
  {
    hide Checksum, Normalize, Found, Column;
    match i
    case 0 => FindThreat("File Digest", 5884, 43);
    case 1 => FindThreat("Cloud", 1725, 44);
    case _ => FindThreat("URL Index", 6342, 45);
  }

  lemma Threat46Told(i: nat)
    requires i < 3
    ensures Found(Threat, Threat46()[i], 46 + i)
  {
    hide Checksum, Normalize, Found, Column;
    match i
    case 0 => FindThreat("User Agent", 6156, 46);
    case 1 => FindThreat("File Type", 5828, 47);
    case _ => FindThreat("X-Forwarded-For", 5337, 48);
  }

  lemma Threat49Told(i: nat)
    requires i < 3
    ensures Found(Threat, Threat49()[i], 49 + i)
  {
    hide Checksum, Normalize, Found, Column;
    match i
    case 0 => FindThreat("Referer", 1636, 49);
    case 1 => FindThreat("Sender", 1770, 50);
    case _ => FindThreat("Subject", 1713, 51);
  }

  lemma Threat52Told(i: nat)
    requires i < 3
    ensures Found(Threat, Threat52()[i], 52 + i)
  {
    hide Checksum, Normalize, Found, Column;
    match i
    case 0 => FindThreat("Recipient", 6146, 52);
    case 1 => FindThreat("Report ID", 6295, 53);
    case _ => FindThreat("Device Group Hierarchy Level 1", 6313, 54);
  }

  lemma Threat55Told(i: nat)
    requires i < 2
    ensures Found(Threat, Threat55()[i], 55 + i)
  {
    hide Checksum, Normalize, Found, Column;
    match i
    case 0 => FindThreat("Device Group Hierarchy Level 2", 6314, 55);
    case _ => FindThreat("Device Group Hierarchy Level 3", 6315, 56);
  }

  lemma Threat57Told(i: nat)
    requires i < 3
    ensures Found(Threat, Threat57()[i], 57 + i)
  {
    hide Checksum, Normalize, Found, Column;
    match i
    case 0 => FindThreat("Device Group Hierarchy Level 4", 6316, 57);
    case 1 => FindThreat("Virtual System Name", 6255, 58);
    case _ => FindThreat("Device Name", 6364, 59);
  }

  lemma Threat60Told(i: nat)
    requires i < 3
    ensures Found(Threat, Threat60()[i], 60 + i)
  {
    hide Checksum, Normalize, Found, Column;
    match i
    case 0 => FindThreat("Source VM UUID", 5808, 60);
    case 1 => FindThreat("Destination VM UUID", 6164, 61);
    case _ => FindThreat("HTTP/2 Connection", 6196, 62);
  }

  lemma Threat63Told(i: nat)
    requires i < 3
    ensures Found(Threat, Threat63()[i], 63 + i)
  {
    hide Checksum, Normalize, Found, Column;
    match i
    case 0 => FindThreat("High-Resolution-Timestamp", 6401, 63);
    case 1 => FindThreat("SD-WAN-Cluster", 6143, 64);
    case _ => FindThreat("SD-WAN-Device-Type", 6461, 65);
  }

  lemma Threat66Told(i: nat)
    requires i < 3
    ensures Found(Threat, Threat66()[i], 66 + i)
  {
    hide Checksum, Normalize, Found, Column;
    match i
    case 0 => FindThreat("SD-WAN-Cluster-Type", 6345, 66);
    case 1 => FindThreat("SD-WAN-Site", 5542, 67);
    case _ => FindThreat("Application-Subcategory", 5511, 68);
  }

  lemma Threat69Told(i: nat)
    requires i < 3
    ensures Found(Threat, Threat69()[i], 69 + i)
  {
    hide Checksum, Normalize, Found, Column;
    match i
    case 0 => FindThreat("Application-Category", 5391, 69);
    case 1 => FindThreat("Application-Technology", 5702, 70);
    case _ => FindThreat("Application-Risk", 6357, 71);
  }

  lemma Threat72Told(i: nat)
    requires i < 2
    ensures Found(Threat, Threat72()[i], 72 + i)
  {
    hide Checksum, Normalize, Found, Column;
    match i
    case 0 => FindThreat("Application-Characteristics", 6406, 72);
    case _ => FindThreat("Application-Container-Name", 5872, 73);
  }

  lemma Threat74Told(i: nat)
    requires i < 3
    ensures Found(Threat, Threat74()[i], 74 + i)
  {
    hide Checksum, Normalize, Found, Column;
    match i
    case 0 => FindThreat("Tunneled-Application", 6238, 74);
    case 1 => FindThreat("is-SAAS-App", 5253, 75);
    case _ => FindThreat("Application-Sanctioned-State", 6159, 76);
  }

  lemma Threat77Told(i: nat)
    requires i < 3
    ensures Found(Threat, Threat77()[i], 77 + i)
  {
    hide Checksum, Normalize, Found, Column;
    match i
    case 0 => FindThreat("X-Forwarded-For-Address", 6294, 77);
    case 1 => FindThreat("Source-Device-Category", 5393, 78);
    case _ => FindThreat("Source-Device-Profile", 5591, 79);
  }

  lemma Threat80Told(i: nat)
    requires i < 3
    ensures Found(Threat, Threat80()[i], 80 + i)
  {
    hide Checksum, Normalize, Found, Column;
    match i
    case 0 => FindThreat("Nssai-Sst", 5840, 80);
    case 1 => FindThreat("Nssai-Sd", 1683, 81);
    case _ => FindThreat("Partial-Hash", 6200, 82);
  }

  lemma Threat83Told(i: nat)
    requires i < 1
    ensures Found(Threat, Threat83()[i], 83 + i)
  {
    hide Checksum, Normalize, Found, Column;
    match i
    case _ => FindThreat("High-Resolution-Timestamp-2", 5963, 83);
  }

  lemma CommonTold(schema: Schema, i: nat)
    requires i < 31
    ensures Found(schema, CommonHeaders()[i], i)
  {
    hide Found, Common0, Common3, Common6, Common9, Common12, Common15, Common18, Common21, Common24, Common27,
         Common30;
    if i < 3 {
      Common0Told(schema, i);
    } else if i < 6 {
      Common3Told(schema, i - 3);
    } else if i < 9 {
      Common6Told(schema, i - 6);
    } else if i < 12 {
      Common9Told(schema, i - 9);
    } else if i < 15 {
      Common12Told(schema, i - 12);
    } else if i < 18 {
      Common15Told(schema, i - 15);
    } else if i < 21 {
      Common18Told(schema, i - 18);
    } else if i < 24 {
      Common21Told(schema, i - 21);
    } else if i < 27 {
      Common24Told(schema, i - 24);
    } else if i < 30 {
      Common27Told(schema, i - 27);
    } else {
      Common30Told(schema, i - 30);
    }
  }

  lemma Traffic31To64Told(i: nat)
    requires i < 34
    ensures Found(Traffic, Traffic31To64()[i], 31 + i)
  {
    hide Found, Traffic31, Traffic34, Traffic37, Traffic40, Traffic43, Traffic46, Traffic48, Traffic50,
         Traffic53, Traffic56, Traffic59, Traffic62;
    if i < 3 {
      Traffic31Told(i);
    } else if i < 6 {
      Traffic34Told(i - 3);
    } else if i < 9 {
      Traffic37Told(i - 6);
    } else if i < 12 {
      Traffic40Told(i - 9);
    } else if i < 15 {
      Traffic43Told(i - 12);
    } else if i < 17 {
      Traffic46Told(i - 15);
    } else if i < 19 {
      Traffic48Told(i - 17);
    } else if i < 22 {
      Traffic50Told(i - 19);
    } else if i < 25 {
      Traffic53Told(i - 22);
    } else if i < 28 {
      Traffic56Told(i - 25);
    } else if i < 31 {
      Traffic59Told(i - 28);
    } else {
      Traffic62Told(i - 31);
    }
  }

  lemma Traffic65To95Told(i: nat)
    requires i < 31
    ensures Found(Traffic, Traffic65To95()[i], 65 + i)
  {
    hide Found, Traffic65, Traffic68, Traffic71, Traffic74, Traffic76, Traffic79, Traffic81, Traffic84,
         Traffic86, Traffic88, Traffic90, Traffic93;
    if i < 3 {
      Traffic65Told(i);
    } else if i < 6 {
      Traffic68Told(i - 3);
    } else if i < 9 {
      Traffic71Told(i - 6);
    } else if i < 11 {
      Traffic74Told(i - 9);
    } else if i < 14 {
      Traffic76Told(i - 11);
    } else if i < 16 {
      Traffic79Told(i - 14);
    } else if i < 19 {
      Traffic81Told(i - 16);
    } else if i < 21 {
      Traffic84Told(i - 19);
    } else if i < 23 {
      Traffic86Told(i - 21);
    } else if i < 25 {
      Traffic88Told(i - 23);
    } else if i < 28 {
      Traffic90Told(i - 25);
    } else {
      Traffic93Told(i - 28);
    }
  }

  lemma Traffic96To114Told(i: nat)
    requires i < 19
    ensures Found(Traffic, Traffic96To114()[i], 96 + i)
  {
    hide Found, Traffic96, Traffic99, Traffic101, Traffic104, Traffic107, Traffic110, Traffic113;
    if i < 3 {
      Traffic96Told(i);
    } else if i < 5 {
      Traffic99Told(i - 3);
    } else if i < 8 {
      Traffic101Told(i - 5);
    } else if i < 11 {
      Traffic104Told(i - 8);
    } else if i < 14 {
      Traffic107Told(i - 11);
    } else if i < 17 {
      Traffic110Told(i - 14);
    } else {
      Traffic113Told(i - 17);
    }
  }

  lemma TrafficTold(i: nat)
    requires i < 84
    ensures Found(Traffic, TrafficExtraHeaders()[i], 31 + i)
  {
    hide Found, Traffic31To64, Traffic65To95, Traffic96To114;
    if i < 34 {
      Traffic31To64Told(i);
    } else if i < 65 {
      Traffic65To95Told(i - 34);
    } else {
      Traffic96To114Told(i - 65);
    }
  }

  lemma Threat31To65Told(i: nat)
    requires i < 35
    ensures Found(Threat, Threat31To65()[i], 31 + i)
  {
    hide Found, Threat31, Threat34, Threat37, Threat40, Threat43, Threat46, Threat49, Threat52,
         Threat55, Threat57, Threat60, Threat63;
    if i < 3 {
      Threat31Told(i);
    } else if i < 6 {
      Threat34Told(i - 3);
    } else if i < 9 {
      Threat37Told(i - 6);
    } else if i < 12 {
      Threat40Told(i - 9);
    } else if i < 15 {
      Threat43Told(i - 12);
    } else if i < 18 {
      Threat46Told(i - 15);
    } else if i < 21 {
      Threat49Told(i - 18);
    } else if i < 24 {
      Threat52Told(i - 21);
    } else if i < 26 {
      Threat55Told(i - 24);
    } else if i < 29 {
      Threat57Told(i - 26);
    } else if i < 32 {
      Threat60Told(i - 29);
    } else {
      Threat63Told(i - 32);
    }
  }

  lemma Threat66To83Told(i: nat)
    requires i < 18
    ensures Found(Threat, Threat66To83()[i], 66 + i)
  {
    hide Found, Threat66, Threat69, Threat72, Threat74, Threat77, Threat80, Threat83;
    if i < 3 {
      Threat66Told(i);
    } else if i < 6 {
      Threat69Told(i - 3);
    } else if i < 8 {
      Threat72Told(i - 6);
    } else if i < 11 {
      Threat74Told(i - 8);
    } else if i < 14 {
      Threat77Told(i - 11);
    } else if i < 17 {
      Threat80Told(i - 14);
    } else {
      Threat83Told(i - 17);
    }
  }

  lemma ThreatTold(i: nat)
    requires i < 53
    ensures Found(Threat, ThreatExtraHeaders()[i], 31 + i)
  {
    hide Found, Threat31To65, Threat66To83;
    if i < 35 {
      Threat31To65Told(i);
    } else {
      Threat66To83Told(i - 35);
    }
  }

  /** Every column is found again from its normalized name alone. */
  lemma HeaderFound(schema: Schema, i: nat)
    requires i < Width(schema)
    ensures Found(schema, Header(schema, i), i)
  {
    hide Found, CommonHeaders, TrafficExtraHeaders, ThreatExtraHeaders;
    if i < COMMON_WIDTH {
      CommonTold(schema, i);
    } else if schema.Threat? {
      ThreatTold(i - COMMON_WIDTH);
    } else {
      TrafficTold(i - COMMON_WIDTH);
    }
  }

  /** Normalization is injective on the columns of each schema. */
  lemma NormalizedNamesDistinct(schema: Schema, i: nat, j: nat)
    requires i < Width(schema) && j < Width(schema)
    requires Normalize(Header(schema, i)) == Normalize(Header(schema, j))
    ensures i == j
  {
    hide Normalize, Checksum, Column, Header;
    HeaderFound(schema, i);
    HeaderFound(schema, j);
  }

  /** A stored name does not look like metadata. */
  lemma NormalizedNameStart(schema: Schema, i: nat)
    requires i < Width(schema)
    ensures var key := Normalize(Header(schema, i)); key != [] && key[0] != '@'
  {
    hide Column, Header;
    HeaderFound(schema, i);
  }

  /** The keys the parser and the enrichment add. */
  predicate Foreign(key: string) {
    key in ["@timestamp", "log_source", "palo_alto_raw_log", "forwarder_enrichment"]
  }

  lemma UnplacedCommon(code: int)
    requires code in [6386, 6195, 5874, 6061]
    ensures CommonColumn(code) == -1
  {
  }

  lemma UnplacedTraffic(code: int)
    requires code in [6386, 6195, 5874, 6061]
    ensures TrafficColumn(code) == -1
  {
  }

  lemma UnplacedThreat(code: int)
    requires code in [6386, 6195, 5874, 6061]
    ensures ThreatColumn(code) == -1
  {
  }

  lemma Unplaced(schema: Schema, code: int)
    requires code in [6386, 6195, 5874, 6061]
    ensures Column(schema, code) == -1
  {
    hide CommonColumn, TrafficColumn, ThreatColumn;
    UnplacedCommon(code);
    UnplacedTraffic(code);
    UnplacedThreat(code);
  }

  lemma ForeignColumn(schema: Schema, key: string)
    requires Foreign(key)
    ensures Column(schema, Checksum(key)) == -1
  {
    hide Column, CommonColumn, TrafficColumn, ThreatColumn;
    Unplaced(schema, Checksum(key)) by {
      if key == "@timestamp" {
        assert Checksum(key) == 6386;
      } else if key == "log_source" {
        assert Checksum(key) == 6195;
      } else if key == "palo_alto_raw_log" {
        assert Checksum(key) == 5874;
      } else {
        assert Checksum(key) == 6061;
      }
    }
  }

  /** No field is stored under the name of a metadata or an enrichment entry. */
  lemma NormalizedNamesNotForeign(schema: Schema, i: nat)
    requires i < Width(schema)
    ensures !Foreign(Normalize(Header(schema, i)))
  {
    hide Normalize, Checksum, Column, Header, Foreign;
    HeaderFound(schema, i);
    if Foreign(Normalize(Header(schema, i))) {
      ForeignColumn(schema, Normalize(Header(schema, i)));
    }
  }

  /** No stored name holds '='. */
  lemma NormalizedNamePlain(schema: Schema, i: nat)
    requires i < Width(schema)
    ensures '=' !in Normalize(Header(schema, i))
  {
    hide Header, Normalize;
    HeaderPlain(schema, i);
    NormalizePlain(Header(schema, i));
  }

  lemma HeaderPlain(schema: Schema, i: nat)
    requires i < Width(schema)
    ensures '=' !in Header(schema, i)
  {
    hide CommonHeaders, ExtraHeaders;
  }

  lemma NormalizePlain(name: string)
    requires '=' !in name
    ensures '=' !in Normalize(name)
  {
    forall k | 0 <= k < |name|
      ensures Normalize(name)[k] != '='
    {
      assert name[k] in name;
    }
  }
}
