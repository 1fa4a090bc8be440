/**
 The serde_json value type.  An object is a list of members in the iteration order of the map
 behind it; well-formed objects have no repeated key.
 */
module Json {
  import opened Wrappers

  /** serde_json's three number representations; a float is carried as the text it prints to. */
  datatype Number = PosInt(n: nat) | NegInt(i: int) | Float(text: string)

  datatype Member = Member(key: string, value: Value)

  datatype Value =
    | Null
    | Bool(b: bool)
    | Num(num: Number)
    | String(s: string)
    | Array(elems: seq<Value>)
    | Object(members: seq<Member>)

  function Lookup(members: seq<Member>, key: string): Option<Value> {
    if members == [] then None
    else if members[0].key == key then Some(members[0].value)
    else Lookup(members[1..], key)
  }

  /** Value::get with a string index: None on anything but an object. */
  function Get(v: Value, key: string): Option<Value> {
    if v.Object? then Lookup(v.members, key) else None
  }

  predicate UniqueKeys(members: seq<Member>) {
    forall i, j :: 0 <= i < j < |members| ==> members[i].key != members[j].key
  }

  lemma {:induction false} LookupMember(members: seq<Member>, key: string)
    ensures Lookup(members, key).Some? ==> Member(key, Lookup(members, key).value) in members
    ensures forall m :: m in members && m.key == key ==> Lookup(members, key).Some?
    ensures UniqueKeys(members) ==> forall m :: m in members && m.key == key ==> Lookup(members, key) == Some(m.value)
  {
    if members != [] {
      LookupMember(members[1..], key);
      var first := members[0];
      assert first == Member(first.key, first.value);
      assert forall m :: m in members <==> m == first || m in members[1..];
      if UniqueKeys(members) && first.key == key {
        forall m | m in members[1..]
          ensures m.key != key
        {
          var i :| 1 <= i < |members| && members[i] == m;
        }
      }
    }
  }

  /** Value::as_str */
  function AsStr(v: Value): Option<string> {
    if v.String? then Some(v.s) else None
  }

  /** Value::as_u64: negative integers and floats give None. */
  function AsU64(v: Value): Option<nat> {
    if v.Num? && v.num.PosInt? then Some(v.num.n) else None
  }

  // ----- Decimal printing -----

  function Digit(d: nat): char
    requires d < 10
  {
    '0' + d as char
  }

  predicate IsDigit(c: char) {
    '0' <= c <= '9'
  }

  predicate AllDigits(s: string) {
    s != [] && forall c :: c in s ==> IsDigit(c)
  }

  function DigitValue(c: char): nat
    requires IsDigit(c)
  {
    c as nat - '0' as nat
  }

  function Decimal(n: nat): string {
    if n < 10 then [Digit(n)] else Decimal(n / 10) + [Digit(n % 10)]
  }

  /** The number a string of decimal digits denotes. */
  function DecimalValue(s: string): nat
    requires forall c :: c in s ==> IsDigit(c)
  {
    if s == [] then 0 else 10 * DecimalValue(s[..|s| - 1]) + DigitValue(s[|s| - 1])
  }

  lemma {:induction false} DecimalRoundTrip(n: nat)
    ensures Decimal(n) != []
    ensures forall c :: c in Decimal(n) ==> IsDigit(c)
    ensures DecimalValue(Decimal(n)) == n
  {
    if n >= 10 {
      DecimalRoundTrip(n / 10);
      var s := Decimal(n);
      assert s[..|s| - 1] == Decimal(n / 10);
    } else {
      var s := Decimal(n);
      assert s[..|s| - 1] == [];
    }
  }

  lemma {:induction false} NoLeadingZero(n: nat)
    requires n > 0
    ensures Decimal(n) != [] && Decimal(n)[0] != '0'
  {
    if n >= 10 {
      NoLeadingZero(n / 10);
    }
  }

  /** Display for Number. */
  function ShowNumber(n: Number): string {
    match n
    case PosInt(n) => Decimal(n)
    case NegInt(i) => if i < 0 then ['-'] + Decimal(-i) else Decimal(i)
    case Float(text) => text
  }
}
