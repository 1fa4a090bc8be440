/** The printed path of an address: which keys make it ambiguous, and that no others do. */
module FieldPaths {
  import opened Wrappers
  import opened Json
  import opened LogTree

  // ----- Printed paths are unambiguous -----

  predicate EndsWith(s: string, end: string) {
    |end| <= |s| && s[|s| - |end|..] == end
  }

  /** The text ends as the path of an array element does. */
  ghost predicate EndsInIndex(s: string) {
    exists i: nat :: EndsWith(s, IndexText(i))
  }

  /** A key whose paths read unambiguously: not empty, no '.' in it, and no printed index at its end. */
  ghost predicate PathSafe(key: string) {
    key != "" && '.' !in key && !EndsInIndex(key)
  }

  ghost predicate SafeStep(step: Step) {
    step.Field? ==> PathSafe(step.key)
  }

  ghost predicate SafeAddress(a: Address) {
    forall i :: 0 <= i < |a| ==> SafeStep(a[i])
  }

  lemma {:induction false} RenderEmpty(a: Address, n: nat)
    requires SafeAddress(a) && n <= |a|
    ensures RenderUpTo(a, n) == "" <==> n == 0
  {
    if n > 0 {
      RenderEmpty(a, n - 1);
    }
  }

  /** A printed index holds no '.', and no '[' but its first character. */
  lemma IndexCharacters(i: nat, k: nat)
    requires 0 < k < |IndexText(i)|
    ensures IndexText(i)[k] != '.' && IndexText(i)[k] != '[' && IndexText(i)[0] == '['
  {
    DecimalRoundTrip(i);
    if k <= |Decimal(i)| {
      assert IndexText(i)[k] == Decimal(i)[k - 1] && Decimal(i)[k - 1] in Decimal(i);
    }
  }

  lemma SuffixAt(s: string, end: string, k: nat)
    requires EndsWith(s, end) && k < |end|
    ensures s[|s| - |end| + k] == end[k]
  {
  }

  /** Whether the last step of a path is an index shows at its end. */
  lemma LastIsIndex(p: string, x: Step)
    requires SafeStep(x)
    ensures EndsInIndex(p + StepText(p, x)) <==> x.Index?
  {
    var r := p + StepText(p, x);
    if x.Index? {
      assert EndsWith(r, IndexText(x.i));
    } else if i: nat :| EndsWith(r, IndexText(i)) {
      hide IndexText;
      NoIndexAfterKey(p, x.key, i);
    }
  }

  lemma ShorterSuffix(s: string, end: string, shorter: string)
    requires EndsWith(s, end) && EndsWith(s, shorter) && |shorter| <= |end|
    ensures EndsWith(end, shorter)
  {
    assert end[|end| - |shorter|..] == s[|s| - |end|..][|end| - |shorter|..];
  }

  lemma NoIndexAfterKey(p: string, key: string, i: nat)
    requires PathSafe(key)
    ensures !EndsWith(p + StepText(p, Field(key)), IndexText(i))
  {
    hide IndexText;
    var r, text := p + StepText(p, Field(key)), IndexText(i);
    if EndsWith(r, text) {
      assert EndsWith(r, key);
      if |text| <= |key| {
        ShorterSuffix(r, key, text);
      } else {
        var k := |text| - |key| - 1;
        SuffixAt(r, text, k);
        assert r[|r| - |key| - 1] == '.';
        IndexHasNoDot(i, k);
      }
    }
  }

  lemma IndexHasNoDot(i: nat, k: nat)
    requires k < |IndexText(i)|
    ensures IndexText(i)[k] != '.'
  {
    if k > 0 {
      IndexCharacters(i, k);
    }
  }

  lemma IndexStarts(i: nat)
    ensures |IndexText(i)| > 1 && IndexText(i)[0] == '['
  {
  }

  lemma ShorterIndex(r: string, i: nat, j: nat)
    requires EndsWith(r, IndexText(i)) && EndsWith(r, IndexText(j))
    ensures |IndexText(i)| >= |IndexText(j)|
  {
    hide IndexText;
    IndexStarts(i);
    IndexStarts(j);
    if |IndexText(i)| < |IndexText(j)| {
      var k := |IndexText(j)| - |IndexText(i)|;
      SuffixAt(r, IndexText(i), 0);
      SuffixAt(r, IndexText(j), k);
      IndexCharacters(j, k);
    }
  }

  lemma SameIndex(r: string, i: nat, j: nat)
    requires EndsWith(r, IndexText(i)) && EndsWith(r, IndexText(j))
    ensures i == j
  {
    ShorterIndex(r, i, j);
    ShorterIndex(r, j, i);
    var t := IndexText(i);
    assert t == IndexText(j);
    assert t[1..|t| - 1] == Decimal(i) == Decimal(j);
    DecimalRoundTrip(i);
    DecimalRoundTrip(j);
  }

  /** What starts later in the same path starts behind a '.'. */
  lemma DotBetween(p: string, x: string, q: string, y: string)
    requires p + StepText(p, Field(x)) == q + StepText(q, Field(y)) && |p| < |q|
    ensures '.' in x
  {
    var r, k := p + StepText(p, Field(x)), if p == "" then |q| else |q| - |p| - 1;
    assert r[|q|] == '.';
    assert x[k] == r[|q|];
  }

  lemma SameKey(p: string, x: string, q: string, y: string)
    requires '.' !in x && p + StepText(p, Field(x)) == q + StepText(q, Field(y))
    ensures |p| >= |q|
  {
    if |p| < |q| {
      DotBetween(p, x, q, y);
    }
  }

  lemma SameEnds(p: string, x: Step, q: string, y: Step)
    requires SafeStep(x) && SafeStep(y)
    requires p + StepText(p, x) == q + StepText(q, y)
    ensures p == q && x == y
  {
    hide PathSafe, EndsInIndex;
    var r := p + StepText(p, x);
    LastIsIndex(p, x);
    LastIsIndex(q, y);
    if x.Index? {
      SameIndex(r, x.i, y.i);
      assert p == r[..|r| - |IndexText(x.i)|] == q;
    } else {
      SafeHasNoDot(x.key);
      SafeHasNoDot(y.key);
      SameKey(p, x.key, q, y.key);
      SameKey(q, y.key, p, x.key);
      assert p == r[..|p|] == q;
      assert StepText(p, x) == r[|p|..] == StepText(q, y);
      if p != "" {
        assert StepText(p, x)[1..] == x.key && StepText(q, y)[1..] == y.key;
      }
    }
  }

  lemma SafeHasNoDot(key: string)
    requires PathSafe(key)
    ensures '.' !in key
  {
  }

  lemma SameLastStep(a: Address, n: nat, b: Address, m: nat)
    requires SafeAddress(a) && SafeAddress(b) && 0 < n <= |a| && 0 < m <= |b|
    requires RenderUpTo(a, n) == RenderUpTo(b, m)
    ensures RenderUpTo(a, n - 1) == RenderUpTo(b, m - 1) && a[n - 1] == b[m - 1]
  {
    var p, x, q, y := RenderUpTo(a, n - 1), a[n - 1], RenderUpTo(b, m - 1), b[m - 1];
    assert p + StepText(p, x) == q + StepText(q, y);
    SameEnds(p, x, q, y);
  }

  lemma {:induction false} SameLength(a: Address, n: nat, b: Address, m: nat)
    requires SafeAddress(a) && SafeAddress(b) && n <= |a| && m <= |b|
    requires RenderUpTo(a, n) == RenderUpTo(b, m)
    ensures n == m
  {
    hide StepText, PathSafe;
    if n == 0 || m == 0 {
      RenderEmpty(a, n);
      RenderEmpty(b, m);
    } else {
      SameLastStep(a, n, b, m);
      SameLength(a, n - 1, b, m - 1);
    }
  }

  lemma {:induction false} SameStepAt(a: Address, b: Address, n: nat, i: nat)
    requires SafeAddress(a) && SafeAddress(b) && i < n <= |a| && n <= |b|
    requires RenderUpTo(a, n) == RenderUpTo(b, n)
    ensures a[i] == b[i]
  {
    hide StepText, PathSafe;
    SameLastStep(a, n, b, n);
    if i < n - 1 {
      SameStepAt(a, b, n - 1, i);
    }
  }

  /** When all keys are safe, different addresses print different paths. */
  lemma RenderInjective(a: Address, b: Address)
    requires SafeAddress(a) && SafeAddress(b) && Render(a) == Render(b)
    ensures a == b
  {
    SameLength(a, |a|, b, |b|);
    forall i | 0 <= i < |a|
      ensures a[i] == b[i]
    {
      SameStepAt(a, b, |a|, i);
    }
  }

  // ----- Each condition on keys is needed -----

  lemma RenderTop(key: string)
    ensures Render([Field(key)]) == key
  {
    RenderSnoc([], Field(key));
    assert [] + [Field(key)] == [Field(key)];
  }

  lemma RenderTwo(key: string, step: Step)
    ensures Render([Field(key), step]) == key + StepText(key, step)
  {
    RenderTop(key);
    RenderSnoc([Field(key)], step);
    assert [Field(key)] + [step] == [Field(key), step];
  }

  lemma RenderThree(top: string, key: string, step: Step)
    requires top != ""
    ensures Render([Field(top), Field(key), step]) == top + "." + key + StepText(top + "." + key, step)
  {
    RenderTwo(top, Field(key));
    RenderSnoc([Field(top), Field(key)], step);
    assert [Field(top), Field(key)] + [step] == [Field(top), Field(key), step];
    assert top + ("." + key) == top + "." + key;
  }

  /** Two string leaves of a log print the same path. */
  ghost predicate Collide(log: Value, x: Leaf, y: Leaf) {
    && WellFormed(log) && x.address != y.address && Render(x.address) == Render(y.address)
    && At(log, x.address) == Some(String(x.text)) && At(log, y.address) == Some(String(y.text))
  }

  /** An array with the text at index i and nothing before it. */
  function Padded(i: nat, text: string): (v: Value)
    ensures v.Array? && |v.elems| == i + 1 && v.elems[i] == String(text) && WellFormed(v)
  {
    Array(seq(i, _ => Null) + [String(text)])
  }

  function Two(a: string, x: Value, b: string, y: Value): Value {
    Object([Member(a, x), Member(b, y)])
  }

  lemma AtTwo(a: string, x: Value, b: string, y: Value, rest: Address)
    requires a != b
    ensures At(Two(a, x, b, y), [Field(a)] + rest) == At(x, rest)
    ensures At(Two(a, x, b, y), [Field(b)] + rest) == At(y, rest)
    ensures WellFormed(x) && WellFormed(y) ==> WellFormed(Two(a, x, b, y))
  {
    AtStep(Two(a, x, b, y), Field(a), rest);
    AtStep(Two(a, x, b, y), Field(b), rest);
    var members := Two(a, x, b, y).members;
    assert members[1..] == [Member(b, y)];
    assert Lookup(members[1..], b) == Some(y);
  }

  lemma AtOne(key: string, x: Value, rest: Address)
    ensures At(Object([Member(key, x)]), [Field(key)] + rest) == At(x, rest)
    ensures WellFormed(x) ==> WellFormed(Object([Member(key, x)]))
  {
    AtStep(Object([Member(key, x)]), Field(key), rest);
  }

  lemma AtEnd(v: Value)
    ensures At(v, []) == Some(v)
  {
  }

  /** An empty key vanishes from the path of what is under it. */
  lemma EmptyKeyCollides(k: string, s: string, t: string)
    requires k != ""
    ensures Collide(Two(k, String(s), "", Object([Member(k, String(t))])),
                    Leaf([Field(k)], s), Leaf([Field(""), Field(k)], t))
  {
    hide WellFormed, At;
    StringsAreWellFormed();
    RenderTop(k);
    RenderTwo("", Field(k));
    assert "" + k == k;
    AtEnd(String(s));
    AtEnd(String(t));
    AtOne(k, String(t), []);
    AtTwo(k, String(s), "", Object([Member(k, String(t))]), []);
    AtTwo(k, String(s), "", Object([Member(k, String(t))]), [Field(k)]);
    assert [Field(k)] + [] == [Field(k)] && [Field("")] + [Field(k)] == [Field(""), Field(k)];
  }

  lemma StringsAreWellFormed()
    ensures forall s :: WellFormed(String(s))
  {
  }

  /** A key, and what a shorter key leads to in one more step. */
  lemma TwoLeaves(key: string, s: string, short: string, x: Value, step: Step, t: string)
    requires key != short && WellFormed(x) && At(x, [step]) == Some(String(t))
    ensures var inner := Two(key, String(s), short, x);
            && WellFormed(inner)
            && At(inner, [Field(key)]) == Some(String(s)) && At(inner, [Field(short), step]) == Some(String(t))
  {
    hide WellFormed, At, Two;
    StringsAreWellFormed();
    AtEnd(String(s));
    AtTwo(key, String(s), short, x, []);
    AtTwo(key, String(s), short, x, [step]);
    assert [Field(key)] + [] == [Field(key)] && [Field(short)] + [step] == [Field(short), step];
  }

  lemma SamePath(a: string, key: string, short: string, step: Step)
    requires a != "" && key == short + StepText(a + "." + short, step)
    ensures Render([Field(a), Field(key)]) == Render([Field(a), Field(short), step])
  {
    hide Render;
    RenderTwo(a, Field(key));
    RenderThree(a, short, step);
    assert a + ("." + key) == a + "." + short + StepText(a + "." + short, step);
  }

  /** Both under an object at key a. */
  lemma NestedCollision(a: string, key: string, s: string, short: string, x: Value, step: Step, t: string)
    requires a != "" && key != short && WellFormed(x) && At(x, [step]) == Some(String(t))
    requires key == short + StepText(a + "." + short, step)
    ensures Collide(Object([Member(a, Two(key, String(s), short, x))]),
                    Leaf([Field(a), Field(key)], s), Leaf([Field(a), Field(short), step], t))
  {
    hide WellFormed, At, Render, Two, StepText;
    var inner := Two(key, String(s), short, x);
    TwoLeaves(key, s, short, x, step, t);
    SamePath(a, key, short, step);
    AtOne(a, inner, [Field(key)]);
    AtOne(a, inner, [Field(short), step]);
    assert [Field(a)] + [Field(key)] == [Field(a), Field(key)];
    assert [Field(a)] + [Field(short), step] == [Field(a), Field(short), step];
  }

  lemma DottedKeyCollides(left: string, right: string, s: string, t: string)
    ensures Collide(Object([Member("a", Two(left + "." + right, String(s), left, Object([Member(right, String(t))])))]),
                    Leaf([Field("a"), Field(left + "." + right)], s),
                    Leaf([Field("a"), Field(left), Field(right)], t))
  {
    StringsAreWellFormed();
    AtEnd(String(t));
    AtOne(right, String(t), []);
    assert [Field(right)] + [] == [Field(right)];
    assert left + ("." + right) == left + "." + right;
    assert |left + "." + right| > |left|;
    NestedCollision("a", left + "." + right, s, left, Object([Member(right, String(t))]), Field(right), t);
  }

  lemma IndexedKeyCollides(short: string, i: nat, s: string, t: string)
    ensures Collide(Object([Member("a", Two(short + IndexText(i), String(s), short, Padded(i, t)))]),
                    Leaf([Field("a"), Field(short + IndexText(i))], s),
                    Leaf([Field("a"), Field(short), Index(i)], t))
  {
    hide IndexText;
    IndexStarts(i);
    AtEnd(String(t));
    AtStep(Padded(i, t), Index(i), []);
    assert [Index(i)] + [] == [Index(i)];
    assert |short + IndexText(i)| > |short|;
    NestedCollision("a", short + IndexText(i), s, short, Padded(i, t), Index(i), t);
  }

  /**
   Safe keys are the only ones that never collide: for any other key there is a log without repeated keys
   in which a string leaf under that key and another one, whatever their texts, print the same path.
   */
  lemma UnsafeKeysCollide(key: string, s: string, t: string) returns (log: Value, x: Leaf, y: Leaf)
    requires !PathSafe(key)
    ensures Collide(log, x, y) && x.text == s && y.text == t
    ensures Field(key) in x.address || Field(key) in y.address
  {
    hide Collide, IndexText;
    if key == "" {
      log, x, y := Two("a", String(s), "", Object([Member("a", String(t))])), Leaf([Field("a")], s),
                   Leaf([Field(""), Field("a")], t);
      EmptyKeyCollides("a", s, t);
      assert y.address[0] == Field(key);
    } else if '.' in key {
      var d :| 0 <= d < |key| && key[d] == '.';
      var left, right := key[..d], key[d + 1..];
      assert key == left + "." + right;
      log := Object([Member("a", Two(key, String(s), left, Object([Member(right, String(t))])))]);
      x, y := Leaf([Field("a"), Field(key)], s), Leaf([Field("a"), Field(left), Field(right)], t);
      DottedKeyCollides(left, right, s, t);
      assert x.address[1] == Field(key);
    } else {
      var i: nat :| EndsWith(key, IndexText(i));
      var short := key[..|key| - |IndexText(i)|];
      assert key == short + IndexText(i);
      log := Object([Member("a", Two(key, String(s), short, Padded(i, t)))]);
      x, y := Leaf([Field("a"), Field(key)], s), Leaf([Field("a"), Field(short), Index(i)], t);
      IndexedKeyCollides(short, i, s, t);
      assert x.address[1] == Field(key);
    }
  }
}
