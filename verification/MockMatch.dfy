/** Matching request bodies of mocked routes (mock_runtime_dispatcher.py): structural containment
    on nested JSON. */
module MockMatch {
  import opened PyText
  import opened PyValues

  // ----- Equality and containment -----

  predicate IsNumber(v: Value) {
    v.Bool? || v.Int? || v.Float?
  }

  /** Booleans are the numbers 0 and 1 in Python. */
  function NumberOf(v: Value): real
    requires IsNumber(v)
  {
    match v
    case Bool(b) => if b then 1.0 else 0.0
    case Int(i) => i as real
    case Float(x) => x
  }

  /** `==`: numbers by value, lists and dicts element by element. */
  predicate PyEq(a: Value, b: Value)
    decreases a
  {
    if IsNumber(a) then IsNumber(b) && NumberOf(a) == NumberOf(b)
    else if a.List? then
      b.List? && |a.items| == |b.items| && forall i | 0 <= i < |a.items| :: PyEq(a.items[i], b.items[i])
    else if a.Dict? then
      && b.Dict? && a.entries.Keys == b.entries.Keys
      && forall k | k in a.entries :: k in b.entries && PyEq(a.entries[k], b.entries[k])
    else a == b
  }

  /** `_contains`. */
  predicate Contained(expected: Value, actual: Value)
    decreases expected, 0
  {
    if expected.Dict? then
      && actual.Dict?
      && forall k | k in expected.entries :: k in actual.entries && Contained(expected.entries[k], actual.entries[k])
    else if expected.List? then
      && actual.List?
      && forall i | 0 <= i < |expected.items| :: ContainedInAny(expected.items[i], actual.items)
    else if expected.Str? && actual.Str? then Occurs(expected.s, actual.s)
    else PyEq(expected, actual)
  }

  predicate ContainedInAny(expected: Value, actuals: seq<Value>)
    decreases expected, 1
  {
    exists j | 0 <= j < |actuals| :: Contained(expected, actuals[j])
  }

  // ----- Texts -----

  lemma {:induction false} OccursInItself(s: string)
    ensures Occurs(s, s)
  {
    assert OccursAt(s, s, 0);
  }

  lemma {:induction false} OccursThrough(a: string, b: string, c: string)
    requires Occurs(a, b) && Occurs(b, c)
    ensures Occurs(a, c)
  {
    var i :| 0 <= i <= |b| - |a| && OccursAt(a, b, i);
    var j :| 0 <= j <= |c| - |b| && OccursAt(b, c, j);
    assert c[j..j + |b|] == b && b[i..i + |a|] == a;
    forall k | 0 <= k < |a| ensures c[j + i + k] == a[k] {
      assert c[j..j + |b|][i + k] == b[i + k] == b[i..i + |a|][k];
    }
    assert OccursAt(a, c, j + i);
  }

  // ----- Laws -----

  /** Equal values contain each other: equality is the stricter test. */
  lemma {:induction false} EqualIsContained(a: Value, b: Value)
    requires PyEq(a, b)
    ensures Contained(a, b)
    decreases a
  {
    if a.Dict? {
      forall k | k in a.entries ensures Contained(a.entries[k], b.entries[k]) {
        EqualIsContained(a.entries[k], b.entries[k]);
      }
    } else if a.List? {
      forall i | 0 <= i < |a.items| ensures ContainedInAny(a.items[i], b.items) {
        EqualIsContained(a.items[i], b.items[i]);
      }
    } else if a.Str? {
      OccursInItself(a.s);
    }
  }

  lemma {:induction false} EqualToItself(a: Value)
    ensures PyEq(a, a)
    decreases a
  {
    if a.Dict? {
      forall k | k in a.entries ensures PyEq(a.entries[k], a.entries[k]) {
        EqualToItself(a.entries[k]);
      }
    } else if a.List? {
      forall i | 0 <= i < |a.items| ensures PyEq(a.items[i], a.items[i]) {
        EqualToItself(a.items[i]);
      }
    }
  }

  /** Containment is a preorder: reflexive... */
  lemma {:induction false} ContainedInItself(a: Value)
    ensures Contained(a, a)
  {
    EqualToItself(a);
    EqualIsContained(a, a);
  }

  /** ...and transitive, through dicts, lists and texts. */
  lemma {:induction false} ContainedThrough(a: Value, b: Value, c: Value)
    requires Contained(a, b) && Contained(b, c)
    ensures Contained(a, c)
    decreases a
  {
    if a.Dict? {
      forall k | k in a.entries ensures k in c.entries && Contained(a.entries[k], c.entries[k]) {
        assert k in b.entries;
        ContainedThrough(a.entries[k], b.entries[k], c.entries[k]);
      }
    } else if a.List? {
      forall i | 0 <= i < |a.items| ensures ContainedInAny(a.items[i], c.items) {
        assert ContainedInAny(a.items[i], b.items);
        var m :| 0 <= m < |b.items| && Contained(a.items[i], b.items[m]);
        assert ContainedInAny(b.items[m], c.items);
        var j :| 0 <= j < |c.items| && Contained(b.items[m], c.items[j]);
        ContainedThrough(a.items[i], b.items[m], c.items[j]);
      }
    } else if a.Str? && b.Str? && c.Str? {
      OccursThrough(a.s, b.s, c.s);
    }
  }

  /** Values that contain each other need not be equal: lists are compared as sets. */
  lemma {:induction false} MutualIsNotEqual(a: Value)
    ensures Contained(List([a]), List([a, a])) && Contained(List([a, a]), List([a]))
    ensures !PyEq(List([a]), List([a, a]))
  {
    ContainedInItself(a);
    assert [a, a][0] == a && [a][0] == a;
  }

  // ----- Bodies -----

  datatype BodyMatch = Equals | Partly

  /** The body a request is matched by: its JSON, or its text when it has none. */
  function ActualBody(json: Value, raw: string): Value {
    if json != Null then json else Str(raw)
  }

  /** `_body_matches`. */
  predicate BodyMatches(body: Value, mode: BodyMatch, json: Value, raw: string) {
    if body == Null then true
    else if body.Str? && Upper(Strip(body.s)) == "ANY" then true
    else if mode == Equals then PyEq(body, ActualBody(json, raw))
    else Contained(body, ActualBody(json, raw))
  }

  /** A body accepted by `equals` matching is accepted by `contains` matching. */
  lemma {:induction false} EqualsAcceptsLess(body: Value, json: Value, raw: string)
    requires BodyMatches(body, Equals, json, raw)
    ensures BodyMatches(body, Partly, json, raw)
  {
    if body != Null && !(body.Str? && Upper(Strip(body.s)) == "ANY") {
      EqualIsContained(body, ActualBody(json, raw));
    }
  }

  /** `contains` matching accepts whatever contains an accepted body, and a route whose body is
      contained in another's accepts whatever that route does, `ANY` apart. */
  lemma {:induction false} MatchingIsMonotone(
    body: Value, wider: Value, json: Value, raw: string, json': Value, raw': string)
    requires BodyMatches(body, Partly, json, raw) && Contained(ActualBody(json, raw), ActualBody(json', raw'))
    requires Contained(wider, body) && body != Null && !(body.Str? && Upper(Strip(body.s)) == "ANY")
    ensures BodyMatches(body, Partly, json', raw') && BodyMatches(wider, Partly, json, raw)
  {
    ContainedThrough(body, ActualBody(json, raw), ActualBody(json', raw'));
    ContainedThrough(wider, body, ActualBody(json, raw));
  }
}
