/** When a body matches, place by place: where containment and equality fail, and which bodies
    match every request. */
module MockMeaning {
  import opened Prelude
  import opened PyText
  import opened PyValues
  import opened PathTokens
  import opened ContextStore
  import opened ContextLaws
  import opened MockMatch

  /** The same number, or the same value and no number. */
  predicate SameScalar(a: Value, b: Value) {
    match a
    case Null => b.Null?
    case Bool(x) => IsWorth(b, if x then 1.0 else 0.0)
    case Int(i) => IsWorth(b, i as real)
    case Float(x) => IsWorth(b, x)
    case Str(s) => b.Str? && b.s == s
    case Date(d) => b.Date? && b.day == d
    case DateTime(d, c) => b.DateTime? && b.date == d && b.clock == c
    case Shared(c) => b.Shared? && b.scope == c
    case _ => false
  }

  predicate IsWorth(b: Value, x: real) {
    (b.Bool? && x == if b.b then 1.0 else 0.0) || (b.Int? && x == b.i as real) || (b.Float? && x == b.x)
  }

  // ----- Equality -----

  /** Two values look alike at their top: objects, lists of one length, or equal scalars. */
  predicate SameTop(a: Value, b: Value) {
    || (a.Dict? && b.Dict?)
    || (a.List? && b.List? && |a.items| == |b.items|)
    || (!a.Dict? && !a.List? && SameScalar(a, b))
  }

  predicate AlikeAt(a: Option<Value>, b: Option<Value>) {
    (a.None? && b.None?) || (a.Some? && b.Some? && SameTop(a.value, b.value))
  }

  ghost predicate AlikeEverywhere(a: Value, b: Value) {
    forall place :: AlikeAt(At(a, place), At(b, place))
  }

  lemma {:induction false} AlikeBelow(a: Value, b: Value, step: Step)
    requires AlikeEverywhere(a, b)
    requires Child(a, step).Some? && Child(b, step).Some?
    ensures AlikeEverywhere(Child(a, step).value, Child(b, step).value)
  {
    forall place ensures AlikeAt(At(Child(a, step).value, place), At(Child(b, step).value, place)) {
      assert ([step] + place)[1..] == place;
      assert AlikeAt(At(a, [step] + place), At(b, [step] + place));
    }
  }

  lemma {:induction false} ChildrenAlike(a: Value, b: Value, step: Step)
    requires AlikeEverywhere(a, b)
    ensures Child(a, step).Some? <==> Child(b, step).Some?
  {
    assert [step][1..] == [];
    assert At(a, [step]) == Child(a, step) && At(b, [step]) == Child(b, step);
    assert AlikeAt(At(a, [step]), At(b, [step]));
  }

  lemma {:induction false} AlikeIsEqual(a: Value, b: Value)
    requires AlikeEverywhere(a, b)
    ensures PyEq(a, b)
    decreases a
  {
    assert AlikeAt(At(a, []), At(b, []));
    if a.Dict? {
      forall k ensures k in a.entries <==> k in b.entries {
        ChildrenAlike(a, b, Name(k));
      }
      forall k | k in a.entries ensures PyEq(a.entries[k], b.entries[k]) {
        AlikeBelow(a, b, Name(k));
        AlikeIsEqual(a.entries[k], b.entries[k]);
      }
    } else if a.List? {
      forall i | 0 <= i < |a.items| ensures PyEq(a.items[i], b.items[i]) {
        AlikeBelow(a, b, Index(i));
        AlikeIsEqual(a.items[i], b.items[i]);
      }
    }
  }

  lemma {:induction false} EqualIsAlike(a: Value, b: Value, place: seq<Step>)
    requires PyEq(a, b)
    ensures AlikeAt(At(a, place), At(b, place))
    decreases |place|
  {
    if place != [] {
      match place[0]
      case Name(n) =>
        if a.Dict? && n in a.entries {
          EqualIsAlike(a.entries[n], b.entries[n], place[1..]);
        }
      case Index(i) =>
        if a.List? && i < |a.items| {
          EqualIsAlike(a.items[i], b.items[i], place[1..]);
        }
    }
  }

  /** Values are equal exactly when they have the same places and look alike at each. */
  lemma {:induction false} EqualExactly(a: Value, b: Value)
    ensures PyEq(a, b) <==> AlikeEverywhere(a, b)
  {
    if PyEq(a, b) {
      forall place ensures AlikeAt(At(a, place), At(b, place)) {
        EqualIsAlike(a, b, place);
      }
    }
    if AlikeEverywhere(a, b) {
      AlikeIsEqual(a, b);
    }
  }

  // ----- Containment -----

  /** What names lead to, through objects only. */
  function Reach(v: Value, names: seq<string>): Option<Value>
    decreases |names|
  {
    if names == [] then Some(v)
    else if v.Dict? && names[0] in v.entries then Reach(v.entries[names[0]], names[1..])
    else None
  }

  /** Something is there that has what is expected: an object an object, a list a list holding each
      expected element somewhere, a text a text around it, and any other scalar the same one. */
  predicate HeldAt(expected: Value, there: Option<Value>) {
    && there.Some?
    && var actual := there.value;
    match expected
    case Dict(_) => actual.Dict?
    case List(items) =>
      actual.List? && forall i | 0 <= i < |items| :: HeldAmong(items[i], actual.items)
    case Str(s) => actual.Str? && Occurs(s, actual.s)
    case _ => SameScalar(expected, actual)
  }

  predicate HeldAmong(expected: Value, actuals: seq<Value>) {
    exists j | 0 <= j < |actuals| :: Contained(expected, actuals[j])
  }

  ghost predicate HeldEverywhere(expected: Value, actual: Value) {
    forall names | Reach(expected, names).Some? :: HeldAt(Reach(expected, names).value, Reach(actual, names))
  }

  lemma {:induction false} HeldBelow(expected: Value, actual: Value, key: string)
    requires expected.Dict? && key in expected.entries && HeldEverywhere(expected, actual)
    ensures actual.Dict? && key in actual.entries && HeldEverywhere(expected.entries[key], actual.entries[key])
  {
    assert HeldAt(Reach(expected, []).value, Reach(actual, []));
    assert [key][1..] == [] && Reach(expected, [key]) == Some(expected.entries[key]);
    assert HeldAt(expected.entries[key], Reach(actual, [key]));
    forall names | Reach(expected.entries[key], names).Some?
      ensures HeldAt(Reach(expected.entries[key], names).value, Reach(actual.entries[key], names))
    {
      assert ([key] + names)[1..] == names;
      assert Reach(expected, [key] + names) == Reach(expected.entries[key], names);
      assert Reach(actual, [key] + names) == Reach(actual.entries[key], names);
    }
  }

  lemma {:induction false} HeldIsContained(expected: Value, actual: Value)
    requires HeldEverywhere(expected, actual)
    ensures Contained(expected, actual)
    decreases expected
  {
    assert HeldAt(Reach(expected, []).value, Reach(actual, []));
    if expected.Dict? {
      forall k | k in expected.entries ensures k in actual.entries && Contained(expected.entries[k], actual.entries[k]) {
        HeldBelow(expected, actual, k);
        HeldIsContained(expected.entries[k], actual.entries[k]);
      }
    } else if expected.List? {
      forall i | 0 <= i < |expected.items| ensures ContainedInAny(expected.items[i], actual.items) {
        assert HeldAmong(expected.items[i], actual.items);
      }
    }
  }

  lemma {:induction false} ContainedIsHeld(expected: Value, actual: Value, names: seq<string>)
    requires Contained(expected, actual) && Reach(expected, names).Some?
    ensures HeldAt(Reach(expected, names).value, Reach(actual, names))
    decreases |names|
  {
    if names != [] {
      ContainedIsHeld(expected.entries[names[0]], actual.entries[names[0]], names[1..]);
    } else if expected.List? {
      forall i | 0 <= i < |expected.items|
        ensures HeldAmong(expected.items[i], actual.items)
      {
        assert ContainedInAny(expected.items[i], actual.items);
      }
    }
  }

  /** A value is contained in another exactly when everything its names lead to is held there. So it
      is not as soon as one name is missing, one scalar differs, or one text or element is not
      found. */
  lemma {:induction false} ContainedExactly(expected: Value, actual: Value)
    ensures Contained(expected, actual) <==> HeldEverywhere(expected, actual)
  {
    if Contained(expected, actual) {
      forall names | Reach(expected, names).Some? ensures HeldAt(Reach(expected, names).value, Reach(actual, names)) {
        ContainedIsHeld(expected, actual, names);
      }
    }
    if HeldEverywhere(expected, actual) {
      HeldIsContained(expected, actual);
    }
  }

  // ----- Bodies -----

  predicate MatchesAll(body: Value) {
    body == Null || (body.Str? && Upper(Strip(body.s)) == "ANY")
  }

  /** Any other body refuses some request. */
  lemma {:induction false} SomeRefused(body: Value, mode: BodyMatch) returns (json: Value)
    requires !MatchesAll(body)
    ensures !BodyMatches(body, mode, json, "")
  {
    json := if body.List? then Dict(map[]) else List([]);
  }

  /** A route's body matches every request exactly when there is none or it is the word `any`. */
  lemma {:induction false} MatchesAllExactly(body: Value, mode: BodyMatch)
    ensures (forall json, raw :: BodyMatches(body, mode, json, raw)) <==> MatchesAll(body)
  {
    if !MatchesAll(body) {
      var json := SomeRefused(body, mode);
    }
  }

  /** A request without JSON is matched by its text. */
  lemma {:induction false} TextIsMatched(s: string, raw: string)
    requires Upper(Strip(s)) != "ANY"
    ensures BodyMatches(Str(s), Equals, Null, raw) <==> s == raw
    ensures BodyMatches(Str(s), Partly, Null, raw) <==> Occurs(s, raw)
  {
  }
}
