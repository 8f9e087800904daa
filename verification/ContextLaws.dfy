/** Laws of the context store: a write is read back, touches nothing beside its path, and a
    removal undoes it. */
module ContextLaws {
  import opened Prelude
  import opened PyText
  import opened PyValues
  import opened PathTokens
  import opened ContextStore

  predicate PlainSteps(steps: seq<Step>) {
    forall i | 0 <= i < |steps| :: steps[i].Name? ==> PlainName(steps[i].name)
  }

  /** The writer takes a printed index for an index and a plain name for a name. */
  lemma {:induction false} TokenKind(step: Step)
    requires step.Name? ==> PlainName(step.name)
    ensures step.Name? ==> ToIndex(Token(step)) == None && Strip(Token(step)) == step.name
    ensures step.Index? ==> ToIndex(Token(step)) == Some(step.index)
  {
    match step
    case Name(n) => TrimmedStrips(n);
    case Index(i) => ParseShowNat(i); DigitsAreTrimmed(ShowNat(i));
  }

  lemma {:induction false} TokensTail(steps: seq<Step>)
    requires steps != []
    ensures Tokens(steps)[0] == Token(steps[0]) && Tokens(steps)[1..] == Tokens(steps[1..])
  {
    if |steps| > 1 {
      TokensTail(steps[1..]);
    }
  }

  // ----- Trees -----

  /** A completed nested assignment is found again by the same steps, whatever the aliases say. */
  lemma {:induction false} AssignNestedReads(s: Scopes, current: Value, steps: seq<Step>, value: Value)
    requires steps != [] && PlainSteps(steps)
    requires AssignNested(current, Tokens(steps), value).1
    ensures !AssignNested(current, Tokens(steps), value).0.Shared?
    ensures Walk(s, AssignNested(current, Tokens(steps), value).0, steps) == Some(value)
    decreases |steps|
  {
    TokensTail(steps);
    TokenKind(steps[0]);
    if |steps| > 1 {
      TokensTail(steps[1..]);
      var r := AssignNested(current, Tokens(steps), value).0;
      var child := Child(r, steps[0]).value;
      match steps[0]
      case Index(i) =>
        var items := EnsureListSize(current.items, i);
        var next := if items[i] == Null then FreshContainer(Tokens(steps)[1]) else items[i];
        AssignNestedReads(s, next, steps[1..], value);
      case Name(n) =>
        var next := if n in current.entries && current.entries[n] != Null
                    then current.entries[n] else FreshContainer(Tokens(steps)[1]);
        AssignNestedReads(s, next, steps[1..], value);
    }
  }

  /** The value stored at a location, aliases counting as leaves. */
  function At(v: Value, steps: seq<Step>): Option<Value>
    decreases |steps|
  {
    if steps == [] then Some(v)
    else
      match Child(v, steps[0])
      case None => None
      case Some(next) => At(next, steps[1..])
  }

  /** Neither path is a prefix of the other. */
  predicate Apart(p: seq<Step>, q: seq<Step>) {
    !(p <= q) && !(q <= p)
  }

  lemma {:induction false} ApartTail(p: seq<Step>, q: seq<Step>)
    requires Apart(p, q)
    ensures p != [] && q != []
    ensures p[0] == q[0] ==> Apart(p[1..], q[1..])
  {
    if p[0] == q[0] {
      assert p == [p[0]] + p[1..] && q == [q[0]] + q[1..];
      assert p[1..] <= q[1..] ==> p <= q;
      assert q[1..] <= p[1..] ==> q <= p;
    }
  }

  /** A nested assignment, completed or not, leaves every existing location apart from its path
      as it was. */
  lemma {:induction false} AssignNestedFrame(current: Value, p: seq<Step>, value: Value, q: seq<Step>)
    requires PlainSteps(p) && Apart(p, q) && At(current, q).Some?
    ensures p != [] && At(AssignNested(current, Tokens(p), value).0, q) == At(current, q)
    decreases |p|
  {
    ApartTail(p, q);
    if p[0] == q[0] {
      var child := Child(current, q[0]).value;
      assert child != Null by {
        assert q[1..] != [] && At(child, q[1..]).Some?;
      }
      AssignNestedFrame(child, p[1..], value, q[1..]);
      AssignWithin(current, p, value, q);
    } else {
      AssignElsewhere(current, p, value, q);
    }
  }

  /** An assignment below an entry does to a location below it what it does to the entry's value. */
  lemma {:induction false} AssignWithin(current: Value, p: seq<Step>, value: Value, q: seq<Step>)
    requires PlainSteps(p) && |p| > 1 && q != [] && p[0] == q[0]
    requires Child(current, p[0]).Some? && Child(current, p[0]).value != Null
    ensures At(AssignNested(current, Tokens(p), value).0, q)
         == At(AssignNested(Child(current, p[0]).value, Tokens(p[1..]), value).0, q[1..])
  {
    AssignStep(current, p, value);
  }

  /** It leaves what another entry holds. */
  lemma {:induction false} AssignElsewhere(current: Value, p: seq<Step>, value: Value, q: seq<Step>)
    requires PlainSteps(p) && p != [] && q != [] && p[0] != q[0] && Child(current, q[0]).Some?
    ensures At(AssignNested(current, Tokens(p), value).0, q) == At(current, q)
  {
    TokensTail(p);
    TokenKind(p[0]);
  }

  /** Removing a property makes its location disappear. */
  lemma {:induction false} RemoveNestedGone(current: Value, p: seq<Step>)
    requires p != [] && PlainSteps(p) && p[|p| - 1].Name?
    ensures At(RemoveNested(current, Tokens(p)), p) == None
    decreases |p|
  {
    TokensTail(p);
    TokenKind(p[0]);
    if |p| > 1 && Child(current, p[0]).Some? {
      TokensTail(p[1..]);
      RemoveNestedGone(Child(current, p[0]).value, p[1..]);
    }
  }

  /** Removing a property leaves the locations apart from it as they were, present or absent. */
  lemma {:induction false} RemoveNestedFrame(current: Value, p: seq<Step>, q: seq<Step>)
    requires PlainSteps(p) && Apart(p, q) && p[|p| - 1].Name?
    ensures At(RemoveNested(current, Tokens(p)), q) == At(current, q)
    decreases |p|
  {
    ApartTail(p, q);
    if p[0] == q[0] && Child(current, p[0]).Some? {
      RemoveStep(current, p);
      RemoveNestedFrame(Child(current, p[0]).value, p[1..], q[1..]);
    } else {
      RemoveElsewhere(current, p, q);
    }
  }

  lemma {:induction false} RemoveElsewhere(current: Value, p: seq<Step>, q: seq<Step>)
    requires PlainSteps(p) && p != [] && q != [] && p[|p| - 1].Name?
    requires p[0] != q[0] || Child(current, p[0]).None?
    ensures At(RemoveNested(current, Tokens(p)), q) == At(current, q)
  {
    if Child(current, p[0]).None? {
      RemoveNowhere(current, p);
    } else if |p| > 1 {
      RemoveStep(current, p);
    } else {
      TokensTail(p);
      TokenKind(p[0]);
    }
  }

  /** A removal whose first step leads nowhere changes nothing. */
  lemma {:induction false} RemoveNowhere(current: Value, p: seq<Step>)
    requires PlainSteps(p) && p != [] && Child(current, p[0]).None?
    ensures RemoveNested(current, Tokens(p)) == current
  {
    TokensTail(p);
    TokenKind(p[0]);
  }

  /** An assignment through an existing child only replaces that child. */
  lemma {:induction false} AssignStep(current: Value, p: seq<Step>, value: Value)
    requires |p| > 1 && PlainSteps(p)
    requires Child(current, p[0]).Some? && Child(current, p[0]).value != Null
    ensures AssignNested(current, Tokens(p), value) ==
            var (r, ok) := AssignNested(Child(current, p[0]).value, Tokens(p[1..]), value);
            (WithChild(current, p[0], r), ok)
  {
    TokensTail(p);
    TokensTail(p[1..]);
    TokenKind(p[0]);
    if p[0].Index? {
      assert EnsureListSize(current.items, p[0].index) == current.items;
    }
  }

  lemma {:induction false} RemoveStep(current: Value, p: seq<Step>)
    requires |p| > 1 && PlainSteps(p) && Child(current, p[0]).Some?
    ensures RemoveNested(current, Tokens(p))
         == WithChild(current, p[0], RemoveNested(Child(current, p[0]).value, Tokens(p[1..])))
  {
    TokensTail(p);
    TokensTail(p[1..]);
    TokenKind(p[0]);
  }

  function WithChild(v: Value, step: Step, child: Value): (r: Value)
    requires Child(v, step).Some?
    ensures Child(r, step) == Some(child)
  {
    match step
    case Name(n) => Dict(v.entries[n := child])
    case Index(i) => List(v.items[i := child])
  }

  lemma {:induction false} WithChildTwice(v: Value, step: Step, a: Value)
    requires Child(v, step).Some?
    ensures WithChild(WithChild(v, step, a), step, Child(v, step).value) == v
  {
    match step
    case Name(n) => assert v.entries[n := a][n := v.entries[n]] == v.entries;
    case Index(i) => assert v.items[i := a][i := v.items[i]] == v.items;
  }

  /** Removing a key that an assignment has just added to an existing object restores the tree. */
  lemma {:induction false} RemoveUndoesAssign(current: Value, p: seq<Step>, value: Value)
    requires p != [] && PlainSteps(p) && p[|p| - 1].Name?
    requires At(current, p[..|p| - 1]).Some? && At(current, p[..|p| - 1]).value.Dict?
    requires At(current, p) == None
    ensures AssignNested(current, Tokens(p), value).1
    ensures RemoveNested(AssignNested(current, Tokens(p), value).0, Tokens(p)) == current
    decreases |p|
  {
    if |p| == 1 {
      TokensTail(p);
      TokenKind(p[0]);
      assert p[..0] == [];
      assert current.entries[p[0].name := value] - {p[0].name} == current.entries;
    } else {
      var q := p[1..];
      assert p[..|p| - 1][1..] == q[..|q| - 1];
      var child := Child(current, p[0]).value;
      ContainerNotNull(child, q[..|q| - 1]);
      RemoveUndoesAssign(child, q, value);
      AssignStep(current, p, value);
      var written := AssignNested(current, Tokens(p), value).0;
      RemoveStep(written, p);
      WithChildTwice(current, p[0], AssignNested(child, Tokens(q), value).0);
    }
  }

  lemma {:induction false} ContainerNotNull(v: Value, steps: seq<Step>)
    requires At(v, steps).Some? && At(v, steps).value.Dict?
    ensures v != Null
  {
  }
}
