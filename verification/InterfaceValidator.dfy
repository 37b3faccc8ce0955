/** The check that a joint has exactly the expected command or state interfaces. */
module InterfaceValidator {

  /** Acceptance, or the reason of the first rejection. */
  datatype Verdict = Accepted | WrongCount | Unsupported(at: nat) | Duplicate(at: nat) | Required(name: string)

  predicate Distinct(names: seq<string>) {
    forall i, j | 0 <= i < j < |names| :: names[i] != names[j]
  }

  predicate AllIn(names: seq<string>, others: seq<string>) {
    forall name | name in names :: name in others
  }

  lemma {:induction false} DistinctOccursOnce(names: seq<string>, name: string)
    requires Distinct(names)
    ensures multiset(names)[name] == if name in names then 1 else 0
    decreases |names|
  {
    if names != [] {
      var front, last := names[..|names| - 1], names[|names| - 1];
      DistinctOccursOnce(front, name);
      assert names == front + [last];
      assert last !in front;
    }
  }

  lemma OccursOnceIsDistinct(names: seq<string>)
    requires forall name | name in names :: multiset(names)[name] == 1
    ensures Distinct(names)
  {
    forall i, j | 0 <= i < j < |names|
      ensures names[i] != names[j]
    {
      assert names == names[..j] + [names[j]] + names[j + 1..];
      assert names[j] in names;
      assert names[i] in multiset(names[..j]) by {
        assert names[..j][i] == names[i];
      }
      assert multiset(names)[names[j]] >= multiset(names[..j])[names[j]] + 1;
    }
  }

  /** Pigeonhole: as many distinct names as expected ones, all of them expected, are a permutation of the
      expected names, which are then distinct too. */
  lemma Pigeonhole(names: seq<string>, expected: seq<string>)
    requires |names| == |expected| && Distinct(names) && AllIn(names, expected)
    ensures multiset(names) == multiset(expected) && Distinct(expected)
  {
    var a, b := multiset(names), multiset(expected);
    forall name: string
      ensures a[name] <= b[name]
    {
      DistinctOccursOnce(names, name);
      if name in names {
        assert name in b;
      }
    }
    assert a <= b;
    assert b == a + (b - a) && |b| == |a| + |b - a|;
    forall name | name in expected
      ensures b[name] == 1
    {
      assert name in b;
      DistinctOccursOnce(names, name);
    }
    OccursOnceIsDistinct(expected);
  }

  /** A permutation of distinct names is distinct, and all its names are expected. */
  lemma PermutationIsDistinct(names: seq<string>, expected: seq<string>)
    requires multiset(names) == multiset(expected) && Distinct(expected)
    ensures |names| == |expected| && Distinct(names) && AllIn(names, expected)
  {
    assert |multiset(names)| == |multiset(expected)|;
    forall name | name in names
      ensures name in expected
    {
      assert name in multiset(expected);
    }
    forall name | name in expected
      ensures name in names
    {
      assert name in multiset(names);
    }
    Pigeonhole(expected, names);
  }

  /** The names are accepted exactly when they are a permutation of a list of distinct expected names. The last
      loop, which looks for a required name that is missing, never rejects. */
  method ValidateInterfaces(names: seq<string>, expected: seq<string>) returns (verdict: Verdict)
    ensures verdict == Accepted <==> multiset(names) == multiset(expected) && Distinct(expected)
    ensures !verdict.Required?
    ensures verdict == WrongCount <==> |names| != |expected|
    ensures verdict.Unsupported? || verdict.Duplicate? ==>
              verdict.at < |names| && Distinct(names[..verdict.at]) && AllIn(names[..verdict.at], expected)
    ensures verdict.Unsupported? ==> names[verdict.at] !in expected
    ensures verdict.Duplicate? ==> names[verdict.at] in names[..verdict.at] && names[verdict.at] in expected
  {
    if multiset(names) == multiset(expected) && Distinct(expected) {
      PermutationIsDistinct(names, expected);
    }
    if |names| != |expected| {
      return WrongCount;
    }
    var seen: set<string> := {};
    for i := 0 to |names|
      invariant forall name :: name in seen <==> name in names[..i]
      invariant Distinct(names[..i]) && AllIn(names[..i], expected)
    {
      assert names[..i + 1] == names[..i] + [names[i]];
      assert names[i] in names;
      if names[i] !in expected {
        return Unsupported(i);
      }
      if names[i] in seen {
        assert !Distinct(names) by {
          var k :| 0 <= k < i && names[..i][k] == names[i];
          assert names[k] == names[i];
        }
        return Duplicate(i);
      }
      seen := seen + {names[i]};
    }
    assert names[..|names|] == names;
    Pigeonhole(names, expected);
    for i := 0 to |expected|
    {
      var name := expected[i];
      assert name in multiset(expected);
      if name !in seen {
        return Required(name);
      }
    }
    verdict := Accepted;
  }
}
