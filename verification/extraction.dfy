/**
 * The field-extraction engine `SymbolTree.getInput`: given a node's ordered
 * inputs, a requested class or list of classes and an occurrence number, it
 * returns the occurrence-th hit, where hits are counted scanning the inputs left
 * to right and, within each input, the requested classes in order, so an input
 * that is an instance of several requested classes is counted once per class.
 */
module Extraction {
  import opened Wrappers
  import opened Symbols

  /** `s` is an instance of at least one of the requested classes. */
  predicate Matches(s: Symbol, kinds: seq<Class>) {
    exists c :: c in kinds && InstanceOf(s, c)
  }

  predicate AllConcrete(kinds: seq<Class>) {
    forall c :: c in kinds ==> Concrete(c)
  }

  /** How many times the inner loop over `kinds` counts a hit on `s`. */
  function MatchCount(s: Symbol, kinds: seq<Class>): (n: nat)
    ensures n > 0 <==> Matches(s, kinds)
    ensures n <= |kinds|
  {
    if kinds == [] then 0
    else
      var init := kinds[..|kinds| - 1];
      assert kinds == init + [kinds[|kinds| - 1]];
      MatchCount(s, init) + (if InstanceOf(s, kinds[|kinds| - 1]) then 1 else 0)
  }

  /**
   * The hits of the nested scan, in the order they are counted: the index of
   * every input, repeated once per requested class it is an instance of.
   */
  function Hits(inputs: seq<Symbol>, kinds: seq<Class>): (h: seq<nat>)
    ensures forall p :: 0 <= p < |h| ==> h[p] < |inputs| && Matches(inputs[h[p]], kinds)
    ensures forall p, q :: 0 <= p <= q < |h| ==> h[p] <= h[q]
  {
    if inputs == [] then []
    else
      var last := |inputs| - 1;
      Hits(inputs[..last], kinds) + seq(MatchCount(inputs[last], kinds), _ => last)
  }

  /**
   * What `getInput(kinds, occurrence)` returns: the input at the
   * occurrence-th hit, or `None` (the source's `null`) when there are fewer hits.
   */
  function Lookup(inputs: seq<Symbol>, kinds: seq<Class>, occurrence: int := 1): (r: Option<Symbol>)
    ensures AllConcrete(kinds) ==> Binds(r, inputs, kinds)
    ensures occurrence < 1 ==> r.None?
  {
    var h := Hits(inputs, kinds);
    if 1 <= occurrence <= |h| then
      MatchesConcrete(inputs[h[occurrence - 1]], kinds);
      Some(inputs[h[occurrence - 1]])
    else None
  }

  /** `role` is absent, or it is one of `inputs` whose class is among `kinds`. */
  predicate Binds(role: Option<Symbol>, inputs: seq<Symbol>, kinds: seq<Class>) {
    role.Some? ==> role.value in inputs && ClassOf(role.value) in kinds
  }

  /** Input `i` is the first input whose runtime class is among `kinds`. */
  predicate FirstOfKinds(inputs: seq<Symbol>, kinds: seq<Class>, i: int) {
    0 <= i < |inputs| && ClassOf(inputs[i]) in kinds &&
    forall j :: 0 <= j < i ==> ClassOf(inputs[j]) !in kinds
  }

  /**
   * `role` is what `getInput` binds at the default occurrence: absent exactly
   * when no input's class is among `kinds`, and otherwise the first such input.
   */
  predicate BindsFirst(role: Option<Symbol>, inputs: seq<Symbol>, kinds: seq<Class>) {
    (role.None? <==> forall i :: 0 <= i < |inputs| ==> ClassOf(inputs[i]) !in kinds) &&
    (role.Some? ==> exists i :: 0 <= i < |inputs| && FirstOfKinds(inputs, kinds, i) && role.value == inputs[i])
  }

  /**
   * The reference binding of a role: the first input whose runtime class is
   * among `kinds`, scanning from the front, or nothing.
   */
  function FirstOf(inputs: seq<Symbol>, kinds: seq<Class>): (r: Option<Symbol>)
    ensures r.Some? ==> r.value in inputs && ClassOf(r.value) in kinds
  {
    if inputs == [] then None
    else if ClassOf(inputs[0]) in kinds then Some(inputs[0])
    else FirstOf(inputs[1..], kinds)
  }

  /** `FirstOf` is absent iff no input has a requested class, and otherwise the first such input. */
  lemma {:induction false} FirstOfIsFirst(inputs: seq<Symbol>, kinds: seq<Class>)
    ensures BindsFirst(FirstOf(inputs, kinds), inputs, kinds)
  {
    if inputs != [] && ClassOf(inputs[0]) !in kinds {
      var tail := inputs[1..];
      FirstOfIsFirst(tail, kinds);
      assert forall i :: 0 < i < |inputs| ==> inputs[i] == tail[i - 1];
      if FirstOf(tail, kinds).Some? {
        var i :| 0 <= i < |tail| && FirstOfKinds(tail, kinds, i) && FirstOf(tail, kinds).value == tail[i];
        assert FirstOfKinds(inputs, kinds, i + 1);
      }
    } else if inputs != [] {
      assert FirstOfKinds(inputs, kinds, 0);
    }
  }

  /** With concrete classes requested, there are hits iff some input has a requested class, and the first hit is the first such input. */
  lemma HitsFirstOfKinds(inputs: seq<Symbol>, kinds: seq<Class>)
    requires AllConcrete(kinds)
    ensures |Hits(inputs, kinds)| == 0 <==> forall i :: 0 <= i < |inputs| ==> ClassOf(inputs[i]) !in kinds
    ensures |Hits(inputs, kinds)| > 0 ==> FirstOfKinds(inputs, kinds, Hits(inputs, kinds)[0])
  {
    var h := Hits(inputs, kinds);
    forall i | 0 <= i < |inputs| ensures Matches(inputs[i], kinds) <==> ClassOf(inputs[i]) in kinds {
      MatchesConcrete(inputs[i], kinds);
    }
    forall i | 0 <= i < |inputs| && ClassOf(inputs[i]) in kinds ensures |h| > 0 && h[0] <= i {
      HitsCount(inputs, kinds, i);
      assert i in multiset(h);
    }
  }

  /** At the default occurrence, a lookup of concrete classes is the reference binding `FirstOf`. */
  lemma LookupFirst(inputs: seq<Symbol>, kinds: seq<Class>)
    requires AllConcrete(kinds)
    ensures Lookup(inputs, kinds) == FirstOf(inputs, kinds)
  {
    HitsFirstOfKinds(inputs, kinds);
    FirstOfIsFirst(inputs, kinds);
    var r := FirstOf(inputs, kinds);
    if r.Some? {
      var i :| 0 <= i < |inputs| && FirstOfKinds(inputs, kinds, i) && r.value == inputs[i];
      assert Hits(inputs, kinds)[0] == i;
    }
  }

  /** With only concrete classes requested, matching is membership of the runtime class. */
  lemma MatchesConcrete(s: Symbol, kinds: seq<Class>)
    ensures AllConcrete(kinds) ==> (Matches(s, kinds) <==> ClassOf(s) in kinds)
  {
    if AllConcrete(kinds) {
      forall c | c in kinds ensures InstanceOf(s, c) <==> ClassOf(s) == c {
        InstanceOfConcrete(s, c);
      }
    }
  }

  /**
   * For any requested classes, concrete or abstract, a present result is one
   * of the inputs and an instance of a requested class.
   */
  lemma LookupMatches(inputs: seq<Symbol>, kinds: seq<Class>, occurrence: int)
    ensures var r := Lookup(inputs, kinds, occurrence);
      r.Some? ==> r.value in inputs && Matches(r.value, kinds)
  {
  }

  /** The first argument of `getInput`: one class, or an array of classes. */
  datatype Request = One(kind: Class) | Many(kinds: seq<Class>)

  /**
   * `getInput`: a single class is treated as the one-element list of it, then
   * the nested loop counts hits and returns the input at the occurrence-th.
   */
  method GetInput(inputs: seq<Symbol>, types: Request, occurrence: int := 1) returns (r: Option<Symbol>)
    ensures types.One? ==> r == Lookup(inputs, [types.kind], occurrence)
    ensures types.Many? ==> r == Lookup(inputs, types.kinds, occurrence)
  {
    var kinds := if types.One? then [types.kind] else types.kinds;
    var count := 0;
    for i := 0 to |inputs|
      invariant count == |Hits(inputs[..i], kinds)|
      invariant occurrence < 1 || count < occurrence
    {
      for j := 0 to |kinds|
        invariant count == |Hits(inputs[..i], kinds)| + MatchCount(inputs[i], kinds[..j])
        invariant occurrence < 1 || count < occurrence
      {
        MatchCountStep(inputs[i], kinds, j);
        if InstanceOf(inputs[i], kinds[j]) {
          count := count + 1;
          if count == occurrence {
            HitReturn(inputs, kinds, i, j, occurrence);
            return Some(inputs[i]);
          }
        }
      }
      assert kinds[..|kinds|] == kinds;
      HitsStep(inputs, kinds, i);
    }
    assert inputs[..|inputs|] == inputs;
    NoHitReturn(inputs, kinds, occurrence);
    return None;
  }

  lemma MatchCountStep(s: Symbol, kinds: seq<Class>, j: nat)
    requires j < |kinds|
    ensures MatchCount(s, kinds[..j + 1]) == MatchCount(s, kinds[..j]) + (if InstanceOf(s, kinds[j]) then 1 else 0)
  {
    assert kinds[..j + 1][..j] == kinds[..j];
  }

  lemma HitsStep(inputs: seq<Symbol>, kinds: seq<Class>, i: nat)
    requires i < |inputs|
    ensures Hits(inputs[..i + 1], kinds) == Hits(inputs[..i], kinds) + seq(MatchCount(inputs[i], kinds), _ => i)
  {
    assert inputs[..i + 1][..i] == inputs[..i];
  }

  /** The early return of `GetInput`: the hit just counted is the occurrence-th. */
  lemma HitReturn(inputs: seq<Symbol>, kinds: seq<Class>, i: nat, j: nat, occurrence: int)
    requires i < |inputs| && j < |kinds| && InstanceOf(inputs[i], kinds[j])
    requires occurrence == |Hits(inputs[..i], kinds)| + MatchCount(inputs[i], kinds[..j]) + 1
    ensures Lookup(inputs, kinds, occurrence) == Some(inputs[i])
  {
    HitAt(inputs, kinds, i, j);
  }

  /** The fall-through of `GetInput`: fewer hits than the occurrence asked for. */
  lemma NoHitReturn(inputs: seq<Symbol>, kinds: seq<Class>, occurrence: int)
    requires occurrence < 1 || |Hits(inputs, kinds)| < occurrence
    ensures Lookup(inputs, kinds, occurrence).None?
  {
  }

  /** The hit counted while scanning class `j` on input `i` lies at input `i`. */
  lemma HitAt(inputs: seq<Symbol>, kinds: seq<Class>, i: nat, j: nat)
    requires i < |inputs| && j < |kinds| && InstanceOf(inputs[i], kinds[j])
    ensures var n := |Hits(inputs[..i], kinds)| + MatchCount(inputs[i], kinds[..j]);
      n < |Hits(inputs, kinds)| && Hits(inputs, kinds)[n] == i
  {
    MatchCountStep(inputs[i], kinds, j);
    MatchCountPrefix(inputs[i], kinds, j + 1);
    assert kinds[..|kinds|] == kinds;
    HitsStep(inputs, kinds, i);
    HitsPrefix(inputs, kinds, i + 1);
  }

  lemma {:induction false} MatchCountPrefix(s: Symbol, kinds: seq<Class>, j: nat)
    requires j <= |kinds|
    ensures MatchCount(s, kinds[..j]) <= MatchCount(s, kinds)
    decreases |kinds|
  {
    if j < |kinds| {
      var init := kinds[..|kinds| - 1];
      assert init[..j] == kinds[..j];
      MatchCountPrefix(s, init, j);
    } else {
      assert kinds[..j] == kinds;
    }
  }

  /** The hits among the first `i` inputs are a prefix of all the hits. */
  lemma {:induction false} HitsPrefix(inputs: seq<Symbol>, kinds: seq<Class>, i: nat)
    requires i <= |inputs|
    ensures Hits(inputs[..i], kinds) <= Hits(inputs, kinds)
    decreases |inputs|
  {
    if i < |inputs| {
      var init := inputs[..|inputs| - 1];
      assert init[..i] == inputs[..i];
      HitsPrefix(init, kinds, i);
    } else {
      assert inputs[..i] == inputs;
    }
  }

  lemma {:induction false} RepeatCount(n: nat, x: nat, y: nat)
    ensures multiset(seq(n, _ => x))[y] == if x == y then n else 0
  {
    if n > 0 {
      assert seq(n, _ => x) == seq(n - 1, _ => x) + [x];
      RepeatCount(n - 1, x, y);
    }
  }

  /**
   * The counting rule: input `i` occurs among the hits exactly once per
   * requested class it is an instance of.
   */
  lemma {:induction false} HitsCount(inputs: seq<Symbol>, kinds: seq<Class>, i: nat)
    requires i < |inputs|
    ensures multiset(Hits(inputs, kinds))[i] == MatchCount(inputs[i], kinds)
    decreases |inputs|
  {
    var last := |inputs| - 1;
    var init := inputs[..last];
    var tail := seq(MatchCount(inputs[last], kinds), _ => last);
    assert Hits(inputs, kinds) == Hits(init, kinds) + tail;
    RepeatCount(MatchCount(inputs[last], kinds), last, i);
    if i == last {
      assert i !in Hits(init, kinds);
    } else {
      HitsCount(init, kinds, i);
    }
  }

  /** With occurrence 1, the result is the first input matching any requested class. */
  lemma FirstMatch(inputs: seq<Symbol>, kinds: seq<Class>, i: nat)
    requires i < |inputs| && Matches(inputs[i], kinds)
    requires forall j :: 0 <= j < i ==> !Matches(inputs[j], kinds)
    ensures Lookup(inputs, kinds) == Some(inputs[i])
  {
    var h := Hits(inputs, kinds);
    HitsCount(inputs, kinds, i);
    assert i in multiset(h);
    var p :| 0 <= p < |h| && h[p] == i;
    assert h[0] <= i;
  }

  /** The result is absent exactly when no input matches any requested class. */
  lemma NoMatch(inputs: seq<Symbol>, kinds: seq<Class>)
    ensures Lookup(inputs, kinds).None? <==> forall i :: 0 <= i < |inputs| ==> !Matches(inputs[i], kinds)
  {
    forall i | 0 <= i < |inputs| && Matches(inputs[i], kinds)
      ensures |Hits(inputs, kinds)| > 0
    {
      HitsCount(inputs, kinds, i);
    }
  }

  /** The index of the input `Lookup` returns with occurrence 1, when it returns one. */
  lemma FirstHit(inputs: seq<Symbol>, kinds: seq<Class>) returns (i: nat)
    requires Lookup(inputs, kinds).Some?
    ensures i < |inputs| && Lookup(inputs, kinds) == Some(inputs[i])
    ensures Matches(inputs[i], kinds)
    ensures forall j :: 0 <= j < i ==> !Matches(inputs[j], kinds)
  {
    var h := Hits(inputs, kinds);
    i := h[0];
    forall j | 0 <= j < i ensures !Matches(inputs[j], kinds) {
      HitsCount(inputs, kinds, j);
    }
  }

  /**
   * Occurrence indexing: with inputs [a, b, c, d] of which only b and d are
   * instances of the requested class, occurrences 1, 2 and 3 give b, d and absent.
   */
  lemma OccurrenceIndexing(a: Symbol, b: Symbol, c: Symbol, d: Symbol, k: Class)
    requires !InstanceOf(a, k) && InstanceOf(b, k) && !InstanceOf(c, k) && InstanceOf(d, k)
    ensures Lookup([a, b, c, d], [k], 1) == Some(b)
    ensures Lookup([a, b, c, d], [k], 2) == Some(d)
    ensures Lookup([a, b, c, d], [k], 3) == None
  {
    var s := [a, b, c, d];
    assert [k][..0] == [];
    assert s[..3] == [a, b, c] && [a, b, c][..2] == [a, b] && [a, b][..1] == [a] && [a][..0] == [];
    assert Hits([a], [k]) == [];
    assert Hits([a, b], [k]) == [1];
    assert Hits([a, b, c], [k]) == [1];
    assert Hits(s, [k]) == [1, 3];
  }
}
