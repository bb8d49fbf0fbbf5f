/**
 * The list of status effect names kept in the module's settings
 * (active-effect-manager-lib/scripts/api.js): adding a name de-duplicates the
 * list, removing one filters it out, resetting restores the (empty) defaults
 * and the membership test reads the stored list.
 */
module StatusEffects {

  predicate NoDuplicates(xs: seq<string>) {
    forall i, j :: 0 <= i < j < |xs| ==> xs[i] != xs[j]
  }

  /** `[...new Set(xs)]`: the first occurrence of every name, in order. */
  function Dedup(xs: seq<string>): (r: seq<string>)
    ensures NoDuplicates(r)
    ensures forall x :: x in r <==> x in xs
    ensures |r| <= |xs|
  {
    if xs == [] then []
    else
      var init := xs[..|xs| - 1];
      var last := xs[|xs| - 1];
      assert xs == init + [last];
      var d := Dedup(init);
      if last in d then d else d + [last]
  }

  /** A list already free of duplicates is left as it is. */
  lemma {:induction false} DedupIdentity(xs: seq<string>)
    requires NoDuplicates(xs)
    ensures Dedup(xs) == xs
    decreases |xs|
  {
    if xs != [] {
      var init := xs[..|xs| - 1];
      assert NoDuplicates(init);
      DedupIdentity(init);
      assert xs[|xs| - 1] !in init;
      assert init + [xs[|xs| - 1]] == xs;
    }
  }

  /** Adding a name to a duplicate-free list appends it, unless it is already there. */
  lemma DedupAppend(xs: seq<string>, name: string)
    requires NoDuplicates(xs)
    ensures Dedup(xs + [name]) == if name in xs then xs else xs + [name]
  {
    assert (xs + [name])[..|xs|] == xs;
    DedupIdentity(xs);
  }

  const DEFAULT_STATUS_EFFECT_NAMES: seq<string> := []

  /** `statusEffectNames` without `name`, in order. */
  function WithoutName(xs: seq<string>, name: string): (r: seq<string>)
    ensures forall x :: x in r <==> x in xs && x != name
    ensures |r| <= |xs|
  {
    if xs == [] then []
    else
      var init := xs[..|xs| - 1];
      assert xs == init + [xs[|xs| - 1]];
      var w := WithoutName(init, name);
      if xs[|xs| - 1] != name then w + [xs[|xs| - 1]] else w
  }

  /** Removing a name that is not stored changes nothing. */
  lemma {:induction false} WithoutAbsentName(xs: seq<string>, name: string)
    requires name !in xs
    ensures WithoutName(xs, name) == xs
    decreases |xs|
  {
    if xs != [] {
      var init := xs[..|xs| - 1];
      assert xs == init + [xs[|xs| - 1]];
      WithoutAbsentName(init, name);
    }
  }

  /** The filter works name by name, so it distributes over concatenation: order is kept. */
  lemma {:induction false} WithoutNameConcat(a: seq<string>, b: seq<string>, name: string)
    ensures WithoutName(a + b, name) == WithoutName(a, name) + WithoutName(b, name)
    decreases |b|
  {
    if b == [] {
      assert a + b == a;
    } else {
      var n := |b| - 1;
      assert (a + b)[..|a + b| - 1] == a + b[..n];
      assert (a + b)[|a + b| - 1] == b[n];
      WithoutNameConcat(a, b[..n], name);
      var wa, wb := WithoutName(a, name), WithoutName(b[..n], name);
      assert wa + wb + [b[n]] == wa + (wb + [b[n]]);
    }
  }

  /** Removing keeps a duplicate-free list duplicate-free. */
  lemma {:induction false} WithoutNameNoDuplicates(xs: seq<string>, name: string)
    requires NoDuplicates(xs)
    ensures NoDuplicates(WithoutName(xs, name))
    decreases |xs|
  {
    if xs != [] {
      var init := xs[..|xs| - 1];
      assert xs == init + [xs[|xs| - 1]];
      assert NoDuplicates(init);
      WithoutNameNoDuplicates(init, name);
      assert xs[|xs| - 1] !in init by {
        assert forall i :: 0 <= i < |init| ==> init[i] == xs[i];
      }
    }
  }

  /** The stored `statusEffectNames` setting. */
  class StatusEffectSettings {
    var names: seq<string>

    constructor (names: seq<string>)
      ensures this.names == names
    {
      this.names := names;
    }

    /** `isStatusEffect`. */
    predicate IsStatusEffect(name: string)
      reads this
    {
      name in names
    }

    /** `addStatusEffect`: push the name, then keep the first occurrence of each name. */
    method AddStatusEffect(name: string)
      modifies this
      ensures names == Dedup(old(names) + [name])
      ensures IsStatusEffect(name)
      ensures NoDuplicates(names)
      ensures forall n :: IsStatusEffect(n) <==> n == name || old(IsStatusEffect(n))
    {
      var statusEffectsArray := names + [name];
      names := Dedup(statusEffectsArray);
    }

    /** `removeStatusEffect`: keep every other name. */
    method RemoveStatusEffect(name: string)
      modifies this
      ensures names == WithoutName(old(names), name)
      ensures !IsStatusEffect(name)
      ensures forall n :: n != name ==> (IsStatusEffect(n) <==> old(IsStatusEffect(n)))
    {
      names := WithoutName(names, name);
    }

    /** `resetStatusEffects`: store the default names. */
    method ResetStatusEffects()
      modifies this
      ensures names == DEFAULT_STATUS_EFFECT_NAMES
      ensures forall n :: !IsStatusEffect(n)
    {
      names := DEFAULT_STATUS_EFFECT_NAMES;
    }
  }
}
