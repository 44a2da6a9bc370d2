/** Sequence helpers shared by the extraction model: an Option type, flattening
    of nested lists, and the "filter then transform" loop body that every
    paragraph tier of the fallback scraper repeats. */
module Seqs {

  datatype Option<T> = None | Some(value: T)

  /** Concatenation of a list of lists, in order (what a nested Python `for`
      visits). Defined on the last element so that a loop over a prefix
      extends it by one step. */
  function Flatten<T>(xss: seq<seq<T>>): (r: seq<T>)
    ensures forall x :: x in r ==> exists i :: 0 <= i < |xss| && x in xss[i]
  {
    if xss == [] then []
    else
      var init := Flatten(xss[..|xss| - 1]);
      init + xss[|xss| - 1]
  }

  lemma {:induction false} FlattenAppend<T>(a: seq<seq<T>>, b: seq<seq<T>>)
    ensures Flatten(a + b) == Flatten(a) + Flatten(b)
    decreases |b|
  {
    if b == [] {
      assert a + b == a;
    } else {
      var b' := b[..|b| - 1];
      assert (a + b)[..|a + b| - 1] == a + b';
      FlattenAppend(a, b');
    }
  }

  /** Extending the visited prefix of a nested list by one inner list
      appends that list. */
  lemma FlattenStep<T>(xss: seq<seq<T>>, i: nat)
    requires i < |xss|
    ensures Flatten(xss[..i + 1]) == Flatten(xss[..i]) + xss[i]
  {
    assert xss[..i + 1][..i] == xss[..i];
  }

  /** One step of a filtering loop: `pick(x)` is `Some(block)` when the loop
      body appends `block` for element `x`, `None` when it skips `x`. */
  function Collect<T>(xs: seq<T>, pick: T -> Option<string>): (r: seq<string>)
    ensures |r| <= |xs|
    ensures forall b :: b in r ==> exists x :: x in xs && pick(x) == Some(b)
    ensures r == [] <==> forall x :: x in xs ==> pick(x).None?
  {
    if xs == [] then []
    else
      var init := xs[..|xs| - 1];
      var last := xs[|xs| - 1];
      assert forall x :: x in init ==> x in xs;
      assert xs == init + [last];
      Collect(init, pick) + (match pick(last) case Some(b) => [b] case None => [])
  }

  /** Nothing the filter accepts is lost: every accepted element's block is
      in the result. */
  lemma {:induction false} CollectKeeps<T>(xs: seq<T>, i: nat, pick: T -> Option<string>)
    requires i < |xs| && pick(xs[i]).Some?
    ensures pick(xs[i]).value in Collect(xs, pick)
  {
    if i < |xs| - 1 {
      CollectKeeps(xs[..|xs| - 1], i, pick);
    }
  }

  lemma {:induction false} CollectAppend<T>(a: seq<T>, b: seq<T>, pick: T -> Option<string>)
    ensures Collect(a + b, pick) == Collect(a, pick) + Collect(b, pick)
    decreases |b|
  {
    if b == [] {
      assert a + b == a;
    } else {
      var b' := b[..|b| - 1];
      assert (a + b)[..|a + b| - 1] == a + b';
      assert b[..|b| - 1] == b';
      CollectAppend(a, b', pick);
    }
  }

  /** Extending the visited prefix by one element appends at most that
      element's block: the invariant step of every paragraph loop. */
  lemma CollectStep<T>(xs: seq<T>, k: nat, pick: T -> Option<string>)
    requires k < |xs|
    ensures Collect(xs[..k + 1], pick)
         == Collect(xs[..k], pick) + (match pick(xs[k]) case Some(b) => [b] case None => [])
  {
    assert xs[..k + 1][..k] == xs[..k];
  }
}
