/**
 * The shape shared by the script's nested loops: walk a list in order, let
 * each element (with its position and some fixed context) contribute a
 * sequence of effects, and concatenate the contributions.
 */
module Seqs {

  /** The concatenation of `f(ctx, first + i, xs[i])` over the positions `i` of `xs`. */
  function ConcatMap<C, A, B>(f: (C, nat, A) -> seq<B>, ctx: C, xs: seq<A>, first: nat): seq<B> {
    if xs == [] then []
    else ConcatMap(f, ctx, xs[..|xs| - 1], first) + f(ctx, first + |xs| - 1, xs[|xs| - 1])
  }

  lemma ConcatAssoc<T>(a: seq<T>, b: seq<T>, c: seq<T>)
    ensures a + b + c == a + (b + c)
  {
  }

  /** One more element contributes at the end. */
  lemma ConcatMapStep<C, A, B>(f: (C, nat, A) -> seq<B>, ctx: C, xs: seq<A>, first: nat, j: nat)
    requires j < |xs|
    ensures ConcatMap(f, ctx, xs[..j + 1], first) == ConcatMap(f, ctx, xs[..j], first) + f(ctx, first + j, xs[j])
  {
    assert xs[..j + 1][..j] == xs[..j];
  }

  /** An effect is produced exactly when some element contributes it. */
  lemma {:induction false} ConcatMapMembers<C, A, B>(f: (C, nat, A) -> seq<B>, ctx: C, xs: seq<A>, first: nat, y: B)
    ensures y in ConcatMap(f, ctx, xs, first) <==> exists i :: 0 <= i < |xs| && y in f(ctx, first + i, xs[i])
  {
    if xs != [] {
      var p := xs[..|xs| - 1];
      ConcatMapMembers(f, ctx, p, first, y);
      if y in ConcatMap(f, ctx, p, first) {
        var i :| 0 <= i < |p| && y in f(ctx, first + i, p[i]);
        assert xs[i] == p[i];
      }
    }
  }

  /** Consecutive runs of elements contribute consecutively, positions counting on. */
  lemma {:induction false} ConcatMapAppend<C, A, B>(f: (C, nat, A) -> seq<B>, ctx: C, a: seq<A>, b: seq<A>, first: nat)
    ensures ConcatMap(f, ctx, a + b, first) == ConcatMap(f, ctx, a, first) + ConcatMap(f, ctx, b, first + |a|)
  {
    if b == [] {
      assert a + b == a;
    } else {
      var p := b[..|b| - 1];
      ConcatMapAppend(f, ctx, a, p, first);
      assert (a + b)[..|a + b| - 1] == a + p;
      ConcatAssoc(ConcatMap(f, ctx, a, first), ConcatMap(f, ctx, p, first + |a|),
                  f(ctx, first + |a| + |b| - 1, b[|b| - 1]));
    }
  }
}
