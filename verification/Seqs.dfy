/**
 * Sequence helpers shared by the mapper and the payload builder: keeping the
 * present entries of an ordered candidate list, and joining strings.
 */
module Seqs {
  import opened Wrappers

  /** The values of the `Some` entries of `xs`, in their original order. */
  function Present<T>(xs: seq<Option<T>>): (r: seq<T>)
    ensures |r| <= |xs|
  {
    if |xs| == 0 then []
    else Present(xs[..|xs| - 1]) + (if xs[|xs| - 1].Some? then [xs[|xs| - 1].value] else [])
  }

  /** The positions of the `Some` entries of `xs`, ascending. */
  function PresentIndices<T>(xs: seq<Option<T>>): seq<nat>
  {
    if |xs| == 0 then []
    else PresentIndices(xs[..|xs| - 1]) + (if xs[|xs| - 1].Some? then [|xs| - 1] else [])
  }

  /** Number of `Some` entries of `xs`. */
  function CountPresent<T>(xs: seq<Option<T>>): nat
  {
    if |xs| == 0 then 0
    else CountPresent(xs[..|xs| - 1]) + (if xs[|xs| - 1].Some? then 1 else 0)
  }

  /**
   * `Present` keeps order and drops nothing: the k-th result is the value of
   * the k-th present entry, the positions it comes from strictly increase, and
   * every present entry is among them.
   */
  lemma {:induction false} PresentOrder<T>(xs: seq<Option<T>>)
    ensures |PresentIndices(xs)| == |Present(xs)| == CountPresent(xs)
    ensures forall k :: 0 <= k < |PresentIndices(xs)| ==>
      PresentIndices(xs)[k] < |xs| && xs[PresentIndices(xs)[k]] == Some(Present(xs)[k])
    ensures forall k, l :: 0 <= k < l < |PresentIndices(xs)| ==>
      PresentIndices(xs)[k] < PresentIndices(xs)[l]
    ensures forall i :: 0 <= i < |xs| && xs[i].Some? ==> i in PresentIndices(xs)
  {
    if |xs| > 0 {
      var init := xs[..|xs| - 1];
      PresentOrder(init);
      assert forall i :: 0 <= i < |init| ==> init[i] == xs[i];
    }
  }

  /** The value of `o` as a zero- or one-element sequence. */
  function Opt<T>(o: Option<T>): seq<T>
  {
    if o.Some? then [o.value] else []
  }

  lemma PresentSnoc<T>(xs: seq<Option<T>>, x: Option<T>)
    ensures Present(xs + [x]) == Present(xs) + Opt(x)
  {
    assert (xs + [x])[..|xs|] == xs;
  }

  /** `Present` of a four-slot list, slot by slot. */
  lemma PresentFour<T>(a: Option<T>, b: Option<T>, c: Option<T>, d: Option<T>)
    ensures Present([a, b, c, d]) == Opt(a) + Opt(b) + Opt(c) + Opt(d)
  {
    assert [a] == [] + [a];
    PresentSnoc([], a);
    assert [a, b] == [a] + [b];
    PresentSnoc([a], b);
    assert [a, b, c] == [a, b] + [c];
    PresentSnoc([a, b], c);
    assert [a, b, c, d] == [a, b, c] + [d];
    PresentSnoc([a, b, c], d);
  }

  /** `Present` of a seven-slot list, slot by slot. */
  lemma PresentSeven<T>(a: Option<T>, b: Option<T>, c: Option<T>, d: Option<T>, e: Option<T>, f: Option<T>, g: Option<T>)
    ensures Present([a, b, c, d, e, f, g]) == Opt(a) + Opt(b) + Opt(c) + Opt(d) + Opt(e) + Opt(f) + Opt(g)
  {
    PresentFour(a, b, c, d);
    assert [a, b, c, d, e] == [a, b, c, d] + [e];
    PresentSnoc([a, b, c, d], e);
    assert [a, b, c, d, e, f] == [a, b, c, d, e] + [f];
    PresentSnoc([a, b, c, d, e], f);
    assert [a, b, c, d, e, f, g] == [a, b, c, d, e, f] + [g];
    PresentSnoc([a, b, c, d, e, f], g);
  }

  /** `Present` distributes over concatenation. */
  lemma {:induction false} PresentAppend<T>(a: seq<Option<T>>, b: seq<Option<T>>)
    ensures Present(a + b) == Present(a) + Present(b)
    decreases |b|
  {
    if |b| == 0 {
      assert a + b == a;
    } else {
      var b' := b[..|b| - 1];
      assert (a + b)[..|a + b| - 1] == a + b';
      PresentAppend(a, b');
    }
  }

  /** `Array.prototype.join`: the strings of `xs` with `sep` between neighbours. */
  function Join(xs: seq<string>, sep: string): (r: string)
    ensures |xs| == 0 ==> r == ""
    ensures |xs| > 0 ==> xs[0] <= r && |xs[|xs| - 1]| <= |r| && r[|r| - |xs[|xs| - 1]|..] == xs[|xs| - 1]
  {
    if |xs| == 0 then ""
    else if |xs| == 1 then xs[0]
    else Join(xs[..|xs| - 1], sep) + sep + xs[|xs| - 1]
  }

  /** Appending one string to a non-empty list appends the separator and that string. */
  lemma JoinSnoc(xs: seq<string>, x: string, sep: string)
    requires |xs| > 0
    ensures Join(xs + [x], sep) == Join(xs, sep) + sep + x
  {
    assert (xs + [x])[..|xs + [x]| - 1] == xs;
  }
}
