/**
 * The parsed page, as the extractors see it once the HTML parser has run, and
 * the row filter every extractor is built from.
 */
module Scrape {

  /** The stripped texts of the `<td>` cells of one `<tr>`. */
  type Row = seq<string>

  /** The rows of one `<table>`, in document order. */
  type Table = seq<Row>

  /** Python's `xs[1:]`: everything but the first element (nothing when empty). */
  function DropFirst<T>(xs: seq<T>): (r: seq<T>)
    ensures |xs| > 0 ==> r == xs[1..]
    ensures |xs| == 0 ==> r == []
  {
    if |xs| == 0 then [] else xs[1..]
  }

  /** The cell at index `i`, or `""` past the end of the row. */
  function Cell(row: Row, i: nat): string {
    if i < |row| then row[i] else ""
  }

  /**
   * The loop shared by the extractors: walk `xs` in order, skip what fails
   * `keep`, append `f` of the rest.
   */
  function Collect<A, B>(xs: seq<A>, keep: A -> bool, f: A -> B): seq<B> {
    if |xs| == 0 then []
    else Collect(xs[..|xs| - 1], keep, f) + (if keep(xs[|xs| - 1]) then [f(xs[|xs| - 1])] else [])
  }

  /** One more element of the input: the output grows by `f` of it when it is kept. */
  lemma {:induction false} CollectStep<A, B>(xs: seq<A>, i: nat, keep: A -> bool, f: A -> B)
    requires i < |xs|
    ensures Collect(xs[..i + 1], keep, f) == Collect(xs[..i], keep, f) + (if keep(xs[i]) then [f(xs[i])] else [])
  {
    assert xs[..i + 1][..i] == xs[..i];
  }

  /** The positions of the kept elements, in increasing order. */
  function KeptIndices<A>(xs: seq<A>, keep: A -> bool): (ks: seq<nat>)
    ensures forall n :: 0 <= n < |ks| ==> ks[n] < |xs| && keep(xs[ks[n]])
    ensures forall n, m :: 0 <= n < m < |ks| ==> ks[n] < ks[m]
  {
    if |xs| == 0 then []
    else
      var ks := KeptIndices(xs[..|xs| - 1], keep);
      assert forall n :: 0 <= n < |ks| ==> xs[..|xs| - 1][ks[n]] == xs[ks[n]];
      ks + (if keep(xs[|xs| - 1]) then [|xs| - 1] else [])
  }

  /** Every kept position is listed. */
  lemma {:induction false} KeptIndicesComplete<A>(xs: seq<A>, keep: A -> bool, j: nat)
    requires j < |xs| && keep(xs[j])
    ensures j in KeptIndices(xs, keep)
  {
    if j < |xs| - 1 {
      var init := xs[..|xs| - 1];
      assert init[j] == xs[j];
      KeptIndicesComplete(init, keep, j);
    }
  }

  /**
   * What `Collect` produces: one element per kept position, in the order of
   * the positions, each `f` of the element found there.
   */
  lemma {:induction false} CollectIndexed<A, B>(xs: seq<A>, keep: A -> bool, f: A -> B)
    ensures |Collect(xs, keep, f)| == |KeptIndices(xs, keep)|
    ensures forall n :: 0 <= n < |KeptIndices(xs, keep)| ==>
              Collect(xs, keep, f)[n] == f(xs[KeptIndices(xs, keep)[n]])
  {
    if |xs| > 0 {
      var init := xs[..|xs| - 1];
      CollectIndexed(init, keep, f);
      var ks := KeptIndices(init, keep);
      assert forall n :: 0 <= n < |ks| ==> init[ks[n]] == xs[ks[n]];
    }
  }

  /** `CollectIndexed` for the elements from position `start` on, with positions counted in `xs`. */
  lemma {:induction false} CollectIndexedFrom<A, B>(xs: seq<A>, start: nat, keep: A -> bool, f: A -> B)
    requires start <= |xs|
    ensures var ks := KeptIndices(xs[start..], keep);
            |Collect(xs[start..], keep, f)| == |ks|
            && forall n :: 0 <= n < |ks| ==>
                 start + ks[n] < |xs| && keep(xs[start + ks[n]])
                 && Collect(xs[start..], keep, f)[n] == f(xs[start + ks[n]])
  {
    CollectIndexed(xs[start..], keep, f);
  }

  /** Filtering a concatenation filters each part: the output keeps the input's order. */
  lemma {:induction false} CollectAppend<A, B>(xs: seq<A>, ys: seq<A>, keep: A -> bool, f: A -> B)
    ensures Collect(xs + ys, keep, f) == Collect(xs, keep, f) + Collect(ys, keep, f)
    decreases |ys|
  {
    if |ys| == 0 {
      assert xs + ys == xs;
    } else {
      var init := ys[..|ys| - 1];
      assert (xs + ys)[..|xs + ys| - 1] == xs + init;
      CollectAppend(xs, init, keep, f);
    }
  }

  /** An output element comes from a kept input element, and every kept element yields one. */
  lemma {:induction false} CollectMember<A, B>(xs: seq<A>, keep: A -> bool, f: A -> B, y: B)
    ensures y in Collect(xs, keep, f) <==> exists j :: 0 <= j < |xs| && keep(xs[j]) && y == f(xs[j])
  {
    CollectIndexed(xs, keep, f);
    var ks := KeptIndices(xs, keep);
    var ys := Collect(xs, keep, f);
    if y in ys {
      var n :| 0 <= n < |ys| && ys[n] == y;
      assert keep(xs[ks[n]]) && y == f(xs[ks[n]]);
    }
    if j :| 0 <= j < |xs| && keep(xs[j]) && y == f(xs[j]) {
      KeptIndicesComplete(xs, keep, j);
      var n :| 0 <= n < |ks| && ks[n] == j;
      assert ys[n] == y;
    }
  }
}
