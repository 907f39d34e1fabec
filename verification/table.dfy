/**
 * The loaded data: an N x 3 numpy matrix whose rows are (temperature, growth rate,
 * bacteria code), all three stored as floats. Boolean-mask indexing `data[mask]` is `Where`.
 */
module Table {

  datatype Row = Row(temperature: real, growthRate: real, bacteriaCode: real)

  /** `data[mask]` with `mask[i] == keep(data[i])`: the rows that pass, in their original order. */
  function Where(data: seq<Row>, keep: Row -> bool): (r: seq<Row>)
    ensures |r| <= |data|
    ensures forall x :: x in r <==> x in data && keep(x)
  {
    if data == [] then []
    else (if keep(data[0]) then [data[0]] else []) + Where(data[1..], keep)
  }

  /** Every occurrence of a passing row is kept, so duplicate rows stay duplicated. */
  lemma {:induction false} WhereKeepsOccurrences(data: seq<Row>, keep: Row -> bool)
    ensures forall x :: multiset(Where(data, keep))[x] == if keep(x) then multiset(data)[x] else 0
  {
    if data != [] {
      WhereKeepsOccurrences(data[1..], keep);
      assert data == [data[0]] + data[1..];
    }
  }

  /** `xs` is obtained from `ys` by deleting elements, without reordering the rest. */
  predicate IsSubsequence(xs: seq<Row>, ys: seq<Row>)
    decreases |ys|
  {
    || xs == []
    || (ys != [] && ((xs[0] == ys[0] && IsSubsequence(xs[1..], ys[1..])) || IsSubsequence(xs, ys[1..])))
  }

  lemma {:induction false} WhereIsSubsequence(data: seq<Row>, keep: Row -> bool)
    ensures IsSubsequence(Where(data, keep), data)
  {
    if data != [] {
      WhereIsSubsequence(data[1..], keep);
      var r := Where(data, keep);
      if keep(data[0]) {
        assert r[0] == data[0] && r[1..] == Where(data[1..], keep);
      } else {
        assert r == Where(data[1..], keep);
      }
    }
  }

  /** A mask that is true everywhere selects everything. */
  lemma {:induction false} WhereAll(data: seq<Row>, keep: Row -> bool)
    requires forall i | 0 <= i < |data| :: keep(data[i])
    ensures Where(data, keep) == data
  {
    if data != [] {
      assert keep(data[0]);
      WhereAll(data[1..], keep);
      assert [data[0]] + data[1..] == data;
    }
  }

  /** Masking twice is masking once by the conjunction of the two masks. */
  lemma {:induction false} WhereWhere(data: seq<Row>, first: Row -> bool, second: Row -> bool, both: Row -> bool)
    requires forall x :: both(x) == (first(x) && second(x))
    ensures Where(Where(data, first), second) == Where(data, both)
  {
    if data != [] {
      WhereWhere(data[1..], first, second, both);
      var head := if first(data[0]) then [data[0]] else [];
      var rest := Where(data[1..], first);
      assert Where(data, first) == head + rest;
      if first(data[0]) {
        assert (head + rest)[1..] == rest;
      } else {
        assert head + rest == rest;
      }
    }
  }

  /** Two masks that agree on every row select the same rows. */
  lemma {:induction false} WhereSame(data: seq<Row>, keep: Row -> bool, keep': Row -> bool)
    requires forall i | 0 <= i < |data| :: keep(data[i]) == keep'(data[i])
    ensures Where(data, keep) == Where(data, keep')
  {
    if data != [] {
      assert keep(data[0]) == keep'(data[0]);
      WhereSame(data[1..], keep, keep');
    }
  }

  /** Column 0, `data[:, 0]`. */
  function Temperatures(data: seq<Row>): seq<real> {
    seq(|data|, i requires 0 <= i < |data| => data[i].temperature)
  }

  /** Column 1, `data[:, 1]`. */
  function GrowthRates(data: seq<Row>): seq<real> {
    seq(|data|, i requires 0 <= i < |data| => data[i].growthRate)
  }
}
