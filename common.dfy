/** Small value types and sequence helpers shared by the three scripts. */
module Common {

  datatype Option<T> = None | Some(value: T)

  /** The outcome of an operation that the Python code can abort with an exception. */
  datatype Result<T, E> = Success(value: T) | Failure(error: E)

  predicate Distinct<T(==)>(xs: seq<T>)
  {
    forall i, j :: 0 <= i < j < |xs| ==> xs[i] != xs[j]
  }

  /** Index of the first occurrence of `x` in `xs`. */
  function FirstIndex<T(==)>(xs: seq<T>, x: T): (i: nat)
    requires x in xs
    ensures i < |xs| && xs[i] == x
    ensures forall j :: 0 <= j < i ==> xs[j] != x
  {
    if xs[0] == x then 0 else 1 + FirstIndex(xs[1..], x)
  }

  /**
   * The distinct elements of `xs` in order of first occurrence, as a Python
   * dict keyed by them would list its keys. Defined from the back so that
   * "one more element" unfolds directly.
   */
  function Dedup<T(==)>(xs: seq<T>): (r: seq<T>)
    ensures Distinct(r)
    ensures forall i :: 0 <= i < |r| ==> r[i] in xs
    ensures forall i :: 0 <= i < |xs| ==> xs[i] in r
    ensures |r| <= |xs|
  {
    if xs == [] then []
    else
      var p := Dedup(xs[..|xs| - 1]);
      if xs[|xs| - 1] in p then p else p + [xs[|xs| - 1]]
  }

  lemma DedupSnoc<T>(xs: seq<T>, x: T)
    ensures Dedup(xs + [x]) == if x in xs then Dedup(xs) else Dedup(xs) + [x]
  {
    assert (xs + [x])[..|xs|] == xs;
  }

  lemma DedupMember<T>(xs: seq<T>, x: T)
    ensures x in Dedup(xs) <==> x in xs
  {
    if x in xs {
      var i :| 0 <= i < |xs| && xs[i] == x;
    }
    if x in Dedup(xs) {
      var i :| 0 <= i < |Dedup(xs)| && Dedup(xs)[i] == x;
    }
  }

  lemma FirstIndexSnoc<T>(xs: seq<T>, x: T, y: T)
    requires y in xs
    ensures FirstIndex(xs + [x], y) == FirstIndex(xs, y)
  {
    var i := FirstIndex(xs, y);
    var k := FirstIndex(xs + [x], y);
    assert (xs + [x])[i] == y;
  }

  /** Dedup lists elements in the order in which they first occur in the input. */
  lemma {:induction false} DedupFirstOccurrenceOrder<T>(xs: seq<T>, i: nat, j: nat)
    requires i < j < |Dedup(xs)|
    ensures FirstIndex(xs, Dedup(xs)[i]) < FirstIndex(xs, Dedup(xs)[j])
  {
    var n := |xs| - 1;
    var init, x := xs[..n], xs[n];
    assert xs == init + [x];
    DedupSnoc(init, x);
    var p := Dedup(init);
    var a, b := Dedup(xs)[i], Dedup(xs)[j];
    if j < |p| {
      assert a == p[i] && b == p[j];
      DedupFirstOccurrenceOrder(init, i, j);
      DedupMember(init, a);
      DedupMember(init, b);
      FirstIndexSnoc(init, x, a);
      FirstIndexSnoc(init, x, b);
    } else {
      // b is the element appended last: it does not occur in init
      assert a == p[i] && b == x && x !in init;
      DedupMember(init, a);
      FirstIndexSnoc(init, x, a);
      assert FirstIndex(init, a) < n;
    }
  }

  /** Concatenation of a sequence of sequences. */
  function Flatten<T>(xss: seq<seq<T>>): (r: seq<T>)
  {
    if xss == [] then [] else xss[0] + Flatten(xss[1..])
  }

  lemma FlattenSnoc<T>(xss: seq<seq<T>>, xs: seq<T>)
    ensures Flatten(xss + [xs]) == Flatten(xss) + xs
  {
    if xss != [] {
      assert (xss + [xs])[1..] == xss[1..] + [xs];
      FlattenSnoc(xss[1..], xs);
    }
  }

  /** Python's `sep.join(parts)`. */
  function Join(sep: string, parts: seq<string>): (r: string)
  {
    if |parts| == 0 then ""
    else if |parts| == 1 then parts[0]
    else parts[0] + sep + Join(sep, parts[1..])
  }

  lemma JoinSnoc(sep: string, parts: seq<string>, p: string)
    ensures Join(sep, parts + [p]) == if parts == [] then p else Join(sep, parts) + sep + p
  {
    if |parts| >= 2 {
      assert (parts + [p])[1..] == parts[1..] + [p];
      JoinSnoc(sep, parts[1..], p);
    } else if |parts| == 1 {
      assert (parts + [p])[1..] == [p];
    }
  }
}
