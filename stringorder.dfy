/**
 * Python's ordering of `str` values: lexicographic by code point, a proper
 * prefix before any of its extensions. Used for `sorted`, `min` and `max`
 * over strings.
 */
module StringOrder {

  /** `a < b` on Python strings. */
  predicate Less(a: string, b: string)
    decreases |a|
  {
    b != [] && (a == [] || a[0] < b[0] || (a[0] == b[0] && Less(a[1..], b[1..])))
  }

  lemma {:induction false} LessIrreflexive(a: string)
    ensures !Less(a, a)
    decreases |a|
  {
    if a != [] {
      LessIrreflexive(a[1..]);
    }
  }

  lemma {:induction false} LessTransitive(a: string, b: string, c: string)
    requires Less(a, b) && Less(b, c)
    ensures Less(a, c)
    decreases |a|
  {
    if a != [] && a[0] == b[0] && b[0] == c[0] {
      LessTransitive(a[1..], b[1..], c[1..]);
    }
  }

  /** Any two strings are equal or ordered one way round. */
  lemma {:induction false} LessTotal(a: string, b: string)
    ensures a == b || Less(a, b) || Less(b, a)
    decreases |a|
  {
    if a != [] && b != [] && a[0] == b[0] {
      LessTotal(a[1..], b[1..]);
      if a[1..] == b[1..] {
        assert a == [a[0]] + a[1..] && b == [b[0]] + b[1..];
      }
    }
  }

  predicate StrictlySorted(s: seq<string>)
  {
    forall i, j :: 0 <= i < j < |s| ==> Less(s[i], s[j])
  }

  /** Adds `x` to a strictly sorted list of distinct strings, keeping it so. */
  function InsertSorted(s: seq<string>, x: string): (r: seq<string>)
  {
    if s == [] then [x]
    else if x == s[0] then s
    else if Less(x, s[0]) then [x] + s
    else [s[0]] + InsertSorted(s[1..], x)
  }

  lemma {:induction false} InsertSortedMembers(s: seq<string>, x: string)
    ensures forall y :: y in InsertSorted(s, x) <==> y in s || y == x
  {
    if s != [] && x != s[0] && !Less(x, s[0]) {
      InsertSortedMembers(s[1..], x);
      assert s == [s[0]] + s[1..];
    }
  }

  lemma {:induction false} InsertSortedSorted(s: seq<string>, x: string)
    requires StrictlySorted(s)
    ensures StrictlySorted(InsertSorted(s, x))
  {
    if s == [] || x == s[0] {
    } else if Less(x, s[0]) {
      var r := [x] + s;
      forall j | 0 < j < |r| ensures Less(r[0], r[j]) {
        if j > 1 {
          LessTransitive(x, s[0], s[j - 1]);
        }
      }
    } else {
      LessTotal(x, s[0]);
      var t := InsertSorted(s[1..], x);
      InsertSortedSorted(s[1..], x);
      InsertSortedMembers(s[1..], x);
      forall j | 0 <= j < |t| ensures Less(s[0], t[j]) {
        assert t[j] in s[1..] || t[j] == x;
      }
    }
  }

  /** `sorted(set(xs))`. */
  function SortedSet(xs: seq<string>): (r: seq<string>)
  {
    if xs == [] then [] else InsertSorted(SortedSet(xs[..|xs| - 1]), xs[|xs| - 1])
  }

  /** `sorted(set(xs))` is strictly sorted and holds exactly the strings of `xs`. */
  lemma {:induction false} SortedSetSpec(xs: seq<string>)
    ensures StrictlySorted(SortedSet(xs))
    ensures forall y :: y in SortedSet(xs) <==> y in xs
  {
    if xs != [] {
      var init, x := xs[..|xs| - 1], xs[|xs| - 1];
      SortedSetSpec(init);
      InsertSortedSorted(SortedSet(init), x);
      InsertSortedMembers(SortedSet(init), x);
      assert xs == init + [x];
    }
  }

  /** A strictly sorted list is determined by its elements. */
  lemma {:induction false} StrictlySortedUnique(a: seq<string>, b: seq<string>)
    requires StrictlySorted(a) && StrictlySorted(b)
    requires forall y :: y in a <==> y in b
    ensures a == b
  {
    assert a != [] ==> a[0] in b;
    assert b != [] ==> b[0] in a;
    if a != [] {
      HeadsEqual(a, b);
      forall y ensures y in a[1..] <==> y in b[1..] {
        SortedTailMember(a, y);
        SortedTailMember(b, y);
      }
      StrictlySortedUnique(a[1..], b[1..]);
      assert a == [a[0]] + a[1..] && b == [b[0]] + b[1..];
    }
  }

  lemma HeadIsLeast(s: seq<string>, y: string)
    requires StrictlySorted(s) && y in s
    ensures y == s[0] || Less(s[0], y)
  {
    var k :| 0 <= k < |s| && s[k] == y;
    assert k == 0 || Less(s[0], s[k]);
  }

  lemma HeadsEqual(a: seq<string>, b: seq<string>)
    requires StrictlySorted(a) && StrictlySorted(b) && a != [] && b != []
    requires a[0] in b && b[0] in a
    ensures a[0] == b[0]
  {
    HeadIsLeast(a, b[0]);
    HeadIsLeast(b, a[0]);
    if a[0] != b[0] {
      LessTransitive(a[0], b[0], a[0]);
      LessIrreflexive(a[0]);
    }
  }

  lemma SortedTailMember(s: seq<string>, y: string)
    requires StrictlySorted(s) && s != []
    ensures y in s[1..] <==> y in s && y != s[0]
  {
    if y in s[1..] {
      var k :| 1 <= k < |s| && s[k] == y;
      LessIrreflexive(s[0]);
      assert Less(s[0], s[k]);
    }
    if y in s && y != s[0] {
      var k :| 0 <= k < |s| && s[k] == y;
      assert s[1..][k - 1] == y;
    }
  }

  /** `min(xs)`: keeps the earlier of two equal candidates. */
  function Min(xs: seq<string>): (m: string)
    requires xs != []
    ensures m in xs
  {
    if |xs| == 1 then xs[0]
    else
      var m := Min(xs[..|xs| - 1]);
      if Less(xs[|xs| - 1], m) then xs[|xs| - 1] else m
  }

  /** `max(xs)`. */
  function Max(xs: seq<string>): (m: string)
    requires xs != []
    ensures m in xs
  {
    if |xs| == 1 then xs[0]
    else
      var m := Max(xs[..|xs| - 1]);
      if Less(m, xs[|xs| - 1]) then xs[|xs| - 1] else m
  }

  lemma {:induction false} MinIsLeast(xs: seq<string>)
    requires xs != []
    ensures forall i :: 0 <= i < |xs| ==> Min(xs) == xs[i] || Less(Min(xs), xs[i])
  {
    if |xs| > 1 {
      var init, x := xs[..|xs| - 1], xs[|xs| - 1];
      MinIsLeast(init);
      var m := Min(init);
      LessTotal(x, m);
      forall i | 0 <= i < |xs| ensures Min(xs) == xs[i] || Less(Min(xs), xs[i]) {
        if i < |xs| - 1 {
          assert xs[i] == init[i];
          if Less(x, m) && m != xs[i] {
            LessTransitive(x, m, xs[i]);
          }
        } else if !Less(x, m) {
          assert m == x || Less(m, x);
        }
      }
    }
  }

  lemma {:induction false} MaxIsGreatest(xs: seq<string>)
    requires xs != []
    ensures forall i :: 0 <= i < |xs| ==> Max(xs) == xs[i] || Less(xs[i], Max(xs))
  {
    if |xs| > 1 {
      var init, x := xs[..|xs| - 1], xs[|xs| - 1];
      MaxIsGreatest(init);
      var m := Max(init);
      LessTotal(x, m);
      forall i | 0 <= i < |xs| ensures Max(xs) == xs[i] || Less(xs[i], Max(xs)) {
        if i < |xs| - 1 {
          assert xs[i] == init[i];
          if Less(m, x) && m != xs[i] {
            LessTransitive(xs[i], m, x);
          }
        }
      }
    }
  }
}
