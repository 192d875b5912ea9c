/**
 * `generate_slug` of scrape.py: four passes over the title,
 *   re.sub(r"[^\w\d]+", "-", title); re.sub(r"-+", "-", ...); .strip("-"); .lower().
 */
module Slug {
  import opened Common
  import opened Text

  /** The word characters of `s`, in order. */
  function WordChars(s: string): string
  {
    if s == [] then [] else (if IsWordChar(s[0]) then [s[0]] else []) + WordChars(s[1..])
  }

  lemma {:induction false} WordCharsConcat(a: string, b: string)
    ensures WordChars(a + b) == WordChars(a) + WordChars(b)
  {
    if a != [] {
      assert (a + b)[0] == a[0] && (a + b)[1..] == a[1..] + b;
      WordCharsConcat(a[1..], b);
      var h := if IsWordChar(a[0]) then [a[0]] else [];
      assert WordChars(a + b) == h + WordChars(a[1..] + b);
      assert WordChars(a) == h + WordChars(a[1..]);
    } else {
      assert a + b == b;
    }
  }

  predicate WordOrHyphen(s: string)
  {
    forall i :: 0 <= i < |s| ==> IsWordChar(s[i]) || s[i] == '-'
  }

  predicate NoDoubleHyphen(s: string)
  {
    forall i, j :: 0 <= i < |s| && j == i + 1 && j < |s| ==> !(s[i] == '-' && s[j] == '-')
  }

  predicate IsSlugChar(c: char)
  {
    'a' <= c <= 'z' || IsDigit(c) || c == '_' || c == '-'
  }

  /** What a slug looks like: lower-case word characters and single hyphens, no hyphen at either end. */
  predicate IsSlug(s: string)
  {
    && (forall i :: 0 <= i < |s| ==> IsSlugChar(s[i]))
    && NoDoubleHyphen(s)
    && (s != [] ==> s[0] != '-' && s[|s| - 1] != '-')
  }

  /**
   * `re.sub(r"[^\w\d]+", "-", s)`: every maximal run of non-word characters
   * becomes a single hyphen. `inRun` says the character before `s` was part of
   * a run already replaced.
   */
  function ReplaceNonWordRuns(s: string, inRun: bool): (r: string)
    ensures WordOrHyphen(r) && NoDoubleHyphen(r)
    ensures inRun ==> r == [] || r[0] != '-'
    ensures WordChars(r) == WordChars(s)
  {
    if s == [] then []
    else if IsWordChar(s[0]) then [s[0]] + ReplaceNonWordRuns(s[1..], false)
    else
      var rest := ReplaceNonWordRuns(s[1..], true);
      var lead := if inRun then "" else "-";
      WordCharsConcat(lead, rest);
      lead + rest
  }

  /** `re.sub(r"-+", "-", s)`: every maximal run of hyphens becomes one hyphen. */
  function CollapseHyphens(s: string, inRun: bool): (r: string)
    ensures (WordOrHyphen(s) ==> WordOrHyphen(r)) && NoDoubleHyphen(r)
    ensures inRun ==> r == [] || r[0] != '-'
    ensures WordChars(r) == WordChars(s)
  {
    if s == [] then []
    else if s[0] == '-' then
      var rest := CollapseHyphens(s[1..], true);
      WordCharsDropHyphen(s);
      if inRun then rest
      else
        HyphenBefore(rest);
        "-" + rest
    else
      var rest := CollapseHyphens(s[1..], false);
      CharBefore(s[0], rest);
      assert WordChars(s) == (if IsWordChar(s[0]) then [s[0]] else []) + WordChars(s[1..]);
      [s[0]] + rest
  }

  /** A hyphen put before text that does not start with one. */
  lemma HyphenBefore(rest: string)
    requires NoDoubleHyphen(rest) && (rest == [] || rest[0] != '-')
    ensures NoDoubleHyphen("-" + rest) && (WordOrHyphen(rest) ==> WordOrHyphen("-" + rest))
    ensures WordChars("-" + rest) == WordChars(rest)
  {
    var r := "-" + rest;
    assert r[1..] == rest;
    WordCharsDropHyphen(r);
    forall i | 1 <= i < |r| ensures r[i] == rest[i - 1] {
    }
  }

  /** A character other than a hyphen put before text. */
  lemma CharBefore(c: char, rest: string)
    requires c != '-' && NoDoubleHyphen(rest)
    ensures NoDoubleHyphen([c] + rest)
    ensures IsWordChar(c) && WordOrHyphen(rest) ==> WordOrHyphen([c] + rest)
    ensures WordChars([c] + rest) == (if IsWordChar(c) then [c] else []) + WordChars(rest)
  {
    var r := [c] + rest;
    assert r[0] == c && r[1..] == rest;
    forall i | 1 <= i < |r| ensures r[i] == rest[i - 1] {
    }
  }

  function StripHyphensLeft(s: string): (r: string)
    ensures |r| <= |s| && r == s[|s| - |r|..]
    ensures r == [] || r[0] != '-'
    ensures WordChars(r) == WordChars(s)
  {
    if s != [] && s[0] == '-' then
      WordCharsDropHyphen(s);
      StripHyphensLeft(s[1..])
    else s
  }

  /** A leading hyphen is not a word character. */
  lemma WordCharsDropHyphen(s: string)
    requires s != [] && s[0] == '-'
    ensures WordChars(s) == WordChars(s[1..])
  {
    assert [] + WordChars(s[1..]) == WordChars(s[1..]);
  }

  function StripHyphensRight(s: string): (r: string)
    ensures |r| <= |s| && r == s[..|r|]
    ensures r == [] || r[|r| - 1] != '-'
    ensures WordChars(r) == WordChars(s)
  {
    if s != [] && s[|s| - 1] == '-' then
      WordCharsConcat(s[..|s| - 1], [s[|s| - 1]]);
      assert s == s[..|s| - 1] + [s[|s| - 1]];
      StripHyphensRight(s[..|s| - 1])
    else s
  }

  /** `s.strip("-")`. */
  function StripHyphens(s: string): string
  {
    StripHyphensRight(StripHyphensLeft(s))
  }

  /** `generate_slug(title)` (scrape.py:110-114). */
  function GenerateSlug(title: string): string
  {
    Lower(StripHyphens(CollapseHyphens(ReplaceNonWordRuns(title, false), false)))
  }

  lemma {:induction false} WordCharsLower(s: string)
    ensures WordChars(Lower(s)) == Lower(WordChars(s))
  {
    if s != [] {
      WordCharsLower(s[1..]);
      assert Lower(s) == [LowerChar(s[0])] + Lower(s[1..]);
      LowerConcat(if IsWordChar(s[0]) then [s[0]] else [], WordChars(s[1..]));
    }
  }

  /** The stripped, collapsed string before lower-casing, with the facts the passes establish. */
  lemma Unlowered(title: string) returns (u: string)
    ensures GenerateSlug(title) == Lower(u)
    ensures WordOrHyphen(u) && NoDoubleHyphen(u)
    ensures u != [] ==> u[0] != '-' && u[|u| - 1] != '-'
    ensures WordChars(u) == WordChars(title)
  {
    var c := CollapseHyphens(ReplaceNonWordRuns(title, false), false);
    u := StripHyphens(c);
    StripKeepsShape(c);
  }

  /** Stripping hyphens keeps a string of word characters and single hyphens so, and clears both ends. */
  lemma StripKeepsShape(c: string)
    requires WordOrHyphen(c) && NoDoubleHyphen(c)
    ensures var u := StripHyphens(c);
      && WordOrHyphen(u) && NoDoubleHyphen(u)
      && (u != [] ==> u[0] != '-' && u[|u| - 1] != '-')
  {
    var l := StripHyphensLeft(c);
    var u := StripHyphensRight(l);
    SliceKeepsShape(c, |c| - |l|, |c|);
    SliceKeepsShape(l, 0, |u|);
    if u != [] {
      assert u[0] == l[0];
    }
  }

  lemma SliceKeepsShape(c: string, a: nat, b: nat)
    requires WordOrHyphen(c) && NoDoubleHyphen(c) && a <= b <= |c|
    ensures WordOrHyphen(c[a..b]) && NoDoubleHyphen(c[a..b])
  {
    var u := c[a..b];
    forall i | 0 <= i < |u| - 1 ensures !(u[i] == '-' && u[i + 1] == '-') {
      assert u[i] == c[a + i] && u[i + 1] == c[a + i + 1];
    }
    forall i | 0 <= i < |u| ensures IsWordChar(u[i]) || u[i] == '-' {
      assert u[i] == c[a + i];
    }
  }

  /** A slug consists of lower-case word characters and single inner hyphens. */
  lemma LowerWordOrHyphen(u: string)
    requires WordOrHyphen(u) && NoDoubleHyphen(u)
    requires u != [] ==> u[0] != '-' && u[|u| - 1] != '-'
    ensures IsSlug(Lower(u))
  {
    var s := Lower(u);
    forall i | 0 <= i < |s| ensures IsSlugChar(s[i]) {
      assert s[i] == LowerChar(u[i]);
    }
    forall i | 0 <= i < |s| - 1 ensures !(s[i] == '-' && s[i + 1] == '-') {
      assert s[i] == LowerChar(u[i]) && s[i + 1] == LowerChar(u[i + 1]);
    }
  }

  lemma SlugIsWellFormed(title: string)
    ensures IsSlug(GenerateSlug(title))
  {
    var u := Unlowered(title);
    LowerWordOrHyphen(u);
  }

  /** The word characters of the slug are exactly those of the title, lower-cased, in order. */
  lemma SlugKeepsWordChars(title: string)
    ensures WordChars(GenerateSlug(title)) == Lower(WordChars(title))
  {
    var u := Unlowered(title);
    WordCharsLower(u);
  }

  lemma SlugWithoutWordCharsIsEmpty(s: string)
    requires IsSlug(s) && WordChars(s) == []
    ensures s == []
  {
  }

  /** A title gives the empty slug exactly when it has no word character. */
  lemma SlugEmptyIff(title: string)
    ensures GenerateSlug(title) == [] <==> WordChars(title) == []
  {
    SlugIsWellFormed(title);
    SlugKeepsWordChars(title);
    if WordChars(title) == [] {
      SlugWithoutWordCharsIsEmpty(GenerateSlug(title));
    }
  }

  lemma {:induction false} ReplaceNonWordRunsIdentity(s: string, inRun: bool)
    requires WordOrHyphen(s) && NoDoubleHyphen(s)
    requires inRun ==> s == [] || IsWordChar(s[0])
    ensures ReplaceNonWordRuns(s, inRun) == s
  {
    if s != [] {
      ReplaceNonWordRunsIdentity(s[1..], !IsWordChar(s[0]));
    }
  }

  lemma {:induction false} CollapseHyphensIdentity(s: string, inRun: bool)
    requires NoDoubleHyphen(s)
    requires inRun ==> s == [] || s[0] != '-'
    ensures CollapseHyphens(s, inRun) == s
  {
    if s != [] {
      CollapseHyphensIdentity(s[1..], s[0] == '-');
    }
  }

  // ----- reference definitions -------------------------------------------

  predicate IsWord(w: string)
  {
    forall i :: 0 <= i < |w| ==> IsWordChar(w[i])
  }

  /** The longest prefix of `s` made of word characters. */
  function WordRun(s: string): (w: string)
    ensures w <= s && IsWord(w)
    ensures |w| < |s| ==> !IsWordChar(s[|w|])
  {
    if s != [] && IsWordChar(s[0]) then [s[0]] + WordRun(s[1..]) else []
  }

  /** The maximal runs of word characters of `s`, in order. */
  function WordRuns(s: string): (runs: seq<string>)
    ensures forall j :: 0 <= j < |runs| ==> runs[j] != [] && IsWord(runs[j])
    decreases |s|
  {
    if s == [] then []
    else if !IsWordChar(s[0]) then WordRuns(s[1..])
    else
      var w := WordRun(s);
      [w] + WordRuns(s[|w|..])
  }

  /**
   * `re.sub(r"-+", "-", s)` stated position by position: a hyphen is
   * dropped exactly when the next character is a hyphen too, so each run
   * keeps its last one.
   */
  function SqueezeHyphens(s: string): (r: string)
    ensures |r| <= |s|
    ensures s != [] ==> r != [] && r[0] == s[0]
  {
    if |s| < 2 then s
    else (if s[0] == '-' && s[1] == '-' then [] else [s[0]]) + SqueezeHyphens(s[1..])
  }

  // ----- the passes against the references --------------------------------

  /** Text without word runs has no word character at all. */
  lemma {:induction false} NoRunsNoWordChars(s: string)
    requires WordRuns(s) == []
    ensures forall i :: 0 <= i < |s| ==> !IsWordChar(s[i])
    decreases |s|
  {
    if s != [] {
      NoRunsNoWordChars(s[1..]);
      forall i | 1 <= i < |s| ensures !IsWordChar(s[i]) {
        assert s[i] == s[1..][i - 1];
      }
    }
  }

  /** A run of word characters passes through the first pass unchanged and ends any run being replaced. */
  lemma {:induction false} WordRunPassesThrough(w: string, rest: string, inRun: bool)
    requires w != [] && IsWord(w)
    ensures ReplaceNonWordRuns(w + rest, inRun) == w + ReplaceNonWordRuns(rest, false)
  {
    var x := w + rest;
    assert x[0] == w[0] && x[1..] == w[1..] + rest;
    WordCharHead(x, inRun);
    if |w| > 1 {
      WordRunPassesThrough(w[1..], rest, false);
      Prepend(w, ReplaceNonWordRuns(rest, false));
    } else {
      assert w[1..] + rest == rest;
      assert [w[0]] == w;
    }
  }

  lemma WordCharHead(x: string, inRun: bool)
    requires x != [] && IsWordChar(x[0])
    ensures ReplaceNonWordRuns(x, inRun) == [x[0]] + ReplaceNonWordRuns(x[1..], false)
  {
  }

  lemma Prepend(w: string, r: string)
    requires w != []
    ensures [w[0]] + (w[1..] + r) == w + r
  {
    assert [w[0]] + w[1..] == w;
  }

  /** The hyphen the first pass puts before the text: for a leading non-word run not already replaced. */
  function Lead(t: string, inRun: bool): string
  {
    if t != [] && !IsWordChar(t[0]) && !inRun then "-" else ""
  }

  /** The hyphen the first pass puts after the last word run: for a trailing non-word run. */
  function Trail(t: string): string
  {
    if WordRuns(t) != [] && !IsWordChar(t[|t| - 1]) then "-" else ""
  }

  /**
   * The first pass is the word runs joined by single hyphens, with one more
   * hyphen for a non-word run at either end.
   */
  lemma {:induction false} ReplacedIsJoinedRuns(t: string, inRun: bool)
    ensures ReplaceNonWordRuns(t, inRun) == Lead(t, inRun) + Join("-", WordRuns(t)) + Trail(t)
    decreases |t|
  {
    if t == [] {
    } else if !IsWordChar(t[0]) {
      ReplacedIsJoinedRuns(t[1..], true);
      NonWordHead(t, inRun);
    } else {
      var w := WordRun(t);
      var rest := t[|w|..];
      assert t == w + rest;
      WordRunPassesThrough(w, rest, inRun);
      ReplacedIsJoinedRuns(rest, false);
      WordHead(t, w, rest, ReplaceNonWordRuns(rest, false));
    }
  }

  /** A leading non-word character: its hyphen, if any, then the rest as part of the run. */
  lemma NonWordHead(t: string, inRun: bool)
    requires t != [] && !IsWordChar(t[0])
    requires ReplaceNonWordRuns(t[1..], true) == Join("-", WordRuns(t[1..])) + Trail(t[1..])
    ensures ReplaceNonWordRuns(t, inRun) == Lead(t, inRun) + Join("-", WordRuns(t)) + Trail(t)
  {
    assert Trail(t[1..]) == Trail(t);
    var j := Join("-", WordRuns(t));
    assert ReplaceNonWordRuns(t, inRun) == Lead(t, inRun) + (j + Trail(t));
  }

  /** A leading word run: the run, then the hyphen the next non-word run becomes, then the rest. */
  lemma WordHead(t: string, w: string, rest: string, r: string)
    requires t != [] && IsWordChar(t[0]) && w == WordRun(t) && rest == t[|w|..] && t == w + rest
    requires r == Lead(rest, false) + Join("-", WordRuns(rest)) + Trail(rest)
    ensures w + r == Join("-", WordRuns(t)) + Trail(t)
  {
    var runs := WordRuns(rest);
    assert WordRuns(t) == [w] + runs;
    if rest == [] {
      assert Join("-", [w]) == w;
    } else if runs == [] {
      LastRunTrails(t, w, rest, r);
    } else {
      SameTrail(t, w, rest);
      assert Lead(rest, false) == "-";
      InnerRuns(w, runs, r, Trail(t));
    }
  }

  lemma LastRunTrails(t: string, w: string, rest: string, r: string)
    requires t == w + rest && rest != [] && !IsWordChar(rest[0]) && WordRuns(rest) == []
    requires WordRuns(t) == [w]
    requires r == Lead(rest, false) + Join("-", WordRuns(rest)) + Trail(rest)
    ensures w + r == Join("-", WordRuns(t)) + Trail(t)
  {
    NoRunsNoWordChars(rest);
    assert t[|t| - 1] == rest[|rest| - 1];
    assert r == "-";
    assert Trail(t) == "-";
    assert Join("-", [w]) == w;
  }

  lemma InnerRuns(w: string, runs: seq<string>, r: string, tr: string)
    requires runs != [] && r == "-" + Join("-", runs) + tr
    ensures w + r == Join("-", [w] + runs) + tr
  {
    JoinCons(w, runs);
    var j := Join("-", runs);
    assert w + ("-" + j + tr) == w + "-" + j + tr;
  }

  lemma SameTrail(t: string, w: string, rest: string)
    requires t == w + rest && rest != [] && WordRuns(rest) != [] && WordRuns(t) != []
    ensures Trail(rest) == Trail(t)
  {
    assert t[|t| - 1] == rest[|rest| - 1];
  }

  lemma JoinCons(w: string, runs: seq<string>)
    requires runs != []
    ensures Join("-", [w] + runs) == w + "-" + Join("-", runs)
  {
    assert ([w] + runs)[1..] == runs;
  }

  /** Joined word runs start and end with a word character. */
  lemma {:induction false} JoinedRunsEnds(runs: seq<string>)
    requires forall j :: 0 <= j < |runs| ==> runs[j] != [] && IsWord(runs[j])
    ensures var t := Join("-", runs);
      (t == [] <==> runs == []) && (t != [] ==> IsWordChar(t[0]) && IsWordChar(t[|t| - 1]))
  {
    if |runs| >= 2 {
      JoinedRunsEnds(runs[1..]);
    }
  }

  /** At most one leading hyphen before text that does not start with one is stripped off. */
  lemma StripOneLeft(l: string, y: string)
    requires l == "" || l == "-"
    requires y == [] || y[0] != '-'
    ensures StripHyphensLeft(l + y) == y
  {
    if l == "-" {
      assert (l + y)[1..] == y;
    } else {
      assert l + y == y;
    }
  }

  /** At most one trailing hyphen after text that does not end with one is stripped off. */
  lemma StripOneRight(j: string, tr: string)
    requires tr == "" || tr == "-"
    requires j == [] || j[|j| - 1] != '-'
    ensures StripHyphensRight(j + tr) == j
  {
    if tr == "-" {
      assert (j + tr)[..|j|] == j;
    } else {
      assert j + tr == j;
    }
  }

  /** Stripping removes exactly the hyphens the first pass added at the ends. */
  lemma StripsLeadAndTrail(t: string, inRun: bool)
    ensures StripHyphens(Lead(t, inRun) + Join("-", WordRuns(t)) + Trail(t)) == Join("-", WordRuns(t))
  {
    var j := Join("-", WordRuns(t));
    JoinedRunsEnds(WordRuns(t));
    StripEnds(Lead(t, inRun), j, Trail(t));
  }

  /** A single optional hyphen on either side of text with no hyphen at its ends is stripped off. */
  lemma StripEnds(l: string, j: string, tr: string)
    requires l == "" || l == "-"
    requires tr == "" || tr == "-"
    requires j != [] ==> j[0] != '-' && j[|j| - 1] != '-'
    requires j == [] ==> tr == ""
    ensures StripHyphens(l + j + tr) == j
  {
    var y := j + tr;
    assert l + j + tr == l + y;
    StripOneLeft(l, y);
    StripOneRight(j, tr);
  }

  /**
   * The hyphen-collapsing pass is the squeeze; after a hyphen run already
   * collapsed (`inRun`) it also drops the hyphen that continues it.
   */
  lemma {:induction false} CollapseIsSqueeze(s: string, inRun: bool)
    ensures CollapseHyphens(s, inRun)
      == if inRun && s != [] && s[0] == '-' then SqueezeHyphens(s)[1..] else SqueezeHyphens(s)
  {
    if s != [] {
      var rest := s[1..];
      CollapseIsSqueeze(rest, s[0] == '-');
      if s[0] == '-' && rest != [] && rest[0] == '-' {
        assert SqueezeHyphens(s) == SqueezeHyphens(rest);
      }
    }
  }

  lemma CollapseIsSqueezeFromStart(s: string)
    ensures CollapseHyphens(s, false) == SqueezeHyphens(s)
  {
    CollapseIsSqueeze(s, false);
  }

  /**
   * The slug is the title's maximal word-character runs, joined by single
   * hyphens and lower-cased.
   */
  lemma SlugIsJoinedRuns(title: string)
    ensures GenerateSlug(title) == Lower(Join("-", WordRuns(title)))
  {
    var h := ReplaceNonWordRuns(title, false);
    ReplacedIsJoinedRuns(title, false);
    CollapseHyphensIdentity(h, false);
    StripsLeadAndTrail(title, false);
  }

  /** On its own output `generate_slug` changes nothing. */
  lemma SlugIdempotent(title: string)
    ensures GenerateSlug(GenerateSlug(title)) == GenerateSlug(title)
  {
    var s := GenerateSlug(title);
    SlugIsWellFormed(title);
    assert WordOrHyphen(s);
    ReplaceNonWordRunsIdentity(s, false);
    CollapseHyphensIdentity(s, false);
    assert StripHyphensLeft(s) == s;
    assert StripHyphensRight(s) == s;
    assert Lower(s) == s;
  }
}
