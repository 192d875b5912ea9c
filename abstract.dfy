/**
 * `shorten_description` of scrape.py: cut a description into sentences with
 * `re.split(r'[.:!?]\s+', ...)`, keep the first ones and cap the word count.
 */
module Abstract {
  import opened Common
  import opened Text

  predicate IsSentenceEnd(c: char)
  {
    c == '.' || c == ':' || c == '!' || c == '?'
  }

  /** The separator `[.:!?]\s+` starts at index i. */
  predicate BreakAt(s: string, i: nat)
  {
    i + 1 < |s| && IsSentenceEnd(s[i]) && IsSpace(s[i + 1])
  }

  /**
   * `re.split(r'[.:!?]\s+', s)`: scanning from the left, each separator (one
   * sentence-ending character and the whole run of whitespace after it) ends a
   * piece. There is always at least one piece.
   */
  function SplitSentences(s: string): (r: seq<string>)
    ensures |r| >= 1
    decreases |s|
  {
    if |s| < 2 then [s]
    else if BreakAt(s, 0) then [""] + SplitSentences(StripLeft(s[1..]))
    else
      var rest := SplitSentences(s[1..]);
      [[s[0]] + rest[0]] + rest[1..]
  }

  /** The first piece is the prefix before the leftmost separator, or all of `s`. */
  lemma {:induction false} FirstSentenceBeforeFirstBreak(s: string)
    ensures var f := SplitSentences(s)[0];
      && f <= s
      && (forall i :: 0 <= i < |f| ==> !BreakAt(s, i))
      && (|f| < |s| ==> BreakAt(s, |f|))
    decreases |s|
  {
    if |s| >= 2 && !BreakAt(s, 0) {
      FirstSentenceBeforeFirstBreak(s[1..]);
      var rest := SplitSentences(s[1..]);
      var f := SplitSentences(s)[0];
      assert f == [s[0]] + rest[0];
      forall i | 0 <= i < |f| ensures !BreakAt(s, i) {
        if i > 0 {
          assert BreakAt(s, i) == BreakAt(s[1..], i - 1);
        }
      }
      if |f| < |s| {
        assert BreakAt(s[1..], |rest[0]|);
      }
    }
  }

  /** A word of `str.split()`: non-empty, no whitespace. */
  predicate IsWord(w: string)
  {
    w != [] && forall i :: 0 <= i < |w| ==> !IsSpace(w[i])
  }

  /** The longest prefix of `s` without whitespace. */
  function TakeWord(s: string): (w: string)
    ensures w <= s
    ensures forall i :: 0 <= i < |w| ==> !IsSpace(w[i])
    ensures |w| < |s| ==> IsSpace(s[|w|])
  {
    if s == [] || IsSpace(s[0]) then [] else [s[0]] + TakeWord(s[1..])
  }

  /** `s.split()` with no argument: the maximal runs of non-whitespace, in order. */
  function Words(s: string): seq<string>
    decreases |s|
  {
    var t := StripLeft(s);
    if t == [] then []
    else
      var w := TakeWord(t);
      [w] + Words(t[|w|..])
  }

  /** Every piece of `s.split()` is a word. */
  lemma {:induction false} WordsAreWords(s: string)
    ensures forall i :: 0 <= i < |Words(s)| ==> IsWord(Words(s)[i])
    decreases |s|
  {
    var t := StripLeft(s);
    if t != [] {
      var w := TakeWord(t);
      WordsAreWords(t[|w|..]);
    }
  }

  lemma {:induction false} TakeWordOfWord(w: string, t: string)
    requires forall i :: 0 <= i < |w| ==> !IsSpace(w[i])
    requires t == [] || IsSpace(t[0])
    ensures TakeWord(w + t) == w
  {
    if w == [] {
      assert w + t == t;
    } else {
      assert (w + t)[1..] == w[1..] + t;
      TakeWordOfWord(w[1..], t);
    }
  }

  /** A word followed by whitespace (or nothing) is split off first. */
  lemma WordsCons(w: string, t: string)
    requires IsWord(w)
    requires t == [] || IsSpace(t[0])
    ensures Words(w + t) == [w] + Words(t)
  {
    var s := w + t;
    assert StripLeft(s) == s;
    TakeWordOfWord(w, t);
    assert s[|w|..] == t;
  }

  lemma WordsAfterSpace(t: string)
    ensures Words(" " + t) == Words(t)
  {
    assert (" " + t)[1..] == t;
    assert StripLeft(" " + t) == StripLeft(t);
  }

  lemma JoinCons(sep: string, ws: seq<string>)
    requires |ws| >= 2
    ensures Join(sep, ws) == ws[0] + (sep + Join(sep, ws[1..]))
  {
    var rest := Join(sep, ws[1..]);
    assert ws[0] + sep + rest == ws[0] + (sep + rest);
  }

  lemma WordsOfJoinStep(ws: seq<string>)
    requires |ws| >= 2 && IsWord(ws[0])
    ensures Words(Join(" ", ws)) == [ws[0]] + Words(Join(" ", ws[1..]))
  {
    var rest := Join(" ", ws[1..]);
    JoinCons(" ", ws);
    WordsCons(ws[0], " " + rest);
    WordsAfterSpace(rest);
  }

  lemma WordsOfWord(w: string)
    requires IsWord(w)
    ensures Words(w) == [w]
  {
    WordsCons(w, []);
    assert w + [] == w;
  }

  lemma WordsOfSingleton(ws: seq<string>)
    requires |ws| == 1 && IsWord(ws[0])
    ensures Words(Join(" ", ws)) == ws
  {
    WordsOfWord(ws[0]);
  }

  lemma WordsOfNothing()
    ensures Words(Join(" ", [])) == []
  {
    assert StripLeft("") == "";
  }

  lemma TailWords(ws: seq<string>)
    requires |ws| >= 1 && forall i :: 0 <= i < |ws| ==> IsWord(ws[i])
    ensures forall i :: 0 <= i < |ws[1..]| ==> IsWord(ws[1..][i])
  {
    forall i | 0 <= i < |ws| - 1 ensures IsWord(ws[1..][i]) {
      assert ws[1..][i] == ws[i + 1];
    }
  }

  lemma WordsOfJoinCons(ws: seq<string>)
    requires |ws| >= 2 && IsWord(ws[0])
    requires Words(Join(" ", ws[1..])) == ws[1..]
    ensures Words(Join(" ", ws)) == ws
  {
    WordsOfJoinStep(ws);
    assert [ws[0]] + ws[1..] == ws;
  }

  /** Splitting words joined by single spaces gives the words back. */
  lemma {:induction false} WordsOfJoin(ws: seq<string>)
    requires forall i :: 0 <= i < |ws| ==> IsWord(ws[i])
    ensures Words(Join(" ", ws)) == ws
  {
    if |ws| == 0 {
      WordsOfNothing();
    } else if |ws| == 1 {
      WordsOfSingleton(ws);
    } else {
      TailWords(ws);
      WordsOfJoin(ws[1..]);
      WordsOfJoinCons(ws);
    }
  }

  /** Text appended to a join is glued to the last part. */
  lemma {:induction false} JoinAppend(sep: string, ws: seq<string>, x: string)
    requires |ws| >= 1
    ensures Join(sep, ws) + x == Join(sep, ws[..|ws| - 1] + [ws[|ws| - 1] + x])
  {
    var ys := ws[..|ws| - 1] + [ws[|ws| - 1] + x];
    if |ws| == 1 {
      assert ys == [ws[0] + x];
    } else {
      JoinAppend(sep, ws[1..], x);
      assert ys[0] == ws[0];
      assert ys[1..] == ws[1..][..|ws| - 2] + [ws[|ws| - 1] + x];
      assert Join(sep, ws) + x == ws[0] + sep + (Join(sep, ws[1..]) + x);
    }
  }

  /** The word cap of scrape.py:220-221. */
  function Truncate(a: string, maxWords: nat): string
  {
    if |Words(a)| <= maxWords then a else Join(" ", Words(a)[..maxWords]) + "..."
  }

  /**
   * An abstract within the cap is returned unchanged; otherwise the result has
   * exactly the first `maxWords` words of the abstract, the last of them
   * carrying the ellipsis.
   */
  lemma TruncateWords(a: string, maxWords: nat)
    ensures |Words(a)| <= maxWords ==> Truncate(a, maxWords) == a
    ensures |Words(a)| > maxWords ==>
      Words(Truncate(a, maxWords)) ==
        if maxWords == 0 then ["..."]
        else Words(a)[..maxWords - 1] + [Words(a)[maxWords - 1] + "..."]
  {
    var ws := Words(a);
    if |ws| > maxWords {
      if maxWords == 0 {
        assert Truncate(a, 0) == "...";
        WordsOfJoin(["..."]);
      } else {
        WordsAreWords(a);
        GluedWords(ws, maxWords, "...");
      }
    }
  }

  /** Words joined by spaces with a word glued to the last one split back with it glued on. */
  lemma GluedWords(ws: seq<string>, n: nat, x: string)
    requires 0 < n <= |ws| && forall i :: 0 <= i < |ws| ==> IsWord(ws[i])
    requires IsWord(x)
    ensures Words(Join(" ", ws[..n]) + x) == ws[..n - 1] + [ws[n - 1] + x]
  {
    var first := ws[..n];
    JoinAppend(" ", first, x);
    var glued := first[..n - 1] + [first[n - 1] + x];
    assert first[..n - 1] == ws[..n - 1];
    forall i | 0 <= i < |glued| ensures IsWord(glued[i]) {
      if i < n - 1 {
        assert glued[i] == ws[i];
      }
    }
    WordsOfJoin(glued);
  }

  /** The number of words of a truncated abstract never exceeds the cap (one for a zero cap). */
  lemma TruncateRespectsCap(a: string, maxWords: nat)
    ensures |Words(Truncate(a, maxWords))| <= if maxWords == 0 then 1 else maxWords
  {
    TruncateWords(a, maxWords);
  }

  /** A sentence that `SplitSentences` leaves whole: non-empty, not starting with whitespace, no sentence-ending character. */
  predicate IsSentence(w: string)
  {
    w != [] && !IsSpace(w[0]) && forall i :: 0 <= i < |w| ==> !IsSentenceEnd(w[i])
  }

  /** A separator ". " at the front splits off an empty piece. */
  lemma SplitAtBreak(t: string)
    requires t == [] || !IsSpace(t[0])
    ensures SplitSentences(". " + t) == [""] + SplitSentences(t)
  {
    var s := ". " + t;
    assert BreakAt(s, 0);
    assert s[1..] == " " + t;
    assert (" " + t)[1..] == t;
    assert StripLeft(s[1..]) == StripLeft(t);
  }

  /** A character that is not a sentence end joins the first piece of the rest. */
  lemma SplitConsNoBreak(c: char, u: string)
    requires !IsSentenceEnd(c)
    ensures SplitSentences([c] + u) == [[c] + SplitSentences(u)[0]] + SplitSentences(u)[1..]
  {
    var s := [c] + u;
    assert s[1..] == u;
    if u == [] {
      assert SplitSentences(u) == [[]];
    } else {
      assert !BreakAt(s, 0);
    }
  }

  lemma ConsPrefix(w: string, t: string)
    requires w != []
    ensures w + ". " + t == [w[0]] + (w[1..] + ". " + t)
  {
  }

  lemma ConsHeadTail<T>(x: T, xs: seq<T>)
    ensures ([x] + xs)[0] == x && ([x] + xs)[1..] == xs
  {
  }

  /** A piece without sentence ends, followed by ". " and text not starting with whitespace, is split off first. */
  lemma {:induction false} SplitPrefix(w: string, t: string)
    requires forall i :: 0 <= i < |w| ==> !IsSentenceEnd(w[i])
    requires t == [] || !IsSpace(t[0])
    ensures SplitSentences(w + ". " + t) == [w] + SplitSentences(t)
    decreases |w|
  {
    if w == [] {
      assert w + ". " + t == ". " + t;
      SplitAtBreak(t);
    } else {
      var u := w[1..] + ". " + t;
      SplitPrefix(w[1..], t);
      ConsPrefix(w, t);
      SplitConsNoBreak(w[0], u);
      ConsHeadTail(w[1..], SplitSentences(t));
      assert [w[0]] + w[1..] == w;
    }
  }

  /** `re.split(r'[.:!?]\s+', ...)` undoes joining sentences with ". ". */
  lemma {:induction false} SplitJoinedSentences(ws: seq<string>)
    requires |ws| >= 1
    requires forall i :: 0 <= i < |ws| ==> IsSentence(ws[i])
    ensures SplitSentences(Join(". ", ws)) == ws
  {
    if |ws| == 1 {
      SplitSingleSentence(ws[0]);
    } else {
      SplitJoinedSentences(ws[1..]);
      var t := Join(". ", ws[1..]);
      assert t[0] == ws[1][0] by { JoinHead(". ", ws[1..]); }
      SplitPrefix(ws[0], t);
      assert Join(". ", ws) == ws[0] + ". " + t;
      assert [ws[0]] + ws[1..] == ws;
    }
  }

  lemma {:induction false} SplitSingleSentence(w: string)
    requires forall i :: 0 <= i < |w| ==> !IsSentenceEnd(w[i])
    ensures SplitSentences(w) == [w]
    decreases |w|
  {
    if |w| >= 2 {
      SplitSingleSentence(w[1..]);
      assert !BreakAt(w, 0);
      assert [w[0]] + w[1..] == w;
    }
  }

  /** A join of non-empty parts starts with its first part. */
  lemma JoinHead(sep: string, ws: seq<string>)
    requires |ws| >= 1 && ws[0] != []
    ensures |Join(sep, ws)| >= 1 && Join(sep, ws)[0] == ws[0][0]
  {
  }

  /** The text `shorten_description` truncates, as written: the first `maxSentences` sentences when there are MORE sentences than that, otherwise only the first. */
  function SummaryAsWritten(description: string, maxSentences: nat): string
  {
    var sentences := SplitSentences(description);
    if |sentences| > maxSentences then Join(" ", sentences[..maxSentences]) else sentences[0]
  }

  /** `shorten_description` exactly as written. */
  function ShortenDescriptionAsWritten(description: string, maxSentences: nat, maxWords: nat): string
  {
    Truncate(SummaryAsWritten(description, maxSentences), maxWords)
  }

  /** The first `maxSentences` sentences (all of them when there are fewer), joined by spaces. */
  function LeadingSentences(description: string, maxSentences: nat): string
  {
    var sentences := SplitSentences(description);
    Join(" ", sentences[..if maxSentences < |sentences| then maxSentences else |sentences|])
  }

  /** `shorten_description` as its design describes it. */
  function ShortenDescription(description: string, maxSentences: nat, maxWords: nat): string
  {
    Truncate(LeadingSentences(description, maxSentences), maxWords)
  }

  /** Asking for one more sentence only ever extends the summary before truncation. */
  lemma LeadingSentencesGrow(description: string, maxSentences: nat)
    ensures var shorter := LeadingSentences(description, maxSentences);
      shorter <= LeadingSentences(description, maxSentences + 1)
  {
    var ss := SplitSentences(description);
    if maxSentences < |ss| {
      assert ss[..maxSentences + 1] == ss[..maxSentences] + [ss[maxSentences]];
      JoinSnoc(" ", ss[..maxSentences], ss[maxSentences]);
    }
  }

  /**
   * With the default `max_sentence_length=1` the code as written and the
   * described behaviour agree: the abstract is the first sentence, capped.
   * An empty description gives an empty abstract.
   */
  lemma DefaultKeepsFirstSentence(description: string, maxWords: nat)
    ensures ShortenDescriptionAsWritten(description, 1, maxWords) == Truncate(SplitSentences(description)[0], maxWords)
    ensures ShortenDescription(description, 1, maxWords) == Truncate(SplitSentences(description)[0], maxWords)
    ensures ShortenDescription("", 1, maxWords) == ""
  {
    OneSentence(description);
    OneSentence("");
    assert SplitSentences("") == [""];
    assert Words("") == [];
  }

  lemma OneSentence(description: string)
    ensures SummaryAsWritten(description, 1) == SplitSentences(description)[0]
    ensures LeadingSentences(description, 1) == SplitSentences(description)[0]
  {
    var ss := SplitSentences(description);
    assert ss[..1] == [ss[0]];
  }

  /**
   * As written, a description of three sentences "a. b. c" yields "a b" at a
   * limit of 2 but only "a" at a limit of 3; the described behaviour yields
   * "a b c" at 3, which is longer than "a".
   */
  lemma AsWrittenLosesSentences(a: string, b: string, c: string)
    requires IsSentence(a) && IsSentence(b) && IsSentence(c)
    ensures SummaryAsWritten(Join(". ", [a, b, c]), 2) == a + " " + b
    ensures SummaryAsWritten(Join(". ", [a, b, c]), 3) == a
    ensures LeadingSentences(Join(". ", [a, b, c]), 3) == a + " " + b + " " + c
    ensures SummaryAsWritten(Join(". ", [a, b, c]), 3) != LeadingSentences(Join(". ", [a, b, c]), 3)
  {
    var ws := [a, b, c];
    SplitJoinedSentences(ws);
    assert ws[..2] == [a, b];
    assert ws[..3] == ws;
    assert ws[1..] == [b, c];
    assert [b, c][1..] == [c];
    assert Join(" ", [a, b]) == a + " " + b;
    assert Join(" ", [b, c]) == b + " " + c;
    assert Join(" ", ws) == a + " " + Join(" ", [b, c]);
  }
}
