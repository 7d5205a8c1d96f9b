/**
 * What `tabulate_letter_chain_frequencies` counts, stated without its state
 * machine. The text is split at every character that is not a letter after
 * `tolower`; every piece is a word, and a word of `n >= 2` letters adds one
 * count to each of
 *   - `Xc[w0][w1]`, for its first two letters,
 *   - `xc[a][b]`, for each of its `n - 1` neighbouring pairs,
 *   - `xxc[a][b][c]`, for each of its `n - 2` neighbouring triples,
 *   - `xC[a][b]`, for its last two letters,
 *   - `xxC[x][a][b]`, for its last two letters `a b`, with `x` the letter
 *     before them, or the first letter again when the word has only two.
 * Counts are multisets of cells `(row, letter index)`; the rows of `xxc` and
 * `xxC` are `26 x + y`.
 */
module Tally {
  import opened Alphabet

  type Cell = (int, int)

  datatype Tally = Tally(Xc: multiset<Cell>, xc: multiset<Cell>, xC: multiset<Cell>, xxc: multiset<Cell>, xxC: multiset<Cell>)

  const Empty: Tally := Tally(multiset{}, multiset{}, multiset{}, multiset{}, multiset{})

  /** The counts of two pieces of text together. */
  function Plus(a: Tally, b: Tally): Tally {
    Tally(a.Xc + b.Xc, a.xc + b.xc, a.xC + b.xC, a.xxc + b.xxc, a.xxC + b.xxC)
  }

  /** The text as the counting loop reads it, through `tolower`. */
  function Lower(s: string): (r: string)
    ensures |r| == |s| && forall i | 0 <= i < |s| :: r[i] == ToLower(s[i])
  {
    seq(|s|, i requires 0 <= i < |s| => ToLower(s[i]))
  }

  /** The neighbouring pairs of a word, as `xc` cells. */
  function Bigrams(w: string): multiset<Cell>
    requires IsWord(w)
  {
    if |w| < 2 then multiset{}
    else Bigrams(w[..|w| - 1]) + multiset{(Ix(w[|w| - 2]), Ix(w[|w| - 1]))}
  }

  /** The neighbouring triples of a word, as `xxc` cells. */
  function Trigrams(w: string): multiset<Cell>
    requires IsWord(w)
  {
    if |w| < 3 then multiset{}
    else Trigrams(w[..|w| - 1]) + multiset{(Pair(w[|w| - 3], w[|w| - 2]), Ix(w[|w| - 1]))}
  }

  /** Everything one word adds to the five tables. */
  function WordTally(w: string): Tally
    requires IsWord(w)
  {
    var n := |w|;
    if n < 2 then Empty
    else
      var before := if n == 2 then w[0] else w[n - 3];
      Tally(multiset{(Ix(w[0]), Ix(w[1]))}, Bigrams(w), multiset{(Ix(w[n - 2]), Ix(w[n - 1]))},
            Trigrams(w), multiset{(Pair(before, w[n - 2]), Ix(w[n - 1]))})
  }

  /** The length of the leading run of letters (after `tolower`): where the first word ends. */
  function LetterRun(s: string): (k: nat)
    ensures k <= |s|
    ensures forall i | 0 <= i < k :: IsLetter(ToLower(s[i]))
    ensures k < |s| ==> !IsLetter(ToLower(s[k]))
  {
    if s == [] || !IsLetter(ToLower(s[0])) then 0 else 1 + LetterRun(s[1..])
  }

  /** Everything a text adds to the five tables: its first word, then the text after the character that ended it. */
  function TallyOf(s: string): Tally
    decreases |s|
  {
    var k := LetterRun(s);
    if k == |s| then WordTally(FirstWord(s)) else Plus(WordTally(FirstWord(s)), TallyOf(s[k + 1..]))
  }

  /** The first word of a text, lower-cased: the whole leading run of letters. */
  function FirstWord(s: string): (w: string)
    ensures IsWord(w) && |w| == LetterRun(s)
  {
    Lower(s[..LetterRun(s)])
  }

  /** The word counts: exactly the cells listed above, n - 1 of them in `xc` and n - 2 in `xxc`. */
  lemma WordCounts(w: string)
    requires IsWord(w)
    ensures |w| < 2 ==> WordTally(w) == Empty
    ensures |w| >= 2 ==>
      var n := |w|;
      && WordTally(w).Xc == multiset{(Ix(w[0]), Ix(w[1]))}
      && |WordTally(w).xc| == n - 1
      && |WordTally(w).xxc| == n - 2
      && WordTally(w).xC == multiset{(Ix(w[n - 2]), Ix(w[n - 1]))}
      && WordTally(w).xxC == multiset{(Pair(if n == 2 then w[0] else w[n - 3], w[n - 2]), Ix(w[n - 1]))}
  {
    if |w| >= 2 {
      BigramsSize(w);
      TrigramsSize(w);
    }
  }

  lemma {:induction false} BigramsSize(w: string)
    requires IsWord(w) && |w| >= 1
    ensures |Bigrams(w)| == |w| - 1
  {
    if |w| >= 2 {
      BigramsSize(w[..|w| - 1]);
    }
  }

  lemma {:induction false} TrigramsSize(w: string)
    requires IsWord(w) && |w| >= 2
    ensures |Trigrams(w)| == |w| - 2
  {
    if |w| >= 3 {
      TrigramsSize(w[..|w| - 1]);
    }
  }

  /** The `xc` cells of a word are exactly its neighbouring pairs: no other entry is counted. */
  lemma {:induction false} BigramsExact(w: string, cell: Cell)
    requires IsWord(w)
    ensures cell in Bigrams(w) <==> exists i | 0 <= i < |w| - 1 :: PairAt(w, i, cell)
  {
    if |w| >= 2 {
      var v := w[..|w| - 1];
      BigramsExact(v, cell);
      forall i | 0 <= i < |v| - 1 ensures PairAt(v, i, cell) <==> PairAt(w, i, cell) {
        assert v[i] == w[i] && v[i + 1] == w[i + 1];
      }
      assert cell in Bigrams(w) <==> cell in Bigrams(v) || PairAt(w, |w| - 2, cell);
    }
  }

  /** The `xxc` cells of a word are exactly its neighbouring triples. */
  lemma {:induction false} TrigramsExact(w: string, cell: Cell)
    requires IsWord(w)
    ensures cell in Trigrams(w) <==> exists i | 0 <= i < |w| - 2 :: TripleAt(w, i, cell)
  {
    if |w| >= 3 {
      var v := w[..|w| - 1];
      TrigramsExact(v, cell);
      forall i | 0 <= i < |v| - 2 ensures TripleAt(v, i, cell) <==> TripleAt(w, i, cell) {
        assert v[i] == w[i] && v[i + 1] == w[i + 1] && v[i + 2] == w[i + 2];
      }
      assert cell in Trigrams(w) <==> cell in Trigrams(v) || TripleAt(w, |w| - 3, cell);
    }
  }

  /** `cell` is the `xc` cell of the letters at `i` and `i + 1`. */
  ghost predicate PairAt(w: string, i: int, cell: Cell)
    requires IsWord(w) && 0 <= i < |w| - 1
  {
    cell == (Ix(w[i]), Ix(w[i + 1]))
  }

  /** `cell` is the `xxc` cell of the letters at `i`, `i + 1` and `i + 2`. */
  ghost predicate TripleAt(w: string, i: int, cell: Cell)
    requires IsWord(w) && 0 <= i < |w| - 2
  {
    cell == (Pair(w[i], w[i + 1]), Ix(w[i + 2]))
  }

  /** A text of letters only is one word. */
  lemma OneWord(s: string)
    requires forall i | 0 <= i < |s| :: IsLetter(ToLower(s[i]))
    ensures TallyOf(s) == WordTally(Lower(s))
  {
    assert s[..|s|] == s;
  }

  /** Any non-letter ends the current word: the text on either side of it is counted separately. */
  lemma {:induction false} SeparatorSplit(s: string, sep: char, t: string)
    requires !IsLetter(ToLower(sep))
    ensures TallyOf(s + [sep] + t) == Plus(TallyOf(s), TallyOf(t))
    decreases |s|
  {
    var all := s + [sep] + t;
    var k := LetterRun(s);
    assert all[..k] == s[..k];
    assert all[k] == if k == |s| then sep else s[k];
    RunEnds(all, k);
    assert FirstWord(all) == FirstWord(s);
    var head := WordTally(FirstWord(s));
    TallyUnfold(all, k);
    TallyUnfold(s, k);
    if k == |s| {
      assert all[k + 1..] == t;
    } else {
      DropJoined(s, sep, t, k + 1);
      SeparatorSplit(s[k + 1..], sep, t);
      PlusAssoc(head, TallyOf(s[k + 1..]), TallyOf(t));
    }
  }

  lemma DropJoined(s: string, sep: char, t: string, j: nat)
    requires j <= |s|
    ensures (s + [sep] + t)[j..] == s[j..] + [sep] + t
  {
    var a, b := (s + [sep] + t)[j..], s[j..] + [sep] + t;
    assert |a| == |b|;
    forall i | 0 <= i < |a| ensures a[i] == b[i] {
      if i < |s| - j {
        assert a[i] == s[j + i];
      } else if i > |s| - j {
        assert a[i] == t[i - (|s| - j) - 1];
      }
    }
  }

  lemma PlusAssoc(a: Tally, b: Tally, c: Tally)
    ensures Plus(a, Plus(b, c)) == Plus(Plus(a, b), c)
  {
    assert a.Xc + (b.Xc + c.Xc) == (a.Xc + b.Xc) + c.Xc;
    assert a.xc + (b.xc + c.xc) == (a.xc + b.xc) + c.xc;
    assert a.xC + (b.xC + c.xC) == (a.xC + b.xC) + c.xC;
    assert a.xxc + (b.xxc + c.xxc) == (a.xxc + b.xxc) + c.xxc;
    assert a.xxC + (b.xxC + c.xxC) == (a.xxC + b.xxC) + c.xxC;
  }

  /** A run of letters followed by a non-letter is the leading run. */
  lemma RunEnds(s: string, k: nat)
    requires k < |s| && !IsLetter(ToLower(s[k]))
    requires forall i | 0 <= i < k :: IsLetter(ToLower(s[i]))
    ensures LetterRun(s) == k
  {
  }

  /** A text of letters only is a single run. */
  lemma RunWhole(s: string)
    requires forall i | 0 <= i < |s| :: IsLetter(ToLower(s[i]))
    ensures LetterRun(s) == |s|
  {
  }

  lemma PlusEmpty(a: Tally)
    ensures Plus(Empty, a) == a && Plus(a, Empty) == a
  {
    assert multiset{} + a.Xc == a.Xc && a.Xc + multiset{} == a.Xc;
  }

  /** A run of non-letters adds nothing. */
  lemma {:induction false} SeparatorsOnly(s: string)
    requires forall i | 0 <= i < |s| :: !IsLetter(ToLower(s[i]))
    ensures TallyOf(s) == Empty
    decreases |s|
  {
    if s != [] {
      assert LetterRun(s) == 0;
      SeparatorsOnly(s[1..]);
    }
  }

  /** Counting ignores case. */
  lemma {:induction false} CaseInsensitive(s: string)
    ensures TallyOf(Lower(s)) == TallyOf(s)
    decreases |s|
  {
    var l := Lower(s);
    var k := LetterRun(s);
    assert LetterRun(l) == k;
    assert FirstWord(l) == FirstWord(s) by {
      assert Lower(l[..k]) == Lower(s[..k]);
    }
    TallyUnfold(s, k);
    TallyUnfold(l, k);
    if k < |s| {
      assert l[k + 1..] == Lower(s[k + 1..]);
      CaseInsensitive(s[k + 1..]);
    }
  }

  /** `TallyOf` one word at a time, with the end of the first word named. */
  lemma TallyUnfold(s: string, k: nat)
    requires k == LetterRun(s)
    ensures k == |s| ==> TallyOf(s) == WordTally(FirstWord(s))
    ensures k < |s| ==> TallyOf(s) == Plus(WordTally(FirstWord(s)), TallyOf(s[k + 1..]))
  {
    var w := FirstWord(s);
    if k == |s| {
      assert TallyOf(s) == WordTally(w);
    } else {
      assert TallyOf(s) == Plus(WordTally(w), TallyOf(s[k + 1..]));
    }
  }

  /**
   * The state of the counting loop inside a word: `x`, `y` and `x_last`,
   * with NUL for "no letter yet".
   */
  datatype Context = Context(x: char, y: char, xLast: char)

  /** The context after reading the letters `u` of the current word. */
  function Ctx(u: string): Context {
    var n := |u|;
    if n == 0 then Context(NUL, NUL, NUL)
    else if n == 1 then Context(u[0], NUL, NUL)
    else if n == 2 then Context(u[0], u[1], u[0])
    else Context(u[n - 2], u[n - 1], u[n - 3])
  }

  /** The context of a word holds letters or NUL, and `y` is set only once `x` is. */
  lemma CtxLetters(u: string)
    requires IsWord(u)
    ensures var ctx := Ctx(u);
      && (ctx.x == NUL <==> u == []) && (ctx.y == NUL <==> |u| < 2) && (ctx.xLast == NUL <==> |u| < 2)
      && (ctx.x == NUL || IsLetter(ctx.x)) && (ctx.y == NUL || IsLetter(ctx.y))
      && (ctx.xLast == NUL || IsLetter(ctx.xLast))
  {
  }

  /** What the loop has counted after reading the letters `u`: every count except those made at the end of the word. */
  function PrefixTally(u: string): Tally
    requires IsWord(u)
  {
    if |u| < 2 then Empty
    else Tally(multiset{(Ix(u[0]), Ix(u[1]))}, Bigrams(u), multiset{}, Trigrams(u), multiset{})
  }

  /** The counts the loop body makes for the letter `c` in context `ctx`. */
  function StepTally(ctx: Context, c: char): Tally
    requires IsLetter(c)
  {
    if ctx.x == NUL || !IsLetter(ctx.x) then Empty
    else if ctx.y == NUL || !IsLetter(ctx.y) then
      Tally(multiset{(Ix(ctx.x), Ix(c))}, multiset{(Ix(ctx.x), Ix(c))}, multiset{}, multiset{}, multiset{})
    else
      Tally(multiset{}, multiset{(Ix(ctx.y), Ix(c))}, multiset{}, multiset{(Pair(ctx.x, ctx.y), Ix(c))}, multiset{})
  }

  /** The context the loop body leaves after the letter `c`. */
  function NextCtx(ctx: Context, c: char): Context {
    if ctx.x == NUL then Context(if ctx.y == NUL then c else ctx.x, ctx.y, ctx.x)
    else if ctx.y == NUL then Context(ctx.x, c, ctx.x)
    else Context(ctx.y, c, ctx.x)
  }

  /** The counts the loop makes when the word has ended. */
  function EndTally(ctx: Context): Tally {
    if ctx.x == NUL || ctx.y == NUL || !IsLetter(ctx.x) || !IsLetter(ctx.y) then Empty
    else if ctx.xLast == NUL || !IsLetter(ctx.xLast) then
      Tally(multiset{}, multiset{}, multiset{(Ix(ctx.x), Ix(ctx.y))}, multiset{}, multiset{})
    else
      Tally(multiset{}, multiset{}, multiset{(Ix(ctx.x), Ix(ctx.y))}, multiset{}, multiset{(Pair(ctx.xLast, ctx.x), Ix(ctx.y))})
  }

  /** One letter of the loop: its context and counts follow the word read so far. */
  lemma LetterStep(u: string, c: char)
    requires IsWord(u) && IsLetter(c)
    ensures IsWord(u + [c])
    ensures Ctx(u + [c]) == NextCtx(Ctx(u), c)
    ensures PrefixTally(u + [c]) == Plus(PrefixTally(u), StepTally(Ctx(u), c))
  {
    var v := u + [c];
    assert v[..|v| - 1] == u;
    CtxStep(u, c);
    if |u| == 1 {
      assert Bigrams(v) == multiset{(Ix(u[0]), Ix(c))};
    } else if |u| >= 2 {
      LetterStepLong(u, c);
    }
  }

  lemma CtxStep(u: string, c: char)
    requires IsWord(u) && IsLetter(c)
    ensures Ctx(u + [c]) == NextCtx(Ctx(u), c)
  {
    var v, n := u + [c], |u|;
    assert v[n] == c;
    if n == 1 {
      assert v[0] == u[0] && IsLetter(u[0]);
    } else if n == 2 {
      assert v[0] == u[0] && v[1] == u[1] && IsLetter(u[0]) && IsLetter(u[1]);
    } else if n > 2 {
      assert v[n - 1] == u[n - 1] && v[n - 2] == u[n - 2] && IsLetter(u[n - 2]) && IsLetter(u[n - 1]);
    }
  }

  lemma LetterStepLong(u: string, c: char)
    requires IsWord(u) && IsLetter(c) && |u| >= 2
    ensures IsWord(u + [c])
    ensures PrefixTally(u + [c]) == Plus(PrefixTally(u), StepTally(Ctx(u), c))
  {
    var v, n := u + [c], |u|;
    var b, t := (Ix(u[n - 1]), Ix(c)), (Pair(u[n - 2], u[n - 1]), Ix(c));
    GramsStep(u, c);
    StepLong(u, c);
    var first := (Ix(u[0]), Ix(u[1]));
    assert PrefixTally(v) == Tally(multiset{first}, Bigrams(v), multiset{}, Trigrams(v), multiset{}) by {
      assert v[0] == u[0] && v[1] == u[1];
    }
    assert PrefixTally(u) == Tally(multiset{first}, Bigrams(u), multiset{}, Trigrams(u), multiset{});
    assert multiset{first} + multiset{} == multiset{first};
  }

  /** After two letters, the loop body counts the pair of `y` and `c` and the triple of `x`, `y` and `c`. */
  lemma StepLong(u: string, c: char)
    requires IsWord(u) && IsLetter(c) && |u| >= 2
    ensures var n := |u|;
      StepTally(Ctx(u), c) == Tally(multiset{}, multiset{(Ix(u[n - 1]), Ix(c))}, multiset{}, multiset{(Pair(u[n - 2], u[n - 1]), Ix(c))}, multiset{})
  {
    var n := |u|;
    assert Ctx(u).x == u[n - 2] && Ctx(u).y == u[n - 1];
    assert IsLetter(u[n - 2]) && IsLetter(u[n - 1]);
  }

  /** A letter appended to a word of two or more adds one pair and one triple. */
  lemma GramsStep(u: string, c: char)
    requires IsWord(u) && IsLetter(c) && |u| >= 2
    ensures IsWord(u + [c])
    ensures Bigrams(u + [c]) == Bigrams(u) + multiset{(Ix(u[|u| - 1]), Ix(c))}
    ensures Trigrams(u + [c]) == Trigrams(u) + multiset{(Pair(u[|u| - 2], u[|u| - 1]), Ix(c))}
  {
    var v := u + [c];
    assert v[..|v| - 1] == u;
  }

  /** The end of a word completes its counts. */
  lemma WordEnd(u: string)
    requires IsWord(u)
    ensures Plus(PrefixTally(u), EndTally(Ctx(u))) == WordTally(u)
  {
    if |u| == 2 {
      WordEndTwo(u);
    } else if |u| > 2 {
      WordEndLong(u);
    }
  }

  lemma WordEndTwo(u: string)
    requires IsWord(u) && |u| == 2
    ensures Plus(PrefixTally(u), EndTally(Ctx(u))) == WordTally(u)
  {
  }

  lemma WordEndLong(u: string)
    requires IsWord(u) && |u| > 2
    ensures Plus(PrefixTally(u), EndTally(Ctx(u))) == WordTally(u)
  {
  }
}
