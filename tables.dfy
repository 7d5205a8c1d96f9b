/**
 * The five process-wide tables `f_Xc`, `f_xc`, `f_xC`, `f_xxc`, `f_xxC` and
 * the two routines that fill them: the counting loop of
 * `tabulate_letter_chain_frequencies`, which adds one to a weight per letter
 * context it sees, and `normalize_dist`, which turns every row into a
 * distribution. The two-letter tables `f_xxc[x][y]` and `f_xxC[x][y]` are
 * stored as rows `26 x + y` of a 676-row table.
 */
module Tables {
  import opened Alphabet
  import opened Distributions
  import opened Tally
  import opened Sampling

  /**
   * An array of `letter_dist`: row `r` holds `dist[26]` as `dist[r, ..]` and
   * `exists` as `present[r]`; `entries` is the same table as a value.
   */
  class DistTable {
    const rows: nat
    const dist: array2<real>
    const present: array<bool>
    ghost var entries: seq<Dist>

    ghost predicate Valid()
      reads this, dist, present
    {
      && dist.Length0 == rows && dist.Length1 == 26 && present.Length == rows
      && |entries| == rows && forall r | 0 <= r < rows :: entries[r] == At(r)
    }

    /** A zero-initialised table, as C gives a static array. */
    constructor (n: nat)
      ensures Valid() && rows == n && fresh(dist) && fresh(present)
      ensures entries == seq(n, _ => Blank)
    {
      rows := n;
      dist := new real[n, 26]((_, _) => 0.0);
      present := new bool[n](_ => false);
      entries := seq(n, _ => Blank);
      new;
      assert forall r | 0 <= r < n :: Weights(r) == Blank.weights;
    }

    /** The weights of row `r`. */
    function Weights(r: int): (w: seq<real>)
      requires dist.Length0 == rows && dist.Length1 == 26 && 0 <= r < rows
      reads dist
      ensures |w| == 26 && forall c | 0 <= c < 26 :: w[c] == dist[r, c]
    {
      seq(26, c requires 0 <= c < 26 reads dist => dist[r, c])
    }

    /** Row `r` as a distribution value. */
    function At(r: int): Dist
      requires dist.Length0 == rows && dist.Length1 == 26 && present.Length == rows && 0 <= r < rows
      reads dist, present
    {
      Dist(Weights(r), present[r])
    }

    /** `dist[r][c]++`. */
    method Bump(r: int, c: int)
      requires Valid() && 0 <= r < rows && 0 <= c < 26
      modifies this, dist
      ensures Valid() && entries == AddCounts(old(entries), multiset{(r, c)})
    {
      dist[r, c] := dist[r, c] + 1.0;
      entries := AddCounts(entries, multiset{(r, c)});
      forall q | 0 <= q < rows ensures entries[q] == At(q) {
        assert Weights(q) == entries[q].weights;
      }
    }

    /**
     * `normalize_dist` on row `r`: sum the weights; when the sum is positive,
     * set `exists` and divide every weight by the sum. No other row changes.
     */
    method Normalize(r: int)
      requires Valid() && 0 <= r < rows
      modifies this, dist, present
      ensures Valid() && entries == old(entries)[r := Normalized(old(entries)[r])]
    {
      ghost var w := Weights(r);
      var sum := 0.0;
      for i := 0 to 26
        invariant sum == Sum(w[..i])
        invariant unchanged(this) && unchanged(dist) && unchanged(present)
      {
        PrefixStep(w, i);
        sum := sum + dist[r, i];
      }
      assert w[..26] == w;
      if sum > 0.0 {
        present[r] := true;
        for i := 0 to 26
          invariant forall j | 0 <= j < i :: dist[r, j] == w[j] / sum
          invariant forall j | i <= j < 26 :: dist[r, j] == w[j]
          invariant forall q, j | 0 <= q < rows && q != r && 0 <= j < 26 :: dist[q, j] == old(dist[q, j])
          invariant present[..] == old(present[..])[r := true]
          invariant unchanged(this)
        {
          dist[r, i] := dist[r, i] / sum;
        }
        assert Weights(r) == Scale(w, sum);
      }
      forall q | 0 <= q < rows && q != r ensures At(q) == old(At(q)) {
        assert Weights(q) == old(Weights(q));
        assert present[q] == old(present[q]);
      }
      entries := entries[r := At(r)];
    }

    /** `normalize_dist` on every row, in row order. */
    method NormalizeEvery()
      requires Valid()
      modifies this, dist, present
      ensures Valid() && entries == NormalizeRows(old(entries))
    {
      ghost var before := entries;
      for r := 0 to rows
        invariant Valid()
        invariant entries == NormalizeRows(before[..r]) + before[r..]
      {
        NormalizedUpTo(before, r);
        Normalize(r);
      }
      assert before[..rows] == before;
    }
  }

  /** Normalising row `r` of a table whose rows before `r` are normalised extends that prefix by one. */
  lemma NormalizedUpTo(before: seq<Dist>, r: nat)
    requires r < |before|
    ensures var e := NormalizeRows(before[..r]) + before[r..];
      e[r] == before[r] && e[r := Normalized(before[r])] == NormalizeRows(before[..r + 1]) + before[r + 1..]
  {
    var e := NormalizeRows(before[..r]) + before[r..];
    var a, b := e[r := Normalized(before[r])], NormalizeRows(before[..r + 1]) + before[r + 1..];
    assert |a| == |b|;
    forall i | 0 <= i < |a| ensures a[i] == b[i] {
      if i < r {
        assert a[i] == Normalized(before[..r][i]) && b[i] == Normalized(before[..r + 1][i]);
      } else if i > r {
        assert a[i] == before[r..][i - r] && b[i] == before[r + 1..][i - r - 1];
      }
    }
  }

  /** The row of a table no word has touched: all zero, not existing. */
  const Blank: Dist := Dist(seq(26, _ => 0.0), false)

  /** Each row of `ds` with the counts `m` of that row added to its weights. */
  function AddCounts(ds: seq<Dist>, m: multiset<Cell>): (r: seq<Dist>)
    ensures |r| == |ds| && forall i | 0 <= i < |ds| :: r[i] == AddRow(ds[i], i, m)
  {
    seq(|ds|, i requires 0 <= i < |ds| => AddRow(ds[i], i, m))
  }

  /** Row `i` with the counts `m` of that row added to its weights. */
  function AddRow(d: Dist, i: int, m: multiset<Cell>): (e: Dist)
    ensures |e.weights| == |d.weights| && e.present == d.present
    ensures forall c | 0 <= c < |d.weights| :: e.weights[c] == d.weights[c] + m[(i, c)] as real
  {
    Dist(seq(|d.weights|, c requires 0 <= c < |d.weights| => d.weights[c] + m[(i, c)] as real), d.present)
  }

  /** `normalize_dist` on every row. */
  function NormalizeRows(ds: seq<Dist>): (r: seq<Dist>)
    ensures |r| == |ds| && forall i | 0 <= i < |ds| :: r[i] == Normalized(ds[i])
  {
    seq(|ds|, i requires 0 <= i < |ds| => Normalized(ds[i]))
  }

  /** Adding the counts `a` and then `b` adds the counts `a + b`. */
  lemma AddCountsPlus(ds: seq<Dist>, a: multiset<Cell>, b: multiset<Cell>)
    ensures AddCounts(AddCounts(ds, a), b) == AddCounts(ds, a + b)
  {
    var l, r := AddCounts(AddCounts(ds, a), b), AddCounts(ds, a + b);
    forall i | 0 <= i < |ds| ensures l[i] == r[i] {
      AddRowPlus(ds[i], i, a, b);
    }
  }

  lemma AddRowPlus(d: Dist, i: int, a: multiset<Cell>, b: multiset<Cell>)
    ensures AddRow(AddRow(d, i, a), i, b) == AddRow(d, i, a + b)
  {
    var l, r := AddRow(AddRow(d, i, a), i, b), AddRow(d, i, a + b);
    assert l.weights == r.weights;
  }

  /** Adding no counts changes nothing. */
  lemma AddNothing(ds: seq<Dist>)
    ensures AddCounts(ds, multiset{}) == ds
  {
    var l := AddCounts(ds, multiset{});
    forall i | 0 <= i < |ds| ensures l[i] == ds[i] {
      var e := AddRow(ds[i], i, multiset{});
      assert e.weights == ds[i].weights;
    }
  }

  /** One table's rows `es` are `ds` with the counts `m` added. */
  ghost predicate GainedRows(ds: seq<Dist>, es: seq<Dist>, m: multiset<Cell>)
  {
    es == AddCounts(ds, m) || (m == multiset{} && es == ds)
  }

  /** Tables that changed table by table as the counts `t` say hold `before` plus `t`. */
  lemma Gained(before: Model, after: Model, t: Tally)
    requires GainedRows(before.Xc, after.Xc, t.Xc) && GainedRows(before.xc, after.xc, t.xc)
    requires GainedRows(before.xC, after.xC, t.xC) && GainedRows(before.xxc, after.xxc, t.xxc)
    requires GainedRows(before.xxC, after.xxC, t.xxC)
    ensures after == WithCounts(before, t)
  {
    AddNothing(before.Xc);
    AddNothing(before.xc);
    AddNothing(before.xC);
    AddNothing(before.xxc);
    AddNothing(before.xxC);
  }

  lemma WithNothing(m: Model)
    ensures WithCounts(m, Empty) == m
  {
    Gained(m, m, Empty);
  }

  /** Counting `a` and then `b` is counting `Plus(a, b)`. */
  lemma WithCountsPlus(m: Model, a: Tally, b: Tally)
    ensures WithCounts(WithCounts(m, a), b) == WithCounts(m, Plus(a, b))
  {
    AddCountsPlus(m.Xc, a.Xc, b.Xc);
    AddCountsPlus(m.xc, a.xc, b.xc);
    AddCountsPlus(m.xC, a.xC, b.xC);
    AddCountsPlus(m.xxc, a.xxc, b.xxc);
    AddCountsPlus(m.xxC, a.xxC, b.xxC);
  }

  /** Every table with one text's counts added. */
  function WithCounts(m: Model, t: Tally): Model {
    Model(AddCounts(m.Xc, t.Xc), AddCounts(m.xc, t.xc), AddCounts(m.xC, t.xC),
          AddCounts(m.xxc, t.xxc), AddCounts(m.xxC, t.xxC))
  }

  /** Every table normalised. */
  function NormalizeModel(m: Model): Model {
    Model(NormalizeRows(m.Xc), NormalizeRows(m.xc), NormalizeRows(m.xC), NormalizeRows(m.xxc), NormalizeRows(m.xxC))
  }

  /** The tables before any text is read. */
  function BlankModel(): (m: Model)
    ensures ValidModel(m)
  {
    Model(seq(26, _ => Blank), seq(26, _ => Blank), seq(26, _ => Blank), seq(676, _ => Blank), seq(676, _ => Blank))
  }

  /** The tables `tabulate_letter_chain_frequencies` leaves after reading `text` into blank tables. */
  function Trained(text: string): Model {
    NormalizeModel(WithCounts(BlankModel(), TallyOf(text)))
  }

  /**
   * A trained row has a distribution exactly when the text counted some
   * letter in that row's context, and it then sums to one; a row without one
   * keeps all-zero weights.
   */
  ghost predicate TrainedRows(ds: seq<Dist>, m: multiset<Cell>) {
    forall r | 0 <= r < |ds| ::
      && WellFormed(ds[r])
      && (ds[r].present <==> exists c | 0 <= c < 26 :: (r, c) in m)
      && (ds[r].present ==> Sum(ds[r].weights) == 1.0)
      && (!ds[r].present ==> forall c | 0 <= c < 26 :: ds[r].weights[c] == 0.0)
  }

  /** After training, the tables are well formed, and a row exists exactly when its context occurred in the text. */
  lemma TrainedTables(text: string)
    ensures ValidModel(Trained(text))
    ensures var t, m := TallyOf(text), Trained(text);
      && TrainedRows(m.Xc, t.Xc) && TrainedRows(m.xc, t.xc) && TrainedRows(m.xC, t.xC)
      && TrainedRows(m.xxc, t.xxc) && TrainedRows(m.xxC, t.xxC)
  {
    var t := TallyOf(text);
    TrainedTable(26, t.Xc);
    TrainedTable(26, t.xc);
    TrainedTable(26, t.xC);
    TrainedTable(676, t.xxc);
    TrainedTable(676, t.xxC);
  }

  lemma TrainedTable(n: nat, m: multiset<Cell>)
    ensures TrainedRows(NormalizeRows(AddCounts(seq(n, _ => Blank), m)), m)
  {
    var ds := AddCounts(seq(n, _ => Blank), m);
    forall r | 0 <= r < n
      ensures var d := Normalized(ds[r]);
        && WellFormed(d)
        && (d.present <==> exists c | 0 <= c < 26 :: (r, c) in m)
        && (d.present ==> Sum(d.weights) == 1.0)
        && (!d.present ==> forall c | 0 <= c < 26 :: d.weights[c] == 0.0)
    {
      var w := ds[r].weights;
      assert forall c | 0 <= c < 26 :: w[c] == m[(r, c)] as real;
      SumPositive(w);
      NormalizedWellFormed(ds[r]);
      if Sum(w) > 0.0 {
        var c :| 0 <= c < 26 && w[c] > 0.0;
        assert (r, c) in m;
      } else {
      }
    }
  }

  /** The letter loop has read `text[start..pos]` as the word `u` and holds the context `ctx` of it. */
  ghost predicate Reading(text: string, start: nat, pos: nat, u: string, ctx: Context) {
    && start <= pos <= |text| && IsWord(u) && u == Lower(text[start..pos]) && ctx == Ctx(u)
  }

  lemma ReadingLetters(text: string, start: nat, pos: nat, u: string, ctx: Context)
    requires Reading(text, start, pos, u, ctx)
    ensures (ctx.x == NUL || IsLetter(ctx.x)) && (ctx.y == NUL || IsLetter(ctx.y)) && (ctx.x == NUL ==> ctx.y == NUL)
    ensures ctx.xLast == NUL || IsLetter(ctx.xLast)
  {
    CtxLetters(u);
  }

  /** One more letter read: the word grows by it, and the counts by those of the loop body. */
  lemma ReadingNext(text: string, start: nat, pos: nat, u: string, ctx: Context, next: Context)
    requires Reading(text, start, pos, u, ctx)
    requires pos < |text| && IsLetter(ToLower(text[pos]))
    requires next == NextCtx(ctx, ToLower(text[pos]))
    ensures Reading(text, start, pos + 1, u + [ToLower(text[pos])], next)
    ensures PrefixTally(u + [ToLower(text[pos])]) == Plus(PrefixTally(u), StepTally(ctx, ToLower(text[pos])))
  {
    LowerNext(text, start, pos);
    LetterStep(u, ToLower(text[pos]));
  }

  /** The word `u` the letter loop stops after is the first word of `text[start..]`; the rest follows the separator. */
  lemma WordThenRest(text: string, start: nat, pos: nat, u: string, ctx: Context)
    requires Reading(text, start, pos, u, ctx)
    requires pos < |text| ==> !IsLetter(ToLower(text[pos]))
    ensures pos == |text| ==> TallyOf(text[start..]) == WordTally(u)
    ensures pos < |text| ==> TallyOf(text[start..]) == Plus(WordTally(u), TallyOf(text[pos + 1..]))
  {
    var rest, k := text[start..], pos - start;
    assert rest[..k] == text[start..pos];
    forall i | 0 <= i < k ensures IsLetter(ToLower(rest[i])) {
      assert u[i] == ToLower(rest[i]);
    }
    if pos == |text| {
      RunWhole(rest);
    } else {
      RunEnds(rest, k);
      assert rest[k + 1..] == text[pos + 1..];
    }
    assert FirstWord(rest) == u;
    TallyUnfold(rest, k);
  }

  /** The counts of the letter loop and then of the end of the word `u` are the counts of `u`. */
  lemma WordCounted(m: Model, u: string, ctx: Context)
    requires IsWord(u) && ctx == Ctx(u)
    ensures WithCounts(WithCounts(m, PrefixTally(u)), EndTally(ctx)) == WithCounts(m, WordTally(u))
  {
    WordEnd(u);
    WithCountsPlus(m, PrefixTally(u), EndTally(ctx));
  }

  /** Reading one more character of `text` extends its lower-cased slice by one. */
  lemma LowerNext(text: string, start: nat, pos: nat)
    requires start <= pos < |text|
    ensures Lower(text[start..pos + 1]) == Lower(text[start..pos]) + [ToLower(text[pos])]
  {
    assert text[start..pos + 1] == text[start..pos] + [text[pos]];
  }

  /** Two tables that share neither the table nor its arrays. */
  ghost predicate Apart(s: DistTable, t: DistTable) {
    s != t && s.dist != t.dist && s.present != t.present
  }

  /** The five tables together. */
  class Markov {
    const Xc: DistTable
    const xc: DistTable
    const xC: DistTable
    const xxc: DistTable
    const xxC: DistTable

    ghost predicate Valid()
      reads Repr()
    {
      && Xc.Valid() && xc.Valid() && xC.Valid() && xxc.Valid() && xxC.Valid()
      && Xc.rows == 26 && xc.rows == 26 && xC.rows == 26 && xxc.rows == 676 && xxC.rows == 676
      && Apart(Xc, xc) && Apart(Xc, xC) && Apart(Xc, xxc) && Apart(Xc, xxC)
      && Apart(xc, xC) && Apart(xc, xxc) && Apart(xc, xxC)
      && Apart(xC, xxc) && Apart(xC, xxC)
      && Apart(xxc, xxC)
    }

    /** The tables and their arrays. */
    ghost function Repr(): set<object> {
      {Xc, xc, xC, xxc, xxC,
       Xc.dist, xc.dist, xC.dist, xxc.dist, xxC.dist,
       Xc.present, xc.present, xC.present, xxc.present, xxC.present}
    }

    /** The tables as zero-initialised statics. */
    constructor ()
      ensures Valid() && fresh(Repr())
      ensures Snapshot() == BlankModel()
    {
      Xc := new DistTable(26);
      xc := new DistTable(26);
      xC := new DistTable(26);
      xxc := new DistTable(676);
      xxC := new DistTable(676);
    }

    /** The current contents of the tables, as the samplers read them. */
    ghost function Snapshot(): (m: Model)
      reads Repr()
    {
      Model(Xc.entries, xc.entries, xC.entries, xxc.entries, xxC.entries)
    }

    /**
     * The counting loop of `tabulate_letter_chain_frequencies`, over the file
     * contents `text`: one word per pass, until the character that ended the
     * word is the end of the text. It adds exactly the counts of
     * `TallyOf(text)` and leaves the `exists` flags alone.
     */
    method Count(text: string)
      requires Valid()
      modifies Xc, xc, xC, xxc, xxC, Xc.dist, xc.dist, xC.dist, xxc.dist, xxC.dist
      ensures Valid() && Snapshot() == WithCounts(old(Snapshot()), TallyOf(text))
    {
      ghost var s0 := Snapshot();
      var pos := 0;
      var eof := false;
      ghost var acc := Empty;
      assert text[pos..] == text;
      PlusEmpty(TallyOf(text));
      WithNothing(s0);
      while !eof
        invariant 0 <= pos <= |text|
        invariant !eof ==> Plus(acc, TallyOf(text[pos..])) == TallyOf(text)
        invariant eof ==> acc == TallyOf(text)
        invariant Valid() && Snapshot() == WithCounts(s0, acc)
        decreases |text| - pos + (if eof then 0 else 1)
      {
        var next;
        ghost var w;
        next, eof, w := CountWord(text, pos);
        if !eof {
          PlusAssoc(acc, w, TallyOf(text[next..]));
        }
        WithCountsPlus(s0, acc, w);
        pos, acc := next, Plus(acc, w);
      }
    }

    /**
     * One pass of the `do ... while` loop: the letters of one word from
     * `start` and the counts at its end. Returns the counts `w` it made,
     * whether the character that ended the word was the end of the text,
     * and otherwise where the rest of the text begins.
     */
    method CountWord(text: string, start: nat) returns (next: nat, eof: bool, ghost w: Tally)
      requires Valid() && start <= |text|
      modifies Xc, xc, xC, xxc, xxC, Xc.dist, xc.dist, xC.dist, xxc.dist, xxC.dist
      ensures Valid() && Snapshot() == WithCounts(old(Snapshot()), w)
      ensures start <= next <= |text| && (eof ==> TallyOf(text[start..]) == w)
      ensures !eof ==> start < next && TallyOf(text[start..]) == Plus(w, TallyOf(text[next..]))
    {
      ghost var s0 := Snapshot();
      var pos, x, y, xLast;
      ghost var u;
      pos, x, y, xLast, u := ReadWord(text, start);
      ghost var ctx := Context(x, y, xLast);
      ReadingLetters(text, start, pos, u, ctx);
      WordThenRest(text, start, pos, u, ctx);
      EndWord(x, y, xLast);
      WordCounted(s0, u, ctx);
      w := WordTally(u);
      eof := pos == |text|;
      next := if eof then pos else pos + 1;
    }

    /**
     * The inner loop: reads the letters of one word from `start`, counting
     * each in the context `x`, `y`, `x_last` of the letters before it.
     * Returns where the word ended, the final context and the word read.
     */
    method ReadWord(text: string, start: nat) returns (pos: nat, x: char, y: char, xLast: char, ghost u: string)
      requires Valid() && start <= |text|
      modifies Xc, Xc.dist, xc, xc.dist, xxc, xxc.dist
      ensures Valid() && Reading(text, start, pos, u, Context(x, y, xLast))
      ensures pos < |text| ==> !IsLetter(ToLower(text[pos]))
      ensures Snapshot() == WithCounts(old(Snapshot()), PrefixTally(u))
    {
      ghost var s0 := Snapshot();
      pos, x, y, xLast, u := start, NUL, NUL, NUL, [];
      WithNothing(s0);
      while pos < |text| && IsLetter(ToLower(text[pos]))
        invariant Reading(text, start, pos, u, Context(x, y, xLast))
        invariant Valid() && Snapshot() == WithCounts(s0, PrefixTally(u))
        decreases |text| - pos
      {
        x, y, xLast, u := ReadLetter(text, start, pos, x, y, xLast, u, s0);
        pos := pos + 1;
      }
    }

    /** One pass of the letter loop of `ReadWord`, over the letter at `pos`. */
    method ReadLetter(text: string, start: nat, pos: nat, x: char, y: char, xLast: char, ghost u: string, ghost s0: Model)
      returns (x': char, y': char, xLast': char, ghost u': string)
      requires Valid() && Reading(text, start, pos, u, Context(x, y, xLast))
      requires pos < |text| && IsLetter(ToLower(text[pos]))
      requires Snapshot() == WithCounts(s0, PrefixTally(u))
      modifies Xc, Xc.dist, xc, xc.dist, xxc, xxc.dist
      ensures u' == u + [ToLower(text[pos])]
      ensures Valid() && Reading(text, start, pos + 1, u', Context(x', y', xLast'))
      ensures Snapshot() == WithCounts(s0, PrefixTally(u'))
    {
      var c := ToLower(text[pos]);
      u' := u + [c];
      ghost var ctx := Context(x, y, xLast);
      ReadingLetters(text, start, pos, u, ctx);
      xLast' := x;
      x', y' := CountLetter(x, y, c, ctx);
      ReadingNext(text, start, pos, u, ctx, Context(x', y', xLast'));
      WithCountsPlus(s0, PrefixTally(u), StepTally(ctx, c));
    }

    /**
     * One pass of the letter loop for the letter `c` in the context `x`, `y`:
     * the counts it makes and the context it leaves.
     */
    method CountLetter(x: char, y: char, c: char, ghost ctx: Context) returns (x': char, y': char)
      requires Valid() && IsLetter(c) && ctx.x == x && ctx.y == y
      requires (x == NUL || IsLetter(x)) && (y == NUL || IsLetter(y)) && (x == NUL ==> y == NUL)
      modifies Xc, Xc.dist, xc, xc.dist, xxc, xxc.dist
      ensures Valid() && Context(x', y', x) == NextCtx(ctx, c)
      ensures Snapshot() == WithCounts(old(Snapshot()), StepTally(ctx, c))
    {
      x', y' := x, y;
      if x == NUL {
        if y == NUL {
          x' := c;
        }
        WithNothing(Snapshot());
      } else if y == NUL {
        CountBigram(x, c, ctx);
        y' := c;
      } else {
        CountTrigram(x, y, c, ctx);
        x' := y;
        y' := c;
      }
    }

    /** The second letter `c` of a word that began with `x`: `f_Xc[x][c]++` and `f_xc[x][c]++`. */
    method CountBigram(x: char, c: char, ghost ctx: Context)
      requires Valid() && IsLetter(x) && IsLetter(c) && ctx.x == x && ctx.y == NUL
      modifies Xc, Xc.dist, xc, xc.dist
      ensures Valid() && Snapshot() == WithCounts(old(Snapshot()), StepTally(ctx, c))
    {
      ghost var s0 := Snapshot();
      Xc.Bump(Ix(x), Ix(c));
      xc.Bump(Ix(x), Ix(c));
      Gained(s0, Snapshot(), StepTally(ctx, c));
    }

    /** A later letter `c` after `x`, `y`: `f_xxc[x][y][c]++` and `f_xc[y][c]++`. */
    method CountTrigram(x: char, y: char, c: char, ghost ctx: Context)
      requires Valid() && IsLetter(x) && IsLetter(y) && IsLetter(c) && ctx.x == x && ctx.y == y
      modifies xc, xc.dist, xxc, xxc.dist
      ensures Valid() && Snapshot() == WithCounts(old(Snapshot()), StepTally(ctx, c))
    {
      ghost var s0 := Snapshot();
      xxc.Bump(Pair(x, y), Ix(c));
      xc.Bump(Ix(y), Ix(c));
      Gained(s0, Snapshot(), StepTally(ctx, c));
    }

    /** The end of a word: its last pair, and its last triple when `x_last` is set. */
    method EndWord(x: char, y: char, xLast: char)
      requires Valid()
      requires (x == NUL || IsLetter(x)) && (y == NUL || IsLetter(y)) && (xLast == NUL || IsLetter(xLast))
      modifies xC, xC.dist, xxC, xxC.dist
      ensures Valid() && Snapshot() == WithCounts(old(Snapshot()), EndTally(Context(x, y, xLast)))
    {
      if x != NUL && y != NUL {
        ghost var s0 := Snapshot();
        xC.Bump(Ix(x), Ix(y));
        if xLast != NUL {
          CountLastTrigram(xLast, x, y, s0);
        } else {
          Gained(s0, Snapshot(), EndTally(Context(x, y, xLast)));
        }
      } else {
        WithNothing(Snapshot());
      }
    }

    /** `f_xxC[x_last][x][y]++`, after the `f_xC[x][y]++` that took the tables from `s0`. */
    method CountLastTrigram(xLast: char, x: char, y: char, ghost s0: Model)
      requires Valid() && IsLetter(xLast) && IsLetter(x) && IsLetter(y)
      requires Snapshot() == s0.(xC := AddCounts(s0.xC, multiset{(Ix(x), Ix(y))}))
      modifies xxC, xxC.dist
      ensures Valid() && Snapshot() == WithCounts(s0, EndTally(Context(x, y, xLast)))
    {
      xxC.Bump(Pair(xLast, x), Ix(y));
      Gained(s0, Snapshot(), EndTally(Context(x, y, xLast)));
    }

    /** The normalising loops of `tabulate_letter_chain_frequencies`: `normalize_dist` on every row of every table. */
    method NormalizeAll()
      requires Valid()
      modifies Repr()
      ensures Valid() && Snapshot() == NormalizeModel(old(Snapshot()))
    {
      xc.NormalizeEvery();
      Xc.NormalizeEvery();
      xC.NormalizeEvery();
      xxc.NormalizeEvery();
      xxC.NormalizeEvery();
    }

    /**
     * `tabulate_letter_chain_frequencies` once the file has been read into
     * `text`: count, then normalise every row.
     */
    method Tabulate(text: string)
      requires Valid()
      modifies Repr()
      ensures Valid() && Snapshot() == NormalizeModel(WithCounts(old(Snapshot()), TallyOf(text)))
    {
      Count(text);
      NormalizeAll();
    }
  }
}
