/**
 * Weighted sampling and the letter samplers `rand_letter_*`. The five
 * process-wide tables are passed as one `Model` value, the draws as a
 * `Stream` with a cursor, and `log_2` as a function of the environment.
 * Each sampler says which letter it wrote to `*dst` (if any), the entropy
 * it returned and the cursor after the draws it consumed.
 */
module Sampling {
  import opened Options
  import opened Alphabet
  import opened Random
  import opened Distributions

  /**
   * The five tables: `Xc[x]` (second letter after first letter `x`),
   * `xc[x]` (next letter after `x`), `xC[x]` (last letter after `x`), and
   * `xxc[26 x + y]`, `xxC[26 x + y]` (next and last letter after `x y`).
   */
  datatype Model = Model(Xc: seq<Dist>, xc: seq<Dist>, xC: seq<Dist>, xxc: seq<Dist>, xxC: seq<Dist>)

  ghost predicate ValidModel(m: Model) {
    && |m.Xc| == 26 && |m.xc| == 26 && |m.xC| == 26 && |m.xxc| == 676 && |m.xxC| == 676
    && (forall i | 0 <= i < 26 :: WellFormed(m.Xc[i]) && WellFormed(m.xc[i]) && WellFormed(m.xC[i]))
    && (forall i | 0 <= i < 676 :: WellFormed(m.xxc[i]) && WellFormed(m.xxC[i]))
  }

  /** What the samplers read: the tables, the function `log_2` and the draws. */
  datatype Env = Env(model: Model, log2: real -> real, draws: Stream)

  ghost predicate ValidEnv(env: Env) {
    ValidModel(env.model)
  }

  /** The weight of the letter `c` in row `r` of a table (0.0 outside the table). */
  function Weight(table: seq<Dist>, r: int, c: char): real {
    if 0 <= r < |table| && IsLetter(c) && Ix(c) < |table[r].weights| then table[r].weights[Ix(c)] else 0.0
  }

  /** `entropy(p) = -log_2(p)`. */
  function Entropy(env: Env, p: real): real {
    -env.log2(p)
  }

  /** The outcome of one sampler: the character written to `*dst` (None: left unwritten), the entropy returned, the next draw. */
  datatype Pick = Pick(letter: Option<char>, entropy: real, next: nat)

  /** A letter sampler writes a letter, or writes nothing and returns 0.0. */
  ghost predicate Sound(p: Pick) {
    && (p.letter.Some? ==> IsLetter(p.letter.value))
    && (p.letter.None? ==> p.entropy == 0.0)
  }

  /** The pool of separator characters (`symbols`). */
  const SYMBOLS: string := "~!@#$%^&*_-+=|:;()[]\"'<>,.?/0123456789"

  /**
   * Membership in the symbol pool by character class: printable ASCII
   * other than a letter of either case, `\\`, `` ` ``, `{` and `}`.
   */
  predicate IsSymbol(c: char) {
    && '!' <= c <= '~' && !IsLetter(c) && !IsUpper(c)
    && c != '\\' && c != '`' && c != '{' && c != '}'
  }

  /** Every entry of the pool is a symbol. */
  lemma PoolSymbols(i: int)
    requires 0 <= i < |SYMBOLS|
    ensures IsSymbol(SYMBOLS[i])
  {
  }

  /** The pool holds every symbol, so `IsSymbol` describes exactly the pool. */
  lemma SymbolsInPool(c: char)
    ensures IsSymbol(c) <==> c in SYMBOLS
  {
    if c in SYMBOLS {
      var i :| 0 <= i < |SYMBOLS| && SYMBOLS[i] == c;
      PoolSymbols(i);
    }
  }

  /** `rand_index_from_dist` as a function: -1 without a draw when the distribution does not exist, else the index of the next draw and the cursor after it. */
  function Sample(d: Dist, draws: Stream, k: nat): (int, nat) {
    if !d.present then (-1, k) else (IndexOf(d.weights, Unit(draws(k))), k + 1)
  }

  /**
   * `rand_index_from_dist`: draws `u` only when the distribution exists, then
   * walks the weights with a running sum and returns the first index whose
   * interval (sum, sum + dist[i]] holds `u`.
   */
  method RandIndexFromDist(d: Dist, draws: Stream, k: nat) returns (i: int, next: nat)
    requires WellFormed(d)
    ensures (i, next) == Sample(d, draws, k)
  {
    if !d.present {
      return -1, k;
    }
    var u := RandDouble(draws(k));
    next := k + 1;
    var sum := 0.0;
    for j := 0 to 26
      invariant sum == Sum(d.weights[..j])
      invariant IndexOf(d.weights, u) == Scan(d.weights, u, j, sum)
    {
      if u > sum && u <= sum + d.weights[j] {
        return j, next;
      }
      PrefixStep(d.weights, j);
      sum := sum + d.weights[j];
    }
    i := -1;
  }

  /**
   * The step every `rand_letter_*` function takes on one table entry: sample
   * it; on -1 write nothing and return 0.0, otherwise write the letter and
   * return the entropy of its weight.
   */
  function FromDist(env: Env, d: Dist, k: nat): (p: Pick)
    requires WellFormed(d)
    ensures Sound(p)
    ensures p.letter.Some? ==> d.weights[Ix(p.letter.value)] > 0.0
  {
    var (i, next) := Sample(d, env.draws, k);
    IndexOfFirst(d.weights, Unit(env.draws(k)));
    if i == -1 then Pick(None, 0.0, next)
    else Pick(Some(LetterOf(i)), Entropy(env, d.weights[i]), next)
  }

  /** `rand_letter_Cx`: a uniform letter, `(char)(u * 26) + 'a'`, worth `entropy(1/26)`. */
  function LetterCx(env: Env, k: nat): (p: Pick)
    ensures p.letter.Some? && IsLetter(p.letter.value) && p.next == k + 1
  {
    var u := Unit(env.draws(k));
    var i := (u * 26.0).Floor;
    Pick(Some(LetterOf(i)), Entropy(env, 1.0 / 26.0), k + 1)
  }

  /** `rand_letter_xc`: the letter after `x`, from `xc[x]` alone. */
  function Letterxc(env: Env, x: char, k: nat): (p: Pick)
    requires ValidEnv(env) && IsLetter(x)
    ensures Sound(p)
    ensures p.letter.Some? ==> Weight(env.model.xc, Ix(x), p.letter.value) > 0.0
  {
    FromDist(env, env.model.xc[Ix(x)], k)
  }

  /** `rand_letter_Xc`: the second letter of a word after `x`, from `Xc[x]`, else from `xc[x]`. */
  function LetterXc(env: Env, x: char, k: nat): (p: Pick)
    requires ValidEnv(env) && IsLetter(x)
    ensures Sound(p)
    ensures p.letter.Some? ==>
      Weight(env.model.Xc, Ix(x), p.letter.value) > 0.0 || Weight(env.model.xc, Ix(x), p.letter.value) > 0.0
  {
    TryChain(env, [env.model.Xc[Ix(x)], env.model.xc[Ix(x)]], k)
  }

  /** `rand_letter_xxc`: an inner letter after `x y`, from `xxc[x][y]`, else from `xc[y]`. */
  function Letterxxc(env: Env, x: char, y: char, k: nat): (p: Pick)
    requires ValidEnv(env) && IsLetter(x) && IsLetter(y)
    ensures Sound(p)
    ensures p.letter.Some? ==>
      Weight(env.model.xxc, Pair(x, y), p.letter.value) > 0.0 || Weight(env.model.xc, Ix(y), p.letter.value) > 0.0
  {
    TryChain(env, [env.model.xxc[Pair(x, y)], env.model.xc[Ix(y)]], k)
  }

  /** `rand_letter_xC`: the last letter after `x`, from `xC[x]`, else from `xc[x]`. */
  function LetterxC(env: Env, x: char, k: nat): (p: Pick)
    requires ValidEnv(env) && IsLetter(x)
    ensures Sound(p)
    ensures p.letter.Some? ==>
      Weight(env.model.xC, Ix(x), p.letter.value) > 0.0 || Weight(env.model.xc, Ix(x), p.letter.value) > 0.0
  {
    TryChain(env, [env.model.xC[Ix(x)], env.model.xc[Ix(x)]], k)
  }

  /** `rand_letter_xxC`: the last letter after `x y`, from `xxC[x][y]`, else as `rand_letter_xC(y)`. */
  function LetterxxC(env: Env, x: char, y: char, k: nat): (p: Pick)
    requires ValidEnv(env) && IsLetter(x) && IsLetter(y)
    ensures Sound(p)
    ensures p.letter.Some? ==>
      || Weight(env.model.xxC, Pair(x, y), p.letter.value) > 0.0
      || Weight(env.model.xC, Ix(y), p.letter.value) > 0.0
      || Weight(env.model.xc, Ix(y), p.letter.value) > 0.0
  {
    TryChain(env, [env.model.xxC[Pair(x, y)], env.model.xC[Ix(y)], env.model.xc[Ix(y)]], k)
  }

  /** `rand_symbol`: `symbols[(int)(u * 38)]`, worth `entropy(1/38)`. */
  function RandSymbol(env: Env, k: nat): (p: Pick)
    ensures p.letter.Some? && IsSymbol(p.letter.value) && p.next == k + 1
    ensures p.entropy == Entropy(env, 1.0 / |SYMBOLS| as real)
  {
    var u := Unit(env.draws(k));
    var i := (u * |SYMBOLS| as real).Floor;
    NthIndex(SYMBOLS, i);
    PoolSymbols(i);
    Pick(Some(Nth(SYMBOLS, i)), Entropy(env, 1.0 / |SYMBOLS| as real), k + 1)
  }

  /**
   * `pool[i]`, found by walking the pool from its front; written as a
   * recursion so that a symbol drawn at an unknown index is not looked up
   * entry by entry in the whole pool.
   */
  function Nth(pool: string, i: nat): char
    requires i < |pool|
    decreases i
  {
    if i == 0 then pool[0] else Nth(pool[1..], i - 1)
  }

  lemma {:induction false} NthIndex(pool: string, i: nat)
    requires i < |pool|
    ensures Nth(pool, i) == pool[i]
    decreases i
  {
    if i > 0 {
      NthIndex(pool[1..], i - 1);
    }
  }

  /**
   * The fallback chains written as explicit ordered lists: try each table
   * entry in turn until one of them yields a letter.
   */
  function TryChain(env: Env, ds: seq<Dist>, k: nat): (p: Pick)
    requires forall j | 0 <= j < |ds| :: WellFormed(ds[j])
    ensures Sound(p)
    ensures p.letter.Some? ==> exists j | 0 <= j < |ds| :: Backs(ds[j], p.letter.value)
    decreases |ds|
  {
    if ds == [] then Pick(None, 0.0, k)
    else
      var p := FromDist(env, ds[0], k);
      if p.letter.None? then TryChain(env, ds[1..], p.next) else p
  }

  /** The entry `d` gives the letter `c` a positive weight. */
  ghost predicate Backs(d: Dist, c: char) {
    IsLetter(c) && Ix(c) < |d.weights| && d.weights[Ix(c)] > 0.0
  }

  /** How many of the first `j` entries of a chain exist, and so consume a draw when tried. */
  function PresentBefore(ds: seq<Dist>, j: nat): nat
    requires j <= |ds|
  {
    if j == 0 then 0 else PresentBefore(ds, j - 1) + (if ds[j - 1].present then 1 else 0)
  }

  /** The draw number entry `j` of a chain is tried with: `k` plus one per existing entry before it. */
  function DrawFor(ds: seq<Dist>, k: nat, j: nat): nat
    requires j <= |ds|
  {
    k + PresentBefore(ds, j)
  }

  lemma {:induction false} PresentBeforeTail(ds: seq<Dist>, j: nat)
    requires 1 <= j <= |ds|
    ensures PresentBefore(ds, j) == (if ds[0].present then 1 else 0) + PresentBefore(ds[1..], j - 1)
  {
    if j > 1 {
      PresentBeforeTail(ds, j - 1);
    }
  }

  /** Entry `j` of a chain is entry `j - 1` of its tail, which starts one draw later when the head exists. */
  lemma {:induction false} DrawForTail(ds: seq<Dist>, k: nat, j: nat)
    requires 1 <= j <= |ds|
    ensures DrawFor(ds, k, j) == DrawFor(ds[1..], k + (if ds[0].present then 1 else 0), j - 1)
  {
    PresentBeforeTail(ds, j);
  }

  /** The entry `d`, tried with draw number `k`, yields no index. */
  ghost predicate Misses(env: Env, d: Dist, k: nat) {
    !d.present || IndexOf(d.weights, Unit(env.draws(k))) == -1
  }

  /** `Misses` depends on the draw number only. */
  lemma {:induction false} MissesAt(env: Env, d: Dist, a: nat, b: nat)
    requires a == b && Misses(env, d, a)
    ensures Misses(env, d, b)
  {
  }

  /** Each of the first `n` entries of the chain misses the draw it is given (see `MissBeforeAll`). */
  ghost predicate MissBefore(env: Env, ds: seq<Dist>, k: nat, n: nat)
    requires n <= |ds|
  {
    n == 0 || (MissBefore(env, ds, k, n - 1) && Misses(env, ds[n - 1], DrawFor(ds, k, n - 1)))
  }

  /** `MissBefore` entry by entry. */
  lemma {:induction false} MissBeforeAll(env: Env, ds: seq<Dist>, k: nat, n: nat)
    requires n <= |ds|
    ensures MissBefore(env, ds, k, n) <==>
      forall j {:trigger DrawFor(ds, k, j)} | 0 <= j < n :: Misses(env, ds[j], DrawFor(ds, k, j))
  {
    if n > 0 {
      MissBeforeAll(env, ds, k, n - 1);
    }
  }

  /** A chain misses throughout exactly when its head misses and its tail misses throughout. */
  lemma {:induction false} MissStep(env: Env, ds: seq<Dist>, k: nat, n: nat)
    requires 1 <= n <= |ds|
    ensures MissBefore(env, ds, k, n) <==>
      Misses(env, ds[0], k) && MissBefore(env, ds[1..], k + (if ds[0].present then 1 else 0), n - 1)
  {
    var k1 := k + (if ds[0].present then 1 else 0);
    if MissBefore(env, ds, k, n) {
      MissTail(env, ds, k, k1, n);
    }
    if Misses(env, ds[0], k) && MissBefore(env, ds[1..], k1, n - 1) {
      MissCons(env, ds, k, k1, n);
    }
  }

  lemma {:induction false} MissTail(env: Env, ds: seq<Dist>, k: nat, k1: nat, n: nat)
    requires 1 <= n <= |ds| && k1 == k + (if ds[0].present then 1 else 0)
    requires MissBefore(env, ds, k, n)
    ensures Misses(env, ds[0], k)
    ensures MissBefore(env, ds[1..], k1, n - 1)
  {
    if n == 1 {
      MissesAt(env, ds[0], DrawFor(ds, k, 0), k);
    } else {
      MissTail(env, ds, k, k1, n - 1);
      DrawForTail(ds, k, n - 1);
      assert ds[1..][n - 2] == ds[n - 1];
      MissesAt(env, ds[n - 1], DrawFor(ds, k, n - 1), DrawFor(ds[1..], k1, n - 2));
    }
  }

  lemma {:induction false} MissCons(env: Env, ds: seq<Dist>, k: nat, k1: nat, n: nat)
    requires 1 <= n <= |ds| && k1 == k + (if ds[0].present then 1 else 0)
    requires Misses(env, ds[0], k) && MissBefore(env, ds[1..], k1, n - 1)
    ensures MissBefore(env, ds, k, n)
  {
    if n == 1 {
      MissesAt(env, ds[0], k, DrawFor(ds, k, 0));
    } else {
      MissCons(env, ds, k, k1, n - 1);
      DrawForTail(ds, k, n - 1);
      assert ds[1..][n - 2] == ds[n - 1];
      MissesAt(env, ds[n - 1], DrawFor(ds[1..], k1, n - 2), DrawFor(ds, k, n - 1));
    }
  }

  /**
   * A chain writes nothing exactly when every entry misses the draw it is
   * given (entries that do not exist take no draw); it then returns 0.0,
   * having used one draw per existing entry.
   */
  lemma {:induction false} ChainNone(env: Env, ds: seq<Dist>, k: nat)
    requires forall j | 0 <= j < |ds| :: WellFormed(ds[j])
    ensures TryChain(env, ds, k).letter.None? <==> MissBefore(env, ds, k, |ds|)
    ensures TryChain(env, ds, k).letter.None? ==>
      TryChain(env, ds, k).entropy == 0.0 && TryChain(env, ds, k).next == DrawFor(ds, k, |ds|)
  {
    if ds != [] {
      var p := FromDist(env, ds[0], k);
      FromDistCases(env, ds[0], k);
      ChainHead(env, ds, k);
      ChainNone(env, ds[1..], p.next);
      MissStep(env, ds, k, |ds|);
      DrawForTail(ds, k, |ds|);
    }
  }

  /**
   * A chain that writes a letter took it from the first entry that did not
   * miss, with that entry's weight for the letter positive and the entropy of
   * that weight returned.
   */
  lemma {:induction false} ChainSome(env: Env, ds: seq<Dist>, k: nat) returns (j: nat)
    requires forall i | 0 <= i < |ds| :: WellFormed(ds[i])
    requires TryChain(env, ds, k).letter.Some?
    ensures j < |ds| && MissBefore(env, ds, k, j)
    ensures Yields(env, ds[j], DrawFor(ds, k, j), TryChain(env, ds, k))
  {
    var p := FromDist(env, ds[0], k);
    FromDistCases(env, ds[0], k);
    ChainHead(env, ds, k);
    if p.letter.Some? {
      j := 0;
      assert TryChain(env, ds, k) == p;
      YieldsAt(env, ds[0], k, DrawFor(ds, k, 0), p);
    } else {
      var j' := ChainSome(env, ds[1..], p.next);
      ShiftYields(env, ds, k, p.next, j', TryChain(env, ds[1..], p.next));
      MissCons(env, ds, k, p.next, j' + 1);
      j := j' + 1;
    }
  }

  /** A hit at entry `j` of the tail of a chain is a hit at entry `j + 1` of the chain. */
  lemma {:induction false} ShiftYields(env: Env, ds: seq<Dist>, k: nat, k1: nat, j: nat, t: Pick)
    requires forall i | 0 <= i < |ds| :: WellFormed(ds[i])
    requires j + 1 < |ds| && k1 == k + (if ds[0].present then 1 else 0)
    requires Yields(env, ds[1..][j], DrawFor(ds[1..], k1, j), t)
    ensures Yields(env, ds[j + 1], DrawFor(ds, k, j + 1), t)
  {
    DrawForTail(ds, k, j + 1);
    assert ds[j + 1] == ds[1..][j];
    YieldsAt(env, ds[j + 1], DrawFor(ds[1..], k1, j), DrawFor(ds, k, j + 1), t);
  }

  /** `Yields` depends on the draw number only. */
  lemma {:induction false} YieldsAt(env: Env, d: Dist, a: nat, b: nat, t: Pick)
    requires WellFormed(d) && a == b && Yields(env, d, a, t)
    ensures Yields(env, d, b, t)
  {
  }

  /** The first step of a chain: its head entry, and the rest of the chain only when the head writes nothing. */
  lemma {:induction false} ChainHead(env: Env, ds: seq<Dist>, k: nat)
    requires ds != [] && forall j | 0 <= j < |ds| :: WellFormed(ds[j])
    ensures TryChain(env, ds, k) ==
      var p := FromDist(env, ds[0], k);
      if p.letter.None? then TryChain(env, ds[1..], p.next) else p
  {
  }

  /** The entry `d` with draw number `kj` gives a letter, and `p` is that letter, its entropy and the draw after. */
  ghost predicate Yields(env: Env, d: Dist, kj: nat, p: Pick)
    requires WellFormed(d)
  {
    var c := IndexOf(d.weights, Unit(env.draws(kj)));
    && d.present && 0 <= c < 26
    && p.letter == Some(LetterOf(c)) && d.weights[c] > 0.0
    && p.entropy == Entropy(env, d.weights[c]) && p.next == kj + 1
  }

  /** One table entry: it writes a letter exactly when it does not miss, and uses a draw exactly when it exists. */
  lemma FromDistCases(env: Env, d: Dist, k: nat)
    requires WellFormed(d)
    ensures FromDist(env, d, k).next == k + (if d.present then 1 else 0)
    ensures FromDist(env, d, k).letter.None? <==> Misses(env, d, k)
    ensures FromDist(env, d, k).letter.Some? ==> Yields(env, d, k, FromDist(env, d, k))
  {
    IndexOfFirst(d.weights, Unit(env.draws(k)));
  }

  /** `rand_letter_Xc`: `Xc[x]`, and when it yields nothing, `rand_letter_xc(x)` with the next draw. */
  lemma {:induction false} XcFallback(env: Env, x: char, k: nat)
    requires ValidEnv(env) && IsLetter(x)
    ensures LetterXc(env, x, k) ==
      var p := FromDist(env, env.model.Xc[Ix(x)], k);
      if p.letter.None? then Letterxc(env, x, p.next) else p
  {
    TwoStep(env, [env.model.Xc[Ix(x)], env.model.xc[Ix(x)]], k);
  }

  /** `rand_letter_xxc`: `xxc[x][y]`, and when it yields nothing, `rand_letter_xc(y)` with the next draw. */
  lemma {:induction false} xxcFallback(env: Env, x: char, y: char, k: nat)
    requires ValidEnv(env) && IsLetter(x) && IsLetter(y)
    ensures Letterxxc(env, x, y, k) ==
      var p := FromDist(env, env.model.xxc[Pair(x, y)], k);
      if p.letter.None? then Letterxc(env, y, p.next) else p
  {
    TwoStep(env, [env.model.xxc[Pair(x, y)], env.model.xc[Ix(y)]], k);
  }

  /** `rand_letter_xC`: `xC[x]`, and when it yields nothing, `rand_letter_xc(x)` with the next draw. */
  lemma {:induction false} xCFallback(env: Env, x: char, k: nat)
    requires ValidEnv(env) && IsLetter(x)
    ensures LetterxC(env, x, k) ==
      var p := FromDist(env, env.model.xC[Ix(x)], k);
      if p.letter.None? then Letterxc(env, x, p.next) else p
  {
    TwoStep(env, [env.model.xC[Ix(x)], env.model.xc[Ix(x)]], k);
  }

  /** `rand_letter_xxC`: `xxC[x][y]`, and when it yields nothing, `rand_letter_xC(y)` with the next draw. */
  lemma {:induction false} xxCFallback(env: Env, x: char, y: char, k: nat)
    requires ValidEnv(env) && IsLetter(x) && IsLetter(y)
    ensures LetterxxC(env, x, y, k) ==
      var p := FromDist(env, env.model.xxC[Pair(x, y)], k);
      if p.letter.None? then LetterxC(env, y, p.next) else p
  {
    var ds := [env.model.xxC[Pair(x, y)], env.model.xC[Ix(y)], env.model.xc[Ix(y)]];
    ChainHead(env, ds, k);
    assert ds[1..] == [env.model.xC[Ix(y)], env.model.xc[Ix(y)]];
  }

  /** A chain of two entries: the first, and on a miss the second. */
  lemma {:induction false} TwoStep(env: Env, ds: seq<Dist>, k: nat)
    requires |ds| == 2 && WellFormed(ds[0]) && WellFormed(ds[1])
    ensures TryChain(env, ds, k) ==
      var p := FromDist(env, ds[0], k);
      if p.letter.None? then FromDist(env, ds[1], p.next) else p
  {
    var p := FromDist(env, ds[0], k);
    if p.letter.None? {
      assert ds[1..] == [ds[1]];
      var q := FromDist(env, ds[1], p.next);
      assert [ds[1]][1..] == [];
      assert TryChain(env, [ds[1]], p.next) == (if q.letter.None? then TryChain(env, [], q.next) else q);
    }
  }
}
