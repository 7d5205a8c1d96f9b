/**
 * The word synthesiser `rand_pr_word`. It draws a target length `len` in
 * [minlen, maxlen], writes a uniform first letter, then the second letter
 * from the `Xc` chain, the inner letters from the `xxc` chain and the last
 * letter from the `xxC` chain, one at a time into the caller's buffer. It
 * stops as soon as a sampler returns the entropy 0.0 (no distribution, or a
 * letter of probability one); a stopped word keeps the letters counted so far
 * and does not get the entropy of the length choice.
 */
module Words {
  import opened Options
  import opened Alphabet
  import opened Random
  import opened Distributions
  import opened Sampling

  /**
   * What one call of `rand_pr_word` leaves: the characters it wrote from the
   * start of its buffer (a stopped word may have one more letter written past
   * its length, by a sampler that returned 0.0 after writing `*dst`), the
   * returned length and entropy, and the next draw.
   */
  datatype WordOut = WordOut(written: seq<char>, length: nat, entropy: real, next: nat)

  /** `(int)(u * (maxlen - minlen + 1)) + minlen`: the target length for the draw `u`. */
  function TargetLength(u: real, minlen: int, maxlen: int): (len: int)
    requires 0.0 <= u < 1.0 && minlen <= maxlen
    ensures minlen <= len <= maxlen
  {
    var span := maxlen - minlen + 1;
    var f := (u * span as real).Floor;
    assert f as real <= u * span as real < span as real;
    f + minlen
  }

  /** The target length `rand_pr_word` draws with draw number `k`. */
  function TargetOf(env: Env, minlen: int, maxlen: int, k: nat): (len: int)
    requires 0 < minlen < maxlen
    ensures minlen <= len <= maxlen
  {
    TargetLength(Unit(env.draws(k)), minlen, maxlen)
  }

  /** The entropy of the length choice, `entropy(1.0 / (maxlen - minlen + 1))`. */
  function LengthBits(env: Env, minlen: int, maxlen: int): real
    requires minlen < maxlen
  {
    Entropy(env, 1.0 / (maxlen - minlen + 1) as real)
  }

  /** The word `w` with entropy `e` stops at the sampler result `p`, which may have written a letter past it. */
  function Stopped(w: seq<char>, e: real, p: Pick): WordOut {
    WordOut(w + Written(p), |w|, e, p.next)
  }

  /**
   * The word from its third letter on: while it is shorter than `len - 1`,
   * an inner letter from `rand_letter_xxc`; then the last letter from
   * `rand_letter_xxC`, after which the length entropy `bits` is added.
   */
  function Rest(env: Env, w: seq<char>, e: real, len: int, bits: real, k: nat): WordOut
    requires ValidEnv(env) && IsWord(w) && 2 <= |w| < len
    decreases len - |w|
  {
    var n := |w|;
    var p := NextLetter(env, w, len, k);
    if p.entropy == 0.0 then Stopped(w, e, p)
    else if n < len - 1 then Rest(env, w + [p.letter.value], e + p.entropy, len, bits, p.next)
    else WordOut(w + [p.letter.value], n + 1, e + p.entropy + bits, p.next)
  }

  /** `rand_pr_word(buf, minlen, maxlen)` for a buffer that is not NULL, from draw number `k`. */
  function Word(env: Env, minlen: int, maxlen: int, k: nat): WordOut
    requires ValidEnv(env)
  {
    if minlen <= 0 || maxlen <= minlen then WordOut([], 0, 0.0, k)
    else
      var first := LetterCx(env, k + 1);
      Second(env, first.letter.value, first.entropy, TargetOf(env, minlen, maxlen, k), LengthBits(env, minlen, maxlen), first.next)
  }

  /**
   * The word after its first letter `a` (entropy `e`): complete at target
   * length 1; otherwise the second letter from `rand_letter_Xc`, and for a
   * target beyond 2 the rest of the word.
   */
  function Second(env: Env, a: char, e: real, len: int, bits: real, k: nat): WordOut
    requires ValidEnv(env) && IsLetter(a)
  {
    if len <= 1 then WordOut([a], 1, e + bits, k)
    else
      var p := LetterXc(env, a, k);
      if p.entropy == 0.0 then Stopped([a], e, p)
      else if len == 2 then WordOut([a, p.letter.value], 2, e + p.entropy + bits, p.next)
      else Rest(env, [a, p.letter.value], e + p.entropy, len, bits, p.next)
  }

  /**
   * Letter `i` (from the second on) of a word of target length `len` has a
   * positive weight in one of the tables of the chain that chose it: the
   * second letter in `Xc` or `xc`, an inner letter in `xxc` or `xc`, the last
   * letter in `xxC`, `xC` or `xc`, each row picked by the letters before it.
   */
  ghost predicate Drawn(m: Model, w: seq<char>, i: int, len: int)
    requires IsWord(w) && 1 <= i < |w|
  {
    var a, c := w[i - 1], w[i];
    if i == 1 then Weight(m.Xc, Ix(a), c) > 0.0 || Weight(m.xc, Ix(a), c) > 0.0
    else if i < len - 1 then Weight(m.xxc, Pair(w[i - 2], a), c) > 0.0 || Weight(m.xc, Ix(a), c) > 0.0
    else Weight(m.xxC, Pair(w[i - 2], a), c) > 0.0 || Weight(m.xC, Ix(a), c) > 0.0 || Weight(m.xc, Ix(a), c) > 0.0
  }

  /** The shape of a word: its letters, its length against the target, and how each letter was drawn. */
  ghost predicate Shaped(m: Model, o: WordOut, len: int) {
    && IsWord(o.written) && 1 <= o.length <= len
    && o.length <= |o.written| <= len && |o.written| <= o.length + 1
    && (o.length == len ==> |o.written| == len)
    && forall i | 1 <= i < o.length :: Drawn(m, o.written, i, len)
  }

  /**
   * The sampler `rand_pr_word` calls for the letter after `w`:
   * `rand_letter_Xc` for the second letter, then as `NextLetter`.
   */
  function Sampler(env: Env, w: seq<char>, len: int, k: nat): (p: Pick)
    requires ValidEnv(env) && IsWord(w) && 1 <= |w| < len
    ensures Sound(p)
  {
    if |w| == 1 then LetterXc(env, w[0], k) else NextLetter(env, w, len, k)
  }

  /**
   * The word `o` ended short of its target `len` because of a 0.0: the
   * sampler tried after its `o.length` letters (with some draw number)
   * returned 0.0, wrote at most the one letter past them and left the
   * cursor at `o.next`.
   */
  ghost predicate StoppedShort(env: Env, o: WordOut, len: int)
    requires ValidEnv(env) && IsWord(o.written) && 1 <= o.length < len && o.length <= |o.written|
  {
    exists j: nat ::
      var p := Sampler(env, o.written[..o.length], len, j);
      p.entropy == 0.0 && p.next == o.next && o.written == o.written[..o.length] + Written(p)
  }

  /** A word stopped by the sampler result `p`, a 0.0 drawn after its letters `w`, stopped short. */
  lemma StopShort(env: Env, w: seq<char>, e: real, len: int, p: Pick, k: nat)
    requires ValidEnv(env) && IsWord(w) && 1 <= |w| < len
    requires p == Sampler(env, w, len, k) && p.entropy == 0.0
    ensures var o := Stopped(w, e, p);
      IsWord(o.written) && o.length <= |o.written| && StoppedShort(env, o, len)
  {
    var o := Stopped(w, e, p);
    WrittenWord(w, p);
    assert o.written[..o.length] == w;
  }

  /** Extending a word keeps how its earlier letters were drawn. */
  lemma DrawnPrefix(m: Model, w: seq<char>, v: seq<char>, len: int)
    requires IsWord(v) && |w| <= |v| && v[..|w|] == w
    requires forall i | 1 <= i < |w| :: Drawn(m, w, i, len)
    ensures forall i | 1 <= i < |w| :: Drawn(m, v, i, len)
  {
    forall i | 1 <= i < |w| ensures Drawn(m, v, i, len) {
      assert Drawn(m, w, i, len);
      assert v[i] == w[i] && v[i - 1] == w[i - 1];
      if i >= 2 {
        assert v[i - 2] == w[i - 2];
      }
    }
  }

  /**
   * The rest of a word keeps its first letters, draws every letter from its
   * chain, stops short of `len` only on a 0.0, and gets the length entropy
   * `bits` exactly when it reaches `len`.
   */
  lemma RestShape(env: Env, w: seq<char>, e: real, len: int, bits: real, k: nat)
    requires ValidEnv(env) && IsWord(w) && 2 <= |w| < len
    requires forall i | 1 <= i < |w| :: Drawn(env.model, w, i, len)
    ensures var o := Rest(env, w, e, len, bits, k);
      Shaped(env.model, o, len) && |w| <= o.length && o.written[..|w|] == w
    ensures var o := Rest(env, w, e, len, bits, k);
      o.length < len ==> StoppedShort(env, o, len)
    ensures var o, z := Rest(env, w, e, len, bits, k), Rest(env, w, e, len, 0.0, k);
      && o.written == z.written && o.length == z.length && o.next == z.next
      && o.entropy == z.entropy + (if o.length == len then bits else 0.0)
  {
    RestFrame(env, w, e, len, bits, k);
    RestDrawn(env, w, e, len, bits, k);
    RestStops(env, w, e, len, bits, k);
    RestBits(env, w, e, len, bits, k);
  }

  /** The lengths of the rest of a word, and the letters it keeps from `w`. */
  lemma {:induction false} RestFrame(env: Env, w: seq<char>, e: real, len: int, bits: real, k: nat)
    requires ValidEnv(env) && IsWord(w) && 2 <= |w| < len
    ensures var o := Rest(env, w, e, len, bits, k);
      && IsWord(o.written) && |w| <= o.length <= len
      && o.length <= |o.written| <= len && |o.written| <= o.length + 1
      && (o.length == len ==> |o.written| == len)
      && o.written[..|w|] == w
    decreases len - |w|
  {
    var n := |w|;
    var p := NextLetter(env, w, len, k);
    var o := Rest(env, w, e, len, bits, k);
    RestStep(env, w, e, len, bits, k);
    WrittenWord(w, p);
    var v := w + Written(p);
    if p.entropy == 0.0 {
      assert o == Stopped(w, e, p);
    } else if n < len - 1 {
      var o' := Rest(env, v, e + p.entropy, len, bits, p.next);
      assert o == o';
      RestFrame(env, v, e + p.entropy, len, bits, p.next);
      assert o.written[..n] == o.written[..n + 1][..n];
    } else {
      assert o == WordOut(v, n + 1, e + p.entropy + bits, p.next);
    }
  }

  /** What a sound sampler result adds to a word: at most one letter, after the letters already there. */
  lemma WrittenWord(w: seq<char>, p: Pick)
    requires IsWord(w) && Sound(p)
    ensures IsWord(w + Written(p)) && |w + Written(p)| <= |w| + 1 && (w + Written(p))[..|w|] == w
    ensures p.letter.Some? ==> w + Written(p) == w + [p.letter.value]
    ensures p.entropy != 0.0 ==> |w + Written(p)| == |w| + 1
  {
    assert (w + Written(p))[..|w|] == w;
  }

  /** Every letter of the rest of a word after the first is drawn from its chain. */
  lemma {:induction false} RestDrawn(env: Env, w: seq<char>, e: real, len: int, bits: real, k: nat)
    requires ValidEnv(env) && IsWord(w) && 2 <= |w| < len
    requires forall i | 1 <= i < |w| :: Drawn(env.model, w, i, len)
    ensures var o := Rest(env, w, e, len, bits, k);
      IsWord(o.written) && o.length <= |o.written| && forall i | 1 <= i < o.length :: Drawn(env.model, o.written, i, len)
    decreases len - |w|
  {
    var n, p := |w|, NextLetter(env, w, len, k);
    var o, v := Rest(env, w, e, len, bits, k), w + Written(p);
    RestStep(env, w, e, len, bits, k);
    StepDrawn(env, w, len, k);
    if p.entropy == 0.0 {
      assert o == Stopped(w, e, p);
    } else if n < len - 1 {
      assert o == Rest(env, v, e + p.entropy, len, bits, p.next);
      RestDrawn(env, v, e + p.entropy, len, bits, p.next);
    } else {
      assert o == WordOut(v, n + 1, e + p.entropy + bits, p.next);
    }
  }

  /** The rest of a word ends short of `len` only where a sampler returned 0.0. */
  lemma {:induction false} RestStops(env: Env, w: seq<char>, e: real, len: int, bits: real, k: nat)
    requires ValidEnv(env) && IsWord(w) && 2 <= |w| < len
    ensures var o := Rest(env, w, e, len, bits, k);
      && IsWord(o.written) && |w| <= o.length <= |o.written|
      && (o.length < len ==> StoppedShort(env, o, len))
    decreases len - |w|
  {
    var n, p := |w|, NextLetter(env, w, len, k);
    var o := Rest(env, w, e, len, bits, k);
    RestStep(env, w, e, len, bits, k);
    RestFrame(env, w, e, len, bits, k);
    WrittenWord(w, p);
    if p.entropy == 0.0 {
      StopShort(env, w, e, len, p, k);
    } else if n < len - 1 {
      RestStops(env, w + [p.letter.value], e + p.entropy, len, bits, p.next);
    }
  }

  /**
   * The rest of a word gets the length entropy `bits` exactly when it reaches
   * `len`: with 0.0 in place of `bits` it writes, counts and draws the same,
   * and its entropy is lower by `bits` when complete and equal otherwise.
   */
  lemma {:induction false} RestBits(env: Env, w: seq<char>, e: real, len: int, bits: real, k: nat)
    requires ValidEnv(env) && IsWord(w) && 2 <= |w| < len
    ensures var o, z := Rest(env, w, e, len, bits, k), Rest(env, w, e, len, 0.0, k);
      && o.written == z.written && o.length == z.length && o.next == z.next
      && o.entropy == z.entropy + (if o.length == len then bits else 0.0)
    decreases len - |w|
  {
    var n, p := |w|, NextLetter(env, w, len, k);
    RestStep(env, w, e, len, bits, k);
    RestStep(env, w, e, len, 0.0, k);
    RestFrame(env, w, e, len, bits, k);
    if p.entropy != 0.0 && n < len - 1 {
      RestBits(env, w + [p.letter.value], e + p.entropy, len, bits, p.next);
    }
  }

  /** The word with what the next sampler writes after it: every letter of it after the first is drawn from its chain. */
  lemma StepDrawn(env: Env, w: seq<char>, len: int, k: nat)
    requires ValidEnv(env) && IsWord(w) && 2 <= |w| < len
    requires forall i | 1 <= i < |w| :: Drawn(env.model, w, i, len)
    ensures var p := NextLetter(env, w, len, k); var v := w + Written(p);
      && IsWord(v) && |w| <= |v| <= |w| + 1 && (p.entropy != 0.0 ==> v == w + [p.letter.value])
      && forall i | 1 <= i < |v| :: Drawn(env.model, v, i, len)
  {
    var p := NextLetter(env, w, len, k);
    WrittenWord(w, p);
    DrawnPrefix(env.model, w, w + Written(p), len);
    NextLetterDrawn(env, w, len, k);
  }

  /** The sampler `Rest` calls for the letter after `w`: `rand_letter_xxc` for an inner letter, `rand_letter_xxC` for the last. */
  function NextLetter(env: Env, w: seq<char>, len: int, k: nat): (p: Pick)
    requires ValidEnv(env) && IsWord(w) && 2 <= |w| < len
    ensures Sound(p)
  {
    var n := |w|;
    if n < len - 1 then Letterxxc(env, w[n - 2], w[n - 1], k) else LetterxxC(env, w[n - 2], w[n - 1], k)
  }

  /** The letter after `w` has a positive weight in a table of its chain. */
  lemma NextLetterDrawn(env: Env, w: seq<char>, len: int, k: nat)
    requires ValidEnv(env) && IsWord(w) && 2 <= |w| < len
    ensures var p := NextLetter(env, w, len, k);
      p.letter.Some? ==> IsWord(w + [p.letter.value]) && Drawn(env.model, w + [p.letter.value], |w|, len)
  {
    var p, n := NextLetter(env, w, len, k), |w|;
    if p.letter.Some? {
      var v := w + [p.letter.value];
      assert v[n - 1] == w[n - 1] && v[n - 2] == w[n - 2] && v[n] == p.letter.value;
    }
  }

  /** One step of `Rest`, with the sampler result named. */
  lemma RestStep(env: Env, w: seq<char>, e: real, len: int, bits: real, k: nat)
    requires ValidEnv(env) && IsWord(w) && 2 <= |w| < len
    ensures var p, n := NextLetter(env, w, len, k), |w|;
      && (p.entropy == 0.0 ==> Rest(env, w, e, len, bits, k) == Stopped(w, e, p))
      && (p.entropy != 0.0 && n < len - 1 ==>
            Rest(env, w, e, len, bits, k) == Rest(env, w + [p.letter.value], e + p.entropy, len, bits, p.next))
      && (p.entropy != 0.0 && n == len - 1 ==>
            Rest(env, w, e, len, bits, k) == WordOut(w + [p.letter.value], n + 1, e + p.entropy + bits, p.next))
  {
    var p, o := NextLetter(env, w, len, k), Rest(env, w, e, len, bits, k);
    if p.entropy == 0.0 {
      assert o == Stopped(w, e, p);
    } else if |w| < len - 1 {
      assert o == Rest(env, w + [p.letter.value], e + p.entropy, len, bits, p.next);
    } else {
      assert o == WordOut(w + [p.letter.value], |w| + 1, e + p.entropy + bits, p.next);
    }
  }

  /**
   * `rand_pr_word`: with `minlen <= 0` or `maxlen <= minlen` it writes nothing,
   * returns length 0 and entropy 0.0 and draws nothing. Otherwise the target
   * length lies in [minlen, maxlen]; it writes between 1 and `len` letters,
   * all in 'a'..'z'; the returned length is `len` when no sampler returned
   * 0.0, and otherwise the letters counted before the stop, with at most one
   * letter written past them; every letter after the first has a positive
   * weight in a table of its chain; and the entropy of the length choice is
   * added exactly when the word reaches `len` (`z` is the same word without
   * it).
   */
  lemma WordShape(env: Env, minlen: int, maxlen: int, k: nat)
    requires ValidEnv(env)
    ensures minlen <= 0 || maxlen <= minlen ==> Word(env, minlen, maxlen, k) == WordOut([], 0, 0.0, k)
    ensures 0 < minlen < maxlen ==> Shaped(env.model, Word(env, minlen, maxlen, k), TargetOf(env, minlen, maxlen, k))
    ensures 0 < minlen < maxlen ==>
      var o, len := Word(env, minlen, maxlen, k), TargetOf(env, minlen, maxlen, k);
      o.length < len ==> StoppedShort(env, o, len)
    ensures 0 < minlen < maxlen ==>
      var o, len, first := Word(env, minlen, maxlen, k), TargetOf(env, minlen, maxlen, k), LetterCx(env, k + 1);
      var z := Second(env, first.letter.value, first.entropy, len, 0.0, first.next);
      && o.written == z.written && o.length == z.length && o.next == z.next
      && o.entropy == z.entropy + (if o.length == len then LengthBits(env, minlen, maxlen) else 0.0)
  {
    if 0 < minlen < maxlen {
      var first := LetterCx(env, k + 1);
      SecondShape(env, first.letter.value, first.entropy, TargetOf(env, minlen, maxlen, k), LengthBits(env, minlen, maxlen), first.next);
    }
  }

  /**
   * The word after its first letter has the shape of a word of target length
   * `len`; it stops short of `len` only on a 0.0, and gets the length
   * entropy `bits` exactly when it reaches `len`.
   */
  lemma SecondShape(env: Env, a: char, e: real, len: int, bits: real, k: nat)
    requires ValidEnv(env) && IsLetter(a) && 1 <= len
    ensures Shaped(env.model, Second(env, a, e, len, bits, k), len)
    ensures var o := Second(env, a, e, len, bits, k);
      o.length < len ==> StoppedShort(env, o, len)
    ensures var o, z := Second(env, a, e, len, bits, k), Second(env, a, e, len, 0.0, k);
      && o.written == z.written && o.length == z.length && o.next == z.next
      && o.entropy == z.entropy + (if o.length == len then bits else 0.0)
  {
    SecondFrame(env, a, e, len, bits, k);
    SecondStops(env, a, e, len, bits, k);
    SecondBits(env, a, e, len, bits, k);
  }

  /** The word after its first letter has the shape of a word of target length `len`. */
  lemma SecondFrame(env: Env, a: char, e: real, len: int, bits: real, k: nat)
    requires ValidEnv(env) && IsLetter(a) && 1 <= len
    ensures Shaped(env.model, Second(env, a, e, len, bits, k), len)
  {
    var o, p := Second(env, a, e, len, bits, k), LetterXc(env, a, k);
    SecondStep(env, a, e, len, bits, k);
    if len > 1 {
      var v := [a] + Written(p);
      if p.entropy == 0.0 {
        assert o == WordOut(v, 1, e, p.next);
      } else {
        assert v == [a, p.letter.value];
        assert Drawn(env.model, v, 1, len);
        if len > 2 {
          RestShape(env, v, e + p.entropy, len, bits, p.next);
        }
      }
    }
  }

  /** The word after its first letter ends short of `len` only where a sampler returned 0.0. */
  lemma SecondStops(env: Env, a: char, e: real, len: int, bits: real, k: nat)
    requires ValidEnv(env) && IsLetter(a) && 1 <= len
    ensures var o := Second(env, a, e, len, bits, k);
      && IsWord(o.written) && 1 <= o.length <= |o.written|
      && (o.length < len ==> StoppedShort(env, o, len))
  {
    var p := LetterXc(env, a, k);
    SecondStep(env, a, e, len, bits, k);
    if len > 1 {
      if p.entropy == 0.0 {
        assert Sampler(env, [a], len, k) == p;
        StopShort(env, [a], e, len, p, k);
      } else if len > 2 {
        RestStops(env, [a, p.letter.value], e + p.entropy, len, bits, p.next);
      }
    }
  }

  /** The word after its first letter gets the length entropy `bits` exactly when it reaches `len`. */
  lemma SecondBits(env: Env, a: char, e: real, len: int, bits: real, k: nat)
    requires ValidEnv(env) && IsLetter(a) && 1 <= len
    ensures var o, z := Second(env, a, e, len, bits, k), Second(env, a, e, len, 0.0, k);
      && o.written == z.written && o.length == z.length && o.next == z.next
      && o.entropy == z.entropy + (if o.length == len then bits else 0.0)
  {
    var p := LetterXc(env, a, k);
    SecondStep(env, a, e, len, bits, k);
    SecondStep(env, a, e, len, 0.0, k);
    if len > 2 && p.entropy != 0.0 {
      var v := [a, p.letter.value];
      RestBits(env, v, e + p.entropy, len, bits, p.next);
      RestFrame(env, v, e + p.entropy, len, bits, p.next);
    }
  }

  /** The cases of `Second`, with the result of `rand_letter_Xc` named. */
  lemma SecondStep(env: Env, a: char, e: real, len: int, bits: real, k: nat)
    requires ValidEnv(env) && IsLetter(a) && 1 <= len
    ensures var o, p := Second(env, a, e, len, bits, k), LetterXc(env, a, k);
      && (len == 1 ==> o == WordOut([a], 1, e + bits, k))
      && (len > 1 && p.entropy == 0.0 ==> o == Stopped([a], e, p))
      && (len == 2 && p.entropy != 0.0 ==> o == WordOut([a, p.letter.value], 2, e + p.entropy + bits, p.next))
      && (len > 2 && p.entropy != 0.0 ==> o == Rest(env, [a, p.letter.value], e + p.entropy, len, bits, p.next))
  {
  }

  /** The buffer `b` with `s` written from position `off` on (what falls past its end is dropped). */
  function Overwrite(b: seq<char>, off: nat, s: seq<char>): (r: seq<char>)
    ensures |r| == |b|
    ensures forall i | 0 <= i < |b| :: r[i] == if off <= i < off + |s| then s[i - off] else b[i]
  {
    seq(|b|, i requires 0 <= i < |b| => if off <= i < off + |s| then s[i - off] else b[i])
  }

  /** What a sampler result writes to `*dst`: its letter, or nothing. */
  function Written(p: Pick): seq<char> {
    if p.letter.Some? then [p.letter.value] else []
  }

  /**
   * `*dst = (char)i + 'a'` at `dst = buf + off + |w|`, done by a sampler that
   * produced a letter; the buffer holds `w` from `off` before and `w` with the
   * letter (if any) after.
   */
  method Put(buf: array<char>, pos: nat, p: Pick, ghost b0: seq<char>, ghost off: nat, ghost w: seq<char>)
    requires pos == off + |w| < buf.Length && |b0| == buf.Length && buf[..] == Overwrite(b0, off, w)
    modifies buf
    ensures buf[..] == Overwrite(b0, off, w + Written(p))
  {
    if p.letter.Some? {
      buf[pos] := p.letter.value;
    }
    assert buf[..] == Overwrite(b0, off, w + Written(p));
  }

  /**
   * `rand_pr_word(buf + off, minlen, maxlen)`, reading `len` from draw `k`
   * and its letters from the draws after it. A NULL buffer, `minlen <= 0`
   * or `maxlen <= minlen` returns the empty word; otherwise the buffer must
   * have room for `maxlen` letters from `off`, as the caller provides.
   */
  method RandPrWord(env: Env, buf: array?<char>, off: nat, minlen: int, maxlen: int, k: nat)
    returns (length: int, entropy: real, next: nat)
    requires ValidEnv(env)
    requires buf != null && 0 < minlen < maxlen ==> off + maxlen <= buf.Length
    modifies buf
    ensures buf == null ==> length == 0 && entropy == 0.0 && next == k
    ensures buf != null ==>
      var o := Word(env, minlen, maxlen, k);
      && buf[..] == Overwrite(old(buf[..]), off, o.written)
      && length == o.length && entropy == o.entropy && next == o.next
  {
    length, entropy, next := 0, 0.0, k;
    if minlen <= 0 || maxlen <= minlen || buf == null {
      if buf != null {
        assert buf[..] == Overwrite(old(buf[..]), off, []);
      }
      return;
    }
    ghost var b0 := buf[..];
    var u := RandDouble(env.draws(k));
    var len := (u * (maxlen - minlen + 1) as real).Floor + minlen;
    var bits := Entropy(env, 1.0 / (maxlen - minlen + 1) as real);
    var p := LetterCx(env, k + 1);
    assert buf[..] == Overwrite(b0, off, []);
    Put(buf, off, p, b0, off, []);
    assert len == TargetOf(env, minlen, maxlen, k);
    assert bits == LengthBits(env, minlen, maxlen);
    assert Word(env, minlen, maxlen, k) == Second(env, p.letter.value, p.entropy, len, bits, p.next);
    length, entropy, next := WriteSecond(env, buf, off, len, bits, p.entropy, p.next, b0);
  }

  /** `rand_pr_word` after writing the first letter at `buf + off`, with entropy `e`. */
  method WriteSecond(env: Env, buf: array<char>, off: nat, len: int, bits: real, e: real, k: nat, ghost b0: seq<char>)
    returns (length: int, entropy: real, next: nat)
    requires ValidEnv(env) && 1 <= len && off + len <= buf.Length && |b0| == buf.Length
    requires IsLetter(buf[off]) && buf[..] == Overwrite(b0, off, [buf[off]])
    modifies buf
    ensures var o := Second(env, old(buf[off]), e, len, bits, k);
      buf[..] == Overwrite(b0, off, o.written) && length == o.length && entropy == o.entropy && next == o.next
  {
    var a := buf[off];
    ghost var w := [a];
    length, entropy, next := 1, e, k;
    if len > 1 {
      var p := LetterXc(env, a, next);
      Put(buf, off + 1, p, b0, off, w);
      next := p.next;
      if p.entropy == 0.0 {
        assert Second(env, a, e, len, bits, k) == Stopped(w, e, p);
        return;
      }
      entropy, length := entropy + p.entropy, 2;
      w := w + [p.letter.value];
      assert w == [a, p.letter.value];
      if len > 2 {
        assert Second(env, a, e, len, bits, k) == Rest(env, w, entropy, len, bits, next);
        length, entropy, next := WriteRest(env, buf, off, 2, len, bits, entropy, next, b0, w);
        return;
      }
    }
    entropy := entropy + bits;
  }

  /**
   * The loop of `rand_pr_word` over the inner letters and its last letter,
   * from the word `w` already written at `buf + off` with entropy `e`.
   */
  method WriteRest(env: Env, buf: array<char>, off: nat, n: nat, len: int, bits: real, e: real, k: nat,
                   ghost b0: seq<char>, ghost w: seq<char>)
    returns (length: int, entropy: real, next: nat)
    requires ValidEnv(env) && IsWord(w) && 2 <= |w| == n < len && off + len <= buf.Length
    requires |b0| == buf.Length && buf[..] == Overwrite(b0, off, w)
    modifies buf
    ensures var o := Rest(env, w, e, len, bits, k);
      buf[..] == Overwrite(b0, off, o.written) && length == o.length && entropy == o.entropy && next == o.next
  {
    length, entropy, next := n, e, k;
    ghost var v, o := w, Rest(env, w, e, len, bits, k);
    var stop := false;
    while !stop
      invariant 2 <= length <= len && |v| == length && IsWord(v) && (!stop ==> length < len)
      invariant !stop ==> buf[..] == Overwrite(b0, off, v) && Rest(env, v, entropy, len, bits, next) == o
      invariant stop ==> buf[..] == Overwrite(b0, off, o.written) && length == o.length && entropy == o.entropy && next == o.next
      decreases len - length, if stop then 0 else 1
    {
      ghost var v0, e0, k0 := v, entropy, next;
      ghost var p;
      RestStep(env, v0, e0, len, bits, k0);
      stop, length, entropy, next, v, p := WriteLetter(env, buf, off, length, len, bits, entropy, next, b0, v);
    }
  }

  /**
   * One letter of the word from its third on, after the word `w` of `n`
   * letters: an inner letter while the word is shorter than `len - 1`, else
   * the last one, which also adds the length entropy `bits`. Stops on a 0.0
   * or after the last letter.
   */
  method WriteLetter(env: Env, buf: array<char>, off: nat, n: nat, len: int, bits: real, e: real, k: nat,
                     ghost b0: seq<char>, ghost w: seq<char>)
    returns (stop: bool, length: int, entropy: real, next: nat, ghost v: seq<char>, ghost p: Pick)
    requires ValidEnv(env) && IsWord(w) && 2 <= |w| == n < len && off + len <= buf.Length
    requires |b0| == buf.Length && buf[..] == Overwrite(b0, off, w)
    modifies buf
    ensures p == NextLetter(env, w, len, k) && next == p.next
    ensures stop <==> p.entropy == 0.0 || n == len - 1
    ensures p.entropy == 0.0 ==> buf[..] == Overwrite(b0, off, w + Written(p)) && length == n && entropy == e && v == w
    ensures p.entropy != 0.0 ==>
      && buf[..] == Overwrite(b0, off, v) && v == w + [p.letter.value] && length == n + 1
      && entropy == if n < len - 1 then e + p.entropy else e + p.entropy + bits
  {
    var q := PickNext(env, buf, off, n, len, k, w);
    Put(buf, off + n, q, b0, off, w);
    next := q.next;
    if q.entropy == 0.0 {
      return true, n, e, next, w, q;
    }
    v := w + [q.letter.value];
    if n < len - 1 {
      return false, n + 1, e + q.entropy, next, v, q;
    }
    return true, n + 1, e + q.entropy + bits, next, v, q;
  }

  /** The sampler call for the letter after the word `w` written at `buf + off`: `rand_letter_xxc` for an inner letter, `rand_letter_xxC` for the last. */
  method PickNext(env: Env, buf: array<char>, off: nat, n: nat, len: int, k: nat, ghost w: seq<char>) returns (p: Pick)
    requires ValidEnv(env) && IsWord(w) && 2 <= |w| == n < len && off + n <= buf.Length
    requires forall i | 0 <= i < n :: buf[off + i] == w[i]
    ensures p == NextLetter(env, w, len, k)
  {
    assert buf[off + n - 2] == w[n - 2] && buf[off + n - 1] == w[n - 1];
    if n < len - 1 {
      p := Letterxxc(env, buf[off + n - 2], buf[off + n - 1], k);
    } else {
      p := LetterxxC(env, buf[off + n - 2], buf[off + n - 1], k);
    }
  }
}
